/**
 * The project-configuration controller: a project's configuration sections
 * (a name and an optional predefined type) and, inside each section, links
 * (a label and an optional URL). Sections are ordered within the project,
 * links within their section.
 */
module Config {
  import opened Common
  import opened Seqs
  import opened Ordering
  import opened ErrorHandler

  datatype Section = Section(id: Id, projectId: Id, name: string, typeSlug: Option<string>, order: int)

  /** `caption` holds the `label` column (`label` is a reserved word here). */
  datatype Link = Link(id: Id, projectId: Id, sectionId: Id, caption: string, url: Option<string>, order: int)

  /** A section as `listSections` returns it: with its links by ascending order. */
  datatype SectionView = SectionView(section: Section, links: seq<Link>)

  /** One entry of the predefined section types: the stored slug and the label shown. */
  datatype SectionTypeOption = SectionTypeOption(slug: string, caption: string)

  const SectionNotFound: string := "Sezione non trovata"
  const LinkNotFound: string := "Link non trovato"

  /** The slugs `z.enum(["links", "repo", "docs", "other"])` accepts. */
  const TypeSlugs: seq<string> := ["links", "repo", "docs", "other"]

  /** The slug standing for a custom type, stored as no type at all. */
  const OtherSlug: string := "other"

  /** `SECTION_TYPE_OPTIONS`, the slug-to-label table. */
  const SectionTypeOptions: seq<SectionTypeOption> := [
    SectionTypeOption("links", "Risorse e link"),
    SectionTypeOption("repo", "Repository"),
    SectionTypeOption("docs", "Documentazione"),
    SectionTypeOption("other", "Altro (personalizzato)")
  ]

  function SectionId(s: Section): Id { s.id }
  function SectionOrder(s: Section): int { s.order }
  function LinkId(l: Link): Id { l.id }
  function LinkOrder(l: Link): int { l.order }

  /** `where: { projectId }` on sections. */
  function InProject(p: Id): Section -> bool {
    (s: Section) => s.projectId == p
  }

  /** `where: { id, projectId }` on sections. */
  function IsSection(p: Id, id: Id): Section -> bool {
    (s: Section) => s.id == id && s.projectId == p
  }

  function NotSection(p: Id, id: Id): Section -> bool {
    (s: Section) => !(s.id == id && s.projectId == p)
  }

  /** `where: { sectionId }` on links. */
  function InSection(sectionId: Id): Link -> bool {
    (l: Link) => l.sectionId == sectionId
  }

  /** The links a deleted section takes with it. */
  function OutsideSection(sectionId: Id): Link -> bool {
    (l: Link) => l.sectionId != sectionId
  }

  /** `where: { id, sectionId, projectId }` on links. */
  function IsLink(p: Id, sectionId: Id, id: Id): Link -> bool {
    (l: Link) => l.id == id && l.sectionId == sectionId && l.projectId == p
  }

  function NotLink(p: Id, sectionId: Id, id: Id): Link -> bool {
    (l: Link) => !(l.id == id && l.sectionId == sectionId && l.projectId == p)
  }

  // ---------------------------------------------------------------------
  // Request bodies and their normalisation
  // ---------------------------------------------------------------------

  /** `createSection` fields; the type is optional and nullable. */
  datatype SectionDraft = SectionDraft(name: Option<string>, typeSlug: Patch<string>)

  /** `updateSection` fields. */
  datatype SectionPatch = SectionPatch(name: Option<string>, typeSlug: Patch<string>)

  /** `createLink` fields; the URL is optional. */
  datatype LinkDraft = LinkDraft(caption: Option<string>, url: Option<string>)

  /** `updateLink` fields; the URL is also nullable. */
  datatype LinkPatch = LinkPatch(caption: Option<string>, url: Patch<string>)

  /** `z.string().min(1).max(120)`, checked on the name as sent, before trimming. */
  predicate ValidSectionName(s: string) { LengthIn(s, 1, 120) }

  /** `z.string().min(1).max(200)`, checked on the label as sent, before trimming. */
  predicate ValidLabel(s: string) { LengthIn(s, 1, 200) }

  predicate ValidSlug(t: Patch<string>) { t.Value? ==> t.value in TypeSlugs }

  predicate IsAsciiLetter(c: char) { 'a' <= c <= 'z' || 'A' <= c <= 'Z' }

  predicate IsSchemeChar(c: char) { IsAsciiLetter(c) || IsDigit(c) || c == '+' || c == '-' || c == '.' }

  /**
   * `z.string().url()`, reduced to its first requirement: an absolute URL
   * starts with a scheme (a letter, then letters, digits, `+`, `-` or `.`)
   * followed by `:`.
   */
  predicate IsUrl(s: string) {
    exists i :: 1 <= i < |s| && s[i] == ':' && IsAsciiLetter(s[0]) && forall j :: 0 < j < i ==> IsSchemeChar(s[j])
  }

  /** `z.string().url().or(z.literal(""))`. */
  predicate ValidUrl(s: string) { s == "" || IsUrl(s) }

  /** A full URL and the empty text are accepted; a bare host name and a text without a scheme are not. */
  lemma ValidUrlExamples()
    ensures ValidUrl("https://example.com") && ValidUrl("")
    ensures !ValidUrl("example.com") && !ValidUrl("://x")
  {
    assert "https://example.com"[5] == ':';
    assert forall i :: 0 <= i < |"example.com"| ==> "example.com"[i] != ':';
  }

  predicate ValidSectionDraft(d: SectionDraft) {
    d.name.Some? && ValidSectionName(d.name.value) && ValidSlug(d.typeSlug)
  }

  predicate ValidSectionPatch(u: SectionPatch) {
    (u.name.Some? ==> ValidSectionName(u.name.value)) && ValidSlug(u.typeSlug)
  }

  predicate ValidLinkDraft(d: LinkDraft) {
    d.caption.Some? && ValidLabel(d.caption.value) && (d.url.Some? ==> ValidUrl(d.url.value))
  }

  predicate ValidLinkPatch(u: LinkPatch) {
    (u.caption.Some? ==> ValidLabel(u.caption.value)) && (u.url.Value? ==> ValidUrl(u.url.value))
  }

  /** The slug `createSection` stores: `"other"`, `null` and an absent type become null. */
  function CreatedSlug(t: Patch<string>): (r: Option<string>)
    requires ValidSlug(t)
    ensures r.None? <==> (t.Absent? || t.Null? || t == Value(OtherSlug))
    ensures r.Some? ==> t == Value(r.value) && r.value in TypeSlugs && r.value != OtherSlug
  {
    match t
    case Value(v) => if v == OtherSlug then None else Some(v)
    case _ => None
  }

  /** The slug `updateSection` stores: absent keeps the stored one, `"other"` and `null` clear it. */
  function UpdatedSlug(t: Patch<string>, current: Option<string>): (r: Option<string>)
    requires ValidSlug(t)
    ensures t.Absent? ==> r == current
    ensures t.Null? || t == Value(OtherSlug) ==> r.None?
    ensures t.Value? && t.value != OtherSlug ==> r == Some(t.value)
  {
    match t
    case Absent => current
    case Null => None
    case Value(v) => if v == OtherSlug then None else Some(v)
  }

  /** The URL `createLink` stores: `""` and an absent URL become null. */
  function CreatedUrl(u: Option<string>): (r: Option<string>)
    ensures r.None? <==> (u.None? || u == Some(""))
    ensures r.Some? ==> u == r && r.value != ""
  {
    if u.None? || u.value == "" then None else u
  }

  /** The URL `updateLink` stores: absent keeps the stored one, `""` and `null` clear it. */
  function UpdatedUrl(u: Patch<string>, current: Option<string>): (r: Option<string>)
    ensures u.Absent? ==> r == current
    ensures u.Null? || u == Value("") ==> r.None?
    ensures u.Value? && u.value != "" ==> r == Some(u.value)
  {
    match u
    case Absent => current
    case Null => None
    case Value(v) => if v == "" then None else Some(v)
  }

  /** The slug column of a section is null or one of the three named predefined types. */
  lemma StoredSlugNamed(t: Patch<string>, current: Option<string>)
    requires ValidSlug(t)
    requires current.Some? ==> current.value in TypeSlugs && current.value != OtherSlug
    ensures CreatedSlug(t).Some? ==> CreatedSlug(t).value in ["links", "repo", "docs"]
    ensures UpdatedSlug(t, current).Some? ==> UpdatedSlug(t, current).value in ["links", "repo", "docs"]
  {
  }

  /** Every slug of the option table is accepted by the schemas, and in the same order. */
  lemma SectionTypeOptionsMatchSchema()
    ensures |SectionTypeOptions| == |TypeSlugs|
    ensures forall i :: 0 <= i < |TypeSlugs| ==> SectionTypeOptions[i].slug == TypeSlugs[i]
  {
  }

  /**
   * `getSectionTypes`: the option table as it is.
   */
  function GetSectionTypes(): (r: seq<SectionTypeOption>)
    ensures forall o :: o in r ==> o.slug in TypeSlugs
    ensures forall s :: s in TypeSlugs ==> exists o :: o in r && o.slug == s
  {
    SectionTypeOptionsMatchSchema();
    assert SectionTypeOptions[0].slug == "links" && SectionTypeOptions[1].slug == "repo";
    assert SectionTypeOptions[2].slug == "docs" && SectionTypeOptions[3].slug == "other";
    SectionTypeOptions
  }

  /**
   * The name is trimmed only after the length check: a name made only of
   * whitespace is accepted and stored as the empty string, and any other
   * accepted name is stored non-empty.
   */
  lemma StoredNameEmptyIffBlank(name: string)
    requires ValidSectionName(name)
    ensures Trim(name) == [] <==> AllSpace(name)
    ensures |Trim(name)| <= 120
  {
    TrimEmptyIffAllSpace(name);
  }

  /** The three-space name is one such case. */
  lemma BlankNameAccepted()
    ensures ValidSectionName("   ") && Trim("   ") == ""
  {
    TrimEmptyIffAllSpace("   ");
  }

  function NewSection(d: SectionDraft, id: Id, p: Id, order: int): (s: Section)
    requires ValidSectionDraft(d)
    ensures s.id == id && s.projectId == p && s.order == order
    ensures s.name == Trim(d.name.value) && s.typeSlug == CreatedSlug(d.typeSlug)
  {
    Section(id, p, Trim(d.name.value), CreatedSlug(d.typeSlug), order)
  }

  function PatchSection(s: Section, u: SectionPatch): (r: Section)
    requires ValidSectionPatch(u)
    ensures r.id == s.id && r.projectId == s.projectId && r.order == s.order
    ensures r.name == (if u.name.Some? then Trim(u.name.value) else s.name)
    ensures r.typeSlug == UpdatedSlug(u.typeSlug, s.typeSlug)
  {
    s.(name := if u.name.Some? then Trim(u.name.value) else s.name,
       typeSlug := UpdatedSlug(u.typeSlug, s.typeSlug))
  }

  /** Sending the same section update twice leaves the section as sending it once. */
  lemma PatchSectionIdempotent(s: Section, u: SectionPatch)
    requires ValidSectionPatch(u)
    ensures PatchSection(PatchSection(s, u), u) == PatchSection(s, u)
  {
  }

  function NewLink(d: LinkDraft, id: Id, p: Id, sectionId: Id, order: int): (l: Link)
    requires ValidLinkDraft(d)
    ensures l.id == id && l.projectId == p && l.sectionId == sectionId && l.order == order
    ensures l.caption == Trim(d.caption.value) && l.url == CreatedUrl(d.url)
  {
    Link(id, p, sectionId, Trim(d.caption.value), CreatedUrl(d.url), order)
  }

  function PatchLink(l: Link, u: LinkPatch): (r: Link)
    requires ValidLinkPatch(u)
    ensures r.id == l.id && r.projectId == l.projectId && r.sectionId == l.sectionId && r.order == l.order
    ensures r.caption == (if u.caption.Some? then Trim(u.caption.value) else l.caption)
    ensures r.url == UpdatedUrl(u.url, l.url)
  {
    l.(caption := if u.caption.Some? then Trim(u.caption.value) else l.caption,
       url := UpdatedUrl(u.url, l.url))
  }

  /** A stored URL is never the empty string: both writes turn `""` into null. */
  lemma StoredUrlNonEmpty(d: LinkDraft, l: Link, u: LinkPatch)
    requires l.url.Some? ==> l.url.value != ""
    ensures CreatedUrl(d.url).Some? ==> CreatedUrl(d.url).value != ""
    ensures UpdatedUrl(u.url, l.url).Some? ==> UpdatedUrl(u.url, l.url).value != ""
  {
  }

  // ---------------------------------------------------------------------
  // The tables
  // ---------------------------------------------------------------------

  /** Ids are unique in each table, and every link lies in a stored section. */
  ghost predicate ValidTables(sections: seq<Section>, links: seq<Link>) {
    && UniqueKeys(sections, SectionId) && UniqueKeys(links, LinkId)
    && (forall i :: 0 <= i < |links| ==> links[i].sectionId in Keys(sections, SectionId))
  }

  /** Adding a section keeps every link's section stored. */
  lemma LinksKeepSection(sections: seq<Section>, links: seq<Link>, s: Section)
    requires forall i :: 0 <= i < |links| ==> links[i].sectionId in Keys(sections, SectionId)
    ensures forall i :: 0 <= i < |links| ==> links[i].sectionId in Keys(sections + [s], SectionId)
  {
    var before, after := Keys(sections, SectionId), Keys(sections + [s], SectionId);
    assert before == after[..|sections|];
    forall i | 0 <= i < |links| ensures links[i].sectionId in after {
      assert links[i].sectionId in before;
    }
  }

  /** A section id other than the deleted one is still stored after the delete. */
  lemma SectionSurvives(sections: seq<Section>, p: Id, id: Id, x: Id)
    requires x in Keys(sections, SectionId) && x != id
    ensures x in Keys(Filter(sections, NotSection(p, id)), SectionId)
  {
    var j :| 0 <= j < |sections| && Keys(sections, SectionId)[j] == x;
    var f := Filter(sections, NotSection(p, id));
    assert sections[j] in f;
    var q :| 0 <= q < |f| && f[q] == sections[j];
    assert Keys(f, SectionId)[q] == x;
  }

  /** Deleting a section with its links keeps the tables valid. */
  lemma DeleteSectionKeepsValid(sections: seq<Section>, links: seq<Link>, p: Id, id: Id)
    requires ValidTables(sections, links)
    ensures ValidTables(Filter(sections, NotSection(p, id)), Filter(links, OutsideSection(id)))
  {
    var sections' := Filter(sections, NotSection(p, id));
    var links' := Filter(links, OutsideSection(id));
    UniqueKeysSub(sections, sections', SectionId);
    UniqueKeysSub(links, links', LinkId);
    forall i | 0 <= i < |links'| ensures links'[i].sectionId in Keys(sections', SectionId) {
      assert links'[i] in links;
      SectionSurvives(sections, p, id, links'[i].sectionId);
    }
  }

  /** A section id no section has is the section of no link. */
  lemma NoLinksOfUnused(sections: seq<Section>, links: seq<Link>, id: Id)
    requires ValidTables(sections, links)
    requires forall i :: 0 <= i < |sections| ==> sections[i].id != id
    ensures Filter(links, InSection(id)) == []
  {
    forall i | 0 <= i < |links| ensures !InSection(id)(links[i]) {
      var j :| 0 <= j < |sections| && Keys(sections, SectionId)[j] == links[i].sectionId;
    }
    FilterNone(links, InSection(id));
  }

  /** Deleting one link keeps the tables valid. */
  lemma DeleteLinkKeepsValid(sections: seq<Section>, links: seq<Link>, p: Id, s: Id, id: Id)
    requires ValidTables(sections, links)
    ensures ValidTables(sections, Filter(links, NotLink(p, s, id)))
  {
    var links' := Filter(links, NotLink(p, s, id));
    UniqueKeysSub(links, links', LinkId);
    forall i | 0 <= i < |links'| ensures links'[i].sectionId in Keys(sections, SectionId) {
      assert links'[i] in links;
    }
  }

  /** The `projectConfigSection` and `projectLink` tables. */
  class ConfigStore {
    var sections: seq<Section>
    var links: seq<Link>

    ghost predicate Valid()
      reads this
    {
      ValidTables(sections, links)
    }

    predicate UnusedSection(id: Id)
      reads this
    {
      forall i :: 0 <= i < |sections| ==> sections[i].id != id
    }

    predicate UnusedLink(id: Id)
      reads this
    {
      forall i :: 0 <= i < |links| ==> links[i].id != id
    }

    constructor ()
      ensures sections == [] && links == [] && Valid()
    {
      sections := [];
      links := [];
    }

    /** A section's links by ascending order. */
    function SectionLinks(sectionId: Id): (r: seq<Link>)
      reads this
      ensures forall l :: l in r ==> l in links && l.sectionId == sectionId
      ensures |r| == Count(links, InSection(sectionId))
      ensures Sorted(r, ByKey(LinkOrder))
    {
      var r := Listing(links, InSection(sectionId), LinkOrder);
      assert forall l :: l in r ==> l in multiset(Filter(links, InSection(sectionId)));
      r
    }

    /** The project's sections by ascending order (ties in table order). */
    function ProjectSections(p: Id): (r: seq<Section>)
      reads this
      ensures forall x :: x in r ==> x in sections && x.projectId == p
      ensures forall i :: 0 <= i < |sections| && sections[i].projectId == p ==> sections[i] in r
      ensures |r| == Count(sections, InProject(p))
      ensures Sorted(r, ByKey(SectionOrder))
    {
      var r := Listing(sections, InProject(p), SectionOrder);
      assert forall x :: x in r ==> x in multiset(Filter(sections, InProject(p)));
      assert forall i :: 0 <= i < |sections| && sections[i].projectId == p ==>
        sections[i] in multiset(Filter(sections, InProject(p)));
      r
    }

    /** `listSections`: the project's sections by ascending order, each with its links by order. */
    function ListSections(p: Id): (r: seq<SectionView>)
      reads this
      ensures |r| == |ProjectSections(p)|
      ensures forall i :: 0 <= i < |r| ==>
        r[i].section == ProjectSections(p)[i] && r[i].links == SectionLinks(r[i].section.id)
    {
      var l := ProjectSections(p);
      seq(|l|, i requires 0 <= i < |l| reads this => SectionView(l[i], SectionLinks(l[i].id)))
    }

    /**
     * `createSection`: the trimmed name and the normalised type, one past the
     * project's largest order, returned with its links (`include: { links:
     * true }`), of which a new section has none.
     */
    method CreateSection(p: Id, d: SectionDraft, newId: Id) returns (r: Result<SectionView>)
      requires Valid() && UnusedSection(newId)
      modifies this
      ensures Valid() && links == old(links)
      ensures !ValidSectionDraft(d) ==> r == Err(Invalid()) && sections == old(sections)
      ensures ValidSectionDraft(d) ==>
        && r == Ok(SectionView(NewSection(d, newId, p, NextOrder(old(sections), InProject(p), SectionOrder)), []))
        && sections == old(sections) + [r.value.section]
        && r.value.links == Filter(links, InSection(newId))
    {
      if !ValidSectionDraft(d) {
        return Err(Invalid());
      }
      var s := NewSection(d, newId, p, NextOrder(sections, InProject(p), SectionOrder));
      LinksKeepSection(sections, links, s);
      NoLinksOfUnused(sections, links, newId);
      sections := sections + [s];
      r := Ok(SectionView(s, []));
    }

    /**
     * `updateSection`: a section outside the project is "Sezione non trovata";
     * otherwise it is patched and returned with its links in table order.
     */
    method UpdateSection(p: Id, id: Id, u: SectionPatch) returns (r: Result<SectionView>)
      requires Valid()
      modifies this
      ensures Valid() && links == old(links)
      ensures !ValidSectionPatch(u) ==> r == Err(Invalid()) && sections == old(sections)
      ensures ValidSectionPatch(u) ==>
        match FindIndex(old(sections), IsSection(p, id))
        case None => r == Err(NotFound(SectionNotFound)) && sections == old(sections)
        case Some(k) =>
          && sections == old(sections)[k := PatchSection(old(sections)[k], u)]
          && r == Ok(SectionView(sections[k], Filter(links, InSection(id))))
    {
      if !ValidSectionPatch(u) {
        return Err(Invalid());
      }
      var found := FindIndex(sections, IsSection(p, id));
      if found.None? {
        return Err(NotFound(SectionNotFound));
      }
      var k := found.value;
      var s := PatchSection(sections[k], u);
      assert Keys(sections[k := s], SectionId) == Keys(sections, SectionId);
      sections := sections[k := s];
      r := Ok(SectionView(s, Filter(links, InSection(id))));
    }

    /** `deleteSection`: a section outside the project is "Sezione non trovata"; otherwise the section row is deleted, and its links go with it by the schema's cascade. */
    method DeleteSection(p: Id, id: Id) returns (r: Result<()>)
      requires Valid()
      modifies this
      ensures Valid()
      ensures FindIndex(old(sections), IsSection(p, id)).None? ==>
        r == Err(NotFound(SectionNotFound)) && sections == old(sections) && links == old(links)
      ensures FindIndex(old(sections), IsSection(p, id)).Some? ==>
        && r == Ok(())
        && sections == Filter(old(sections), NotSection(p, id))
        && links == Filter(old(links), OutsideSection(id))
    {
      if FindIndex(sections, IsSection(p, id)).None? {
        return Err(NotFound(SectionNotFound));
      }
      DeleteSectionKeepsValid(sections, links, p, id);
      sections := Filter(sections, NotSection(p, id));
      links := Filter(links, OutsideSection(id));
      r := Ok(());
    }

    /**
     * `createLink`: the body is validated first; a section outside the
     * project is "Sezione non trovata" and nothing is created; otherwise the
     * link goes one past the section's largest order.
     */
    method CreateLink(p: Id, sectionId: Id, d: LinkDraft, newId: Id) returns (r: Result<Link>)
      requires Valid() && UnusedLink(newId)
      modifies this
      ensures Valid() && sections == old(sections)
      ensures !ValidLinkDraft(d) ==> r == Err(Invalid()) && links == old(links)
      ensures ValidLinkDraft(d) && FindIndex(sections, IsSection(p, sectionId)).None? ==>
        r == Err(NotFound(SectionNotFound)) && links == old(links)
      ensures ValidLinkDraft(d) && FindIndex(sections, IsSection(p, sectionId)).Some? ==>
        && r == Ok(NewLink(d, newId, p, sectionId, NextOrder(old(links), InSection(sectionId), LinkOrder)))
        && links == old(links) + [r.value]
    {
      if !ValidLinkDraft(d) {
        return Err(Invalid());
      }
      var found := FindIndex(sections, IsSection(p, sectionId));
      if found.None? {
        return Err(NotFound(SectionNotFound));
      }
      assert Keys(sections, SectionId)[found.value] == sectionId;
      var l := NewLink(d, newId, p, sectionId, NextOrder(links, InSection(sectionId), LinkOrder));
      links := links + [l];
      r := Ok(l);
    }

    /** `updateLink`: matched on link, section and project together, else "Link non trovato". */
    method UpdateLink(p: Id, sectionId: Id, id: Id, u: LinkPatch) returns (r: Result<Link>)
      requires Valid()
      modifies this
      ensures Valid() && sections == old(sections)
      ensures !ValidLinkPatch(u) ==> r == Err(Invalid()) && links == old(links)
      ensures ValidLinkPatch(u) ==>
        match FindIndex(old(links), IsLink(p, sectionId, id))
        case None => r == Err(NotFound(LinkNotFound)) && links == old(links)
        case Some(k) => links == old(links)[k := PatchLink(old(links)[k], u)] && r == Ok(links[k])
    {
      if !ValidLinkPatch(u) {
        return Err(Invalid());
      }
      var found := FindIndex(links, IsLink(p, sectionId, id));
      if found.None? {
        return Err(NotFound(LinkNotFound));
      }
      var k := found.value;
      var l := PatchLink(links[k], u);
      assert forall i :: 0 <= i < |links| ==> links[k := l][i].id == links[i].id;
      links := links[k := l];
      r := Ok(l);
    }

    /** `deleteLink`: matched on link, section and project together, else "Link non trovato". */
    method DeleteLink(p: Id, sectionId: Id, id: Id) returns (r: Result<()>)
      requires Valid()
      modifies this
      ensures Valid() && sections == old(sections)
      ensures FindIndex(old(links), IsLink(p, sectionId, id)).None? ==>
        r == Err(NotFound(LinkNotFound)) && links == old(links)
      ensures FindIndex(old(links), IsLink(p, sectionId, id)).Some? ==>
        r == Ok(()) && links == Filter(old(links), NotLink(p, sectionId, id))
    {
      if FindIndex(links, IsLink(p, sectionId, id)).None? {
        return Err(NotFound(LinkNotFound));
      }
      DeleteLinkKeepsValid(sections, links, p, sectionId, id);
      links := Filter(links, NotLink(p, sectionId, id));
      r := Ok(());
    }
  }
}
