/**
 * The board controller: a project's kanban columns, appended at the end
 * of the project's order, renamed, deleted and reordered by a list of ids,
 * each write matched on the column id together with the project id.
 */
module Board {
  import opened Common
  import opened Seqs
  import opened Ordering
  import opened ErrorHandler

  datatype Column = Column(id: Id, projectId: Id, name: string, order: int)

  function ColumnId(c: Column): Id { c.id }
  function ColumnOrder(c: Column): int { c.order }
  function WithColumnOrder(c: Column, n: int): Column { c.(order := n) }

  /** `where: { projectId }`. */
  function InProject(p: Id): Column -> bool {
    (c: Column) => c.projectId == p
  }

  /** `where: { id, projectId }`. */
  function IsColumn(p: Id, id: Id): Column -> bool {
    (c: Column) => c.id == id && c.projectId == p
  }

  /** Every column but the one `{ id, projectId }` selects. */
  function NotColumn(p: Id, id: Id): Column -> bool {
    (c: Column) => !(c.id == id && c.projectId == p)
  }

  const ColumnNotFound: string := "Colonna non trovata"

  /** `z.string().min(1).max(100)`. */
  predicate ValidName(name: string) { LengthIn(name, 1, 100) }

  /**
   * The limit counts UTF-16 code units: a name of one hundred emoji is a
   * hundred characters but two hundred units, and is refused, while fifty
   * of them fit.
   */
  lemma ValidNameCountsUnits(name: string)
    requires forall i :: 0 <= i < |name| ==> name[i] as int >= 0x1_0000
    ensures ValidName(name) <==> 1 <= |name| <= 50
  {
    Utf16LengthOfAstral(name);
  }

  /** Writing a column's order touches neither its id nor its project. */
  lemma ColumnOrderLaws(p: Id)
    ensures OrderSetter(ColumnId, InProject(p), WithColumnOrder)
    ensures ReadsBack(ColumnOrder, WithColumnOrder)
  {
  }

  /**
   * The effect of `reorderColumns` on one column: a column of the project
   * whose id is listed gets the (last) index of its id; a column of another
   * project, or one not listed, is unchanged.
   */
  lemma ReorderedColumn(columns: seq<Column>, p: Id, ids: seq<Id>, k: nat)
    requires k < |columns|
    ensures Reordered(columns, ids, 0, ColumnId, InProject(p), WithColumnOrder)[k]
         == if columns[k].projectId == p && columns[k].id in ids
            then columns[k].(order := LastIndex(ids, columns[k].id))
            else columns[k]
  {
    ColumnOrderLaws(p);
    ReorderedRow(columns, ids, 0, ColumnId, InProject(p), WithColumnOrder, k);
  }

  /**
   * Reordering with a permutation of all the project's column ids numbers
   * them 0, 1, …, n - 1, and listing them afterwards returns them in the
   * order of the list.
   */
  lemma ReorderColumnsReadsBack(columns: seq<Column>, p: Id, ids: seq<Id>)
    requires UniqueKeys(columns, ColumnId) && PermutesScope(columns, ids, ColumnId, InProject(p))
    ensures |Listing(Reordered(columns, ids, 0, ColumnId, InProject(p), WithColumnOrder), InProject(p), ColumnOrder)| == |ids|
    ensures forall i :: 0 <= i < |ids| ==>
      Listing(Reordered(columns, ids, 0, ColumnId, InProject(p), WithColumnOrder), InProject(p), ColumnOrder)[i].id == ids[i] &&
      Listing(Reordered(columns, ids, 0, ColumnId, InProject(p), WithColumnOrder), InProject(p), ColumnOrder)[i].order == i
  {
    ColumnOrderLaws(p);
    ReorderThenListing(columns, ids, ColumnId, InProject(p), ColumnOrder, WithColumnOrder);
  }

  /** The `boardColumn` table. */
  class ColumnStore {
    var columns: seq<Column>

    /** Column ids are unique. */
    ghost predicate Valid()
      reads this
    {
      UniqueKeys(columns, ColumnId)
    }

    /** No stored column has this id: the database's choice of a new id. */
    predicate Unused(id: Id)
      reads this
    {
      forall i :: 0 <= i < |columns| ==> columns[i].id != id
    }

    constructor ()
      ensures columns == [] && Valid()
    {
      columns := [];
    }

    /**
     * `listColumns`: exactly the project's columns, sorted by ascending
     * order (ties in table order).
     */
    function ListColumns(p: Id): (r: seq<Column>)
      reads this
      ensures forall c :: c in r ==> c in columns && c.projectId == p
      ensures forall i :: 0 <= i < |columns| && columns[i].projectId == p ==> columns[i] in r
      ensures |r| == Count(columns, InProject(p))
      ensures Sorted(r, ByKey(ColumnOrder))
    {
      var r := Listing(columns, InProject(p), ColumnOrder);
      assert forall c :: c in r ==> c in multiset(Filter(columns, InProject(p)));
      assert forall i :: 0 <= i < |columns| && columns[i].projectId == p ==>
        columns[i] in multiset(Filter(columns, InProject(p)));
      r
    }

    /**
     * `createColumn`: a name of 1..100 characters is required; the new column
     * goes one past the project's largest order, or at 0 in an empty project.
     */
    method CreateColumn(p: Id, name: Option<string>, newId: Id) returns (r: Result<Column>)
      requires Valid() && Unused(newId)
      modifies this
      ensures Valid()
      ensures (name.None? || !ValidName(name.value)) ==> r == Err(Invalid()) && columns == old(columns)
      ensures name.Some? && ValidName(name.value) ==>
        && r == Ok(Column(newId, p, name.value, NextOrder(old(columns), InProject(p), ColumnOrder)))
        && columns == old(columns) + [r.value]
    {
      if name.None? || !ValidName(name.value) {
        return Err(Invalid());
      }
      var order := NextOrder(columns, InProject(p), ColumnOrder);
      var column := Column(newId, p, name.value, order);
      columns := columns + [column];
      r := Ok(column);
    }

    /**
     * `updateColumn`: a name, when sent, must be 1..100 characters; a column
     * outside the project is "Colonna non trovata"; otherwise only its name
     * changes, and only when one was sent.
     */
    method UpdateColumn(p: Id, columnId: Id, name: Option<string>) returns (r: Result<Column>)
      requires Valid()
      modifies this
      ensures Valid()
      ensures name.Some? && !ValidName(name.value) ==> r == Err(Invalid()) && columns == old(columns)
      ensures (name.None? || ValidName(name.value)) ==>
        match FindIndex(old(columns), IsColumn(p, columnId))
        case None => r == Err(NotFound(ColumnNotFound)) && columns == old(columns)
        case Some(k) =>
          && columns == old(columns)[k := old(columns)[k].(name := Kept(name, old(columns)[k].name))]
          && r == Ok(columns[k])
    {
      if name.Some? && !ValidName(name.value) {
        return Err(Invalid());
      }
      var found := FindIndex(columns, IsColumn(p, columnId));
      if found.None? {
        return Err(NotFound(ColumnNotFound));
      }
      var k := found.value;
      var column := columns[k].(name := Kept(name, columns[k].name));
      columns := columns[k := column];
      r := Ok(column);
    }

    /** `deleteColumn`: a column outside the project is "Colonna non trovata"; otherwise it is removed. */
    method DeleteColumn(p: Id, columnId: Id) returns (r: Result<()>)
      requires Valid()
      modifies this
      ensures Valid()
      ensures FindIndex(old(columns), IsColumn(p, columnId)).None? ==>
        r == Err(NotFound(ColumnNotFound)) && columns == old(columns)
      ensures FindIndex(old(columns), IsColumn(p, columnId)).Some? ==>
        r == Ok(()) && columns == Filter(old(columns), NotColumn(p, columnId))
    {
      if FindIndex(columns, IsColumn(p, columnId)).None? {
        return Err(NotFound(ColumnNotFound));
      }
      UniqueKeysSub(columns, Filter(columns, NotColumn(p, columnId)), ColumnId);
      columns := Filter(columns, NotColumn(p, columnId));
      r := Ok(());
    }

    /**
     * `reorderColumns`: the transaction writes each listed id's index to the
     * column with that id in the project, then the project's columns are
     * listed by order.
     */
    method ReorderColumns(p: Id, columnIds: Option<seq<Id>>) returns (r: Result<seq<Column>>)
      requires Valid()
      modifies this
      ensures Valid()
      ensures columnIds.None? ==> r == Err(Invalid()) && columns == old(columns)
      ensures columnIds.Some? ==>
        && columns == Reordered(old(columns), columnIds.value, 0, ColumnId, InProject(p), WithColumnOrder)
        && r == Ok(ListColumns(p))
    {
      if columnIds.None? {
        return Err(Invalid());
      }
      ColumnOrderLaws(p);
      ReorderedKeepsIds(columns, columnIds.value, 0, ColumnId, InProject(p), WithColumnOrder);
      columns := ApplyWrites(columns, columnIds.value, 0, ColumnId, InProject(p), WithColumnOrder);
      r := Ok(ListColumns(p));
    }
  }
}
