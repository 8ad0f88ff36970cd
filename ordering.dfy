/**
 * The integer `order` / `sortOrder` columns the controllers maintain:
 * appending at `(max ?? -1) + 1`, a reorder transaction that writes each
 * listed id's position, and the splice `moveTask` performs on a column.
 * Rows are of any type; accessor functions say how to read a row's id, whether
 * a write's `where` clause selects it, and how to set its order.
 */
module Ordering {
  import opened Common
  import opened Seqs

  // ---------------------------------------------------------------------
  // Append: `aggregate({ where, _max: { order: true } })` then `+ 1`
  // ---------------------------------------------------------------------

  /** `_max.order` over the rows the `where` clause selects; null when it selects none. */
  function MaxOrder<T>(rows: seq<T>, inScope: T -> bool, order: T -> int): (m: Option<int>)
    ensures m.None? <==> forall i :: 0 <= i < |rows| ==> !inScope(rows[i])
    ensures m.Some? ==> forall i :: 0 <= i < |rows| && inScope(rows[i]) ==> order(rows[i]) <= m.value
    ensures m.Some? ==> exists i :: 0 <= i < |rows| && inScope(rows[i]) && order(rows[i]) == m.value
    decreases |rows|
  {
    if rows == [] then None
    else
      var init := rows[..|rows| - 1];
      var last := rows[|rows| - 1];
      assert forall i :: 0 <= i < |init| ==> init[i] == rows[i];
      var rest := MaxOrder(init, inScope, order);
      if !inScope(last) then rest
      else if rest.None? || rest.value < order(last) then Some(order(last))
      else rest
  }

  /**
   * `(_max.order ?? -1) + 1`: greater than every order in scope, and just one
   * past the largest of them; 0 when the scope is empty.
   */
  function NextOrder<T>(rows: seq<T>, inScope: T -> bool, order: T -> int): (r: int)
    ensures forall i :: 0 <= i < |rows| && inScope(rows[i]) ==> order(rows[i]) < r
    ensures (forall i :: 0 <= i < |rows| ==> !inScope(rows[i])) ==> r == 0
    ensures (exists i :: 0 <= i < |rows| && inScope(rows[i])) ==>
              exists i :: 0 <= i < |rows| && inScope(rows[i]) && order(rows[i]) == r - 1
  {
    match MaxOrder(rows, inScope, order)
    case None => 0
    case Some(m) => m + 1
  }

  /** Appending at NextOrder keeps the orders in scope non-negative and pairwise distinct. */
  lemma NextOrderFresh<T>(rows: seq<T>, inScope: T -> bool, order: T -> int)
    requires forall i :: 0 <= i < |rows| && inScope(rows[i]) ==> order(rows[i]) >= 0
    ensures NextOrder(rows, inScope, order) >= 0
    ensures forall i :: 0 <= i < |rows| && inScope(rows[i]) ==> order(rows[i]) != NextOrder(rows, inScope, order)
  {
    if exists i :: 0 <= i < |rows| && inScope(rows[i]) {
      var i :| 0 <= i < |rows| && inScope(rows[i]);
      assert order(rows[i]) < NextOrder(rows, inScope, order);
    }
  }

  // ---------------------------------------------------------------------
  // Reorder: one `update(Many)({ where: { id, ... }, data: { order: base + i } })` per listed id
  // ---------------------------------------------------------------------

  /** The position of the last occurrence of `x` in `s`. */
  function LastIndex<T(==)>(s: seq<T>, x: T): (k: nat)
    requires x in s
    ensures k < |s| && s[k] == x
    ensures forall j :: k < j < |s| ==> s[j] != x
  {
    if s[|s| - 1] == x then |s| - 1
    else
      assert x in s[..|s| - 1];
      LastIndex(s[..|s| - 1], x)
  }

  /** In a sequence without repetitions the last occurrence of `s[i]` is at `i`. */
  lemma LastIndexDistinct<T>(s: seq<T>, i: nat)
    requires i < |s| && Distinct(s)
    ensures LastIndex(s, s[i]) == i
  {
  }

  predicate Distinct<T(==)>(s: seq<T>) {
    forall i, j :: 0 <= i < j < |s| ==> s[i] != s[j]
  }

  /** `setOrder` touches only the order: the id and the scope survive it, and a second write wins. */
  ghost predicate OrderSetter<T(!new)>(idOf: T -> Id, inScope: T -> bool, setOrder: (T, int) -> T) {
    && (forall x, n :: idOf(setOrder(x, n)) == idOf(x))
    && (forall x, n :: inScope(setOrder(x, n)) == inScope(x))
    && (forall x, a, b :: setOrder(setOrder(x, a), b) == setOrder(x, b))
  }

  /** One write of the transaction: rows with id `id` in scope get order `n`. */
  function WriteOrder<T>(rows: seq<T>, id: Id, n: int, idOf: T -> Id, inScope: T -> bool,
                         setOrder: (T, int) -> T): (r: seq<T>)
    ensures |r| == |rows|
  {
    seq(|rows|, k requires 0 <= k < |rows| =>
      if idOf(rows[k]) == id && inScope(rows[k]) then setOrder(rows[k], n) else rows[k])
  }

  /**
   * The transaction `ids.map((id, i) => update({ where: { id, scope }, data: { order: base + i } }))`,
   * run write by write in list order.
   */
  function Reordered<T>(rows: seq<T>, ids: seq<Id>, base: int, idOf: T -> Id, inScope: T -> bool,
                        setOrder: (T, int) -> T): (r: seq<T>)
    ensures |r| == |rows|
    decreases |ids|
  {
    if ids == [] then rows
    else
      var prev := Reordered(rows, ids[..|ids| - 1], base, idOf, inScope, setOrder);
      WriteOrder(prev, ids[|ids| - 1], base + |ids| - 1, idOf, inScope, setOrder)
  }

  /** The transaction run write by write: the loop computes Reordered. */
  method ApplyWrites<T>(rows: seq<T>, ids: seq<Id>, base: int, idOf: T -> Id, inScope: T -> bool,
                        setOrder: (T, int) -> T) returns (r: seq<T>)
    ensures r == Reordered(rows, ids, base, idOf, inScope, setOrder)
  {
    r := rows;
    for i := 0 to |ids|
      invariant r == Reordered(rows, ids[..i], base, idOf, inScope, setOrder)
    {
      assert ids[..i + 1][..i] == ids[..i];
      r := WriteOrder(r, ids[i], base + i, idOf, inScope, setOrder);
    }
    assert ids[..|ids|] == ids;
  }

  /**
   * The effect of the whole transaction on one row: a row in scope whose id is
   * listed ends with `base` plus the LAST position of its id; every other row
   * is unchanged.
   */
  lemma {:induction false} ReorderedRow<T(!new)>(rows: seq<T>, ids: seq<Id>, base: int, idOf: T -> Id,
                                                 inScope: T -> bool, setOrder: (T, int) -> T, k: nat)
    requires OrderSetter(idOf, inScope, setOrder) && k < |rows|
    ensures Reordered(rows, ids, base, idOf, inScope, setOrder)[k]
         == if inScope(rows[k]) && idOf(rows[k]) in ids
            then setOrder(rows[k], base + LastIndex(ids, idOf(rows[k])))
            else rows[k]
    decreases |ids|
  {
    if ids != [] {
      var init := ids[..|ids| - 1];
      ReorderedRow(rows, init, base, idOf, inScope, setOrder, k);
      var x := idOf(rows[k]);
      if inScope(rows[k]) && x in ids && x != ids[|ids| - 1] {
        assert x in init;
        assert LastIndex(ids, x) == LastIndex(init, x);
      }
    }
  }

  // ---------------------------------------------------------------------
  // Splice: `reordered.splice(from, 1)` then `reordered.splice(to, 0, item)`
  // ---------------------------------------------------------------------

  function Remove<T>(s: seq<T>, i: nat): (r: seq<T>)
    requires i < |s|
    ensures |r| == |s| - 1
    ensures forall j :: 0 <= j < i ==> r[j] == s[j]
    ensures forall j :: i <= j < |r| ==> r[j] == s[j + 1]
  {
    s[..i] + s[i + 1..]
  }

  function InsertAt<T>(s: seq<T>, i: nat, x: T): (r: seq<T>)
    requires i <= |s|
    ensures |r| == |s| + 1 && r[i] == x
    ensures forall j :: 0 <= j < i ==> r[j] == s[j]
    ensures forall j :: i < j < |r| ==> r[j] == s[j - 1]
  {
    s[..i] + [x] + s[i..]
  }

  /** The element at `from` taken out and put back at `to`. */
  function Move<T>(s: seq<T>, from: nat, to: nat): (r: seq<T>)
    requires from < |s| && to < |s|
  {
    InsertAt(Remove(s, from), to, s[from])
  }

  /**
   * Move's meaning: the same length, the moved element lands at `to`, and
   * taking it out again leaves exactly what taking it out of `s` left, so
   * the others keep their relative order; and it is a permutation.
   */
  lemma MoveSpec<T>(s: seq<T>, from: nat, to: nat)
    requires from < |s| && to < |s|
    ensures |Move(s, from, to)| == |s|
    ensures Move(s, from, to)[to] == s[from]
    ensures Remove(Move(s, from, to), to) == Remove(s, from)
    ensures multiset(Move(s, from, to)) == multiset(s)
  {
    var m := Move(s, from, to);
    var r := Remove(s, from);
    assert Remove(m, to) == r;
    assert s == s[..from] + [s[from]] + s[from + 1..];
    assert m == r[..to] + [s[from]] + r[to..];
    assert multiset(r) == multiset(s[..from]) + multiset(s[from + 1..]) by {
      assert r == s[..from] + s[from + 1..];
    }
    assert r == r[..to] + r[to..];
    assert multiset(m) == multiset(r[..to]) + multiset{s[from]} + multiset(r[to..]);
    assert multiset(r) == multiset(r[..to]) + multiset(r[to..]);
    assert multiset(s) == multiset(s[..from]) + multiset{s[from]} + multiset(s[from + 1..]);
    assert multiset(m) == multiset(r) + multiset{s[from]};
  }

  /** Inserting a new element keeps a sequence free of repetitions. */
  lemma InsertAtDistinct<T>(s: seq<T>, i: nat, x: T)
    requires i <= |s| && Distinct(s) && x !in s
    ensures Distinct(InsertAt(s, i, x))
  {
    var r := InsertAt(s, i, x);
    forall a, b | 0 <= a < b < |r| ensures r[a] != r[b] {
      if a == i {
        assert r[b] == s[b - 1];
      } else if b == i {
        assert r[a] == s[a];
      }
    }
  }

  /**
   * Positions after an insertion into a sequence without repetitions: the new
   * element sits at `i`, an old one before `i` keeps its index, one after moves up by one.
   */
  lemma InsertAtPositions<T>(s: seq<T>, i: nat, x: T, q: nat)
    requires i <= |s| && Distinct(s) && x !in s && q < |s|
    ensures x in InsertAt(s, i, x) && LastIndex(InsertAt(s, i, x), x) == i
    ensures s[q] in InsertAt(s, i, x)
    ensures LastIndex(InsertAt(s, i, x), s[q]) == if q < i then q else q + 1
  {
    var r := InsertAt(s, i, x);
    InsertAtDistinct(s, i, x);
    LastIndexDistinct(r, i);
    if q < i {
      assert r[q] == s[q];
      LastIndexDistinct(r, q);
    } else {
      assert r[q + 1] == s[q];
      LastIndexDistinct(r, q + 1);
    }
  }

  /** A move keeps a sequence free of repetitions. */
  lemma MoveDistinct<T>(s: seq<T>, from: nat, to: nat)
    requires from < |s| && to < |s| && Distinct(s)
    ensures Distinct(Move(s, from, to))
  {
    RemoveDistinct(s, from);
    InsertAtDistinct(Remove(s, from), to, s[from]);
  }

  /** Taking an element out of a sequence free of repetitions leaves one without it. */
  lemma RemoveDistinct<T>(s: seq<T>, i: nat)
    requires i < |s| && Distinct(s)
    ensures Distinct(Remove(s, i)) && s[i] !in Remove(s, i)
  {
    var r := Remove(s, i);
    assert forall a :: 0 <= a < |r| ==> r[a] == s[if a < i then a else a + 1];
  }

  // ---------------------------------------------------------------------
  // Reading back: `findMany({ where, orderBy: { order: "asc" } })`
  // ---------------------------------------------------------------------

  /** `orderBy: { order: "asc" }` as a comparison. */
  function ByKey<T>(key: T -> int): (T, T) -> bool {
    (a: T, b: T) => key(a) <= key(b)
  }

  /** The rows in scope sorted by ascending order, as the ORM lists them. */
  function Listing<T(!new)>(rows: seq<T>, inScope: T -> bool, order: T -> int): (l: seq<T>)
    ensures multiset(l) == multiset(Filter(rows, inScope))
    ensures Sorted(l, ByKey(order))
  {
    SortSorted(Filter(rows, inScope), ByKey(order));
    Sort(Filter(rows, inScope), ByKey(order))
  }

  /** Two rows in scope, the first of no larger order, are listed in that order. */
  lemma ListingPair<T(!new)>(x: T, y: T, inScope: T -> bool, order: T -> int)
    requires inScope(x) && inScope(y) && order(x) <= order(y)
    ensures Listing([x, y], inScope, order) == [x, y]
  {
    SortFilteredPair(x, y, inScope, ByKey(order));
  }

  /** Consecutive increase is increase. */
  lemma {:induction false} IncreasingPairwise(ks: seq<int>, a: nat, b: nat)
    requires forall i :: 0 < i < |ks| ==> ks[i - 1] < ks[i]
    requires a < b < |ks|
    ensures ks[a] < ks[b]
    decreases b - a
  {
    if a < b - 1 {
      IncreasingPairwise(ks, a, b - 1);
    }
  }

  /** The value `v` occurs in `ks`. */
  ghost predicate Hits(ks: seq<int>, v: int) {
    exists i :: 0 <= i < |ks| && ks[i] == v
  }

  /**
   * A strictly increasing sequence of naturals below `n` in which every value
   * below `n` occurs is exactly 0, 1, …, n - 1.
   */
  lemma IncreasingOnto(ks: seq<int>, n: nat)
    requires forall i :: 0 < i < |ks| ==> ks[i - 1] < ks[i]
    requires forall i :: 0 <= i < |ks| ==> 0 <= ks[i] < n
    requires forall v :: 0 <= v < n ==> Hits(ks, v)
    ensures |ks| == n
    ensures forall i :: 0 <= i < |ks| ==> ks[i] == i
  {
    forall v | 0 <= v < n ensures v < |ks| && ks[v] == v {
      IncreasingOntoAt(ks, n, v);
    }
    if n > 0 {
      IncreasingOntoAt(ks, n, n - 1);
    }
    if |ks| > n {
      AtLeastIndex(ks, |ks| - 1);
    }
  }

  lemma {:induction false} IncreasingOntoAt(ks: seq<int>, n: nat, v: nat)
    requires forall i :: 0 < i < |ks| ==> ks[i - 1] < ks[i]
    requires forall i :: 0 <= i < |ks| ==> 0 <= ks[i] < n
    requires forall v :: 0 <= v < n ==> Hits(ks, v)
    requires v < n
    ensures v < |ks| && ks[v] == v
    decreases v
  {
    assert Hits(ks, v);
    var a :| 0 <= a < |ks| && ks[a] == v;
    AtLeastIndex(ks, a);
    if a < v {
      IncreasingOntoAt(ks, n, a);
    }
  }

  lemma {:induction false} AtLeastIndex(ks: seq<int>, i: nat)
    requires forall j :: 0 < j < |ks| ==> ks[j - 1] < ks[j]
    requires forall j :: 0 <= j < |ks| ==> 0 <= ks[j]
    requires i < |ks|
    ensures ks[i] >= i
    decreases i
  {
    if i > 0 {
      AtLeastIndex(ks, i - 1);
    }
  }

  /** Every row of the listing is a row in scope. */
  lemma ListedRowInScope<T(!new)>(rows: seq<T>, inScope: T -> bool, order: T -> int, i: nat)
    requires i < |Listing(rows, inScope, order)|
    ensures Listing(rows, inScope, order)[i] in rows && inScope(Listing(rows, inScope, order)[i])
  {
    var f := Filter(rows, inScope);
    var l := Listing(rows, inScope, order);
    assert l[i] in multiset(f);
    assert l[i] in f;
    var j :| 0 <= j < |f| && f[j] == l[i];
  }

  /** Every row in scope appears in the listing. */
  lemma RowListed<T(!new)>(rows: seq<T>, inScope: T -> bool, order: T -> int, k: nat)
    requires k < |rows| && inScope(rows[k])
    ensures rows[k] in Listing(rows, inScope, order)
  {
    var f := Filter(rows, inScope);
    assert rows[k] in f;
    assert rows[k] in multiset(Listing(rows, inScope, order));
  }

  /** A row in scope makes the listing non-empty, and the listing's head has an order no larger. */
  lemma ListingHeadLowest<T(!new)>(rows: seq<T>, inScope: T -> bool, order: T -> int, k: nat)
    requires k < |rows| && inScope(rows[k])
    ensures Listing(rows, inScope, order) != []
    ensures order(Listing(rows, inScope, order)[0]) <= order(rows[k])
  {
    var l := Listing(rows, inScope, order);
    RowListed(rows, inScope, order, k);
    var q :| 0 <= q < |l| && l[q] == rows[k];
    if q > 0 {
      SortedPairwise(l, ByKey(order), 0, q);
    }
  }

  /** One key of each row, in row order: its id, say, or its order. */
  function Keys<T, K>(rows: seq<T>, key: T -> K): (r: seq<K>)
    ensures |r| == |rows|
    ensures forall i :: 0 <= i < |rows| ==> r[i] == key(rows[i])
  {
    seq(|rows|, i requires 0 <= i < |rows| => key(rows[i]))
  }

  /** Rows carrying the positions of their (distinct) ids, sorted by order, have strictly increasing orders. */
  lemma OrdersIncrease<T>(l: seq<T>, ids: seq<Id>, idOf: T -> Id, order: T -> int)
    requires UniqueKeys(l, idOf) && Sorted(l, ByKey(order))
    requires forall i :: 0 <= i < |l| ==> idOf(l[i]) in ids && order(l[i]) == LastIndex(ids, idOf(l[i]))
    ensures forall i :: 0 < i < |l| ==> Keys(l, order)[i - 1] < Keys(l, order)[i]
  {
    forall i | 0 < i < |l| ensures order(l[i - 1]) < order(l[i]) {
      assert ByKey(order)(l[i - 1], l[i]);
      var a, b := idOf(l[i - 1]), idOf(l[i]);
      assert a != b;
      assert ids[LastIndex(ids, a)] == a && ids[LastIndex(ids, b)] == b;
    }
  }

  /** Rows covering a list of distinct ids, each at its id's position, have every position among their orders. */
  lemma OrdersOnto<T>(l: seq<T>, ids: seq<Id>, idOf: T -> Id, order: T -> int)
    requires Distinct(ids)
    requires forall i :: 0 <= i < |l| ==> idOf(l[i]) in ids && order(l[i]) == LastIndex(ids, idOf(l[i]))
    requires forall v :: 0 <= v < |ids| ==> ids[v] in Keys(l, idOf)
    ensures forall v :: 0 <= v < |ids| ==> Hits(Keys(l, order), v)
  {
    var ks := Keys(l, order);
    forall v | 0 <= v < |ids| ensures Hits(ks, v) {
      assert ids[v] in Keys(l, idOf);
      var i :| 0 <= i < |l| && Keys(l, idOf)[i] == ids[v];
      LastIndexDistinct(ids, v);
      assert ks[i] == v;
    }
  }

  /**
   * A sorted sequence of rows with unique ids, each carrying the position of
   * its id in a list without repeats, and covering that list, is that list
   * with orders 0, 1, …, n - 1.
   */
  lemma IndexedRows<T>(l: seq<T>, ids: seq<Id>, idOf: T -> Id, order: T -> int)
    requires UniqueKeys(l, idOf) && Sorted(l, ByKey(order)) && Distinct(ids)
    requires forall i :: 0 <= i < |l| ==> idOf(l[i]) in ids && order(l[i]) == LastIndex(ids, idOf(l[i]))
    requires forall v :: 0 <= v < |ids| ==> ids[v] in Keys(l, idOf)
    ensures |l| == |ids|
    ensures forall i :: 0 <= i < |ids| ==> idOf(l[i]) == ids[i] && order(l[i]) == i
  {
    var ks := Keys(l, order);
    IndexedOrders(l, ids, idOf, order, ks);
    forall i | 0 <= i < |ids| ensures idOf(l[i]) == ids[i] && order(l[i]) == i {
      assert ks[i] == i;
      assert ids[LastIndex(ids, idOf(l[i]))] == idOf(l[i]);
    }
  }

  /** The orders of such rows are 0, 1, …, n - 1. */
  lemma IndexedOrders<T>(l: seq<T>, ids: seq<Id>, idOf: T -> Id, order: T -> int, ks: seq<int>)
    requires UniqueKeys(l, idOf) && Sorted(l, ByKey(order)) && Distinct(ids)
    requires forall i :: 0 <= i < |l| ==> idOf(l[i]) in ids && order(l[i]) == LastIndex(ids, idOf(l[i]))
    requires forall v :: 0 <= v < |ids| ==> ids[v] in Keys(l, idOf)
    requires ks == Keys(l, order)
    ensures |ks| == |ids| && forall i :: 0 <= i < |ks| ==> ks[i] == i
  {
    OrdersIncrease(l, ids, idOf, order);
    OrdersOnto(l, ids, idOf, order);
    forall i | 0 <= i < |ks| ensures 0 <= ks[i] < |ids| {
      assert ks[i] == LastIndex(ids, idOf(l[i]));
    }
    IncreasingOnto(ks, |ids|);
  }


  /** Rows with unique keys have ids without repeats. */
  lemma UniqueKeysIds<T>(rows: seq<T>, idOf: T -> Id)
    requires UniqueKeys(rows, idOf)
    ensures Distinct(Keys(rows, idOf))
  {
  }

  /** Some row in scope has id `x`. */
  ghost predicate HasRow<T>(rows: seq<T>, x: Id, idOf: T -> Id, inScope: T -> bool) {
    exists k :: 0 <= k < |rows| && inScope(rows[k]) && idOf(rows[k]) == x
  }

  /**
   * Reading back after a full reorder: when every row in scope carries the
   * position of its id in a list without repeats, and every listed id is the
   * id of a row in scope, the ascending listing is that list, with orders
   * 0, 1, …, n - 1.
   */
  lemma ListingFollowsIds<T(!new)>(rows: seq<T>, ids: seq<Id>, idOf: T -> Id, inScope: T -> bool, order: T -> int)
    requires UniqueKeys(rows, idOf) && Distinct(ids)
    requires forall k :: 0 <= k < |rows| && inScope(rows[k]) ==>
               idOf(rows[k]) in ids && order(rows[k]) == LastIndex(ids, idOf(rows[k]))
    requires forall j :: 0 <= j < |ids| ==> HasRow(rows, ids[j], idOf, inScope)
    ensures |Listing(rows, inScope, order)| == |ids|
    ensures forall i :: 0 <= i < |ids| ==>
              idOf(Listing(rows, inScope, order)[i]) == ids[i] && order(Listing(rows, inScope, order)[i]) == i
  {
    var l := Listing(rows, inScope, order);
    ListedRowsIndexed(rows, ids, idOf, inScope, order, l);
    IndexedRows(l, ids, idOf, order);
  }

  /** The listing of such rows meets the requirements of `IndexedRows`. */
  lemma ListedRowsIndexed<T(!new)>(rows: seq<T>, ids: seq<Id>, idOf: T -> Id, inScope: T -> bool, order: T -> int, l: seq<T>)
    requires UniqueKeys(rows, idOf)
    requires forall k :: 0 <= k < |rows| && inScope(rows[k]) ==>
               idOf(rows[k]) in ids && order(rows[k]) == LastIndex(ids, idOf(rows[k]))
    requires forall j :: 0 <= j < |ids| ==> HasRow(rows, ids[j], idOf, inScope)
    requires l == Listing(rows, inScope, order)
    ensures UniqueKeys(l, idOf) && Sorted(l, ByKey(order))
    ensures forall i :: 0 <= i < |l| ==> idOf(l[i]) in ids && order(l[i]) == LastIndex(ids, idOf(l[i]))
    ensures forall v :: 0 <= v < |ids| ==> ids[v] in Keys(l, idOf)
  {
    UniqueKeysSub(rows, l, idOf);
    forall i | 0 <= i < |l|
      ensures idOf(l[i]) in ids && order(l[i]) == LastIndex(ids, idOf(l[i]))
    {
      ListedRowInScope(rows, inScope, order, i);
    }
    forall v | 0 <= v < |ids| ensures ids[v] in Keys(l, idOf) {
      assert HasRow(rows, ids[v], idOf, inScope);
      var k :| 0 <= k < |rows| && inScope(rows[k]) && idOf(rows[k]) == ids[v];
      RowListed(rows, inScope, order, k);
      var i :| 0 <= i < |l| && l[i] == rows[k];
      assert Keys(l, idOf)[i] == ids[v];
    }
  }

  // ---------------------------------------------------------------------
  // A reorder with a permutation of the scope, then read back
  // ---------------------------------------------------------------------

  /** `order` reads back what `setOrder` wrote. */
  ghost predicate ReadsBack<T(!new)>(order: T -> int, setOrder: (T, int) -> T) {
    forall x, n :: order(setOrder(x, n)) == n
  }

  /** `ids` lists, without repeats, exactly the ids of the rows in scope. */
  ghost predicate PermutesScope<T>(rows: seq<T>, ids: seq<Id>, idOf: T -> Id, inScope: T -> bool) {
    && Distinct(ids)
    && (forall k :: 0 <= k < |rows| && inScope(rows[k]) ==> idOf(rows[k]) in ids)
    && (forall j :: 0 <= j < |ids| ==> HasRow(rows, ids[j], idOf, inScope))
  }

  /** A reorder changes no row's id and moves no row out of or into scope. */
  lemma ReorderedKeepsIds<T(!new)>(rows: seq<T>, ids: seq<Id>, base: int, idOf: T -> Id,
                                   inScope: T -> bool, setOrder: (T, int) -> T)
    requires OrderSetter(idOf, inScope, setOrder)
    ensures forall k :: 0 <= k < |rows| ==>
              idOf(Reordered(rows, ids, base, idOf, inScope, setOrder)[k]) == idOf(rows[k]) &&
              inScope(Reordered(rows, ids, base, idOf, inScope, setOrder)[k]) == inScope(rows[k])
    ensures UniqueKeys(rows, idOf) ==> UniqueKeys(Reordered(rows, ids, base, idOf, inScope, setOrder), idOf)
  {
    forall k | 0 <= k < |rows| ensures
      idOf(Reordered(rows, ids, base, idOf, inScope, setOrder)[k]) == idOf(rows[k]) &&
      inScope(Reordered(rows, ids, base, idOf, inScope, setOrder)[k]) == inScope(rows[k])
    {
      ReorderedRow(rows, ids, base, idOf, inScope, setOrder, k);
    }
  }

  /**
   * Reordering the scope with a permutation of its ids, then listing it by
   * ascending order, yields the rows in the order of the list, with orders
   * 0, 1, …, n - 1.
   */
  lemma ReorderThenListing<T(!new)>(rows: seq<T>, ids: seq<Id>, idOf: T -> Id, inScope: T -> bool,
                                    order: T -> int, setOrder: (T, int) -> T)
    requires OrderSetter(idOf, inScope, setOrder) && ReadsBack(order, setOrder)
    requires UniqueKeys(rows, idOf) && PermutesScope(rows, ids, idOf, inScope)
    ensures |Listing(Reordered(rows, ids, 0, idOf, inScope, setOrder), inScope, order)| == |ids|
    ensures forall i :: 0 <= i < |ids| ==>
              idOf(Listing(Reordered(rows, ids, 0, idOf, inScope, setOrder), inScope, order)[i]) == ids[i] &&
              order(Listing(Reordered(rows, ids, 0, idOf, inScope, setOrder), inScope, order)[i]) == i
  {
    var r := Reordered(rows, ids, 0, idOf, inScope, setOrder);
    ReorderedKeepsIds(rows, ids, 0, idOf, inScope, setOrder);
    forall k | 0 <= k < |r| && inScope(r[k])
      ensures idOf(r[k]) in ids && order(r[k]) == LastIndex(ids, idOf(r[k]))
    {
      ReorderedRow(rows, ids, 0, idOf, inScope, setOrder, k);
    }
    forall j | 0 <= j < |ids|
      ensures HasRow(r, ids[j], idOf, inScope)
    {
      assert HasRow(rows, ids[j], idOf, inScope);
      var k :| 0 <= k < |rows| && inScope(rows[k]) && idOf(rows[k]) == ids[j];
      assert inScope(r[k]) && idOf(r[k]) == ids[j];
    }
    ListingFollowsIds(r, ids, idOf, inScope, order);
  }
}
