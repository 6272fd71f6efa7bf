/**
 The sort-by-index rule drops the null order of the sort. Exactly when that shows: for any list of sort
 keys, when two rows of the table clash.
 */
module OptimizerNulls {
  import opened Sequences
  import opened Relational
  import opened Optimizer
  import opened OptimizerSound
  import opened OptimizerLimits

  /** The comparison of values is a strict weak order: what is above u or below w covers every value. */
  ghost predicate WeakOrder(db: Db) {
    OrderOk(db) && forall u, v, w :: db.lt(u, w) ==> db.lt(u, v) || db.lt(v, w)
  }

  predicate Tied(db: Db, o: OrderBy, a: Row, b: Row) {
    var v, w := Eval(db, o.expr, [a]), Eval(db, o.expr, [b]);
    !ValueLess(db, o, v, w) && !ValueLess(db, o, w, v)
  }

  /** The rows tie on the keys before one that puts nulls last, and of these two a alone has it null. */
  predicate NullsClash(db: Db, orderBys: seq<OrderBy>, a: Row, b: Row) {
    orderBys != [] &&
    var o := orderBys[0];
    || (!NullsComeFirst(o) && Eval(db, o.expr, [a]).Null? && !Eval(db, o.expr, [b]).Null?)
    || (Tied(db, o, a, b) && NullsClash(db, orderBys[1..], a, b))
  }

  ghost predicate ClashFree(db: Db, orderBys: seq<OrderBy>, rows: seq<Row>) {
    forall a, b :: a in rows && b in rows ==> !NullsClash(db, orderBys, a, b)
  }

  /** The rule's view of the sort keys. */
  function IndexOrder(orderBys: seq<OrderBy>): seq<OrderBy> {
    if OrderColumns(orderBys).Some? then Ascending(OrderColumns(orderBys).value) else []
  }

  /** A list of sort keys that the rule accepts: the first key compares as the index's first, nulls aside. */
  lemma {:induction false} FirstKey(db: Db, orderBys: seq<OrderBy>, a: Row, b: Row)
    requires OrderColumns(orderBys).Some? && OverOneTuple(orderBys) && orderBys != []
    ensures OrderColumns(orderBys[1..]).Some? && OverOneTuple(orderBys[1..])
    ensures
      var o, key := orderBys[0], IndexOrder(orderBys);
      var v, w := Eval(db, o.expr, [a]), Eval(db, o.expr, [b]);
      && key != [] && key[1..] == IndexOrder(orderBys[1..]) && !o.dir.Desc?
      && Eval(db, key[0].expr, [a]) == v && Eval(db, key[0].expr, [b]) == w
      && (ValueLess(db, key[0], v, w) <==> if v.Null? || w.Null? then v.Null? && !w.Null? else db.lt(v, w))
  {
    var keys := OrderColumns(orderBys).value;
    assert orderBys[0] in orderBys;
    assert keys[1..] == OrderColumns(orderBys[1..]).value;
    assert Ascending(keys)[1..] == Ascending(keys[1..]);
  }

  /** Clashing rows are ordered one way by the index and the other way by the sort. */
  lemma {:induction false} ClashOrders(db: Db, orderBys: seq<OrderBy>, a: Row, b: Row)
    requires OrderColumns(orderBys).Some? && OverOneTuple(orderBys) && NullsClash(db, orderBys, a, b)
    ensures RowLess(db, IndexOrder(orderBys), a, b) && RowLess(db, orderBys, b, a)
  {
    FirstKey(db, orderBys, a, b);
    FirstKey(db, orderBys, b, a);
    hide IndexOrder, OrderColumns, Eval;
    var o := orderBys[0];
    if !NullsComeFirst(o) && Eval(db, o.expr, [a]).Null? && !Eval(db, o.expr, [b]).Null? {
    } else {
      ClashOrders(db, orderBys[1..], a, b);
    }
  }

  /** Rows that do not clash are ordered alike. */
  lemma {:induction false} NoClashSameOrder(db: Db, orderBys: seq<OrderBy>, a: Row, b: Row)
    requires OrderColumns(orderBys).Some? && OverOneTuple(orderBys)
    requires !NullsClash(db, orderBys, a, b) && !NullsClash(db, orderBys, b, a)
    ensures RowLess(db, orderBys, a, b) == RowLess(db, IndexOrder(orderBys), a, b)
  {
    if orderBys == [] {
    } else {
      FirstKey(db, orderBys, a, b);
      FirstKey(db, orderBys, b, a);
      hide IndexOrder, OrderColumns, Eval;
      if Tied(db, orderBys[0], a, b) {
        NoClashSameOrder(db, orderBys[1..], a, b);
      }
    }
  }

  /** A row between two clashing ones in index order clashes with one of them. */
  lemma {:induction false} ClashSplit(db: Db, orderBys: seq<OrderBy>, a: Row, c: Row, b: Row)
    requires WeakOrder(db) && OrderColumns(orderBys).Some? && OverOneTuple(orderBys) && NullsClash(db, orderBys, a, b)
    requires RowLess(db, IndexOrder(orderBys), a, c) && RowLess(db, IndexOrder(orderBys), c, b)
    ensures NullsClash(db, orderBys, a, c) || NullsClash(db, orderBys, c, b)
  {
    FirstKey(db, orderBys, a, c);
    FirstKey(db, orderBys, c, a);
    FirstKey(db, orderBys, c, b);
    FirstKey(db, orderBys, b, c);
    hide IndexOrder, OrderColumns, Eval;
    var o := orderBys[0];
    var u, x, w := Eval(db, o.expr, [a]), Eval(db, o.expr, [c]), Eval(db, o.expr, [b]);
    if !NullsComeFirst(o) && u.Null? && !w.Null? {
    } else {
      assert !u.Null? ==> (db.lt(u, x) ==> db.lt(u, w) || db.lt(w, x));
      assert !u.Null? ==> (db.lt(x, w) ==> db.lt(x, u) || db.lt(u, w));
      ClashSplit(db, orderBys[1..], a, c, b);
    }
  }

  /** So of clashing rows in index order, two neighbours clash. */
  lemma {:induction false} NeighboursClash(db: Db, orderBys: seq<OrderBy>, entries: seq<Row>, i: nat, j: nat) returns (k: nat)
    requires WeakOrder(db) && OrderColumns(orderBys).Some? && OverOneTuple(orderBys)
    requires StrictlySorted(db, IndexOrder(orderBys), entries)
    requires i < j < |entries| && NullsClash(db, orderBys, entries[i], entries[j])
    ensures i <= k < j && NullsClash(db, orderBys, entries[k], entries[k + 1])
    decreases j - i
  {
    hide WeakOrder, OrderColumns, OverOneTuple, IndexOrder, NullsClash, RowLess;
    if j == i + 1 {
      k := i;
    } else {
      ClashSplit(db, orderBys, entries[i], entries[i + 1], entries[j]);
      if NullsClash(db, orderBys, entries[i], entries[i + 1]) {
        k := i;
      } else {
        k := NeighboursClash(db, orderBys, entries, i + 1, j);
      }
    }
  }

  /** No row comes right after one that it should come before. */
  ghost predicate NoInversion(db: Db, orderBys: seq<OrderBy>, rows: seq<Row>) {
    forall k :: 0 <= k < |rows| - 1 ==> !RowLess(db, orderBys, rows[k + 1], rows[k])
  }

  lemma {:induction false} InsertNoInversion(db: Db, orderBys: seq<OrderBy>, r: Row, rows: seq<Row>)
    requires OrderOk(db) && NoInversion(db, orderBys, rows)
    ensures NoInversion(db, orderBys, Insert(db, orderBys, r, rows))
  {
    hide RowLess, OrderOk;
    if rows == [] || !RowLess(db, orderBys, rows[0], r) {
    } else {
      RowLessAsymmetric(db, orderBys, rows[0], r);
      InsertNoInversion(db, orderBys, r, rows[1..]);
      var rest := Insert(db, orderBys, r, rows[1..]);
      assert rest[0] == r || (|rows| > 1 && rest[0] == rows[1]);
    }
  }

  lemma {:induction false} SortNoInversion(db: Db, orderBys: seq<OrderBy>, rows: seq<Row>)
    requires OrderOk(db)
    ensures NoInversion(db, orderBys, SortRows(db, orderBys, rows))
  {
    hide RowLess, OrderOk, Insert;
    if rows != [] {
      SortNoInversion(db, orderBys, rows[1..]);
      InsertNoInversion(db, orderBys, rows[0], SortRows(db, orderBys, rows[1..]));
    }
  }

  /** Where two rows of the table clash, the sort does not give the index's order. */
  lemma {:induction false} ClashShows(db: Db, orderBys: seq<OrderBy>, rows: seq<Row>, entries: seq<Row>, a: Row, b: Row)
    requires WeakOrder(db) && OrderColumns(orderBys).Some? && OverOneTuple(orderBys)
    requires multiset(entries) == multiset(rows) && StrictlySorted(db, IndexOrder(orderBys), entries)
    requires a in rows && b in rows && NullsClash(db, orderBys, a, b)
    ensures SortRows(db, orderBys, rows) != entries
  {
    hide IndexOrder, OrderColumns, OverOneTuple, RowLess, NullsClash, SortRows;
    assert a in multiset(entries) && b in multiset(entries);
    var i: nat :| i < |entries| && entries[i] == a;
    var j: nat :| j < |entries| && entries[j] == b;
    ClashOrders(db, orderBys, a, b);
    RowLessAsymmetric(db, IndexOrder(orderBys), a, b);
    var k := NeighboursClash(db, orderBys, entries, i, j);
    ClashOrders(db, orderBys, entries[k], entries[k + 1]);
    SortNoInversion(db, orderBys, rows);
  }

  /** Any list of ascending keys: the sort gives the index's order exactly when no two rows clash. */
  lemma {:induction false} SortIsIndexOrderIff(db: Db, orderBys: seq<OrderBy>, rows: seq<Row>, entries: seq<Row>)
    requires WeakOrder(db) && OrderColumns(orderBys).Some? && OverOneTuple(orderBys)
    requires IndexOk(db, OrderColumns(orderBys).value, rows, entries)
    ensures SortRows(db, orderBys, rows) == entries <==> ClashFree(db, orderBys, rows)
  {
    assert StrictlySorted(db, IndexOrder(orderBys), entries);
    hide IndexOrder, OrderColumns, OverOneTuple, RowLess, NullsClash, SortRows;
    if ClashFree(db, orderBys, rows) {
      forall i, j | 0 <= i < j < |entries|
        ensures RowLess(db, orderBys, entries[i], entries[j])
      {
        assert entries[i] in multiset(entries) && entries[j] in multiset(entries);
        assert entries[i] in multiset(rows) && entries[j] in multiset(rows);
        NoClashSameOrder(db, orderBys, entries[i], entries[j]);
      }
      SortIsUnique(db, orderBys, rows, entries);
    } else {
      var a, b :| a in rows && b in rows && NullsClash(db, orderBys, a, b);
      ClashShows(db, orderBys, rows, entries, a, b);
    }
  }

  /**
   The rule, wherever it fires: the rows are kept exactly when the scan's filter, if there is one, keeps
   the whole table and no two rows of the table clash.
   */
  lemma {:induction false} SortByIndexIff(db: Db, p: Plan)
    requires DbOk(db) && WeakOrder(db) && Typed(db, p) && SortByIndex(db.cat, p) != Some(p)
    ensures SortByIndex(db.cat, p).Some?
    ensures
      var scan := p.children[0].op;
      Rows(db, SortByIndex(db.cat, p).value) == Rows(db, p) <==>
        && (scan.filter.Some? ==> AllPass(db, scan.filter.value, Table(db, scan.table)))
        && ClashFree(db, p.op.orderBys, Table(db, scan.table))
  {
    hide Wide, OrderColumns, MatchIndex, IndexesOk, IndexOk, Rows, OthersOk, OrderOk, AllPass, WeakOrder, ClashFree;
    var q, scan, columns := SortByIndex(db.cat, p).value, p.children[0], OrderColumns(p.op.orderBys).value;
    var rows, entries := Table(db, scan.op.table), Entries(db, q.op.index);
    MatchedIndex(db, scan.op.table, columns);
    IndexElems(db, columns, rows, entries);
    AscendingOnly(p.op.orderBys);
    RowsOf(db, p);
    RowsOf(db, scan);
    RowsOf(db, q);
    SortIsIndexOrderIff(db, p.op.orderBys, rows, entries);
    hide SortRows;
    if scan.op.filter.Some? {
      var kept := Keep(db, scan.op.filter.value, [], rows);
      SortElems(db, p.op.orderBys, kept);
      KeepAll(db, scan.op.filter.value, rows);
      assert |multiset(SortRows(db, p.op.orderBys, kept))| == |multiset(kept)|;
      assert |multiset(entries)| == |multiset(rows)|;
    }
  }
}
