/** Every rule, and every pipeline in which no index rule follows the filter-into-scan rule, keeps a plan's exact row sequence. */
module OptimizerSound {
  import opened Sequences
  import opened Relational
  import opened Optimizer

  /**** The plan shapes the rules rely on ****/

  /**
   Planner shape of one node: an always-true join is INNER, no ascending sort puts nulls last, and no
   filter builds an array. With `plain`, no scan carries a filter.
   */
  predicate NodeShaped(op: Op, plain: bool) {
    match op
    case SeqScan(_, filter) => plain ==> filter.None?
    case Filter(pred) => ArrayFree(pred)
    case NestedLoopJoin(pred, kind) => IsPredicateTrue(pred) ==> kind.Inner?
    case Sort(orderBys) => forall i :: 0 <= i < |orderBys| && !orderBys[i].dir.Desc? ==> !orderBys[i].nulls.NullsLast?
    case _ => true
  }

  predicate Shaped(p: Plan, plain: bool) {
    NodeShaped(p.op, plain) && forall i :: 0 <= i < |p.children| ==> Shaped(p.children[i], plain)
  }

  lemma {:induction false} ShapedAnyway(p: Plan, plain: bool)
    requires Shaped(p, plain)
    ensures Shaped(p, false)
    decreases p
  {
    forall i | 0 <= i < |p.children|
      ensures Shaped(p.children[i], false)
    {
      ShapedAnyway(p.children[i], plain);
    }
  }

  /**** Expressions: the join rewrite ****/

  predicate ArrayFree(e: Expr) {
    e.Call? ==> !e.fn.Array? && forall i :: 0 <= i < |e.args| ==> ArrayFree(e.args[i])
  }

  /** The rewritten expression on (l, r) is the original on l ++ r. */
  lemma {:induction false} RewriteMeaning(db: Db, e: Expr, l: Row, r: Row)
    requires Rewritable(e, |l| + |r|) && ArrayFree(e)
    ensures Eval(db, Rewritten(e, |l|), [l, r]) == Eval(db, e, [l + r])
    decreases e
  {
    match e
    case Col(_, c, _) =>
    case Const(_) =>
    case Call(fn, args) =>
      forall i | 0 <= i < |args|
        ensures Eval(db, Rewritten(args[i], |l|), [l, r]) == Eval(db, args[i], [l + r])
      {
        RewriteMeaning(db, args[i], l, r);
      }
      var args' := Rewritten(e, |l|).args;
      assert seq(|args'|, i requires 0 <= i < |args'| => Eval(db, args'[i], [l, r]))
          == seq(|args|, i requires 0 <= i < |args| => Eval(db, args[i], [l + r]));
  }

  lemma {:induction false} RewriteScoped(e: Expr, left: nat, right: nat)
    requires Rewritable(e, left + right)
    ensures Scoped(Rewritten(e, left), [left, right])
    decreases e
  {
    if e.Call? {
      forall i | 0 <= i < |e.args|
        ensures Scoped(Rewritten(e.args[i], left), [left, right])
      {
        RewriteScoped(e.args[i], left, right);
      }
    }
  }

  /** An expression over one tuple is rewritable exactly when its columns are in scope. */
  lemma {:induction false} ScopedRewritable(e: Expr, width: nat)
    ensures Scoped(e, [width]) <==> Rewritable(e, width)
    decreases e
  {
    if e.Call? {
      forall i | 0 <= i < |e.args|
        ensures Scoped(e.args[i], [width]) <==> Rewritable(e.args[i], width)
      {
        ScopedRewritable(e.args[i], width);
      }
    }
  }

  /**** Filters ****/

  lemma {:induction false} KeepAppend(db: Db, pred: Expr, prefix: seq<Row>, a: seq<Row>, b: seq<Row>)
    ensures Keep(db, pred, prefix, a + b) == Keep(db, pred, prefix, a) + Keep(db, pred, prefix, b)
  {
    hide Passes;
    if a == [] {
      assert a + b == b;
    } else {
      KeepAppend(db, pred, prefix, a[1..], b);
      assert (a + b)[1..] == a[1..] + b;
    }
  }

  lemma {:induction false} KeepNothing(db: Db, pred: Expr, prefix: seq<Row>)
    ensures Keep(db, pred, prefix, []) == []
  {
  }

  lemma {:induction false} KeepTrue(db: Db, pred: Expr, prefix: seq<Row>, rows: seq<Row>)
    requires IsPredicateTrue(pred)
    ensures Keep(db, pred, prefix, rows) == rows
  {
    if rows == [] {
    } else {
      KeepTrue(db, pred, prefix, rows[1..]);
    }
  }

  lemma {:induction false} PassesPair(db: Db, pred: Expr, l: Row, r: Row)
    requires Rewritable(pred, |l| + |r|) && ArrayFree(pred)
    ensures Passes(db, pred, [] + [l + r]) == Passes(db, Rewritten(pred, |l|), [l] + [r])
  {
    RewriteMeaning(db, pred, l, r);
    hide Eval, Rewritten;
    assert [] + [l + r] == [l + r] && [l] + [r] == [l, r];
  }

  /** Filtering the pairs of a left row is pairing it with the rows the rewritten predicate matches. */
  lemma {:induction false} KeepPairs(db: Db, pred: Expr, l: Row, rights: seq<Row>, rw: nat)
    requires Wide(rights, rw) && Rewritable(pred, |l| + rw) && ArrayFree(pred)
    ensures Keep(db, pred, [], Emit(Inner, l, rights, rw)) == Emit(Inner, l, Keep(db, Rewritten(pred, |l|), [l], rights), rw)
  {
    hide Passes, Rewritten, Rewritable, ArrayFree, NullRow;
    if rights == [] {
    } else {
      var r := rights[0];
      PassesPair(db, pred, l, r);
      KeepPairs(db, pred, l, rights[1..], rw);
      assert Emit(Inner, l, rights, rw) == [l + r] + Emit(Inner, l, rights[1..], rw);
      var kept := Keep(db, Rewritten(pred, |l|), [l], rights[1..]);
      assert Emit(Inner, l, [r] + kept, rw) == [l + r] + Emit(Inner, l, kept, rw);
    }
  }

  lemma {:induction false} KeepJoin(db: Db, truth: Expr, pred: Expr, lefts: seq<Row>, rights: seq<Row>, lw: nat, rw: nat)
    requires IsPredicateTrue(truth) && Wide(lefts, lw) && Wide(rights, rw) && Rewritable(pred, lw + rw) && ArrayFree(pred)
    ensures Keep(db, pred, [], JoinRows(db, truth, Inner, lefts, rights, rw)) == JoinRows(db, Rewritten(pred, lw), Inner, lefts, rights, rw)
  {
    hide Rewritten, Rewritable, ArrayFree, Keep, Emit, IsPredicateTrue;
    assert Keep(db, pred, [], []) == [] by {
      KeepNothing(db, pred, []);
    }
    if lefts == [] {
    } else {
      var l, rest := lefts[0], JoinRows(db, truth, Inner, lefts[1..], rights, rw);
      KeepTrue(db, truth, [l], rights);
      KeepAppend(db, pred, [], Emit(Inner, l, rights, rw), rest);
      KeepPairs(db, pred, l, rights, rw);
      KeepJoin(db, truth, pred, lefts[1..], rights, lw, rw);
    }
  }

  /**** Index lookups ****/

  /** The equi-join predicate keeps what a lookup of the left row's key finds. */
  lemma {:induction false} KeepIsLookup(db: Db, pred: Expr, l: Row, rows: seq<Row>, rw: nat)
    requires EquiColumns(pred).Some? && Scoped(pred, [|l|, rw]) && Wide(rows, rw)
    ensures Keep(db, pred, [l], rows) == Lookup(rows, EquiColumns(pred).value.right, Eval(db, EquiColumns(pred).value.left, [l]))
  {
    if rows == [] {
    } else {
      KeepIsLookup(db, pred, l, rows[1..], rw);
      assert Scoped(pred.args[0], [|l|, rw]) && Scoped(pred.args[1], [|l|, rw]);
      assert [l] + [rows[0]] == [l, rows[0]];
      var vs := seq(|pred.args|, i requires 0 <= i < |pred.args| => Eval(db, pred.args[i], [l, rows[0]]));
      assert Eval(db, pred, [l, rows[0]]) == EqualValues(vs[0], vs[1]);
    }
  }

  lemma {:induction false} LookupElems(rows: seq<Row>, col: nat, v: Value, r: Row)
    ensures multiset(Lookup(rows, col, v))[r] ==
      if col < |r| && EqualValues(v, r[col]) == Boolean(true) then multiset(rows)[r] else 0
  {
    if rows == [] {
    } else {
      LookupElems(rows[1..], col, v, r);
      assert rows == [rows[0]] + rows[1..];
    }
  }

  lemma {:induction false} SameKeyNotLess(db: Db, col: nat, a: Row, b: Row)
    requires OrderOk(db) && col < |a| && col < |b| && a[col] == b[col]
    ensures !RowLess(db, Ascending([col]), a, b)
  {
    assert Ascending([col])[1..] == [];
    assert !RowLess(db, [], a, b);
  }

  /** Unique keys: a lookup finds at most one entry. */
  lemma {:induction false} LookupUnique(db: Db, entries: seq<Row>, col: nat, v: Value)
    requires OrderOk(db)
    requires forall i, j :: 0 <= i < j < |entries| ==> RowLess(db, Ascending([col]), entries[i], entries[j])
    ensures |Lookup(entries, col, v)| <= 1
  {
    if entries == [] {
    } else {
      LookupUnique(db, entries[1..], col, v);
      var rest := Lookup(entries[1..], col, v);
      LookupSubset(entries[1..], col, v);
      if col < |entries[0]| && EqualValues(v, entries[0][col]) == Boolean(true) && rest != [] {
        var j :| 0 <= j < |entries[1..]| && entries[1..][j] == rest[0];
        SameKeyNotLess(db, col, entries[0], entries[j + 1]);
        assert false;
      }
    }
  }

  lemma {:induction false} SingletonSame(a: seq<Row>, b: seq<Row>)
    requires multiset(a) == multiset(b) && |b| <= 1
    ensures a == b
  {
    assert |multiset(a)| == |a| && |multiset(b)| == |b|;
    if a != [] {
      assert a[0] in multiset(a) && a[0] in multiset(b);
    }
  }

  lemma {:induction false} LookupPermutes(rows: seq<Row>, entries: seq<Row>, col: nat, v: Value)
    requires multiset(entries) == multiset(rows)
    ensures multiset(Lookup(entries, col, v)) == multiset(Lookup(rows, col, v))
  {
    hide Lookup, EqualValues;
    forall r
      ensures multiset(Lookup(entries, col, v))[r] == multiset(Lookup(rows, col, v))[r]
    {
      LookupElems(rows, col, v, r);
      LookupElems(entries, col, v, r);
    }
  }

  /** A complete unique index answers a lookup as the table does. */
  lemma {:induction false} LookupSame(db: Db, rows: seq<Row>, entries: seq<Row>, col: nat, v: Value)
    requires OrderOk(db) && IndexOk(db, [col], rows, entries)
    ensures Lookup(rows, col, v) == Lookup(entries, col, v)
  {
    hide Lookup, RowLess, OrderOk;
    LookupUnique(db, entries, col, v);
    LookupPermutes(rows, entries, col, v);
    SingletonSame(Lookup(rows, col, v), Lookup(entries, col, v));
  }

  lemma {:induction false} JoinIsIndexJoin(db: Db, pred: Expr, kind: JoinKind, lefts: seq<Row>, rows: seq<Row>, entries: seq<Row>, lw: nat, rw: nat)
    requires OrderOk(db) && EquiColumns(pred).Some? && Scoped(pred, [lw, rw]) && Wide(lefts, lw) && Wide(rows, rw)
    requires IndexOk(db, [EquiColumns(pred).value.right], rows, entries)
    ensures JoinRows(db, pred, kind, lefts, rows, rw) ==
      IndexJoinRows(db, EquiColumns(pred).value.left, EquiColumns(pred).value.right, kind, lefts, entries, rw)
  {
    if lefts == [] {
    } else {
      KeepIsLookup(db, pred, lefts[0], rows, rw);
      LookupSame(db, rows, entries, EquiColumns(pred).value.right, Eval(db, EquiColumns(pred).value.left, [lefts[0]]));
      JoinIsIndexJoin(db, pred, kind, lefts[1..], rows, entries, lw, rw);
    }
  }

  /**** Sorts ****/

  lemma {:induction false} RowLessAsymmetric(db: Db, orderBys: seq<OrderBy>, a: Row, b: Row)
    requires OrderOk(db) && RowLess(db, orderBys, a, b)
    ensures !RowLess(db, orderBys, b, a)
  {
    if orderBys != [] {
      var v, w := Eval(db, orderBys[0].expr, [a]), Eval(db, orderBys[0].expr, [b]);
      if !ValueLess(db, orderBys[0], v, w) {
        RowLessAsymmetric(db, orderBys[1..], a, b);
      }
    }
  }

  ghost predicate StrictlySorted(db: Db, orderBys: seq<OrderBy>, rows: seq<Row>) {
    forall i, j :: 0 <= i < j < |rows| ==> RowLess(db, orderBys, rows[i], rows[j])
  }

  lemma {:induction false} SortedPart(db: Db, orderBys: seq<OrderBy>, rows: seq<Row>, k: nat)
    requires StrictlySorted(db, orderBys, rows) && k < |rows|
    ensures StrictlySorted(db, orderBys, rows[1..])
    ensures k > 0 ==> RowLess(db, orderBys, rows[0], rows[k])
    ensures k == 0 && |rows| > 1 ==> RowLess(db, orderBys, rows[0], rows[1])
  {
    hide RowLess;
  }

  /** Inserting a row where it was taken out of a strictly sorted sequence puts it back. */
  lemma {:induction false} InsertBack(db: Db, orderBys: seq<OrderBy>, rows: seq<Row>, k: nat)
    requires OrderOk(db) && StrictlySorted(db, orderBys, rows) && k < |rows|
    ensures Insert(db, orderBys, rows[k], RemoveAt(rows, k)) == rows
  {
    hide RowLess, OrderOk, StrictlySorted, RemoveAt;
    SortedPart(db, orderBys, rows, k);
    RemovedParts(rows, k);
    if k == 0 {
      if |rows| > 1 {
        RowLessAsymmetric(db, orderBys, rows[0], rows[1]);
      }
    } else {
      InsertBack(db, orderBys, rows[1..], k - 1);
    }
  }

  lemma {:induction false} RemovedParts(rows: seq<Row>, k: nat)
    requires k < |rows|
    ensures rows == [rows[0]] + rows[1..]
    ensures k == 0 ==> RemoveAt(rows, k) == rows[1..]
    ensures k > 0 ==> RemoveAt(rows, k) != [] && RemoveAt(rows, k)[0] == rows[0] && RemoveAt(rows, k)[1..] == RemoveAt(rows[1..], k - 1)
  {
  }

  /** Sorting any permutation of a strictly sorted sequence gives that sequence. */
  lemma {:induction false} SortIsUnique(db: Db, orderBys: seq<OrderBy>, rows: seq<Row>, sorted: seq<Row>)
    requires OrderOk(db) && StrictlySorted(db, orderBys, sorted) && multiset(rows) == multiset(sorted)
    ensures SortRows(db, orderBys, rows) == sorted
    decreases |rows|
  {
    hide RowLess, OrderOk, Insert;
    assert |multiset(rows)| == |rows| && |multiset(sorted)| == |sorted|;
    if rows == [] {
    } else {
      assert rows == [rows[0]] + rows[1..];
      assert rows[0] in multiset(sorted);
      var k: nat :| k < |sorted| && sorted[k] == rows[0];
      RemoveElem(sorted, k);
      RemoveSorted(db, orderBys, sorted, k);
      SortIsUnique(db, orderBys, rows[1..], RemoveAt(sorted, k));
      InsertBack(db, orderBys, sorted, k);
    }
  }

  lemma {:induction false} RemoveElem(rows: seq<Row>, k: nat)
    requires k < |rows|
    ensures multiset(RemoveAt(rows, k)) == multiset(rows) - multiset{rows[k]}
  {
    assert rows == rows[..k] + [rows[k]] + rows[k + 1..];
  }

  lemma {:induction false} RemoveSorted(db: Db, orderBys: seq<OrderBy>, rows: seq<Row>, k: nat)
    requires StrictlySorted(db, orderBys, rows) && k < |rows|
    ensures StrictlySorted(db, orderBys, RemoveAt(rows, k))
  {
    hide RowLess;
  }

  predicate OverOneTuple(orderBys: seq<OrderBy>) {
    forall i :: 0 <= i < |orderBys| && orderBys[i].expr.Col? ==> orderBys[i].expr.tuple == 0
  }

  /** The null order of each sort key agrees with the ascending one, or the key is never null in these rows. */
  ghost predicate NullsAgree(db: Db, orderBys: seq<OrderBy>, rows: seq<Row>) {
    forall i, r :: 0 <= i < |orderBys| && r in rows ==>
      NullsComeFirst(orderBys[i]) || !Eval(db, orderBys[i].expr, [r]).Null?
  }

  lemma {:induction false} SameOrder(db: Db, orderBys: seq<OrderBy>, rows: seq<Row>, a: Row, b: Row)
    requires OrderColumns(orderBys).Some? && OverOneTuple(orderBys) && NullsAgree(db, orderBys, rows) && a in rows && b in rows
    ensures RowLess(db, orderBys, a, b) == RowLess(db, Ascending(OrderColumns(orderBys).value), a, b)
  {
    if orderBys == [] {
    } else {
      var keys := OrderColumns(orderBys).value;
      assert keys[1..] == OrderColumns(orderBys[1..]).value;
      assert Ascending(keys)[1..] == Ascending(keys[1..]);
      assert NullsAgree(db, orderBys[1..], rows);
      SameOrder(db, orderBys[1..], rows, a, b);
      assert orderBys[0] in orderBys;
    }
  }

  /** An ascending sort on an index's key columns gives the index's entries, when the null orders agree on the table. */
  lemma {:induction false} SortIsIndexOrder(db: Db, orderBys: seq<OrderBy>, rows: seq<Row>, entries: seq<Row>)
    requires OrderOk(db) && OrderColumns(orderBys).Some? && OverOneTuple(orderBys) && NullsAgree(db, orderBys, rows)
    requires IndexOk(db, OrderColumns(orderBys).value, rows, entries)
    ensures SortRows(db, orderBys, rows) == entries
  {
    forall i, j | 0 <= i < j < |entries|
      ensures RowLess(db, orderBys, entries[i], entries[j])
    {
      assert entries[i] in multiset(entries) && entries[j] in multiset(entries);
      assert entries[i] in multiset(rows) && entries[j] in multiset(rows);
      SameOrder(db, orderBys, rows, entries[i], entries[j]);
    }
    SortIsUnique(db, orderBys, rows, entries);
  }

  /**** Local rewrites ****/

  /** Plans with the same node over children of the same widths and rows have the same rows. */
  lemma {:induction false} RowsCongruent(db: Db, p: Plan, q: Plan)
    requires p.op == q.op && |p.schema| == |q.schema| && |p.children| == |q.children|
    requires forall i :: 0 <= i < |p.children| ==>
      Rows(db, p.children[i]) == Rows(db, q.children[i]) && |p.children[i].schema| == |q.children[i].schema|
    ensures Rows(db, p) == Rows(db, q)
  {
    assert seq(|p.children|, i requires 0 <= i < |p.children| => Rows(db, p.children[i]))
        == seq(|q.children|, i requires 0 <= i < |q.children| => Rows(db, q.children[i]));
  }

  /** The rows of the nodes the rules look at. */
  lemma {:induction false} RowsOf(db: Db, p: Plan)
    requires ArityOk(p)
    ensures p.op.SeqScan? && p.op.filter.None? ==> Rows(db, p) == Table(db, p.op.table)
    ensures p.op.SeqScan? && p.op.filter.Some? ==> Rows(db, p) == Keep(db, p.op.filter.value, [], Table(db, p.op.table))
    ensures p.op.IndexScan? ==> Rows(db, p) == Entries(db, p.op.index)
    ensures p.op.Filter? ==> Rows(db, p) == Keep(db, p.op.pred, [], Rows(db, p.children[0]))
    ensures p.op.Projection? ==> Rows(db, p) == Project(db, p.op.exprs, Rows(db, p.children[0]))
    ensures p.op.NestedLoopJoin? ==>
      Rows(db, p) == JoinRows(db, p.op.pred, p.op.kind, Rows(db, p.children[0]), Rows(db, p.children[1]), |p.children[1].schema|)
    ensures p.op.NestedIndexJoin? ==>
      Rows(db, p) == IndexJoinRows(db, p.op.key, KeyColumn(db.cat, p.op.index), p.op.kind, Rows(db, p.children[0]), Entries(db, p.op.index), |p.op.inner|)
    ensures p.op.Sort? ==> Rows(db, p) == SortRows(db, p.op.orderBys, Rows(db, p.children[0]))
  {
    hide Keep, Project, JoinRows, IndexJoinRows, SortRows, Table, Entries, KeyColumn;
  }

  lemma {:induction false} ProjectIdentity(db: Db, exprs: seq<Expr>, rows: seq<Row>)
    requires Identity(exprs) && Wide(rows, |exprs|)
    ensures Project(db, exprs, rows) == rows
  {
    forall i | 0 <= i < |rows|
      ensures Project(db, exprs, rows)[i] == rows[i]
    {
      assert rows[i] in rows;
    }
  }

  /** What a rewrite promises of the plan it gives. */
  ghost predicate Preserved(db: Db, p: Plan, q: Plan, plain: bool, sameSchema: bool) {
    && Typed(db, q) && Shaped(q, plain) && |q.schema| == |p.schema| && (sameSchema ==> q.schema == p.schema)
    && Rows(db, q) == Rows(db, p)
  }

  lemma {:induction false} DropIdentityProjectionSound(db: Db, p: Plan, plain: bool)
    requires DbOk(db) && Typed(db, p) && Shaped(p, plain)
    ensures DropIdentityProjection(p).Some? && Preserved(db, p, DropIdentityProjection(p).value, plain, true)
  {
    var q := DropIdentityProjection(p).value;
    if q != p {
      var child := p.children[0];
      RowsCongruent(db, q, child);
      RowsWide(db, child);
      RowsOf(db, p);
      ProjectIdentity(db, p.op.exprs, Rows(db, child));
    }
  }

  lemma {:induction false} FilterIntoJoinSound(db: Db, p: Plan, plain: bool)
    requires DbOk(db) && Typed(db, p) && Shaped(p, plain)
    ensures FilterIntoJoin(p).Some? && Preserved(db, p, FilterIntoJoin(p).value, plain, true)
  {
    if p.op.Filter? && p.children[0].op.NestedLoopJoin? && IsPredicateTrue(p.children[0].op.pred) {
      FilterIntoJoinTyped(db, p, plain);
      FilterIntoJoinRows(db, p);
    }
    hide Rows, Scoped, Rewritten, Rewritable, ArrayFree, Wide;
  }

  lemma {:induction false} FilterIntoJoinTyped(db: Db, p: Plan, plain: bool)
    requires Typed(db, p) && Shaped(p, plain) && p.op.Filter? && p.children[0].op.NestedLoopJoin? && IsPredicateTrue(p.children[0].op.pred)
    ensures FilterIntoJoin(p).Some?
    ensures Typed(db, FilterIntoJoin(p).value) && Shaped(FilterIntoJoin(p).value, plain)
  {
    hide Scoped, Rewritten, Rewritable, ArrayFree, Wide;
    var join := p.children[0];
    ScopedRewritable(p.op.pred, |join.children[0].schema| + |join.children[1].schema|);
    RewriteScoped(p.op.pred, |join.children[0].schema|, |join.children[1].schema|);
  }

  /** A filter over an always-true INNER join gives the rows of the join on the rewritten predicate. */
  lemma {:induction false} FilterIntoJoinRows(db: Db, p: Plan)
    requires OthersOk(db) && Typed(db, p) && p.op.Filter? && p.children[0].op.NestedLoopJoin?
    requires IsPredicateTrue(p.children[0].op.pred) && p.children[0].op.kind.Inner? && ArrayFree(p.op.pred)
    ensures FilterIntoJoin(p).Some? && Rows(db, FilterIntoJoin(p).value) == Rows(db, p)
  {
    hide Scoped, Rewritten, Rewritable, ArrayFree, Wide, Rows, OthersOk;
    hide FilterIntoJoin, IsPredicateTrue;
    FilterIntoJoinParts(db, p);
    var join, q := p.children[0], FilterIntoJoin(p).value;
    RowsOf(db, p);
    RowsOf(db, join);
    RowsOf(db, q);
    hide Typed;
    var left, right := join.children[0], join.children[1];
    KeepJoin(db, join.op.pred, p.op.pred, Rows(db, left), Rows(db, right), |left.schema|, |right.schema|);
  }

  lemma {:induction false} FilterIntoJoinParts(db: Db, p: Plan)
    requires OthersOk(db) && Typed(db, p) && p.op.Filter? && p.children[0].op.NestedLoopJoin?
    requires IsPredicateTrue(p.children[0].op.pred)
    ensures FilterIntoJoin(p).Some?
    ensures
      var join, q := p.children[0], FilterIntoJoin(p).value;
      && |join.children| == 2 && q == Plan(p.schema, NestedLoopJoin(Rewritten(p.op.pred, |join.children[0].schema|), join.op.kind), join.children)
      && Rewritable(p.op.pred, |join.children[0].schema| + |join.children[1].schema|)
      && Wide(Rows(db, join.children[0]), |join.children[0].schema|)
      && Wide(Rows(db, join.children[1]), |join.children[1].schema|)
  {
    hide Scoped, Rewritten, Rewritable, ArrayFree, Wide, Rows, OthersOk;
    var join := p.children[0];
    ScopedRewritable(p.op.pred, |join.children[0].schema| + |join.children[1].schema|);
    RowsWide(db, join.children[0]);
    RowsWide(db, join.children[1]);
  }

  /** The matched index is an index of the table, on the key columns asked for. */
  lemma {:induction false} MatchedIndex(db: Db, t: TableId, keys: seq<nat>)
    requires IndexesOk(db) && MatchIndex(db.cat, t, keys).Some?
    ensures
      var index := MatchIndex(db.cat, t, keys).value;
      && index in db.cat.keys && db.cat.keys[index] == keys && index in db.entries
      && IndexOk(db, keys, Table(db, t), db.entries[index])
  {
    var index := MatchIndex(db.cat, t, keys).value;
    var i :| 0 <= i < |db.cat.tableIndexes[t]| && db.cat.tableIndexes[t][i] == index;
  }

  lemma {:induction false} WideEntries(rows: seq<Row>, entries: seq<Row>, width: nat)
    requires multiset(entries) == multiset(rows) && Wide(rows, width)
    ensures Wide(entries, width)
  {
    forall r | r in entries
      ensures |r| == width
    {
      assert r in multiset(entries) && r in multiset(rows);
    }
  }

  lemma {:induction false} EquiScoped(pred: Expr, left: nat, right: nat)
    requires EquiColumns(pred).Some? && Scoped(pred, [left, right])
    ensures Scoped(EquiColumns(pred).value.left, [left]) && EquiColumns(pred).value.right < right
  {
    assert Scoped(pred.args[0], [left, right]) && Scoped(pred.args[1], [left, right]);
  }

  lemma {:induction false} JoinByIndexSound(db: Db, p: Plan)
    requires DbOk(db) && Typed(db, p) && Shaped(p, true)
    ensures JoinByIndex(db.cat, p).Some? && Preserved(db, p, JoinByIndex(db.cat, p).value, true, true)
  {
    if JoinByIndex(db.cat, p) != Some(p) {
      JoinByIndexTyped(db, p);
      JoinByIndexRows(db, p);
    }
    hide Rows, Scoped, Wide, EquiColumns, MatchIndex, DbOk;
  }

  lemma {:induction false} JoinByIndexTyped(db: Db, p: Plan)
    requires IndexesOk(db) && Typed(db, p) && Shaped(p, true) && JoinByIndex(db.cat, p) != Some(p)
    ensures JoinByIndex(db.cat, p).Some?
    ensures Typed(db, JoinByIndex(db.cat, p).value) && Shaped(JoinByIndex(db.cat, p).value, true)
  {
    hide Scoped, Wide, EquiColumns, MatchIndex, IndexesOk, IndexOk;
    var right, columns := p.children[1], EquiColumns(p.op.pred).value;
    MatchedIndex(db, right.op.table, [columns.right]);
    IndexElems(db, [columns.right], Table(db, right.op.table), Entries(db, JoinByIndex(db.cat, p).value.op.index));
    WideEntries(Table(db, right.op.table), Entries(db, JoinByIndex(db.cat, p).value.op.index), |right.schema|);
    EquiScoped(p.op.pred, |p.children[0].schema|, |right.schema|);
  }

  lemma {:induction false} IndexElems(db: Db, keys: seq<nat>, rows: seq<Row>, entries: seq<Row>)
    requires IndexOk(db, keys, rows, entries)
    ensures multiset(entries) == multiset(rows)
  {
  }

  /** An equi-join with an unfiltered scan gives the rows of looking each left key up in the index. */
  lemma {:induction false} JoinByIndexRows(db: Db, p: Plan)
    requires DbOk(db) && Typed(db, p) && Shaped(p, true) && JoinByIndex(db.cat, p) != Some(p)
    ensures JoinByIndex(db.cat, p).Some? && Rows(db, JoinByIndex(db.cat, p).value) == Rows(db, p)
  {
    hide Scoped, Wide, EquiColumns, MatchIndex, IndexesOk, IndexOk, Rows, OthersOk, OrderOk;
    var q, left, right, columns := JoinByIndex(db.cat, p).value, p.children[0], p.children[1], EquiColumns(p.op.pred).value;
    MatchedIndex(db, right.op.table, [columns.right]);
    RowsWide(db, left);
    RowsOf(db, p);
    RowsOf(db, right);
    RowsOf(db, q);
    JoinIsIndexJoin(db, p.op.pred, p.op.kind, Rows(db, left), Table(db, right.op.table), Entries(db, q.op.index), |left.schema|, |right.schema|);
  }

  lemma {:induction false} SortByIndexSound(db: Db, p: Plan)
    requires DbOk(db) && Typed(db, p) && Shaped(p, true)
    ensures SortByIndex(db.cat, p).Some? && Preserved(db, p, SortByIndex(db.cat, p).value, true, true)
  {
    if SortByIndex(db.cat, p) != Some(p) {
      SortByIndexRows(db, p);
    }
    hide Rows, Scoped, Wide, OrderColumns, MatchIndex, DbOk;
  }

  /** An ascending sort of an unfiltered scan gives the rows of the index scan. */
  lemma {:induction false} SortByIndexRows(db: Db, p: Plan)
    requires DbOk(db) && Typed(db, p) && Shaped(p, true) && SortByIndex(db.cat, p) != Some(p)
    ensures SortByIndex(db.cat, p).Some? && Rows(db, SortByIndex(db.cat, p).value) == Rows(db, p)
    ensures Typed(db, SortByIndex(db.cat, p).value)
  {
    hide Wide, OrderColumns, MatchIndex, IndexesOk, IndexOk, Rows, OthersOk, OrderOk;
    var q, scan, columns := SortByIndex(db.cat, p).value, p.children[0], OrderColumns(p.op.orderBys).value;
    var t := scan.op.table;
    MatchedIndex(db, t, columns);
    IndexElems(db, columns, Table(db, t), Entries(db, q.op.index));
    WideEntries(Table(db, t), Entries(db, q.op.index), |p.schema|);
    AscendingOnly(p.op.orderBys);
    RowsOf(db, p);
    RowsOf(db, scan);
    RowsOf(db, q);
    SortIsIndexOrder(db, p.op.orderBys, Table(db, t), Entries(db, q.op.index));
  }

  lemma {:induction false} AscendingOnly(orderBys: seq<OrderBy>)
    requires OrderColumns(orderBys).Some?
    ensures forall i :: 0 <= i < |orderBys| ==> !orderBys[i].dir.Desc? && orderBys[i].expr.Col?
  {
    if orderBys != [] {
      AscendingOnly(orderBys[1..]);
      forall i | 0 <= i < |orderBys|
        ensures !orderBys[i].dir.Desc? && orderBys[i].expr.Col?
      {
        if i > 0 {
          assert orderBys[i] == orderBys[1..][i - 1];
        }
      }
    }
  }

  lemma {:induction false} FilterIntoScanSound(db: Db, p: Plan, plain: bool)
    requires DbOk(db) && Typed(db, p) && Shaped(p, plain)
    ensures FilterIntoScan(p).Some? && Preserved(db, p, FilterIntoScan(p).value, false, true)
  {
    ShapedAnyway(p, plain);
  }

  lemma {:induction false} DropTrueFilterSound(db: Db, p: Plan, plain: bool)
    requires DbOk(db) && Typed(db, p) && Shaped(p, plain)
    ensures DropTrueFilter(p).Some? && Preserved(db, p, DropTrueFilter(p).value, plain, false)
  {
    if p.op.Filter? && IsPredicateTrue(p.op.pred) {
      KeepTrue(db, p.op.pred, [], Rows(db, p.children[0]));
    }
  }

  /** Index rules need scans without filters. */
  predicate NeedsPlain(rule: Rule) {
    rule.NLJAsIndexJoin? || rule.OrderByAsIndexScan?
  }

  /** Only the filter-into-scan rule gives scans filters. */
  predicate StaysPlain(rule: Rule, plain: bool) {
    plain && !rule.MergeFilterScan?
  }

  lemma {:induction false} LocalSound(rule: Rule, db: Db, p: Plan, plain: bool)
    requires DbOk(db) && Typed(db, p) && Shaped(p, plain) && (NeedsPlain(rule) ==> plain)
    ensures Local(rule, db.cat, p).Some?
    ensures Preserved(db, p, Local(rule, db.cat, p).value, StaysPlain(rule, plain), !rule.EliminateTrueFilter?)
  {
    hide DbOk, Typed, Shaped, Preserved, DropIdentityProjection, FilterIntoJoin, JoinByIndex, SortByIndex, FilterIntoScan, DropTrueFilter;
    match rule
    case MergeProjection => DropIdentityProjectionSound(db, p, plain);
    case MergeFilterNLJ => FilterIntoJoinSound(db, p, plain);
    case NLJAsIndexJoin => JoinByIndexSound(db, p);
    case OrderByAsIndexScan => SortByIndexSound(db, p);
    case MergeFilterScan => FilterIntoScanSound(db, p, plain);
    case EliminateTrueFilter => DropTrueFilterSound(db, p, plain);
  }

  /**** Whole plans ****/

  /** One rule over the whole plan never throws and keeps rows, widths, types and shape. */
  lemma {:induction false} ApplySound(rule: Rule, db: Db, p: Plan, plain: bool)
    requires DbOk(db) && Typed(db, p) && Shaped(p, plain) && (NeedsPlain(rule) ==> plain)
    ensures Apply(rule, db.cat, p).Some?
    ensures Preserved(db, p, Apply(rule, db.cat, p).value, StaysPlain(rule, plain), !rule.EliminateTrueFilter?)
    decreases p
  {
    forall i | 0 <= i < |p.children|
      ensures Apply(rule, db.cat, p.children[i]).Some?
      ensures Preserved(db, p.children[i], Apply(rule, db.cat, p.children[i]).value, StaysPlain(rule, plain), !rule.EliminateTrueFilter?)
    {
      ApplySound(rule, db, p.children[i], plain);
    }
    var mid := p.(children := seq(|p.children|, i requires 0 <= i < |p.children| => Apply(rule, db.cat, p.children[i]).value));
    ApplyUnfold(rule, db.cat, p, mid);
    MidSound(db, p, mid, plain, StaysPlain(rule, plain), !rule.EliminateTrueFilter?);
    if rule.MergeFilterScan? {
      LocalSound(rule, db, mid, false);
    } else {
      LocalSound(rule, db, mid, plain);
    }
  }

  lemma {:induction false} ApplyUnfold(rule: Rule, cat: Catalog, p: Plan, mid: Plan)
    requires forall i :: 0 <= i < |p.children| ==> Apply(rule, cat, p.children[i]).Some?
    requires mid.schema == p.schema && mid.op == p.op && |mid.children| == |p.children|
    requires forall i :: 0 <= i < |p.children| ==> mid.children[i] == Apply(rule, cat, p.children[i]).value
    ensures Apply(rule, cat, p) == Local(rule, cat, mid)
  {
    var done := seq(|p.children|, i requires 0 <= i < |p.children| => Apply(rule, cat, p.children[i]));
    assert mid == p.(children := seq(|done|, i requires 0 <= i < |done| && done[i].Some? => done[i].value));
  }

  /** Putting preserved children under a node preserves the node. */
  lemma {:induction false} MidSound(db: Db, p: Plan, mid: Plan, plain: bool, still: bool, sameSchema: bool)
    requires Typed(db, p) && Shaped(p, plain) && (still ==> plain)
    requires mid.schema == p.schema && mid.op == p.op && |mid.children| == |p.children|
    requires forall i :: 0 <= i < |p.children| ==> Preserved(db, p.children[i], mid.children[i], still, sameSchema)
    ensures Preserved(db, p, mid, still, true)
  {
    RowsCongruent(db, mid, p);
  }

  /** No index rule comes after the filter-into-scan rule. */
  predicate Ordered(rules: seq<Rule>) {
    forall i, j :: 0 <= i < j < |rules| && rules[i].MergeFilterScan? ==> !NeedsPlain(rules[j])
  }

  /** Every pipeline in that order gives a plan with the same rows, in the same order. */
  lemma {:induction false} PipelineSound(rules: seq<Rule>, db: Db, p: Plan, plain: bool)
    requires DbOk(db) && Typed(db, p) && Shaped(p, plain) && Ordered(rules)
    requires plain || forall i :: 0 <= i < |rules| ==> !NeedsPlain(rules[i])
    ensures ApplyAll(rules, db.cat, p).Some?
    ensures
      var q := ApplyAll(rules, db.cat, p).value;
      && Rows(db, q) == Rows(db, p) && Typed(db, q) && |q.schema| == |p.schema|
      && (EliminateTrueFilter !in rules ==> q.schema == p.schema)
  {
    if rules == [] {
    } else {
      ApplySound(rules[0], db, p, plain);
      var q := Apply(rules[0], db.cat, p).value;
      PipelineSound(rules[1..], db, q, StaysPlain(rules[0], plain));
    }
  }

  /** Both shipped pipelines keep the exact rows and the schema of every planner-shaped plan, and never throw. */
  lemma {:induction false} OptimizeSound(forceStarterRules: bool, db: Db, p: Plan)
    requires DbOk(db) && Typed(db, p) && Shaped(p, true)
    ensures Optimize(forceStarterRules, db.cat, p).Some?
    ensures
      var q := Optimize(forceStarterRules, db.cat, p).value;
      Rows(db, q) == Rows(db, p) && q.schema == p.schema && Typed(db, q)
  {
    PipelineSound(if forceStarterRules then STARTER_RULES else CUSTOM_RULES, db, p, true);
  }
}
