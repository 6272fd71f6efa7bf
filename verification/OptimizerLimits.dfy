/**
 What the rules do outside planner shape, exactly: when a filter may move into a LEFT join, when a
 dropped scan filter shows, and that one pass of a rule leaves nothing for a second.
 */
module OptimizerLimits {
  import opened Sequences
  import opened Relational
  import opened Optimizer
  import opened OptimizerSound

  /**** Arrays ****/

  /** An array has the same value over a join as over one tuple exactly when it has no elements. */
  lemma {:induction false} ArrayOverJoin(db: Db, args: seq<Expr>, l: Row, r: Row)
    requires Rewritable(Call(Array, args), |l| + |r|) && forall i :: 0 <= i < |args| ==> ArrayFree(args[i])
    ensures Eval(db, Rewritten(Call(Array, args), |l|), [l, r]) == Eval(db, Call(Array, args), [l + r]) <==> args == []
  {
    var args' := Rewritten(Call(Array, args), |l|).args;
    var vs := seq(|args'|, i requires 0 <= i < |args'| => Eval(db, args'[i], [l, r]));
    var ws := seq(|args|, i requires 0 <= i < |args| => Eval(db, args[i], [l + r]));
    assert Eval(db, Rewritten(Call(Array, args), |l|), [l, r]) == Vector(Zeros(|vs|) + vs);
    assert Eval(db, Call(Array, args), [l + r]) == Vector(ws);
    assert |Zeros(|vs|) + vs| == |vs| + |vs|;
    if args == [] {
      assert Zeros(|vs|) + vs == ws;
    }
  }

  lemma {:induction false} BothArgs(db: Db, pred: Expr, tuples: seq<Row>)
    requires pred.Call? && pred.fn.Equal? && |pred.args| == 2
    ensures Eval(db, pred, tuples) == EqualValues(Eval(db, pred.args[0], tuples), Eval(db, pred.args[1], tuples))
  {
    var vs := seq(|pred.args|, i requires 0 <= i < |pred.args| => Eval(db, pred.args[i], tuples));
    assert vs[0] == Eval(db, pred.args[0], tuples) && vs[1] == Eval(db, pred.args[1], tuples);
  }

  /**** LEFT joins ****/

  /** The filter keeps at least one of the rows that a left row contributes to the always-true LEFT join. */
  predicate Survives(db: Db, pred: Expr, l: Row, rights: seq<Row>, rw: nat) {
    Keep(db, pred, [], Emit(Left, l, rights, rw)) != []
  }

  /** One left row: filtering after the LEFT join and joining on the filter differ exactly when nothing survives. */
  lemma {:induction false} LeftRow(db: Db, pred: Expr, l: Row, rights: seq<Row>, rw: nat)
    requires Wide(rights, rw) && Rewritable(pred, |l| + rw) && ArrayFree(pred)
    ensures
      var after := Keep(db, pred, [], Emit(Left, l, rights, rw));
      var on := Emit(Left, l, Keep(db, Rewritten(pred, |l|), [l], rights), rw);
      if after == [] then |on| == 1 else on == after
  {
    hide Rewritten, Rewritable, ArrayFree, Eval, NullRow;
    if rights == [] {
      KeepNothing(db, Rewritten(pred, |l|), [l]);
      var padded := l + NullRow(rw);
      assert Emit(Left, l, rights, rw) == [padded];
      assert [padded][1..] == [];
      KeepNothing(db, pred, []);
    } else {
      KeepPairs(db, pred, l, rights, rw);
      var kept := Keep(db, Rewritten(pred, |l|), [l], rights);
      assert Emit(Left, l, rights, rw) == Emit(Inner, l, rights, rw);
      assert kept != [] ==> Emit(Left, l, kept, rw) == Emit(Inner, l, kept, rw);
      assert |Emit(Inner, l, kept, rw)| == |kept|;
    }
  }

  /** How many left rows nothing survives of. */
  function Lost(db: Db, pred: Expr, lefts: seq<Row>, rights: seq<Row>, rw: nat): nat {
    if lefts == [] then 0
    else (if Survives(db, pred, lefts[0], rights, rw) then 0 else 1) + Lost(db, pred, lefts[1..], rights, rw)
  }

  lemma {:induction false} LostNone(db: Db, pred: Expr, lefts: seq<Row>, rights: seq<Row>, rw: nat)
    ensures Lost(db, pred, lefts, rights, rw) == 0 <==> forall l :: l in lefts ==> Survives(db, pred, l, rights, rw)
  {
    hide Survives;
    if lefts != [] {
      LostNone(db, pred, lefts[1..], rights, rw);
      assert forall l :: l in lefts <==> l == lefts[0] || l in lefts[1..];
    }
  }

  /** Over the whole join: the merged join has one extra row for each lost left row, and none otherwise. */
  lemma {:induction false} LeftJoinGrows(db: Db, truth: Expr, pred: Expr, lefts: seq<Row>, rights: seq<Row>, lw: nat, rw: nat)
    requires IsPredicateTrue(truth) && Wide(lefts, lw) && Wide(rights, rw) && Rewritable(pred, lw + rw) && ArrayFree(pred)
    ensures
      var after := Keep(db, pred, [], JoinRows(db, truth, Left, lefts, rights, rw));
      var on := JoinRows(db, Rewritten(pred, lw), Left, lefts, rights, rw);
      |on| == |after| + Lost(db, pred, lefts, rights, rw) && (Lost(db, pred, lefts, rights, rw) == 0 ==> on == after)
  {
    hide Rewritten, Rewritable, ArrayFree, Keep, Emit, IsPredicateTrue;
    if lefts == [] {
      KeepNothing(db, pred, []);
    } else {
      var l, rest := lefts[0], JoinRows(db, truth, Left, lefts[1..], rights, rw);
      KeepTrue(db, truth, [l], rights);
      KeepAppend(db, pred, [], Emit(Left, l, rights, rw), rest);
      LeftRow(db, pred, l, rights, rw);
      LeftJoinGrows(db, truth, pred, lefts[1..], rights, lw, rw);
    }
  }

  /** Merging a filter into an always-true LEFT join adds a row for each left row that the filter leaves nothing of; the rows are kept exactly when there is none. */
  lemma {:induction false} FilterIntoLeftJoin(db: Db, p: Plan)
    requires OthersOk(db) && Typed(db, p) && p.op.Filter? && p.children[0].op.NestedLoopJoin?
    requires IsPredicateTrue(p.children[0].op.pred) && p.children[0].op.kind.Left? && ArrayFree(p.op.pred)
    ensures FilterIntoJoin(p).Some?
    ensures
      var join := p.children[0];
      Rows(db, FilterIntoJoin(p).value) == Rows(db, p) <==>
        forall l :: l in Rows(db, join.children[0]) ==>
          Survives(db, p.op.pred, l, Rows(db, join.children[1]), |join.children[1].schema|)
    ensures
      var join := p.children[0];
      |Rows(db, FilterIntoJoin(p).value)| ==
        |Rows(db, p)| + Lost(db, p.op.pred, Rows(db, join.children[0]), Rows(db, join.children[1]), |join.children[1].schema|)
  {
    hide Scoped, Rewritten, Rewritable, ArrayFree, Wide, Rows, OthersOk, Survives, Lost;
    FilterIntoJoinParts(db, p);
    var join, q := p.children[0], FilterIntoJoin(p).value;
    hide FilterIntoJoin, IsPredicateTrue;
    RowsOf(db, p);
    RowsOf(db, join);
    RowsOf(db, q);
    hide Typed;
    var left, right := join.children[0], join.children[1];
    LeftJoinGrows(db, join.op.pred, p.op.pred, Rows(db, left), Rows(db, right), |left.schema|, |right.schema|);
    LostNone(db, p.op.pred, Rows(db, left), Rows(db, right), |right.schema|);
  }

  /**** Filtered scans ****/

  ghost predicate AllPass(db: Db, pred: Expr, rows: seq<Row>) {
    forall r :: r in rows ==> Passes(db, pred, [] + [r])
  }

  lemma {:induction false} KeepAll(db: Db, pred: Expr, rows: seq<Row>)
    ensures |Keep(db, pred, [], rows)| <= |rows|
    ensures |Keep(db, pred, [], rows)| == |rows| <==> AllPass(db, pred, rows)
    ensures AllPass(db, pred, rows) ==> Keep(db, pred, [], rows) == rows
  {
    hide Passes;
    if rows == [] {
    } else {
      KeepAll(db, pred, rows[1..]);
      assert forall r :: r in rows <==> r == rows[0] || r in rows[1..];
      assert rows == [rows[0]] + rows[1..];
    }
  }

  /** The sort-by-index rule over a filtered scan keeps the rows exactly when the filter keeps every row of the table. */
  lemma {:induction false} SortOverFilteredScan(db: Db, p: Plan)
    requires DbOk(db) && Typed(db, p) && SortByIndex(db.cat, p) != Some(p) && NodeShaped(p.op, true)
    requires p.children[0].op.filter.Some?
    ensures SortByIndex(db.cat, p).Some?
    ensures Rows(db, SortByIndex(db.cat, p).value) == Rows(db, p) <==>
      AllPass(db, p.children[0].op.filter.value, Table(db, p.children[0].op.table))
  {
    hide Wide, OrderColumns, MatchIndex, IndexesOk, IndexOk, Rows, OthersOk, OrderOk, AllPass;
    var q, scan, columns := SortByIndex(db.cat, p).value, p.children[0], OrderColumns(p.op.orderBys).value;
    var rows, entries, kept := Table(db, scan.op.table), Entries(db, q.op.index), Keep(db, scan.op.filter.value, [], Table(db, scan.op.table));
    MatchedIndex(db, scan.op.table, columns);
    IndexElems(db, columns, rows, entries);
    AscendingOnly(p.op.orderBys);
    RowsOf(db, p);
    RowsOf(db, scan);
    RowsOf(db, q);
    SortIsIndexOrder(db, p.op.orderBys, rows, entries);
    SortElems(db, p.op.orderBys, kept);
    KeepAll(db, scan.op.filter.value, rows);
    assert |multiset(SortRows(db, p.op.orderBys, kept))| == |multiset(kept)|;
    assert |multiset(entries)| == |multiset(rows)|;
  }

  /** A sort over a filter over a table with an index on the sort columns. */
  function SortedQuery(schema: Schema, orderBys: seq<OrderBy>, pred: Expr, t: TableId): Plan {
    Plan(schema, Sort(orderBys), [Plan(schema, Filter(pred), [Plan(schema, SeqScan(t, None), [])])])
  }

  /**
   The pass order matters: with filters merged into scans before the sort-by-index rule, the query keeps
   its rows exactly when the filter was useless; in the shipped order it always does.
   */
  lemma {:induction false} MergingScansFirst(db: Db, schema: Schema, orderBys: seq<OrderBy>, pred: Expr, t: TableId)
    requires DbOk(db) && Typed(db, SortedQuery(schema, orderBys, pred, t)) && Shaped(SortedQuery(schema, orderBys, pred, t), true)
    requires OrderColumns(orderBys).Some? && MatchIndex(db.cat, t, OrderColumns(orderBys).value).Some?
    ensures
      var p := SortedQuery(schema, orderBys, pred, t);
      var early, late := ApplyAll([MergeFilterScan, OrderByAsIndexScan], db.cat, p), ApplyAll([OrderByAsIndexScan, MergeFilterScan], db.cat, p);
      && early.Some? && late.Some? && Rows(db, late.value) == Rows(db, p)
      && (Rows(db, early.value) == Rows(db, p) <==> AllPass(db, pred, Table(db, t)))
  {
    var p := SortedQuery(schema, orderBys, pred, t);
    hide Rows, AllPass, DbOk, Typed, Shaped, ApplyAll, OrderColumns, MatchIndex;
    PipelineSound([OrderByAsIndexScan, MergeFilterScan], db, p, true);
    EarlyMerge(db, schema, orderBys, pred, t);
  }

  lemma {:induction false} EarlyMerge(db: Db, schema: Schema, orderBys: seq<OrderBy>, pred: Expr, t: TableId)
    requires DbOk(db) && Typed(db, SortedQuery(schema, orderBys, pred, t)) && Shaped(SortedQuery(schema, orderBys, pred, t), true)
    requires OrderColumns(orderBys).Some? && MatchIndex(db.cat, t, OrderColumns(orderBys).value).Some?
    ensures
      var p := SortedQuery(schema, orderBys, pred, t);
      var early := ApplyAll([MergeFilterScan, OrderByAsIndexScan], db.cat, p);
      early.Some? && (Rows(db, early.value) == Rows(db, p) <==> AllPass(db, pred, Table(db, t)))
  {
    var p := SortedQuery(schema, orderBys, pred, t);
    var mid := Plan(schema, Sort(orderBys), [Plan(schema, SeqScan(t, Some(pred)), [])]);
    hide Rows, AllPass, DbOk, Typed, OrderColumns, MatchIndex;
    ApplySound(MergeFilterScan, db, p, true);
    MergedSortedQuery(db, schema, orderBys, pred, t);
    TwoRules(MergeFilterScan, OrderByAsIndexScan, db.cat, p, mid);
    LeafApply(OrderByAsIndexScan, db.cat, mid.children[0]);
    ApplyUnfold(OrderByAsIndexScan, db.cat, mid, mid);
    hide Apply, ApplyAll;
    SortOverFilteredScan(db, mid);
  }

  lemma {:induction false} TwoRules(a: Rule, b: Rule, cat: Catalog, p: Plan, mid: Plan)
    requires Apply(a, cat, p) == Some(mid)
    ensures ApplyAll([a, b], cat, p) == Apply(b, cat, mid)
  {
    hide Apply;
    assert [a, b][1..] == [b] && [b][1..] == [];
    assert forall q :: ApplyAll([], cat, q) == Some(q);
  }

  lemma {:induction false} LeafApply(rule: Rule, cat: Catalog, p: Plan)
    requires (p.op.SeqScan? || p.op.IndexScan?) && p.children == []
    ensures Apply(rule, cat, p) == Some(p)
  {
    ApplyUnfold(rule, cat, p, p);
  }

  lemma {:induction false} MergedSortedQuery(db: Db, schema: Schema, orderBys: seq<OrderBy>, pred: Expr, t: TableId)
    ensures Apply(MergeFilterScan, db.cat, SortedQuery(schema, orderBys, pred, t)) ==
      Some(Plan(schema, Sort(orderBys), [Plan(schema, SeqScan(t, Some(pred)), [])]))
  {
    var p := SortedQuery(schema, orderBys, pred, t);
    var filter := p.children[0];
    var scan := filter.children[0];
    LeafApply(MergeFilterScan, db.cat, scan);
    ApplyUnfold(MergeFilterScan, db.cat, filter, filter);
    var merged := Plan(schema, SeqScan(t, Some(pred)), []);
    ApplyUnfold(MergeFilterScan, db.cat, p, p.(children := [merged]));
  }

  lemma {:induction false} KeepSwap(db: Db, pred: Expr, l: Row, filter: Expr, rows: seq<Row>)
    ensures Keep(db, pred, [l], Keep(db, filter, [], rows)) == Keep(db, filter, [], Keep(db, pred, [l], rows))
  {
    hide Passes;
    if rows == [] {
    } else {
      KeepSwap(db, pred, l, filter, rows[1..]);
      var r, kept, matched := rows[0], Keep(db, filter, [], rows[1..]), Keep(db, pred, [l], rows[1..]);
      assert ([r] + kept)[1..] == kept && ([r] + matched)[1..] == matched;
    }
  }

  /** Every index match of every left row passes the filter that the rule drops. */
  ghost predicate MatchesPass(db: Db, key: EquiKey, lefts: seq<Row>, entries: seq<Row>, filter: Expr) {
    forall l :: l in lefts ==> AllPass(db, filter, Lookup(entries, key.right, Eval(db, key.left, [l])))
  }

  /** One left row: at most one entry matches, and a match, its key not null, is never the padded row. */
  lemma {:induction false} FilteredMatches(db: Db, kind: JoinKind, filter: Expr, l: Row, entries: seq<Row>, col: nat, v: Value, rw: nat)
    requires OrderOk(db) && forall i, j :: 0 <= i < j < |entries| ==> RowLess(db, Ascending([col]), entries[i], entries[j])
    requires Wide(entries, rw)
    ensures
      var matches := Lookup(entries, col, v);
      var on, found := Emit(kind, l, Keep(db, filter, [], matches), rw), Emit(kind, l, matches, rw);
      && (on == found <==> AllPass(db, filter, matches))
      && (if kind.Left? then |on| == |found| == 1 else |on| <= |found| && (|on| == |found| ==> on == found))
  {
    LookupUnique(db, entries, col, v);
    LookupSubset(entries, col, v);
    var matches := Lookup(entries, col, v);
    hide Lookup, RowLess, OrderOk, AllPass, Passes;
    KeepAll(db, filter, matches);
    hide Keep;
    var kept := Keep(db, filter, [], matches);
    if kept == [] && matches != [] {
      assert (l + matches[0])[|l| + col] == matches[0][col];
      assert (l + NullRow(rw))[|l| + col] == Null;
      assert kind.Left? ==> Emit(kind, l, matches, rw)[0] == l + matches[0];
    }
  }

  lemma {:induction false} SameSplit(a: seq<Row>, b: seq<Row>, c: seq<Row>, d: seq<Row>)
    requires |a| == |c|
    ensures a + b == c + d <==> a == c && b == d
  {
    if a + b == c + d {
      assert a == (a + b)[..|a|] && c == (c + d)[..|c|];
      assert b == (a + b)[|a|..] && d == (c + d)[|c|..];
    }
  }

  /** Each kind of join: dropping the filter of the right side keeps the rows exactly when it keeps every match. */
  lemma {:induction false} FilteredJoin(db: Db, pred: Expr, kind: JoinKind, filter: Expr, lefts: seq<Row>, rows: seq<Row>, entries: seq<Row>, lw: nat, rw: nat)
    requires OrderOk(db) && EquiColumns(pred).Some? && Scoped(pred, [lw, rw]) && Wide(lefts, lw) && Wide(rows, rw)
    requires IndexOk(db, [EquiColumns(pred).value.right], rows, entries)
    ensures
      var key := EquiColumns(pred).value;
      var on := JoinRows(db, pred, kind, lefts, Keep(db, filter, [], rows), rw);
      var found := IndexJoinRows(db, key.left, key.right, kind, lefts, entries, rw);
      && (on == found <==> MatchesPass(db, key, lefts, entries, filter))
      && (if kind.Left? then |on| == |found| else |on| <= |found| && (|on| == |found| ==> on == found))
  {
    if lefts == [] {
    } else {
      var key, l := EquiColumns(pred).value, lefts[0];
      var v := Eval(db, key.left, [l]);
      WideEntries(rows, entries, rw);
      FilteredMatches(db, kind, filter, l, entries, key.right, v, rw);
      hide OrderOk, IndexOk, Scoped, EquiColumns, Keep, Lookup, AllPass, Eval, Emit, RowLess;
      var matches := Lookup(entries, key.right, v);
      KeepSwap(db, pred, l, filter, rows);
      KeepIsLookup(db, pred, l, rows, rw);
      LookupSame(db, rows, entries, key.right, v);
      FilteredJoin(db, pred, kind, filter, lefts[1..], rows, entries, lw, rw);
      var on, found := Emit(kind, l, Keep(db, filter, [], matches), rw), Emit(kind, l, matches, rw);
      if |on| == |found| {
        SameSplit(on, JoinRows(db, pred, kind, lefts[1..], Keep(db, filter, [], rows), rw),
                  found, IndexJoinRows(db, key.left, key.right, kind, lefts[1..], entries, rw));
      }
      assert forall l' :: l' in lefts <==> l' == l || l' in lefts[1..];
    }
  }

  /** The index-join rule over a filtered scan keeps the rows exactly when the filter keeps every index match. */
  lemma {:induction false} IndexJoinOverFilteredScan(db: Db, p: Plan)
    requires DbOk(db) && Typed(db, p) && JoinByIndex(db.cat, p) != Some(p)
    requires p.children[1].op.filter.Some?
    ensures JoinByIndex(db.cat, p).Some?
    ensures Rows(db, JoinByIndex(db.cat, p).value) == Rows(db, p) <==>
      MatchesPass(db, EquiColumns(p.op.pred).value, Rows(db, p.children[0]), Entries(db, JoinByIndex(db.cat, p).value.op.index), p.children[1].op.filter.value)
  {
    hide Scoped, Wide, EquiColumns, MatchIndex, IndexesOk, IndexOk, Rows, OthersOk, OrderOk, MatchesPass, Keep;
    var q, left, right, key := JoinByIndex(db.cat, p).value, p.children[0], p.children[1], EquiColumns(p.op.pred).value;
    MatchedIndex(db, right.op.table, [key.right]);
    RowsWide(db, left);
    RowsOf(db, p);
    RowsOf(db, right);
    RowsOf(db, q);
    FilteredJoin(db, p.op.pred, p.op.kind, right.op.filter.value, Rows(db, left), Table(db, right.op.table), Entries(db, q.op.index), |left.schema|, |right.schema|);
  }

  /**** Normal forms ****/

  /** The rule has nothing to do at any node. */
  predicate Normal(rule: Rule, cat: Catalog, p: Plan) {
    Local(rule, cat, p) == Some(p) && forall i :: 0 <= i < |p.children| ==> Normal(rule, cat, p.children[i])
  }

  /** The table has an index on exactly these key columns. */
  predicate Indexed(cat: Catalog, t: TableId, keys: seq<nat>) {
    t in cat.tableIndexes && exists i :: 0 <= i < |cat.tableIndexes[t]| && cat.tableIndexes[t][i] in cat.keys && cat.keys[cat.tableIndexes[t][i]] == keys
  }

  /** An equality of a column of the left tuple and column `right` of the right one, in either order. */
  predicate Equates(pred: Expr, right: nat) {
    && pred.Call? && pred.fn == Equal && |pred.args| == 2 && pred.args[0].Col? && pred.args[1].Col?
    && (|| (pred.args[0].tuple == 0 && pred.args[1].tuple == 1 && pred.args[1].col == right)
        || (pred.args[0].tuple == 1 && pred.args[1].tuple == 0 && pred.args[0].col == right))
  }

  function SortColumns(orderBys: seq<OrderBy>): seq<nat> {
    seq(|orderBys|, i requires 0 <= i < |orderBys| => if orderBys[i].expr.Col? then orderBys[i].expr.col else 0)
  }

  /** What each rule is there to rewrite. */
  ghost predicate Redex(rule: Rule, cat: Catalog, p: Plan) {
    match rule
    case MergeProjection =>
      && p.op.Projection? && |p.children| == 1 && |p.children[0].schema| == |p.schema|
      && (forall i :: 0 <= i < |p.schema| ==> p.children[0].schema[i].ty == p.schema[i].ty)
      && (forall i :: 0 <= i < |p.op.exprs| ==> p.op.exprs[i].Col? && p.op.exprs[i].tuple == 0 && p.op.exprs[i].col == i)
    case MergeFilterNLJ =>
      && p.op.Filter? && |p.children| == 1 && |p.children[0].children| == 2
      && p.children[0].op.NestedLoopJoin? && p.children[0].op.pred == Const(Boolean(true))
    case NLJAsIndexJoin =>
      && p.op.NestedLoopJoin? && |p.children| == 2 && p.children[1].op.SeqScan?
      && exists right: nat :: Equates(p.op.pred, right) && Indexed(cat, p.children[1].op.table, [right])
    case OrderByAsIndexScan =>
      && p.op.Sort? && |p.children| == 1 && p.children[0].op.SeqScan?
      && (forall i :: 0 <= i < |p.op.orderBys| ==> p.op.orderBys[i].dir != Desc && p.op.orderBys[i].expr.Col?)
      && Indexed(cat, p.children[0].op.table, SortColumns(p.op.orderBys))
    case MergeFilterScan =>
      p.op.Filter? && |p.children| == 1 && p.children[0].op.SeqScan? && p.children[0].op.filter == None
    case EliminateTrueFilter => p.op.Filter? && |p.children| == 1 && p.op.pred == Const(Boolean(true))
  }

  lemma {:induction false} MatchIffIndexed(cat: Catalog, t: TableId, keys: seq<nat>)
    ensures MatchIndex(cat, t, keys).Some? <==> Indexed(cat, t, keys)
  {
  }

  lemma {:induction false} ColumnsIff(orderBys: seq<OrderBy>)
    ensures OrderColumns(orderBys).Some? <==> forall i :: 0 <= i < |orderBys| ==> orderBys[i].dir != Desc && orderBys[i].expr.Col?
    ensures OrderColumns(orderBys).Some? ==> OrderColumns(orderBys).value == SortColumns(orderBys)
  {
    if orderBys != [] {
      ColumnsIff(orderBys[1..]);
      assert forall i :: 1 <= i < |orderBys| ==> orderBys[i] == orderBys[1..][i - 1];
      assert forall i :: 0 <= i < |orderBys[1..]| ==> orderBys[1..][i] == orderBys[i + 1];
    }
  }

  lemma {:induction false} EquatesIff(pred: Expr, right: nat)
    ensures Equates(pred, right) <==> EquiColumns(pred).Some? && EquiColumns(pred).value.right == right
  {
  }

  /** Each rule leaves a node alone exactly when it is none of those. */
  lemma {:induction false} RedexIff(rule: Rule, cat: Catalog, p: Plan)
    requires Local(rule, cat, p).Some?
    ensures Local(rule, cat, p) == Some(p) <==> !Redex(rule, cat, p)
  {
    match rule
    case MergeProjection =>
      if p.op.Projection? && |p.children| == 1 {
        SmallerChild(p);
        SameSize(p.children[0], p.schema);
      }
    case MergeFilterNLJ =>
    case NLJAsIndexJoin => JoinRedexIff(cat, p);
    case OrderByAsIndexScan => SortRedexIff(cat, p);
    case MergeFilterScan =>
    case EliminateTrueFilter =>
      if p.op.Filter? && |p.children| == 1 {
        SmallerChild(p);
      }
  }

  lemma {:induction false} SmallerChild(p: Plan)
    requires |p.children| == 1
    ensures Size(p) == 1 + Size(p.children[0])
  {
    assert p.children == [p.children[0]];
    OverIsLarger(p.children[0], p);
  }

  lemma {:induction false} SameSize(p: Plan, schema: Schema)
    ensures Size(p.(schema := schema)) == Size(p)
  {
  }

  lemma {:induction false} JoinRedexIff(cat: Catalog, p: Plan)
    requires JoinByIndex(cat, p).Some?
    ensures JoinByIndex(cat, p) == Some(p) <==> !Redex(NLJAsIndexJoin, cat, p)
  {
    hide Equates, EquiColumns, Indexed, MatchIndex;
    if p.op.NestedLoopJoin? && p.children[1].op.SeqScan? {
      if EquiColumns(p.op.pred).Some? {
        EquatesIff(p.op.pred, EquiColumns(p.op.pred).value.right);
        MatchIffIndexed(cat, p.children[1].op.table, [EquiColumns(p.op.pred).value.right]);
      }
      forall right: nat | Equates(p.op.pred, right)
        ensures EquiColumns(p.op.pred).Some? && EquiColumns(p.op.pred).value.right == right
      {
        EquatesIff(p.op.pred, right);
      }
    }
  }

  lemma {:induction false} SortRedexIff(cat: Catalog, p: Plan)
    requires SortByIndex(cat, p).Some?
    ensures SortByIndex(cat, p) == Some(p) <==> !Redex(OrderByAsIndexScan, cat, p)
  {
    hide OrderColumns, Indexed, MatchIndex;
    if p.op.Sort? {
      ColumnsIff(p.op.orderBys);
      if OrderColumns(p.op.orderBys).Some? && p.children[0].op.SeqScan? {
        MatchIffIndexed(cat, p.children[0].op.table, OrderColumns(p.op.orderBys).value);
      }
    }
  }

  /** No node of the plan is one that the rule is there to rewrite. */
  ghost predicate NoRedex(rule: Rule, cat: Catalog, p: Plan) {
    !Redex(rule, cat, p) && forall i :: 0 <= i < |p.children| ==> NoRedex(rule, cat, p.children[i])
  }

  lemma {:induction false} NormalNoRedex(rule: Rule, cat: Catalog, p: Plan)
    requires Normal(rule, cat, p)
    ensures NoRedex(rule, cat, p)
    decreases p
  {
    hide Redex, Local;
    RedexIff(rule, cat, p);
    forall i | 0 <= i < |p.children|
      ensures NoRedex(rule, cat, p.children[i])
    {
      NormalNoRedex(rule, cat, p.children[i]);
    }
  }

  /** One bottom-up pass of a rule leaves none of what it is there to rewrite. */
  lemma {:induction false} ApplyLeavesNoRedex(rule: Rule, cat: Catalog, p: Plan)
    requires Apply(rule, cat, p).Some?
    ensures NoRedex(rule, cat, Apply(rule, cat, p).value)
  {
    hide Apply, Normal, NoRedex;
    ApplyNormal(rule, cat, p);
    NormalNoRedex(rule, cat, Apply(rule, cat, p).value);
  }

  /** Renaming a plan's columns gives the projection rule nothing to do. */
  lemma {:induction false} RenamedNormal(cat: Catalog, p: Plan, schema: Schema)
    requires Normal(MergeProjection, cat, p) && SameTypes(p.schema, schema)
    ensures Normal(MergeProjection, cat, p.(schema := schema))
  {
    if p.op.Projection? {
      var child := p.children[0];
      assert !(SameTypes(child.schema, p.schema) && Identity(p.op.exprs));
    }
  }

  /** A local rewrite of a node over normal children gives a normal plan. */
  lemma {:induction false} LocalNormal(rule: Rule, cat: Catalog, p: Plan)
    requires forall i :: 0 <= i < |p.children| ==> Normal(rule, cat, p.children[i])
    requires Local(rule, cat, p).Some?
    ensures Normal(rule, cat, Local(rule, cat, p).value)
  {
    var q := Local(rule, cat, p).value;
    if q != p && rule.MergeProjection? {
      RenamedNormal(cat, p.children[0], p.schema);
    }
    hide RewriteExpressionForJoin, EquiColumns, MatchIndex, OrderColumns;
  }

  /** One bottom-up pass reaches normal form, even where a merge exposes a match to the parent. */
  lemma {:induction false} ApplyNormal(rule: Rule, cat: Catalog, p: Plan)
    requires Apply(rule, cat, p).Some?
    ensures Normal(rule, cat, Apply(rule, cat, p).value)
    decreases p
  {
    hide Local;
    forall i | 0 <= i < |p.children|
      ensures Apply(rule, cat, p.children[i]).Some? && Normal(rule, cat, Apply(rule, cat, p.children[i]).value)
    {
      var done := seq(|p.children|, j requires 0 <= j < |p.children| => Apply(rule, cat, p.children[j]));
      assert done[i].Some?;
      ApplyNormal(rule, cat, p.children[i]);
    }
    var mid := p.(children := seq(|p.children|, i requires 0 <= i < |p.children| => Apply(rule, cat, p.children[i]).value));
    ApplyUnfold(rule, cat, p, mid);
    LocalNormal(rule, cat, mid);
  }

  lemma {:induction false} NormalFixed(rule: Rule, cat: Catalog, p: Plan)
    requires Normal(rule, cat, p)
    ensures Apply(rule, cat, p) == Some(p)
    decreases p
  {
    hide Local;
    forall i | 0 <= i < |p.children|
      ensures Apply(rule, cat, p.children[i]) == Some(p.children[i])
    {
      NormalFixed(rule, cat, p.children[i]);
    }
    ApplyUnfold(rule, cat, p, p);
  }

  /** Applying a rule twice is applying it once. */
  lemma {:induction false} ApplyTwice(rule: Rule, cat: Catalog, p: Plan)
    requires Apply(rule, cat, p).Some?
    ensures Apply(rule, cat, Apply(rule, cat, p).value) == Apply(rule, cat, p)
  {
    ApplyNormal(rule, cat, p);
    NormalFixed(rule, cat, Apply(rule, cat, p).value);
  }

  /**** Join pipelines ****/

  /** A join with a filter over a table with an index on the join column. */
  function JoinedQuery(schema: Schema, pred: Expr, kind: JoinKind, left: Plan, inner: Schema, filter: Expr, t: TableId): Plan {
    Plan(schema, NestedLoopJoin(pred, kind), [left, Plan(inner, Filter(filter), [Plan(inner, SeqScan(t, None), [])])])
  }

  /**
   The pass order matters for joins too: with filters merged into scans before the index-join rule, the
   query keeps its rows exactly when the filter passes every index match; in the shipped order it always
   does. The left side is any plan without a filter to merge.
   */
  lemma {:induction false} MergingScansBeforeJoins(db: Db, schema: Schema, pred: Expr, kind: JoinKind, left: Plan, inner: Schema, filter: Expr, t: TableId)
    requires
      var p := JoinedQuery(schema, pred, kind, left, inner, filter, t);
      DbOk(db) && Typed(db, p) && Shaped(p, true) && Normal(MergeFilterScan, db.cat, left)
    requires EquiColumns(pred).Some? && MatchIndex(db.cat, t, [EquiColumns(pred).value.right]).Some?
    ensures
      var p := JoinedQuery(schema, pred, kind, left, inner, filter, t);
      var index := MatchIndex(db.cat, t, [EquiColumns(pred).value.right]).value;
      var early, late := ApplyAll([MergeFilterScan, NLJAsIndexJoin], db.cat, p), ApplyAll([NLJAsIndexJoin, MergeFilterScan], db.cat, p);
      && early.Some? && late.Some? && Rows(db, late.value) == Rows(db, p)
      && (Rows(db, early.value) == Rows(db, p) <==> MatchesPass(db, EquiColumns(pred).value, Rows(db, left), Entries(db, index), filter))
  {
    var p := JoinedQuery(schema, pred, kind, left, inner, filter, t);
    var scan := Plan(inner, SeqScan(t, Some(filter)), []);
    var mid := p.(children := [left, scan]);
    assert Shaped(left, true) && Typed(db, left) by {
      assert p.children[0] == left;
    }
    hide Rows, MatchesPass, DbOk, Typed, Shaped, ApplyAll, EquiColumns, MatchIndex;
    PipelineSound([NLJAsIndexJoin, MergeFilterScan], db, p, true);
    ApplySound(MergeFilterScan, db, p, true);
    MergedJoinedQuery(db, schema, pred, kind, left, inner, filter, t);
    TwoRules(MergeFilterScan, NLJAsIndexJoin, db.cat, p, mid);
    hide JoinedQuery;
    JoinOverMergedScan(db, mid, left, scan);
  }

  lemma {:induction false} MergedJoinedQuery(db: Db, schema: Schema, pred: Expr, kind: JoinKind, left: Plan, inner: Schema, filter: Expr, t: TableId)
    requires Normal(MergeFilterScan, db.cat, left)
    ensures
      var p := JoinedQuery(schema, pred, kind, left, inner, filter, t);
      Apply(MergeFilterScan, db.cat, p) == Some(p.(children := [left, Plan(inner, SeqScan(t, Some(filter)), [])]))
  {
    var p := JoinedQuery(schema, pred, kind, left, inner, filter, t);
    var filtered := p.children[1];
    NormalFixed(MergeFilterScan, db.cat, left);
    LeafApply(MergeFilterScan, db.cat, filtered.children[0]);
    ApplyUnfold(MergeFilterScan, db.cat, filtered, filtered);
    hide Apply;
    ApplyUnfold(MergeFilterScan, db.cat, p, p.(children := [left, Plan(inner, SeqScan(t, Some(filter)), [])]));
  }

  /** The index-join rule over a whole join whose right side is a filtered scan. */
  lemma {:induction false} JoinOverMergedScan(db: Db, mid: Plan, left: Plan, scan: Plan)
    requires DbOk(db) && Typed(db, mid) && Shaped(mid, false) && Shaped(left, true) && mid.op.NestedLoopJoin? && mid.children == [left, scan]
    requires scan.op.SeqScan? && scan.op.filter.Some? && scan.children == []
    requires EquiColumns(mid.op.pred).Some? && MatchIndex(db.cat, scan.op.table, [EquiColumns(mid.op.pred).value.right]).Some?
    ensures
      var index := MatchIndex(db.cat, scan.op.table, [EquiColumns(mid.op.pred).value.right]).value;
      var early := Apply(NLJAsIndexJoin, db.cat, mid);
      && early.Some?
      && (Rows(db, early.value) == Rows(db, mid) <==>
          MatchesPass(db, EquiColumns(mid.op.pred).value, Rows(db, left), Entries(db, index), scan.op.filter.value))
  {
    hide Rows, MatchesPass, DbOk, Typed, EquiColumns, MatchIndex, Apply, Shaped;
    var join := JoinOverRewritten(db, mid, left, scan);
    IndexJoinOverFilteredScan(db, join);
  }

  lemma {:induction false} SidesFit(db: Db, p: Plan, plain: bool)
    requires Typed(db, p) && Shaped(p, plain) && |p.children| == 2
    ensures Typed(db, p.children[0]) && Typed(db, p.children[1]) && Shaped(p.children[0], plain) && Shaped(p.children[1], plain)
  {
  }

  /** Its left side has been rewritten first, keeping the join's rows. */
  lemma {:induction false} JoinOverRewritten(db: Db, mid: Plan, left: Plan, scan: Plan) returns (join: Plan)
    requires DbOk(db) && Typed(db, mid) && Shaped(mid, false) && Shaped(left, true) && mid.op.NestedLoopJoin? && mid.children == [left, scan]
    requires scan.op.SeqScan? && scan.op.filter.Some? && scan.children == []
    ensures |join.children| == 2 && join == mid.(children := [join.children[0], scan])
    ensures Apply(NLJAsIndexJoin, db.cat, mid) == JoinByIndex(db.cat, join)
    ensures Typed(db, join) && Rows(db, join) == Rows(db, mid) && Rows(db, join.children[0]) == Rows(db, left)
  {
    hide Rows, DbOk, Typed, Shaped, JoinByIndex, Apply;
    SidesFit(db, mid, false);
    ApplySound(NLJAsIndexJoin, db, left, true);
    var left' := Apply(NLJAsIndexJoin, db.cat, left).value;
    ShapedAnyway(left', true);
    LeafApply(NLJAsIndexJoin, db.cat, scan);
    join := mid.(children := [left', scan]);
    ApplyUnfold(NLJAsIndexJoin, db.cat, mid, join);
    MidSound(db, mid, join, false, false, true);
  }
}
