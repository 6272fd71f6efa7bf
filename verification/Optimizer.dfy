/**
 The rewrite rules, each a local rewrite of one node applied bottom-up over the plan, and the two
 rule pipelines. None is an aborted or throwing optimizer.
 */
module Optimizer {
  import opened Sequences
  import opened Relational

  datatype Rule =
    | MergeProjection
    | MergeFilterNLJ
    | NLJAsIndexJoin
    | OrderByAsIndexScan
    | MergeFilterScan
    | EliminateTrueFilter

  /**** Expressions ****/

  /** The join rewrite of e does not throw: all its columns are of tuple 0 and in range. */
  predicate Rewritable(e: Expr, width: nat) {
    match e
    case Col(t, c, _) => t == 0 && c < width
    case Const(_) => true
    case Call(_, args) => forall i :: 0 <= i < |args| ==> Rewritable(args[i], width)
  }

  function Rewritten(e: Expr, left: nat): Expr {
    match e
    case Col(t, c, ret) => if c < left then Col(0, c, ret) else Col(1, c - left, ret)
    case Const(_) => e
    case Call(fn, args) => Call(fn, seq(|args|, i requires 0 <= i < |args| => Rewritten(args[i], left)))
  }

  function RewriteExpressionForJoin(e: Expr, left: nat, right: nat): Option<Expr> {
    if Rewritable(e, left + right) then Some(Rewritten(e, left)) else None
  }

  predicate IsPredicateTrue(e: Expr) {
    e == Const(Boolean(true))
  }

  /**** Catalog searches ****/

  /** The first of the indexes whose key columns are exactly `keys`. */
  function FirstIndex(cat: Catalog, ids: seq<IndexId>, keys: seq<nat>): (r: Option<IndexId>)
    ensures r.Some? ==> r.value in cat.keys && cat.keys[r.value] == keys
    ensures r.Some? ==> exists i ::
      && 0 <= i < |ids| && ids[i] == r.value
      && forall j :: 0 <= j < i ==> ids[j] !in cat.keys || cat.keys[ids[j]] != keys
    ensures r.None? ==> forall i :: 0 <= i < |ids| ==> ids[i] !in cat.keys || cat.keys[ids[i]] != keys
  {
    if ids == [] then None
    else if ids[0] in cat.keys && cat.keys[ids[0]] == keys then Some(ids[0])
    else FirstIndex(cat, ids[1..], keys)
  }

  function MatchIndex(cat: Catalog, t: TableId, keys: seq<nat>): Option<IndexId> {
    if t in cat.tableIndexes then FirstIndex(cat, cat.tableIndexes[t], keys) else None
  }

  /** The columns an ascending order-by list sorts on; None when some item is descending or no plain column. */
  function OrderColumns(orderBys: seq<OrderBy>): Option<seq<nat>> {
    if orderBys == [] then Some([])
    else
      var rest := OrderColumns(orderBys[1..]);
      if orderBys[0].dir.Desc? || !orderBys[0].expr.Col? || rest.None? then None
      else Some([orderBys[0].expr.col] + rest.value)
  }

  /**** The local rewrites ****/

  predicate SameTypes(s: Schema, t: Schema) {
    |s| == |t| && forall i :: 0 <= i < |s| ==> s[i].ty == t[i].ty
  }

  /** Expression i is column i of the child. */
  predicate Identity(exprs: seq<Expr>) {
    forall i :: 0 <= i < |exprs| ==> exprs[i].Col? && exprs[i].tuple == 0 && exprs[i].col == i
  }

  function DropIdentityProjection(p: Plan): Option<Plan> {
    if !p.op.Projection? then Some(p)
    else if |p.children| != 1 then None
    else if SameTypes(p.children[0].schema, p.schema) && Identity(p.op.exprs) then Some(p.children[0].(schema := p.schema))
    else Some(p)
  }

  function FilterIntoJoin(p: Plan): Option<Plan> {
    if !p.op.Filter? then Some(p)
    else if |p.children| != 1 then None
    else
      var join := p.children[0];
      if !join.op.NestedLoopJoin? then Some(p)
      else if |join.children| != 2 then None
      else if !IsPredicateTrue(join.op.pred) then Some(p)
      else
        var pred := RewriteExpressionForJoin(p.op.pred, |join.children[0].schema|, |join.children[1].schema|);
        if pred.None? then None
        else Some(Plan(p.schema, NestedLoopJoin(pred.value, join.op.kind), join.children))
  }

  /** An equality of one column of the left and one of the right side. */
  datatype EquiKey = EquiKey(left: Expr, right: nat)

  function EquiColumns(pred: Expr): Option<EquiKey> {
    if pred.Call? && pred.fn.Equal? && |pred.args| == 2 && pred.args[0].Col? && pred.args[1].Col? then
      var a, b := pred.args[0], pred.args[1];
      if a.tuple == 0 && b.tuple == 1 then Some(EquiKey(Col(0, a.col, a.ret), b.col))
      else if a.tuple == 1 && b.tuple == 0 then Some(EquiKey(Col(0, b.col, b.ret), a.col))
      else None
    else None
  }

  /** The scan's own filter, if it has one, is dropped. */
  function JoinByIndex(cat: Catalog, p: Plan): Option<Plan> {
    if !p.op.NestedLoopJoin? then Some(p)
    else if |p.children| != 2 then None
    else
      var columns, right := EquiColumns(p.op.pred), p.children[1];
      if columns.None? || !right.op.SeqScan? then Some(p)
      else
        var index := MatchIndex(cat, right.op.table, [columns.value.right]);
        if index.None? then Some(p)
        else Some(Plan(p.schema,
                       NestedIndexJoin(columns.value.left, right.op.table, index.value, right.schema, p.op.kind),
                       [p.children[0]]))
  }

  /** The null order of the sort and the scan's own filter are dropped. */
  function SortByIndex(cat: Catalog, p: Plan): Option<Plan> {
    if !p.op.Sort? then Some(p)
    else
      var columns := OrderColumns(p.op.orderBys);
      if columns.None? then Some(p)
      else if |p.children| != 1 then None
      else
        var scan := p.children[0];
        if !scan.op.SeqScan? then Some(p)
        else
          var index := MatchIndex(cat, scan.op.table, columns.value);
          if index.None? then Some(p) else Some(Plan(p.schema, IndexScan(scan.op.table, index.value), []))
  }

  function FilterIntoScan(p: Plan): Option<Plan> {
    if !p.op.Filter? then Some(p)
    else if |p.children| != 1 then None
    else
      var scan := p.children[0];
      if scan.op.SeqScan? && scan.op.filter.None? then Some(Plan(p.schema, SeqScan(scan.op.table, Some(p.op.pred)), []))
      else Some(p)
  }

  function DropTrueFilter(p: Plan): Option<Plan> {
    if !p.op.Filter? || !IsPredicateTrue(p.op.pred) then Some(p)
    else if |p.children| != 1 then None
    else Some(p.children[0])
  }

  function Local(rule: Rule, cat: Catalog, p: Plan): Option<Plan> {
    match rule
    case MergeProjection => DropIdentityProjection(p)
    case MergeFilterNLJ => FilterIntoJoin(p)
    case NLJAsIndexJoin => JoinByIndex(cat, p)
    case OrderByAsIndexScan => SortByIndex(cat, p)
    case MergeFilterScan => FilterIntoScan(p)
    case EliminateTrueFilter => DropTrueFilter(p)
  }

  /**** Whole plans ****/

  /** The children are optimized first, then the node they are put under. */
  function Apply(rule: Rule, cat: Catalog, p: Plan): Option<Plan>
    decreases p
  {
    var done := seq(|p.children|, i requires 0 <= i < |p.children| => Apply(rule, cat, p.children[i]));
    if exists i :: 0 <= i < |done| && done[i].None? then None
    else Local(rule, cat, p.(children := seq(|done|, i requires 0 <= i < |done| && done[i].Some? => done[i].value)))
  }

  function ApplyAll(rules: seq<Rule>, cat: Catalog, p: Plan): Option<Plan> {
    if rules == [] then Some(p)
    else
      var q := Apply(rules[0], cat, p);
      if q.None? then None else ApplyAll(rules[1..], cat, q.value)
  }

  /** The starter pipeline; its last rule, sequential scan as index scan, is the identity. */
  const STARTER_RULES := [MergeProjection, MergeFilterNLJ, NLJAsIndexJoin, OrderByAsIndexScan, MergeFilterScan]

  /** The default pipeline; its hash join, top-N and index scan rules are the identity. */
  const CUSTOM_RULES := [MergeProjection, MergeFilterNLJ, OrderByAsIndexScan, MergeFilterScan]

  function Optimize(forceStarterRules: bool, cat: Catalog, p: Plan): Option<Plan> {
    ApplyAll(if forceStarterRules then STARTER_RULES else CUSTOM_RULES, cat, p)
  }
}
