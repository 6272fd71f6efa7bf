/** The planner makes the plans the optimizer relies on, so a planned query keeps its rows through optimization. */
module PlannerShape {
  import opened Sequences
  import opened Relational
  import opened Optimizer
  import opened OptimizerSound
  import opened Planning
  import opened AggPlanning
  import opened SelectPlanning

  /**** Well-typed plans ****/

  function Widths(children: seq<Schema>): seq<nat> {
    seq(|children|, i requires 0 <= i < |children| => |children[i]|)
  }

  ghost predicate AllScoped(exprs: seq<Expr>, widths: seq<nat>) {
    forall i :: 0 <= i < |exprs| ==> Scoped(exprs[i], widths)
  }

  /** Planned expressions refer to columns that exist, if those prepared for aggregate calls do. */
  lemma {:induction false} ExprScoped(e: BoundExpr, children: seq<Schema>, inAgg: seq<Expr>, next: nat)
    requires PlanExpr(e, children, inAgg, next).Some? && AllScoped(inAgg, Widths(children))
    ensures Scoped(PlanExpr(e, children, inAgg, next).value.expr, Widths(children))
    decreases e
  {
    match e
    case BinaryOp(op, larg, rarg) =>
      ExprScoped(larg, children, inAgg, next);
      ExprScoped(rarg, children, inAgg, PlanExpr(larg, children, inAgg, next).value.next);
    case FuncCall(_, args) => ListExprsScoped(args, children, inAgg, next);
    case Alias(_, child) => ExprScoped(child, children, inAgg, next);
    case _ =>
  }

  lemma {:induction false} ListExprsScoped(es: seq<BoundExpr>, children: seq<Schema>, inAgg: seq<Expr>, next: nat)
    requires PlanList(es, children, inAgg, next).Some? && AllScoped(inAgg, Widths(children))
    ensures AllScoped(PlanList(es, children, inAgg, next).value.exprs, Widths(children))
    decreases es
  {
    hide Scoped;
    if es != [] {
      ExprScoped(es[0], children, inAgg, next);
      ListExprsScoped(es[1..], children, inAgg, PlanExpr(es[0], children, inAgg, next).value.next);
    }
  }

  lemma {:induction false} PlannedScoped(e: BoundExpr, children: seq<Schema>)
    requires PlanExpr(e, children, [], 0).Some?
    ensures PlanExpr(e, children, [], 0).value.next == 0
    ensures Scoped(PlanExpr(e, children, [], 0).value.expr, Widths(children))
  {
    hide PlanExpr, Scoped;
    NoneUsed(e, children);
    ExprScoped(e, children, [], 0);
  }

  lemma {:induction false} ListScoped(es: seq<BoundExpr>, children: seq<Schema>)
    requires PlanList(es, children, [], 0).Some?
    ensures
      var l := PlanList(es, children, [], 0).value;
      l.next == 0 && |l.names| == |es| && |l.exprs| == |es| && AllScoped(l.exprs, Widths(children))
  {
    hide PlanList, Scoped;
    ListLengths(es, children, [], 0);
    ListExprsScoped(es, children, [], 0);
  }

  /** The tables a query scans are in the database, with rows of their schemas' widths. */
  ghost predicate Fits(db: Db, t: TableRef)
    decreases t
  {
    match t
    case BaseTable(table, schema) => table in db.tables && Wide(db.tables[table], |schema|)
    case Leaf(_, _) => true
    case CrossProduct(left, right) => Fits(db, left) && Fits(db, right)
    case JoinRef(_, left, right, _) => Fits(db, left) && Fits(db, right)
    case Subquery(select, _) => Fits(db, select.table)
  }

  lemma {:induction false} ColumnsScoped(schema: Schema)
    ensures forall i :: 0 <= i < |schema| ==> Scoped(AllColumns(schema)[i], [|schema|])
  {
  }

  lemma {:induction false} FilterTyped(db: Db, p: Plan, filter: Option<BoundExpr>)
    requires Typed(db, p) && PlanFilter(p, filter).Some?
    ensures Typed(db, PlanFilter(p, filter).value)
  {
    if filter.Some? {
      PlannedScoped(filter.value, [p.schema]);
      assert Widths([p.schema]) == [|p.schema|];
    }
    hide PlanExpr, Scoped;
  }

  lemma {:induction false} ProjectionTyped(db: Db, p: Plan, items: seq<BoundExpr>)
    requires Typed(db, p) && PlanProjection(p, items).Some?
    ensures Typed(db, PlanProjection(p, items).value)
  {
    ListScoped(items, [p.schema]);
    assert Widths([p.schema]) == [|p.schema|];
    hide PlanList, Scoped;
  }

  /** A planned call's input refers to columns of the child. */
  lemma {:induction false} CallScoped(call: BoundExpr, child: Schema)
    requires call.AggCall? && PlanCall(call, child).Some?
    ensures Scoped(PlanCall(call, child).value.input, [|child|])
  {
    hide PlanList;
    ListScoped(call.args, [child]);
    assert Widths([child]) == [|child|];
  }

  lemma {:induction false} CallsScoped(calls: seq<BoundExpr>, child: Schema)
    requires (forall c :: c in calls ==> c.AggCall?) && PlanCalls(calls, child).Some?
    ensures forall i :: 0 <= i < |PlanCalls(calls, child).value| ==> Scoped(PlanCalls(calls, child).value[i].input, [|child|])
  {
    hide Scoped, PlanCall;
    if calls != [] {
      CallsScoped(calls[..|calls| - 1], child);
      CallScoped(calls[|calls| - 1], child);
    }
  }

  lemma {:induction false} AggColumnsScoped(groups: nat, n: nat)
    ensures AllScoped(AggColumns(groups, n), [groups + n])
  {
  }

  /** What aggregation planning gives: widths that agree and columns that exist. */
  ghost predicate AggScoped(a: AggPlan, child: Schema) {
    && |a.schema| == |a.groupBys| + |a.inputs| && |a.types| == |a.inputs| && |a.names| == |a.exprs|
    && AllScoped(a.groupBys, [|child|]) && AllScoped(a.inputs, [|child|])
    && (a.having.Some? ==> Scoped(a.having.value, [|a.schema|])) && AllScoped(a.exprs, [|a.schema|])
  }

  lemma {:induction false} AggregateScoped(s: AggSelect, child: Schema)
    requires PlanAggregate(s, child).Some?
    ensures AggScoped(PlanAggregate(s, child).value, child)
  {
    hide PlanList, PlanExpr, PlanCalls, AllCalls, Stripped, StrippedAll, Scoped, Accepted;
    AllAreCalls(s);
    ListScoped(s.groupBy, [child]);
    assert Widths([child]) == [|child|];
    CallsScoped(AllCalls(s), child);
    var groups, inputs := PlanList(s.groupBy, [child], [], 0).value, PlanCalls(AllCalls(s), child).value;
    var n := |inputs|;
    var schema, cols := AggSchema(groups.names, groups.exprs, n), AggColumns(|groups.exprs|, n);
    assert Widths([schema]) == [|schema|] == [|groups.exprs| + n];
    AggColumnsScoped(|groups.exprs|, n);
    var next := 0;
    if s.having.Some? {
      ExprScoped(Stripped(s.having.value, 0), [schema], cols, 0);
      next := PlanExpr(Stripped(s.having.value, 0), [schema], cols, 0).value.next;
    }
    var items := StrippedAll(s.items, if s.having.Some? then |Calls(s.having.value)| else 0);
    ListExprsScoped(items, [schema], cols, next);
    ListLengths(items, [schema], cols, next);
  }

  lemma {:induction false} AggSelectTyped(db: Db, p: Plan, s: AggSelect)
    requires Typed(db, p) && PlanAggSelect(p, s).Some?
    ensures Typed(db, PlanAggSelect(p, s).value)
  {
    hide PlanAggregate, Scoped;
    AggregateScoped(s, p.schema);
    var a := PlanAggregate(s, p.schema).value;
    assert Typed(db, AggNode(p, a));
    assert Typed(db, AggFilter(p, a));
  }

  lemma {:induction false} ItemsTyped(db: Db, p: Plan, s: Select)
    requires Typed(db, p) && PlanItems(p, s).Some?
    ensures Typed(db, PlanItems(p, s).value)
  {
    hide PlanAggSelect, PlanProjection, Typed, IsAggregation;
    if IsAggregation(s) {
      AggSelectTyped(db, p, AggPart(s));
    } else {
      ProjectionTyped(db, p, s.items);
    }
  }

  lemma {:induction false} DistinctTyped(db: Db, p: Plan, distinct: bool)
    requires Typed(db, p)
    ensures Typed(db, PlanDistinct(p, distinct))
  {
    ColumnsScoped(p.schema);
    hide Scoped;
  }

  lemma {:induction false} OrderBysScoped(sort: seq<BoundOrderBy>, schema: Schema)
    requires PlanOrderBys(sort, schema).Some?
    ensures
      var o := PlanOrderBys(sort, schema).value;
      && |o| == |sort|
      && forall i :: 0 <= i < |o| ==> Scoped(o[i].expr, [|schema|]) && o[i].dir == sort[i].dir && o[i].nulls == sort[i].nulls
  {
    if sort != [] {
      PlannedScoped(sort[0].expr, [schema]);
      assert Widths([schema]) == [|schema|];
      OrderBysScoped(sort[1..], schema);
      hide PlanExpr, Scoped;
    }
  }

  lemma {:induction false} SortTyped(db: Db, p: Plan, sort: seq<BoundOrderBy>)
    requires Typed(db, p) && PlanSort(p, sort).Some?
    ensures Typed(db, PlanSort(p, sort).value)
  {
    if sort != [] {
      OrderBysScoped(sort, p.schema);
    }
    hide PlanOrderBys, Scoped;
  }

  /** Every planned table reference is well typed over a database that its tables fit. */
  lemma {:induction false} TableRefTyped(db: Db, t: TableRef)
    requires Fits(db, t) && PlanTableRef(t).Some?
    ensures Typed(db, PlanTableRef(t).value)
    decreases t
  {
    match t
    case BaseTable(_, _) =>
    case Leaf(_, _) =>
    case CrossProduct(left, right) =>
      TableRefTyped(db, left);
      TableRefTyped(db, right);
    case JoinRef(_, left, right, condition) =>
      TableRefTyped(db, left);
      TableRefTyped(db, right);
      var l, r := PlanTableRef(left).value.schema, PlanTableRef(right).value.schema;
      PlannedScoped(condition, [l, r]);
      assert Widths([l, r]) == [|l|, |r|];
    case Subquery(select, _) =>
      SelectTyped(db, select);
      ColumnsScoped(PlanSelect(select).value.schema);
  }

  lemma {:induction false} SelectTyped(db: Db, s: Select)
    requires Fits(db, s.table) && PlanSelect(s).Some?
    ensures Typed(db, PlanSelect(s).value)
    decreases s
  {
    hide Typed, PlanFilter, PlanItems, PlanSort, PlanDistinct, PlanLimit, Fits;
    TableRefTyped(db, s.table);
    var table := PlanTableRef(s.table).value;
    FilterTyped(db, table, s.filter);
    var filtered := PlanFilter(table, s.filter).value;
    ItemsTyped(db, filtered, s);
    var projected := PlanItems(filtered, s).value;
    DistinctTyped(db, projected, s.distinct);
    SortTyped(db, PlanDistinct(projected, s.distinct), s.sort);
    LimitTyped(db, PlanSort(PlanDistinct(projected, s.distinct), s.sort).value, s.limit);
  }

  lemma {:induction false} LimitTyped(db: Db, p: Plan, limit: Option<nat>)
    requires Typed(db, p)
    ensures Typed(db, PlanLimit(p, limit))
  {
  }

  /**** Planner shape ****/

  /** The expression is the constant true, under any aliases. */
  predicate ConstantTrue(e: BoundExpr) {
    match e
    case Constant(v) => v == Boolean(true)
    case Alias(_, child) => ConstantTrue(child)
    case _ => false
  }

  predicate NoArray(e: BoundExpr) {
    match e
    case BinaryOp(_, larg, rarg) => NoArray(larg) && NoArray(rarg)
    case Alias(_, child) => NoArray(child)
    case FuncCall(_, _) => false
    case _ => true
  }

  /**
   What a query must avoid: LEFT JOIN on a constant that is true, NULLS LAST on an ascending key, and
   arrays in WHERE and HAVING, where no comparison of vectors is implemented.
   */
  predicate Avoids(s: Select)
    decreases s
  {
    && AvoidsTable(s.table)
    && (s.filter.Some? ==> NoArray(s.filter.value)) && (s.having.Some? ==> NoArray(s.having.value))
    && (forall i :: 0 <= i < |s.sort| && !s.sort[i].dir.Desc? ==> !s.sort[i].nulls.NullsLast?)
  }

  predicate AvoidsTable(t: TableRef)
    decreases t
  {
    match t
    case CrossProduct(left, right) => AvoidsTable(left) && AvoidsTable(right)
    case JoinRef(kind, left, right, condition) =>
      AvoidsTable(left) && AvoidsTable(right) && (kind.Left? ==> !ConstantTrue(condition))
    case Subquery(select, _) => Avoids(select)
    case _ => true
  }

  lemma {:induction false} PlannedTrue(e: BoundExpr, children: seq<Schema>)
    requires PlanExpr(e, children, [], 0).Some?
    ensures IsPredicateTrue(PlanExpr(e, children, [], 0).value.expr) <==> ConstantTrue(e)
  {
    match e
    case Alias(_, child) => PlannedTrue(child, children);
    case _ =>
  }

  lemma {:induction false} PlannedArrayFree(e: BoundExpr, children: seq<Schema>, inAgg: seq<Expr>, next: nat)
    requires PlanExpr(e, children, inAgg, next).Some? && NoArray(e) && forall i :: 0 <= i < |inAgg| ==> ArrayFree(inAgg[i])
    ensures ArrayFree(PlanExpr(e, children, inAgg, next).value.expr)
    decreases e
  {
    match e
    case BinaryOp(_, larg, rarg) =>
      PlannedArrayFree(larg, children, inAgg, next);
      PlannedArrayFree(rarg, children, inAgg, PlanExpr(larg, children, inAgg, next).value.next);
    case Alias(_, child) => PlannedArrayFree(child, children, inAgg, next);
    case _ =>
  }

  lemma {:induction false} StrippedNoArray(e: BoundExpr, k: nat)
    requires NoArray(e)
    ensures NoArray(Stripped(e, k))
    decreases e
  {
    match e
    case BinaryOp(_, larg, rarg) =>
      StrippedNoArray(larg, k);
      StrippedNoArray(rarg, k + |Calls(larg)|);
    case Alias(_, child) => StrippedNoArray(child, k);
    case _ =>
  }

  lemma {:induction false} HavingArrayFree(s: AggSelect, child: Schema)
    requires PlanAggregate(s, child).Some? && s.having.Some? && NoArray(s.having.value)
    ensures PlanAggregate(s, child).value.having.Some? && ArrayFree(PlanAggregate(s, child).value.having.value)
  {
    hide PlanList, PlanExpr, PlanCalls, AllCalls, Stripped, StrippedAll, Accepted, NoArray;
    AllAreCalls(s);
    var groups, inputs := PlanList(s.groupBy, [child], [], 0).value, PlanCalls(AllCalls(s), child).value;
    var schema, cols := AggSchema(groups.names, groups.exprs, |inputs|), AggColumns(|groups.exprs|, |inputs|);
    StrippedNoArray(s.having.value, 0);
    PlannedArrayFree(Stripped(s.having.value, 0), [schema], cols, 0);
  }

  lemma {:induction false} ItemsShaped(p: Plan, s: Select)
    requires Shaped(p, true) && PlanItems(p, s).Some? && (s.having.Some? ==> NoArray(s.having.value))
    ensures Shaped(PlanItems(p, s).value, true)
  {
    hide PlanAggregate, PlanList, ArrayFree, NoArray, IsAggregation;
    if IsAggregation(s) {
      var a := PlanAggregate(AggPart(s), p.schema).value;
      if s.having.Some? {
        HavingArrayFree(AggPart(s), p.schema);
      } else {
        NoHaving(AggPart(s), p.schema);
      }
      assert Shaped(AggNode(p, a), true);
      assert Shaped(AggFilter(p, a), true);
    }
  }

  lemma {:induction false} NoHaving(s: AggSelect, child: Schema)
    requires PlanAggregate(s, child).Some? && s.having.None?
    ensures PlanAggregate(s, child).value.having.None?
  {
    hide PlanList, PlanExpr, PlanCalls, AllCalls, Stripped, StrippedAll, Accepted;
    AllAreCalls(s);
  }

  lemma {:induction false} TableRefShaped(t: TableRef)
    requires AvoidsTable(t) && PlanTableRef(t).Some?
    ensures Shaped(PlanTableRef(t).value, true)
    decreases t
  {
    match t
    case BaseTable(_, _) =>
    case Leaf(_, _) =>
    case CrossProduct(left, right) =>
      TableRefShaped(left);
      TableRefShaped(right);
    case JoinRef(_, left, right, condition) =>
      TableRefShaped(left);
      TableRefShaped(right);
      PlannedTrue(condition, [PlanTableRef(left).value.schema, PlanTableRef(right).value.schema]);
    case Subquery(select, _) => SelectShaped(select);
  }

  lemma {:induction false} SelectShaped(s: Select)
    requires Avoids(s) && PlanSelect(s).Some?
    ensures Shaped(PlanSelect(s).value, true)
    decreases s
  {
    hide Shaped, PlanFilter, PlanItems, PlanSort, PlanDistinct, PlanLimit, NoArray;
    TableRefShaped(s.table);
    var table := PlanTableRef(s.table).value;
    FilterShaped(table, s.filter);
    var filtered := PlanFilter(table, s.filter).value;
    ItemsShaped(filtered, s);
    var projected := PlanItems(filtered, s).value;
    DistinctShaped(projected, s.distinct);
    SortShaped(PlanDistinct(projected, s.distinct), s.sort);
    LimitShaped(PlanSort(PlanDistinct(projected, s.distinct), s.sort).value, s.limit);
  }

  lemma {:induction false} FilterShaped(p: Plan, filter: Option<BoundExpr>)
    requires Shaped(p, true) && PlanFilter(p, filter).Some? && (filter.Some? ==> NoArray(filter.value))
    ensures Shaped(PlanFilter(p, filter).value, true)
  {
    hide PlanExpr, NoArray;
    if filter.Some? {
      PlannedArrayFree(filter.value, [p.schema], [], 0);
    }
  }

  lemma {:induction false} DistinctShaped(p: Plan, distinct: bool)
    requires Shaped(p, true)
    ensures Shaped(PlanDistinct(p, distinct), true)
  {
  }

  lemma {:induction false} SortShaped(p: Plan, sort: seq<BoundOrderBy>)
    requires Shaped(p, true) && PlanSort(p, sort).Some?
    requires forall i :: 0 <= i < |sort| && !sort[i].dir.Desc? ==> !sort[i].nulls.NullsLast?
    ensures Shaped(PlanSort(p, sort).value, true)
  {
    if sort != [] {
      OrderBysScoped(sort, p.schema);
    }
    hide PlanOrderBys;
  }

  lemma {:induction false} LimitShaped(p: Plan, limit: Option<nat>)
    requires Shaped(p, true)
    ensures Shaped(PlanLimit(p, limit), true)
  {
  }

  /**
   Planning and then optimizing any such query, with either pipeline, succeeds and gives a plan with the
   same schema and exactly the same rows in the same order.
   */
  lemma {:induction false} QueryPreserved(forceStarterRules: bool, db: Db, s: Select)
    requires DbOk(db) && Fits(db, s.table) && Avoids(s) && PlanSelect(s).Some?
    ensures Optimize(forceStarterRules, db.cat, PlanSelect(s).value).Some?
    ensures
      var p := PlanSelect(s).value;
      var q := Optimize(forceStarterRules, db.cat, p).value;
      Rows(db, q) == Rows(db, p) && q.schema == p.schema
  {
    SelectTyped(db, s);
    SelectShaped(s);
    hide PlanSelect, Typed, Shaped, Rows, Optimize, DbOk;
    OptimizeSound(forceStarterRules, db, PlanSelect(s).value);
  }
}
