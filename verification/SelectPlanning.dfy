/** The planner of table references and selects. None stands for an exception. */
module SelectPlanning {
  import opened Sequences
  import opened Relational
  import opened Optimizer
  import opened Planning
  import opened AggPlanning

  datatype BoundOrderBy = BoundOrderBy(dir: Direction, nulls: NullOrder, expr: BoundExpr)

  /** A leaf is a mock table or a list of values. Base table columns carry the name they are bound under. */
  datatype TableRef =
    | BaseTable(table: TableId, schema: Schema)
    | Leaf(tag: string, schema: Schema)
    | CrossProduct(left: TableRef, right: TableRef)
    | JoinRef(kind: JoinKind, left: TableRef, right: TableRef, condition: BoundExpr)
    | Subquery(select: Select, names: seq<string>)

  datatype Select = Select(
    table: TableRef,
    filter: Option<BoundExpr>,
    groupBy: seq<BoundExpr>,
    having: Option<BoundExpr>,
    items: seq<BoundExpr>,
    distinct: bool,
    sort: seq<BoundOrderBy>,
    limit: Option<nat>)

  function ProjectionSchema(names: seq<string>, exprs: seq<Expr>): Schema
    requires |names| == |exprs|
  {
    seq(|exprs|, i requires 0 <= i < |exprs| => Column(names[i], TypeOf(exprs[i])))
  }

  function AllColumns(schema: Schema): seq<Expr> {
    seq(|schema|, i requires 0 <= i < |schema| => Col(0, i, schema[i]))
  }

  ghost function PlanTableRef(t: TableRef): Option<Plan>
    decreases t
  {
    match t
    case BaseTable(table, schema) => Some(Plan(schema, SeqScan(table, None), []))
    case Leaf(tag, schema) => Some(Plan(schema, Other(tag), []))
    case CrossProduct(left, right) =>
      var l, r := PlanTableRef(left), PlanTableRef(right);
      if l.None? || r.None? then None
      else Some(Plan(l.value.schema + r.value.schema, NestedLoopJoin(Const(Boolean(true)), Inner), [l.value, r.value]))
    case JoinRef(kind, left, right, condition) =>
      var l, r := PlanTableRef(left), PlanTableRef(right);
      if l.None? || r.None? then None else
      var c := PlanExpr(condition, [l.value.schema, r.value.schema], [], 0);
      if c.None? then None
      else Some(Plan(l.value.schema + r.value.schema, NestedLoopJoin(c.value.expr, kind), [l.value, r.value]))
    case Subquery(select, names) =>
      var p := PlanSelect(select);
      if p.None? || |names| != |p.value.schema| then None
      else Some(Plan(ProjectionSchema(names, AllColumns(p.value.schema)), Projection(AllColumns(p.value.schema)), [p.value]))
  }

  ghost function PlanFilter(p: Plan, filter: Option<BoundExpr>): Option<Plan> {
    if filter.None? then Some(p)
    else
      var e := PlanExpr(filter.value, [p.schema], [], 0);
      if e.None? then None else Some(Plan(p.schema, Filter(e.value.expr), [p]))
  }

  ghost function PlanProjection(p: Plan, items: seq<BoundExpr>): Option<Plan> {
    var l := PlanList(items, [p.schema], [], 0);
    if l.None? || |l.value.names| != |l.value.exprs| then None
    else Some(Plan(ProjectionSchema(l.value.names, l.value.exprs), Projection(l.value.exprs), [p]))
  }

  /** Whether an item makes the select an aggregation; a call inside a function call does not. */
  predicate HasAggregation(e: BoundExpr) {
    match e
    case AggCall(_, _, _) => true
    case BinaryOp(_, larg, rarg) => HasAggregation(larg) || HasAggregation(rarg)
    case Alias(_, child) => HasAggregation(child)
    case _ => false
  }

  predicate IsAggregation(s: Select) {
    s.having.Some? || s.groupBy != [] || exists i :: 0 <= i < |s.items| && HasAggregation(s.items[i])
  }

  function AggPart(s: Select): AggSelect {
    AggSelect(s.groupBy, s.having, s.items)
  }

  function AggNode(p: Plan, a: AggPlan): Plan {
    Plan(a.schema, Aggregate(a.groupBys, a.inputs, a.types), [p])
  }

  function AggFilter(p: Plan, a: AggPlan): Plan {
    if a.having.Some? then Plan(a.schema, Filter(a.having.value), [AggNode(p, a)]) else AggNode(p, a)
  }

  /** The aggregation node, HAVING as a filter over it, and the select list as a projection. */
  ghost function PlanAggSelect(p: Plan, s: AggSelect): Option<Plan> {
    var a := PlanAggregate(s, p.schema);
    if a.None? || |a.value.names| != |a.value.exprs| then None
    else Some(Plan(ProjectionSchema(a.value.names, a.value.exprs), Projection(a.value.exprs), [AggFilter(p, a.value)]))
  }

  ghost function PlanItems(p: Plan, s: Select): Option<Plan> {
    if IsAggregation(s) then PlanAggSelect(p, AggPart(s)) else PlanProjection(p, s.items)
  }

  ghost function PlanOrderBys(sort: seq<BoundOrderBy>, schema: Schema): Option<seq<OrderBy>> {
    if sort == [] then Some([])
    else
      var e, rest := PlanExpr(sort[0].expr, [schema], [], 0), PlanOrderBys(sort[1..], schema);
      if e.None? || rest.None? then None else Some([OrderBy(sort[0].dir, sort[0].nulls, e.value.expr)] + rest.value)
  }

  ghost function PlanSort(p: Plan, sort: seq<BoundOrderBy>): Option<Plan> {
    if sort == [] then Some(p)
    else
      var o := PlanOrderBys(sort, p.schema);
      if o.None? then None else Some(Plan(p.schema, Sort(o.value), [p]))
  }

  /** DISTINCT is a grouping on all columns. */
  function PlanDistinct(p: Plan, distinct: bool): Plan {
    if distinct then Plan(p.schema, Aggregate(AllColumns(p.schema), [], []), [p]) else p
  }

  function PlanLimit(p: Plan, limit: Option<nat>): Plan {
    if limit.Some? then Plan(p.schema, Limit(limit.value), [p]) else p
  }

  ghost function PlanSelect(s: Select): Option<Plan>
    decreases s
  {
    var table := PlanTableRef(s.table);
    if table.None? then None else
    var filtered := PlanFilter(table.value, s.filter);
    if filtered.None? then None else
    var projected := PlanItems(filtered.value, s);
    if projected.None? then None else
    var sorted := PlanSort(PlanDistinct(projected.value, s.distinct), s.sort);
    if sorted.None? then None else Some(PlanLimit(sorted.value, s.limit))
  }

  /** Filtering a cross product and optimizing gives the very plan of the INNER JOIN on the same condition. */
  lemma {:induction false} WhereIsJoinOn(left: TableRef, right: TableRef, condition: BoundExpr)
    requires PlanTableRef(CrossProduct(left, right)).Some?
    requires PlanFilter(PlanTableRef(CrossProduct(left, right)).value, Some(condition)).Some?
    ensures
      FilterIntoJoin(PlanFilter(PlanTableRef(CrossProduct(left, right)).value, Some(condition)).value)
        == PlanTableRef(JoinRef(Inner, left, right, condition))
  {
    var l, r := PlanTableRef(left).value, PlanTableRef(right).value;
    PlanThenRewrite(condition, l.schema, r.schema);
    hide PlanExpr, RewriteExpressionForJoin;
  }
}
