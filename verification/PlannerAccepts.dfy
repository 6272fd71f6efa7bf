/**
 Which statements the planner accepts, exactly, and the columns that it gives them: by the names, types and calls of
 the statement alone.
 */
module PlannerAccepts {
  import opened Sequences
  import opened Relational
  import opened Planning
  import opened AggPlanning
  import opened AggMeaning
  import opened SelectPlanning
  import opened SqlMeaning
  import opened QueryMeaning

  /**** Names and types ****/

  ghost predicate Named(schema: Schema, name: string) {
    exists i :: 0 <= i < |schema| && schema[i].name == name
  }

  ghost predicate NamedTwice(schema: Schema, name: string) {
    exists i, j :: 0 <= i < j < |schema| && schema[i].name == name && schema[j].name == name
  }

  /** Over one child the name is that of one column; over two, a name of exactly one of them. */
  ghost predicate Resolves(name: string, children: seq<Schema>) {
    if |children| == 1 then Named(children[0], name) && !NamedTwice(children[0], name)
    else |children| == 2 && (Named(children[0], name) <==> !Named(children[1], name))
  }

  function TypeIn(schema: Schema, name: string): Type {
    if schema == [] then IntegerType else if schema[0].name == name then schema[0].ty else TypeIn(schema[1..], name)
  }

  function ColumnsOf(children: seq<Schema>): Schema {
    if children == [] then [] else children[0] + ColumnsOf(children[1..])
  }

  predicate Compares(op: string) {
    op == "=" || op == "==" || op == "!=" || op == "<>" || op == "<" || op == "<=" || op == ">" || op == ">="
  }

  predicate Calculates(op: string) { op == "+" || op == "-" }

  predicate Connects(op: string) { op == "and" || op == "or" }

  function BoundType(e: BoundExpr, children: seq<Schema>): Type {
    match e
    case ColumnRef(name) => TypeIn(ColumnsOf(children), name)
    case Constant(v) =>
      (match v
       case Boolean(_) => BooleanType
       case Decimal(_) => DecimalType
       case Varchar(_) => VarcharType
       case Vector(_) => VectorType
       case _ => IntegerType)
    case BinaryOp(op, _, _) => if Calculates(op) then IntegerType else BooleanType
    case FuncCall(_, _) => VectorType
    case Alias(_, child) => BoundType(child, children)
    case AggCall(_, _, _) => IntegerType
    case Unsupported(_) => IntegerType
  }

  /** Names resolve, operators exist and get operands of their types, and the only function is the array. */
  ghost predicate Typable(e: BoundExpr, children: seq<Schema>)
    decreases e
  {
    match e
    case ColumnRef(name) => Resolves(name, children)
    case Constant(_) => true
    case BinaryOp(op, larg, rarg) =>
      && Typable(larg, children) && Typable(rarg, children)
      && (|| Compares(op)
          || (Calculates(op) && BoundType(larg, children) == IntegerType && BoundType(rarg, children) == IntegerType)
          || (Connects(op) && BoundType(larg, children) == BooleanType && BoundType(rarg, children) == BooleanType))
    case FuncCall(func, args) => func == "construct_array" && AllTypable(args, children)
    case Alias(_, child) => Typable(child, children)
    case AggCall(_, _, _) => true
    case Unsupported(_) => false
  }

  ghost predicate AllTypable(es: seq<BoundExpr>, children: seq<Schema>)
    decreases es
  {
    es != [] ==> Typable(es[0], children) && AllTypable(es[1..], children)
  }

  /** There are prepared columns for these calls. */
  predicate Enough(calls: nat, inAgg: nat, next: nat) {
    calls > 0 ==> next + calls <= inAgg
  }

  ghost predicate AllIntegers(exprs: seq<Expr>) {
    forall i :: 0 <= i < |exprs| ==> TypeOf(exprs[i]) == IntegerType
  }

  lemma {:induction false} FirstType(schema: Schema, name: string)
    ensures TryGetColIdx(schema, name).Some? <==> Named(schema, name)
    ensures TryGetColIdx(schema, name).Some? ==> schema[TryGetColIdx(schema, name).value].ty == TypeIn(schema, name)
  {
    if schema != [] && schema[0].name != name {
      FirstType(schema[1..], name);
      var i := TryGetColIdx(schema[1..], name);
      if i.Some? {
        assert schema[i.value + 1] == schema[1..][i.value];
      }
      if Named(schema, name) {
        var j :| 0 <= j < |schema| && schema[j].name == name;
        assert schema[1..][j - 1].name == name;
      }
    }
  }

  lemma {:induction false} TypeBeside(l: Schema, r: Schema, name: string)
    ensures TypeIn(l + r, name) == if Named(l, name) then TypeIn(l, name) else TypeIn(r, name)
  {
    FirstType(l, name);
    FirstType(r, name);
    FirstType(l + r, name);
    JoinedFirst(name, l, r);
    hide TryGetColIdx, TypeIn;
    if !Named(l, name) && !Named(r, name) {
      NoType(l + r, name);
      NoType(r, name);
    }
  }

  lemma {:induction false} NoType(schema: Schema, name: string)
    requires TryGetColIdx(schema, name).None?
    ensures TypeIn(schema, name) == IntegerType
  {
    if schema != [] {
      NoType(schema[1..], name);
    }
  }

  lemma {:induction false} ColumnAccepted(name: string, children: seq<Schema>)
    ensures PlanColumnRef(name, children).Some? <==> Resolves(name, children)
    ensures PlanColumnRef(name, children).Some? ==> TypeOf(PlanColumnRef(name, children).value) == TypeIn(ColumnsOf(children), name)
  {
    if |children| == 1 {
      FirstType(children[0], name);
      assert children[1..] == [] && children[0] + [] == children[0];
      assert ColumnsOf(children[1..]) == [];
    } else if |children| == 2 {
      FirstType(children[0], name);
      FirstType(children[1], name);
      assert children[1..] == [children[1]] && children[1..][1..] == [];
      assert ColumnsOf([]) == [] && children[1] + [] == children[1];
      assert ColumnsOf(children[1..]) == children[1];
      TypeBeside(children[0], children[1], name);
    }
    hide TryGetColIdx, TypeIn;
  }

  lemma {:induction false} BinaryAccepted(op: string, l: Expr, r: Expr)
    ensures BinaryExpression(op, l, r).Some? <==>
      || Compares(op) || (Calculates(op) && TypeOf(l) == IntegerType && TypeOf(r) == IntegerType)
      || (Connects(op) && TypeOf(l) == BooleanType && TypeOf(r) == BooleanType)
    ensures BinaryExpression(op, l, r).Some? ==>
      TypeOf(BinaryExpression(op, l, r).value) == if Calculates(op) then IntegerType else BooleanType
  {
  }

  /** An expression is accepted exactly when it is typable and there are prepared columns for its calls; it then has that type. */
  lemma {:induction false} ExprAccepted(e: BoundExpr, children: seq<Schema>, inAgg: seq<Expr>, next: nat)
    requires AllIntegers(inAgg)
    ensures PlanExpr(e, children, inAgg, next).Some? <==> Typable(e, children) && Enough(|Calls(e)|, |inAgg|, next)
    ensures PlanExpr(e, children, inAgg, next).Some? ==>
      var x := PlanExpr(e, children, inAgg, next).value;
      x.next == next + |Calls(e)| && TypeOf(x.expr) == BoundType(e, children)
    decreases e
  {
    hide PlanColumnRef, Resolves, BinaryExpression, Compares, Calculates, Connects, TypeIn;
    match e
    case ColumnRef(name) => ColumnAccepted(name, children);
    case BinaryOp(op, larg, rarg) =>
      ExprAccepted(larg, children, inAgg, next);
      ExprAccepted(rarg, children, inAgg, next + |Calls(larg)|);
      var l, r := PlanExpr(larg, children, inAgg, next), PlanExpr(rarg, children, inAgg, next + |Calls(larg)|);
      if l.Some? && r.Some? {
        BinaryAccepted(op, l.value.expr, r.value.expr);
      }
    case FuncCall(_, args) => ListAccepted(args, children, inAgg, next);
    case Alias(_, child) => ExprAccepted(child, children, inAgg, next);
    case _ =>
  }

  lemma {:induction false} ListAccepted(es: seq<BoundExpr>, children: seq<Schema>, inAgg: seq<Expr>, next: nat)
    requires AllIntegers(inAgg)
    ensures PlanList(es, children, inAgg, next).Some? <==> AllTypable(es, children) && Enough(|CallsAll(es)|, |inAgg|, next)
    ensures PlanList(es, children, inAgg, next).Some? ==>
      var l := PlanList(es, children, inAgg, next).value;
      l.next == next + |CallsAll(es)| && |l.exprs| == |es| && forall i :: 0 <= i < |es| ==> TypeOf(l.exprs[i]) == BoundType(es[i], children)
    decreases es
  {
    hide PlanExpr, Typable, Calls, BoundType;
    if es != [] {
      ExprAccepted(es[0], children, inAgg, next);
      ListAccepted(es[1..], children, inAgg, next + |Calls(es[0])|);
    }
  }

  /**** Aggregations ****/

  /** A call that can be an aggregate: not distinct, of a known name and number of arguments, with no call inside. */
  ghost predicate CallOk(call: BoundExpr, child: Schema) {
    && call.AggCall? && !call.distinct && AllTypable(call.args, [child]) && CallsAll(call.args) == []
    && ((call.func == "count_star" && |call.args| == 0) || (TakesOne(call.func) && |call.args| == 1))
  }

  lemma {:induction false} OneAccepted(call: BoundExpr, child: Schema)
    requires call.AggCall?
    ensures PlanCall(call, child).Some? <==> CallOk(call, child)
  {
    hide PlanList, AllTypable, CallsAll, PlanCall;
    CallAccepted(call, child);
    ListAccepted(call.args, [child], [], 0);
  }

  lemma {:induction false} CallsAccepted(calls: seq<BoundExpr>, child: Schema)
    requires forall c :: c in calls ==> c.AggCall?
    ensures PlanCalls(calls, child).Some? <==> forall c :: c in calls ==> CallOk(c, child)
  {
    hide PlanCall, CallOk;
    if calls != [] {
      var most, last := calls[..|calls| - 1], calls[|calls| - 1];
      CallsAccepted(most, child);
      OneAccepted(last, child);
      assert calls == most + [last];
    }
  }

  /** The columns of the aggregation: group-by items under their names, then the calls. */
  function GroupColumns(s: AggSelect, child: Schema): Schema {
    seq(|s.groupBy|, i requires 0 <= i < |s.groupBy| => Column(ItemName(s.groupBy[i]), BoundType(s.groupBy[i], [child])))
    + seq(|AllCalls(s)|, i requires 0 <= i < |AllCalls(s)| => Column(AggName(i), IntegerType))
  }

  ghost predicate AggregateOk(s: AggSelect, child: Schema) {
    && AllTypable(s.groupBy, [child]) && CallsAll(s.groupBy) == [] && (forall c :: c in AllCalls(s) ==> CallOk(c, child))
    && (s.having.Some? ==> Typable(s.having.value, [GroupColumns(s, child)])) && AllTypable(s.items, [GroupColumns(s, child)])
  }

  lemma {:induction false} StrippedTypable(e: BoundExpr, k: nat, children: seq<Schema>)
    ensures Typable(Stripped(e, k), children) <==> Typable(e, children)
    ensures BoundType(Stripped(e, k), children) == BoundType(e, children) && |Calls(Stripped(e, k))| == |Calls(e)|
    ensures Typable(e, children) ==> Collectable(e)
    decreases e
  {
    hide Resolves, Compares, Calculates, Connects, TypeIn;
    match e
    case BinaryOp(_, larg, rarg) =>
      StrippedTypable(larg, k, children);
      StrippedTypable(rarg, k + |Calls(larg)|, children);
    case FuncCall(_, args) => StrippedAllTypable(args, k, children);
    case Alias(_, child) => StrippedTypable(child, k, children);
    case _ =>
  }

  lemma {:induction false} StrippedAllTypable(es: seq<BoundExpr>, k: nat, children: seq<Schema>)
    ensures AllTypable(StrippedAll(es, k), children) <==> AllTypable(es, children)
    ensures |CallsAll(StrippedAll(es, k))| == |CallsAll(es)| && |StrippedAll(es, k)| == |es|
    ensures forall i :: 0 <= i < |es| ==> BoundType(StrippedAll(es, k)[i], children) == BoundType(es[i], children)
    ensures AllTypable(es, children) ==> CollectableAll(es)
    decreases es
  {
    hide Typable, Stripped, Calls, BoundType, Collectable;
    if es != [] {
      StrippedTypable(es[0], k, children);
      StrippedAllTypable(es[1..], k + |Calls(es[0])|, children);
      var rest := StrippedAll(es[1..], k + |Calls(es[0])|);
      assert StrippedAll(es, k) == [Stripped(es[0], k)] + rest && StrippedAll(es, k)[1..] == rest;
    }
  }

  lemma {:induction false} ColumnsAreIntegers(groups: nat, n: nat)
    ensures AllIntegers(AggColumns(groups, n))
  {
  }

  /** The output schema that aggregation planning computes. */
  lemma {:induction false} GroupSchema(s: AggSelect, child: Schema)
    requires PlanList(s.groupBy, [child], [], 0).Some?
    ensures
      var l := PlanList(s.groupBy, [child], [], 0).value;
      |l.names| == |l.exprs| == |s.groupBy| && AggSchema(l.names, l.exprs, |AllCalls(s)|) == GroupColumns(s, child)
  {
    hide PlanList, AllCalls, AllTypable, CallsAll, AggName, BoundType, ItemName;
    ListLengths(s.groupBy, [child], [], 0);
    ListAccepted(s.groupBy, [child], [], 0);
    var l := PlanList(s.groupBy, [child], [], 0).value;
    forall i | 0 <= i < |s.groupBy|
      ensures l.names[i] == ItemName(s.groupBy[i])
    {
      PlannedNames(s.groupBy, [child], [], 0, i);
    }
  }

  /** HAVING and the select list over the output columns, given columns for all calls. */
  lemma {:induction false} OutputsAccepted(s: AggSelect, schema: Schema, cols: seq<Expr>)
    requires AllIntegers(cols) && |cols| == |AllCalls(s)|
    ensures s.having.Some? ==>
      var h := PlanExpr(Stripped(s.having.value, 0), [schema], cols, 0);
      (h.Some? <==> Typable(s.having.value, [schema])) && (h.Some? ==> h.value.next == |Calls(s.having.value)|)
    ensures
      var used := if s.having.Some? then |Calls(s.having.value)| else 0;
      var l := PlanList(StrippedAll(s.items, used), [schema], cols, used);
      && (l.Some? <==> AllTypable(s.items, [schema]))
      && (l.Some? ==> |l.value.exprs| == |s.items| && forall i :: 0 <= i < |s.items| ==> TypeOf(l.value.exprs[i]) == BoundType(s.items[i], [schema]))
  {
    hide PlanExpr, PlanList, Typable, AllTypable, Stripped, StrippedAll, BoundType, Calls, CallsAll;
    var used := if s.having.Some? then |Calls(s.having.value)| else 0;
    if s.having.Some? {
      StrippedTypable(s.having.value, 0, [schema]);
      ExprAccepted(Stripped(s.having.value, 0), [schema], cols, 0);
    }
    StrippedAllTypable(s.items, used, [schema]);
    ListAccepted(StrippedAll(s.items, used), [schema], cols, used);
  }

  /** An aggregation is accepted exactly when its group-by items, its calls, HAVING and the select list are. */
  lemma {:induction false} AggregateAccepted(s: AggSelect, child: Schema)
    ensures PlanAggregate(s, child).Some? <==> AggregateOk(s, child)
    ensures PlanAggregate(s, child).Some? ==>
      var a := PlanAggregate(s, child).value;
      && |a.exprs| == |s.items| == |a.names|
      && forall i :: 0 <= i < |s.items| ==> TypeOf(a.exprs[i]) == BoundType(s.items[i], [GroupColumns(s, child)]) && a.names[i] == ItemName(s.items[i])
  {
    hide PlanList, PlanExpr, PlanCalls, AllCalls, Stripped, StrippedAll, AllTypable, Typable, CallOk, GroupColumns, BoundType, Calls, CallsAll;
    hide Collectable, CollectableAll, ItemName, AggSchema;
    AllAreCalls(s);
    ListAccepted(s.groupBy, [child], [], 0);
    CallsAccepted(AllCalls(s), child);
    if PlanList(s.groupBy, [child], [], 0).Some? && PlanCalls(AllCalls(s), child).Some? {
      GroupSchema(s, child);
      PlannedLength(AllCalls(s), child);
      var l, schema := PlanList(s.groupBy, [child], [], 0).value, GroupColumns(s, child);
      var cols := AggColumns(|l.exprs|, |AllCalls(s)|);
      ColumnsAreIntegers(|l.exprs|, |AllCalls(s)|);
      OutputsAccepted(s, schema, cols);
      StrippedAllTypable(s.items, 0, [schema]);
      if s.having.Some? {
        StrippedTypable(s.having.value, 0, [schema]);
      }
      if PlanAggregate(s, child).Some? {
        AggItems(s, child);
        forall i | 0 <= i < |s.items|
          ensures |PlanAggregate(s, child).value.names| == |s.items| && PlanAggregate(s, child).value.names[i] == ItemName(s.items[i])
        {
          AggNames(s, child, i);
        }
      }
    }
  }

  /**** Table references and selects ****/

  function TypedItems(items: seq<BoundExpr>, input: Schema): Schema {
    seq(|items|, i requires 0 <= i < |items| => Column(ItemName(items[i]), BoundType(items[i], [input])))
  }

  function RenamedColumns(names: seq<string>, schema: Schema): Schema {
    seq(|names|, i requires 0 <= i < |names| => Column(names[i], if i < |schema| then schema[i].ty else IntegerType))
  }

  ghost function TypedTable(t: TableRef): Schema
    decreases t
  {
    match t
    case BaseTable(_, schema) => schema
    case Leaf(_, schema) => schema
    case CrossProduct(left, right) => TypedTable(left) + TypedTable(right)
    case JoinRef(_, left, right, _) => TypedTable(left) + TypedTable(right)
    case Subquery(select, names) => RenamedColumns(names, TypedSelect(select))
  }

  ghost function TypedSelect(s: Select): Schema
    decreases s
  {
    var input := TypedTable(s.table);
    TypedItems(s.items, if Grouped(s) then GroupColumns(AggSelect(s.groupBy, s.having, s.items), input) else input)
  }

  /** No aggregate call may appear here. */
  ghost predicate PlainlyTypable(e: BoundExpr, children: seq<Schema>) {
    Typable(e, children) && Calls(e) == []
  }

  ghost predicate TableOk(t: TableRef)
    decreases t
  {
    match t
    case BaseTable(_, _) => true
    case Leaf(_, _) => true
    case CrossProduct(left, right) => TableOk(left) && TableOk(right)
    case JoinRef(_, left, right, condition) =>
      TableOk(left) && TableOk(right) && PlainlyTypable(condition, [TypedTable(left), TypedTable(right)])
    case Subquery(select, names) => SelectOk(select) && |names| == |select.items|
  }

  /** WHERE and ORDER BY without calls, the select list without calls or a good aggregation. */
  ghost predicate SelectOk(s: Select)
    decreases s
  {
    && TableOk(s.table) && (s.filter.Some? ==> PlainlyTypable(s.filter.value, [TypedTable(s.table)]))
    && (if Grouped(s) then AggregateOk(AggSelect(s.groupBy, s.having, s.items), TypedTable(s.table))
        else AllTypable(s.items, [TypedTable(s.table)]) && CallsAll(s.items) == [])
    && forall i :: 0 <= i < |s.sort| ==> PlainlyTypable(s.sort[i].expr, [TypedSelect(s)])
  }

  lemma {:induction false} PlainAccepted(e: BoundExpr, children: seq<Schema>)
    ensures PlanExpr(e, children, [], 0).Some? <==> PlainlyTypable(e, children)
  {
    hide PlanExpr, Typable, Calls;
    ExprAccepted(e, children, [], 0);
  }

  lemma {:induction false} ItemSchema(names: seq<string>, exprs: seq<Expr>, items: seq<BoundExpr>, input: Schema)
    requires |names| == |exprs| == |items|
    requires forall i :: 0 <= i < |items| ==> names[i] == ItemName(items[i]) && TypeOf(exprs[i]) == BoundType(items[i], [input])
    ensures ProjectionSchema(names, exprs) == TypedItems(items, input)
  {
    hide ItemName, TypeOf, BoundType;
  }

  lemma {:induction false} ItemsAccepted(p: Plan, s: Select)
    ensures
      var agg := AggSelect(s.groupBy, s.having, s.items);
      && (PlanItems(p, s).Some? <==>
          if Grouped(s) then AggregateOk(agg, p.schema) else AllTypable(s.items, [p.schema]) && CallsAll(s.items) == [])
      && (PlanItems(p, s).Some? ==>
            PlanItems(p, s).value.schema == TypedItems(s.items, if Grouped(s) then GroupColumns(agg, p.schema) else p.schema))
  {
    hide IsAggregation, Grouped, PlanAggregate, AggregateOk, PlanList, AllTypable, CallsAll, TypedItems, ProjectionSchema, GroupColumns;
    hide ItemName, BoundType;
    AggregationIff(s);
    if Grouped(s) {
      var agg := AggPart(s);
      AggregateAccepted(agg, p.schema);
      if PlanAggregate(agg, p.schema).Some? {
        var a := PlanAggregate(agg, p.schema).value;
        ItemSchema(a.names, a.exprs, s.items, GroupColumns(agg, p.schema));
      }
    } else {
      ListAccepted(s.items, [p.schema], [], 0);
      if PlanList(s.items, [p.schema], [], 0).Some? {
        var l := PlanList(s.items, [p.schema], [], 0).value;
        ListLengths(s.items, [p.schema], [], 0);
        forall i | 0 <= i < |s.items|
          ensures l.names[i] == ItemName(s.items[i])
        {
          PlannedNames(s.items, [p.schema], [], 0, i);
        }
        ItemSchema(l.names, l.exprs, s.items, p.schema);
      }
    }
  }

  lemma {:induction false} FilterAccepted(p: Plan, filter: Option<BoundExpr>)
    ensures PlanFilter(p, filter).Some? <==> (filter.Some? ==> PlainlyTypable(filter.value, [p.schema]))
    ensures PlanFilter(p, filter).Some? ==> PlanFilter(p, filter).value.schema == p.schema
  {
    hide PlanExpr, PlainlyTypable;
    if filter.Some? {
      PlainAccepted(filter.value, [p.schema]);
    }
  }

  lemma {:induction false} OrderAccepted(sort: seq<BoundOrderBy>, schema: Schema)
    ensures PlanOrderBys(sort, schema).Some? <==> forall i :: 0 <= i < |sort| ==> PlainlyTypable(sort[i].expr, [schema])
  {
    hide PlanExpr, PlainlyTypable;
    if sort != [] {
      PlainAccepted(sort[0].expr, [schema]);
      OrderAccepted(sort[1..], schema);
      assert forall i :: 1 <= i < |sort| ==> sort[i] == sort[1..][i - 1];
      assert forall i :: 0 <= i < |sort[1..]| ==> sort[1..][i] == sort[i + 1];
    }
  }

  lemma {:induction false} SortAccepted(p: Plan, sort: seq<BoundOrderBy>)
    ensures PlanSort(p, sort).Some? <==> forall i :: 0 <= i < |sort| ==> PlainlyTypable(sort[i].expr, [p.schema])
    ensures PlanSort(p, sort).Some? ==> PlanSort(p, sort).value.schema == p.schema
  {
    hide PlanOrderBys, PlainlyTypable;
    OrderAccepted(sort, p.schema);
  }

  lemma {:induction false} SubquerySchema(names: seq<string>, schema: Schema)
    requires |names| == |schema|
    ensures ProjectionSchema(names, AllColumns(schema)) == RenamedColumns(names, schema)
  {
  }

  /** A table reference is accepted exactly when its parts are, and has those columns. */
  lemma {:induction false} TableAccepted(t: TableRef)
    ensures PlanTableRef(t).Some? <==> TableOk(t)
    ensures PlanTableRef(t).Some? ==> PlanTableRef(t).value.schema == TypedTable(t)
    decreases t
  {
    hide PlanExpr, PlainlyTypable, PlanSelect, SelectOk, TypedSelect, RenamedColumns, ProjectionSchema;
    match t
    case BaseTable(_, _) =>
    case Leaf(_, _) =>
    case CrossProduct(left, right) =>
      TableAccepted(left);
      TableAccepted(right);
    case JoinRef(_, left, right, condition) =>
      TableAccepted(left);
      TableAccepted(right);
      PlainAccepted(condition, [TypedTable(left), TypedTable(right)]);
    case Subquery(select, names) =>
      SelectAccepted(select);
      if PlanSelect(select).Some? && |names| == |PlanSelect(select).value.schema| {
        SubquerySchema(names, PlanSelect(select).value.schema);
      }
  }

  /** A select is accepted exactly when its parts are, and has those columns. */
  lemma {:induction false} SelectAccepted(s: Select)
    ensures PlanSelect(s).Some? <==> SelectOk(s)
    ensures PlanSelect(s).Some? ==> PlanSelect(s).value.schema == TypedSelect(s) && |TypedSelect(s)| == |s.items|
    decreases s
  {
    hide PlanTableRef, PlanFilter, PlanItems, PlanSort, TableOk, TypedTable, PlainlyTypable, AggregateOk, AllTypable, Grouped, GroupColumns, CallsAll;
    hide ItemName, BoundType;
    TableAccepted(s.table);
    if PlanTableRef(s.table).Some? {
      var table := PlanTableRef(s.table).value;
      FilterAccepted(table, s.filter);
      if PlanFilter(table, s.filter).Some? {
        var filtered := PlanFilter(table, s.filter).value;
        ItemsAccepted(filtered, s);
        if PlanItems(filtered, s).Some? {
          SortAccepted(PlanDistinct(PlanItems(filtered, s).value, s.distinct), s.sort);
        }
      }
    }
  }
}
