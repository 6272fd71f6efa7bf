/**
 Two-phase aggregation planning. A first walk moves the aggregate calls of HAVING and of the select
 list into the context, leaving numbered pseudo calls; the calls become columns of an aggregation
 node; a second walk plans the stripped expressions over that node's output.
 */
module AggPlanning {
  import opened Sequences
  import opened Relational
  import opened Planning

  datatype AggSelect = AggSelect(groupBy: seq<BoundExpr>, having: Option<BoundExpr>, items: seq<BoundExpr>)

  /** The aggregation node's output schema, group-by and input expressions, and what is planned over its output. */
  datatype AggPlan = AggPlan(
    schema: Schema,
    groupBys: seq<Expr>,
    inputs: seq<Expr>,
    types: seq<AggType>,
    having: Option<Expr>,
    exprs: seq<Expr>,
    names: seq<string>)

  function Digits(n: nat): (s: string)
    ensures forall c :: c in s ==> '0' <= c <= '9'
  {
    if n < 10 then ['0' + n as char] else Digits(n / 10) + ['0' + (n % 10) as char]
  }

  function PseudoName(i: nat): string { "__pseudo_agg#" + Digits(i) }

  function AggName(i: nat): string { "agg#" + Digits(i) }

  /**** The collecting walk ****/

  /** The aggregate calls of e, left to right; what is inside a call stays inside it. */
  function Calls(e: BoundExpr): seq<BoundExpr>
    decreases e
  {
    match e
    case AggCall(_, _, _) => [e]
    case BinaryOp(_, larg, rarg) => Calls(larg) + Calls(rarg)
    case FuncCall(_, args) => CallsAll(args)
    case Alias(_, child) => Calls(child)
    case _ => []
  }

  function CallsAll(es: seq<BoundExpr>): seq<BoundExpr>
    decreases es
  {
    if es == [] then [] else Calls(es[0]) + CallsAll(es[1..])
  }

  /** e with its calls replaced by pseudo calls numbered from k. */
  function Stripped(e: BoundExpr, k: nat): BoundExpr
    decreases e
  {
    match e
    case AggCall(_, distinct, _) => AggCall(PseudoName(k), distinct, [])
    case BinaryOp(op, larg, rarg) => BinaryOp(op, Stripped(larg, k), Stripped(rarg, k + |Calls(larg)|))
    case FuncCall(func, args) => FuncCall(func, StrippedAll(args, k))
    case Alias(alias, child) => Alias(alias, Stripped(child, k))
    case _ => e
  }

  function StrippedAll(es: seq<BoundExpr>, k: nat): seq<BoundExpr>
    decreases es
  {
    if es == [] then [] else [Stripped(es[0], k)] + StrippedAll(es[1..], k + |Calls(es[0])|)
  }

  /** The collecting walk meets nothing it rejects. */
  predicate Collectable(e: BoundExpr)
    decreases e
  {
    match e
    case BinaryOp(_, larg, rarg) => Collectable(larg) && Collectable(rarg)
    case FuncCall(_, args) => CollectableAll(args)
    case Alias(_, child) => Collectable(child)
    case Unsupported(_) => false
    case _ => true
  }

  predicate CollectableAll(es: seq<BoundExpr>)
    decreases es
  {
    es != [] ==> Collectable(es[0]) && CollectableAll(es[1..])
  }

  lemma {:induction false} CallsAreCalls(e: BoundExpr)
    ensures forall c :: c in Calls(e) ==> c.AggCall?
    decreases e
  {
    match e
    case BinaryOp(_, larg, rarg) =>
      CallsAreCalls(larg);
      CallsAreCalls(rarg);
    case FuncCall(_, args) => AllCallsAreCalls(args);
    case Alias(_, child) => CallsAreCalls(child);
    case _ =>
  }

  lemma {:induction false} AllCallsAreCalls(es: seq<BoundExpr>)
    ensures forall c :: c in CallsAll(es) ==> c.AggCall?
    decreases es
  {
    if es != [] {
      CallsAreCalls(es[0]);
      AllCallsAreCalls(es[1..]);
    }
  }

  /**** The aggregation node ****/

  /** count(*) is the only aggregate without argument; the others take one. */
  function AggTypeOf(func: string, args: nat): Option<AggType> {
    if args == 0 && func == "count_star" then Some(CountStar)
    else if args == 1 && func == "min" then Some(Min)
    else if args == 1 && func == "max" then Some(Max)
    else if args == 1 && func == "sum" then Some(Sum)
    else if args == 1 && func == "count" then Some(Count)
    else None
  }

  datatype AggInput = AggInput(ty: AggType, input: Expr)

  /** A call is planned over the child, with no aggregates allowed inside; count(*) counts the constant 1. */
  ghost function PlanCall(call: BoundExpr, child: Schema): Option<AggInput>
    requires call.AggCall?
  {
    if call.distinct then None else
    var args := PlanList(call.args, [child], [], 0);
    if args.None? then None else
    var ty := AggTypeOf(call.func, |args.value.exprs|);
    if ty.None? then None
    else Some(AggInput(ty.value, if args.value.exprs == [] then Const(Integer(1)) else args.value.exprs[0]))
  }

  ghost function PlanCalls(calls: seq<BoundExpr>, child: Schema): Option<seq<AggInput>>
    requires forall c :: c in calls ==> c.AggCall?
  {
    if calls == [] then Some([])
    else
      var rest, last := PlanCalls(calls[..|calls| - 1], child), PlanCall(calls[|calls| - 1], child);
      if rest.None? || last.None? then None else Some(rest.value + [last.value])
  }

  /** The columns that stand for the calls, after `groups` group-by columns. */
  function AggColumns(groups: nat, n: nat): (cols: seq<Expr>)
    ensures |cols| == n && forall i :: 0 <= i < n ==> cols[i] == Col(0, groups + i, Column("<agg_result>", IntegerType))
  {
    seq(n, i requires 0 <= i < n => Col(0, groups + i, Column("<agg_result>", IntegerType)))
  }

  /** The output schema: group-by columns under their names, then the aggregates. */
  function AggSchema(names: seq<string>, groupBys: seq<Expr>, n: nat): Schema
    requires |names| == |groupBys|
  {
    seq(|groupBys|, i requires 0 <= i < |groupBys| => Column(names[i], TypeOf(groupBys[i])))
    + seq(n, i requires 0 <= i < n => Column(AggName(i), IntegerType))
  }

  /** Every call that HAVING and the select list make, in the order of the collecting walk. */
  function AllCalls(s: AggSelect): seq<BoundExpr> {
    (if s.having.Some? then Calls(s.having.value) else []) + CallsAll(s.items)
  }

  predicate Accepted(s: AggSelect) {
    (s.having.Some? ==> Collectable(s.having.value)) && CollectableAll(s.items)
  }

  /** What aggregation planning makes of a statement over a child. */
  ghost function PlanAggregate(s: AggSelect, child: Schema): Option<AggPlan> {
    var groups := PlanList(s.groupBy, [child], [], 0);
    if groups.None? || |groups.value.names| != |groups.value.exprs| || !Accepted(s) then None else
    if exists c :: c in AllCalls(s) && !c.AggCall? then None else
    var inputs := PlanCalls(AllCalls(s), child);
    if inputs.None? then None else
    var n := |inputs.value|;
    var schema, cols := AggSchema(groups.value.names, groups.value.exprs, n), AggColumns(|groups.value.exprs|, n);
    var having := if s.having.Some? then PlanExpr(Stripped(s.having.value, 0), [schema], cols, 0) else None;
    if s.having.Some? && having.None? then None else
    var used := if s.having.Some? then |Calls(s.having.value)| else 0;
    var items := PlanList(StrippedAll(s.items, used), [schema], cols, if s.having.Some? then having.value.next else 0);
    if items.None? then None
    else Some(AggPlan(schema, groups.value.exprs,
                      seq(n, i requires 0 <= i < n => inputs.value[i].input),
                      seq(n, i requires 0 <= i < n => inputs.value[i].ty),
                      if s.having.Some? then Some(having.value.expr) else None,
                      items.value.exprs, items.value.names))
  }

  /**** The planner as it runs ****/

  class Planner {
    var allowAggregation: bool
    var nextAggregation: nat
    var aggregations: seq<BoundExpr>
    var exprInAgg: seq<Expr>

    constructor ()
      ensures !allowAggregation && nextAggregation == 0 && aggregations == [] && exprInAgg == []
    {
      allowAggregation, nextAggregation, aggregations, exprInAgg := false, 0, [], [];
    }

    /** The first walk; the rewritten expression takes the place of e. */
    method AddAggCallToContext(e: BoundExpr) returns (r: Option<BoundExpr>)
      modifies this`aggregations
      ensures r.Some? <==> Collectable(e) && (allowAggregation || Calls(e) == [])
      ensures r.Some? ==> r.value == Stripped(e, |old(aggregations)|) && aggregations == old(aggregations) + Calls(e)
      decreases e
    {
      match e
      case AggCall(func, distinct, args) =>
        if !allowAggregation {
          return None;
        }
        r := Some(AggCall(PseudoName(|aggregations|), distinct, []));
        aggregations := aggregations + [e];
      case ColumnRef(_) => r := Some(e);
      case Constant(_) => r := Some(e);
      case BinaryOp(op, larg, rarg) =>
        var l := AddAggCallToContext(larg);
        if l.None? {
          return None;
        }
        var right := AddAggCallToContext(rarg);
        if right.None? {
          return None;
        }
        r := Some(BinaryOp(op, l.value, right.value));
      case FuncCall(func, args) =>
        var l := AddAllToContext(args);
        if l.None? {
          return None;
        }
        r := Some(FuncCall(func, l.value));
      case Alias(alias, child) =>
        var c := AddAggCallToContext(child);
        if c.None? {
          return None;
        }
        r := Some(Alias(alias, c.value));
      case Unsupported(_) => r := None;
    }

    method AddAllToContext(es: seq<BoundExpr>) returns (r: Option<seq<BoundExpr>>)
      modifies this`aggregations
      ensures r.Some? <==> CollectableAll(es) && (allowAggregation || CallsAll(es) == [])
      ensures r.Some? ==> r.value == StrippedAll(es, |old(aggregations)|) && aggregations == old(aggregations) + CallsAll(es)
      decreases es
    {
      if es == [] {
        return Some([]);
      }
      var e := AddAggCallToContext(es[0]);
      if e.None? {
        return None;
      }
      var rest := AddAllToContext(es[1..]);
      if rest.None? {
        return None;
      }
      r := Some([e.value] + rest.value);
    }

    method ResolveColumn(name: string, children: seq<Schema>) returns (r: Option<Expr>)
      ensures r == PlanColumnRef(name, children)
    {
      if |children| == 1 {
        var duplicated := HasDuplicate(children[0], name);
        var i := TryGetColIdx(children[0], name);
        if duplicated || i.None? {
          return None;
        }
        return Some(Col(0, i.value, children[0][i.value]));
      }
      if |children| != 2 {
        return None;
      }
      var i, j := TryGetColIdx(children[0], name), TryGetColIdx(children[1], name);
      if i.Some? && j.Some? {
        return None;
      }
      if i.Some? {
        return Some(Col(0, i.value, children[0][i.value]));
      }
      if j.Some? {
        return Some(Col(1, j.value, children[1][j.value]));
      }
      return None;
    }

    /** The second walk: an aggregate call takes the next prepared column, whatever its name. */
    method PlanExpression(e: BoundExpr, children: seq<Schema>) returns (r: Option<Planned>)
      modifies this`nextAggregation
      ensures r == PlanExpr(e, children, exprInAgg, old(nextAggregation))
      ensures r.Some? ==> nextAggregation == r.value.next
      decreases e
    {
      match e
      case AggCall(_, _, _) =>
        if nextAggregation >= |exprInAgg| {
          return None;
        }
        r := Some(Planned(UNNAMED_COLUMN, exprInAgg[nextAggregation], nextAggregation + 1));
        nextAggregation := nextAggregation + 1;
      case ColumnRef(name) =>
        var c := ResolveColumn(name, children);
        if c.None? {
          return None;
        }
        r := Some(Planned(name, c.value, nextAggregation));
      case BinaryOp(op, larg, rarg) =>
        var l := PlanExpression(larg, children);
        if l.None? {
          return None;
        }
        var right := PlanExpression(rarg, children);
        if right.None? {
          return None;
        }
        var b := BinaryExpression(op, l.value.expr, right.value.expr);
        if b.None? {
          return None;
        }
        r := Some(Planned(UNNAMED_COLUMN, b.value, nextAggregation));
      case FuncCall(func, args) =>
        var l := PlanExpressions(args, children);
        if l.None? || func != "construct_array" {
          return None;
        }
        r := Some(Planned(UNNAMED_COLUMN, Call(Array, l.value.exprs), nextAggregation));
      case Constant(v) => r := Some(Planned(UNNAMED_COLUMN, Const(v), nextAggregation));
      case Alias(alias, child) =>
        var c := PlanExpression(child, children);
        if c.None? {
          return None;
        }
        r := Some(c.value.(name := alias));
      case Unsupported(_) => r := None;
    }

    method PlanExpressions(es: seq<BoundExpr>, children: seq<Schema>) returns (r: Option<PlannedList>)
      modifies this`nextAggregation
      ensures r == PlanList(es, children, exprInAgg, old(nextAggregation))
      ensures r.Some? ==> nextAggregation == r.value.next
      decreases es
    {
      if es == [] {
        return Some(PlannedList([], [], nextAggregation));
      }
      var e := PlanExpression(es[0], children);
      if e.None? {
        return None;
      }
      var rest := PlanExpressions(es[1..], children);
      if rest.None? {
        return None;
      }
      r := Some(PlannedList([e.value.name] + rest.value.names, [e.value.expr] + rest.value.exprs, rest.value.next));
    }

    /** Arguments are planned in a fresh context, put back afterwards, so no aggregate may nest. */
    method PlanAggCall(call: BoundExpr, child: Schema) returns (r: Option<AggInput>)
      requires call.AggCall?
      modifies this
      ensures r == PlanCall(call, child)
      ensures unchanged(this)
    {
      if call.distinct {
        return None;
      }
      var allowed, next, calls, cols := allowAggregation, nextAggregation, aggregations, exprInAgg;
      allowAggregation, nextAggregation, aggregations, exprInAgg := false, 0, [], [];
      var args := PlanExpressions(call.args, [child]);
      allowAggregation, nextAggregation, aggregations, exprInAgg := allowed, next, calls, cols;
      if args.None? {
        return None;
      }
      var ty := AggTypeOf(call.func, |args.value.exprs|);
      if ty.None? {
        return None;
      }
      r := Some(AggInput(ty.value, if args.value.exprs == [] then Const(Integer(1)) else args.value.exprs[0]));
    }

    /** The first phase: each collected call becomes an input, a type and a prepared column. */
    method PlanAllCalls(child: Schema, groups: nat) returns (inputs: Option<seq<AggInput>>)
      requires forall c :: c in aggregations ==> c.AggCall?
      requires exprInAgg == []
      modifies this
      ensures aggregations == old(aggregations) && nextAggregation == old(nextAggregation) && allowAggregation == old(allowAggregation)
      ensures inputs == PlanCalls(aggregations, child)
      ensures inputs.Some? ==> |inputs.value| == |aggregations| && exprInAgg == AggColumns(groups, |aggregations|)
    {
      hide PlanCall;
      var done: seq<AggInput> := [];
      for term := 0 to |aggregations|
        invariant aggregations == old(aggregations) && nextAggregation == old(nextAggregation) && allowAggregation == old(allowAggregation)
        invariant |done| == term && PlanCalls(aggregations[..term], child) == Some(done)
        invariant exprInAgg == AggColumns(groups, term)
      {
        ghost var upto := aggregations[..term + 1];
        assert upto[..term] == aggregations[..term] && upto[term] == aggregations[term];
        var one := PlanAggCall(aggregations[term], child);
        if one.None? {
          PlanCallsPrefix(aggregations, term + 1, child);
          return None;
        }
        done := done + [one.value];
        exprInAgg := exprInAgg + [Col(0, groups + term, Column("<agg_result>", IntegerType))];
      }
      assert aggregations[..|aggregations|] == aggregations;
      return Some(done);
    }

    /** Plans a statement over its child; the caller's context is put back. */
    method PlanSelectAgg(s: AggSelect, child: Schema) returns (r: Option<AggPlan>)
      modifies this
      ensures r == PlanAggregate(s, child)
      ensures allowAggregation == old(allowAggregation) && nextAggregation == old(nextAggregation)
      ensures aggregations == old(aggregations) && exprInAgg == old(exprInAgg)
    {
      var allowed, next, calls, cols := allowAggregation, nextAggregation, aggregations, exprInAgg;
      allowAggregation, nextAggregation, aggregations, exprInAgg := true, 0, [], [];
      r := PlanInContext(s, child);
      allowAggregation, nextAggregation, aggregations, exprInAgg := allowed, next, calls, cols;
    }

    method PlanInContext(s: AggSelect, child: Schema) returns (r: Option<AggPlan>)
      requires allowAggregation && nextAggregation == 0 && aggregations == [] && exprInAgg == []
      modifies this
      ensures r == PlanAggregate(s, child)
    {
      hide PlanList, PlanExpr, PlanCalls, Stripped, StrippedAll, Calls, CallsAll, Collectable, CollectableAll, AggSchema;
      AllAreCalls(s);
      var groups := PlanExpressions(s.groupBy, [child]);
      if groups.None? {
        return None;
      }
      ListLengths(s.groupBy, [child], [], 0);
      nextAggregation := groups.value.next;
      var having: Option<BoundExpr> := None;
      if s.having.Some? {
        having := AddAggCallToContext(s.having.value);
        if having.None? {
          return None;
        }
      }
      var items := AddAllToContext(s.items);
      if items.None? {
        return None;
      }
      assert aggregations == AllCalls(s);
      var inputs := PlanAllCalls(child, |groups.value.exprs|);
      if inputs.None? {
        return None;
      }
      r := PlanOutputs(s, child, groups.value, having, items.value, inputs.value);
    }

    /** The second phase: HAVING, then the select list, over the aggregation's output. */
    method PlanOutputs(s: AggSelect, child: Schema, groups: PlannedList, having: Option<BoundExpr>, items: seq<BoundExpr>, inputs: seq<AggInput>)
      returns (r: Option<AggPlan>)
      requires PlanList(s.groupBy, [child], [], 0) == Some(groups) && |groups.names| == |groups.exprs| && Accepted(s)
      requires forall c :: c in AllCalls(s) ==> c.AggCall?
      requires PlanCalls(AllCalls(s), child) == Some(inputs) && exprInAgg == AggColumns(|groups.exprs|, |inputs|) && nextAggregation == 0
      requires having == if s.having.Some? then Some(Stripped(s.having.value, 0)) else None
      requires items == StrippedAll(s.items, if s.having.Some? then |Calls(s.having.value)| else 0)
      modifies this`nextAggregation
      ensures r == PlanAggregate(s, child)
    {
      hide PlanList, PlanExpr, PlanCalls, AllCalls, Accepted, Stripped, StrippedAll;
      var n := |inputs|;
      var schema := AggSchema(groups.names, groups.exprs, n);
      var filter: Option<Expr> := None;
      if having.Some? {
        var h := PlanExpression(having.value, [schema]);
        if h.None? {
          return None;
        }
        filter := Some(h.value.expr);
      }
      var l := PlanExpressions(items, [schema]);
      if l.None? {
        return None;
      }
      r := Some(AggPlan(schema, groups.exprs,
                        seq(n, i requires 0 <= i < n => inputs[i].input),
                        seq(n, i requires 0 <= i < n => inputs[i].ty),
                        filter, l.value.exprs, l.value.names));
    }
  }

  lemma {:induction false} AllAreCalls(s: AggSelect)
    ensures forall c :: c in AllCalls(s) ==> c.AggCall?
  {
    if s.having.Some? {
      CallsAreCalls(s.having.value);
    }
    AllCallsAreCalls(s.items);
  }

  lemma {:induction false} ListLengths(es: seq<BoundExpr>, children: seq<Schema>, inAgg: seq<Expr>, next: nat)
    requires PlanList(es, children, inAgg, next).Some?
    ensures
      var l := PlanList(es, children, inAgg, next).value;
      |l.names| == |es| && |l.exprs| == |es| && (inAgg == [] && next == 0 ==> l.next == 0)
    decreases es
  {
    if es != [] {
      if inAgg == [] && next == 0 {
        NoneUsed(es[0], children);
      }
      ListLengths(es[1..], children, inAgg, PlanExpr(es[0], children, inAgg, next).value.next);
    }
  }

  lemma {:induction false} NoneUsed(e: BoundExpr, children: seq<Schema>)
    requires PlanExpr(e, children, [], 0).Some?
    ensures PlanExpr(e, children, [], 0).value.next == 0
    decreases e
  {
    match e
    case BinaryOp(_, larg, rarg) =>
      NoneUsed(larg, children);
      NoneUsed(rarg, children);
    case FuncCall(_, args) => ListLengths(args, children, [], 0);
    case Alias(_, child) => NoneUsed(child, children);
    case _ =>
  }

  lemma {:induction false} PlanCallsPrefix(calls: seq<BoundExpr>, k: nat, child: Schema)
    requires k <= |calls| && (forall c :: c in calls ==> c.AggCall?) && PlanCalls(calls[..k], child).None?
    ensures PlanCalls(calls, child).None?
  {
    if k == |calls| {
      assert calls[..k] == calls;
    } else {
      var most := calls[..|calls| - 1];
      assert most[..k] == calls[..k];
      PlanCallsPrefix(most, k, child);
    }
  }
}
