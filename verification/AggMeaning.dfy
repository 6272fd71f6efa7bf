/**
 Aggregation planning is right: over the aggregation's output row for a group, every planned
 expression has the value of its source expression over the group.
 */
module AggMeaning {
  import opened Sequences
  import opened Relational
  import opened Planning
  import opened AggPlanning

  /** count(*) counts. */
  ghost predicate CountsRows(db: Db) {
    forall vs :: db.agg(CountStar, vs) == Integer(|vs|)
  }

  /**** What bound expressions mean by themselves ****/

  /** The value of an operator, by its name. */
  function BinaryValue(db: Db, op: string, v: Value, w: Value): Value {
    if op == "=" || op == "==" then EqualValues(v, w)
    else if op == "!=" || op == "<>" then db.fn("!=", [v, w])
    else db.fn(op, [v, w])
  }

  /** The value of an aggregate-free expression on a row, its columns found by name. */
  function OnRow(db: Db, schema: Schema, row: Row, e: BoundExpr): Value
    decreases e
  {
    match e
    case ColumnRef(name) =>
      var i := TryGetColIdx(schema, name);
      if i.Some? && i.value < |row| then row[i.value] else Null
    case Constant(v) => v
    case BinaryOp(op, larg, rarg) => BinaryValue(db, op, OnRow(db, schema, row, larg), OnRow(db, schema, row, rarg))
    case FuncCall(_, args) => Vector(AllOnRow(db, schema, row, args))
    case Alias(_, child) => OnRow(db, schema, row, child)
    case AggCall(_, _, _) => Null
    case Unsupported(_) => Null
  }

  function AllOnRow(db: Db, schema: Schema, row: Row, es: seq<BoundExpr>): seq<Value>
    decreases es
  {
    if es == [] then [] else [OnRow(db, schema, row, es[0])] + AllOnRow(db, schema, row, es[1..])
  }

  /** What an aggregate of that name makes of the values of its argument. */
  function ByName(db: Db, func: string, vs: seq<Value>): Value {
    if func == "min" then db.agg(Min, vs)
    else if func == "max" then db.agg(Max, vs)
    else if func == "sum" then db.agg(Sum, vs)
    else if func == "count" then db.agg(Count, vs)
    else Null
  }

  /** An aggregate call over the rows of a group: count(*) counts them, the others aggregate their argument's values. */
  function OfCall(db: Db, schema: Schema, rows: seq<Row>, call: BoundExpr): Value
    requires call.AggCall?
  {
    if call.func == "count_star" then Integer(|rows|)
    else if call.args == [] then Null
    else ByName(db, call.func, seq(|rows|, i requires 0 <= i < |rows| => OnRow(db, schema, rows[i], call.args[0])))
  }

  /** The value of an expression over a group: a column is the group's, a call aggregates the group's rows. */
  function OverGroup(db: Db, schema: Schema, rows: seq<Row>, e: BoundExpr): Value
    decreases e
  {
    match e
    case ColumnRef(_) => if rows == [] then Null else OnRow(db, schema, rows[0], e)
    case Constant(v) => v
    case BinaryOp(op, larg, rarg) =>
      BinaryValue(db, op, OverGroup(db, schema, rows, larg), OverGroup(db, schema, rows, rarg))
    case FuncCall(_, args) => Vector(AllOverGroup(db, schema, rows, args))
    case Alias(_, child) => OverGroup(db, schema, rows, child)
    case AggCall(_, _, _) => OfCall(db, schema, rows, e)
    case Unsupported(_) => Null
  }

  function AllOverGroup(db: Db, schema: Schema, rows: seq<Row>, es: seq<BoundExpr>): seq<Value>
    decreases es
  {
    if es == [] then [] else [OverGroup(db, schema, rows, es[0])] + AllOverGroup(db, schema, rows, es[1..])
  }

  /**** Names ****/

  /** Column references are qualified, as the binder makes them: table, dot, column. */
  predicate Qualified(e: BoundExpr)
    decreases e
  {
    match e
    case ColumnRef(name) => '.' in name
    case BinaryOp(_, larg, rarg) => Qualified(larg) && Qualified(rarg)
    case FuncCall(_, args) => AllQualified(args)
    case Alias(_, child) => Qualified(child)
    case _ => true
  }

  predicate AllQualified(es: seq<BoundExpr>)
    decreases es
  {
    es != [] ==> Qualified(es[0]) && AllQualified(es[1..])
  }

  lemma {:induction false} NotQualified(i: nat)
    ensures '.' !in AggName(i) && '.' !in UNNAMED_COLUMN
  {
  }

  /**** Planning expressions over one row ****/

  /** On one tuple, or on the two tuples of a join. */
  lemma {:induction false} BinaryMeaning(db: Db, op: string, l: Expr, r: Expr, tuples: seq<Row>)
    requires BinaryExpression(op, l, r).Some?
    ensures Eval(db, BinaryExpression(op, l, r).value, tuples) == BinaryValue(db, op, Eval(db, l, tuples), Eval(db, r, tuples))
  {
    var b := BinaryExpression(op, l, r).value;
    assert b.args == [l, r];
    var vs := seq(|b.args|, i requires 0 <= i < |b.args| => Eval(db, b.args[i], tuples));
    assert vs == [Eval(db, l, tuples), Eval(db, r, tuples)];
    hide Eval;
  }

  /** A planned aggregate-free expression has its source's value on every row. */
  lemma {:induction false} PlannedOnRow(db: Db, e: BoundExpr, schema: Schema, row: Row)
    requires PlanExpr(e, [schema], [], 0).Some?
    ensures PlanExpr(e, [schema], [], 0).value.next == 0
    ensures Eval(db, PlanExpr(e, [schema], [], 0).value.expr, [row]) == OnRow(db, schema, row, e)
    decreases e
  {
    match e
    case ColumnRef(_) =>
    case Constant(_) =>
    case BinaryOp(op, larg, rarg) =>
      PlannedOnRow(db, larg, schema, row);
      PlannedOnRow(db, rarg, schema, row);
      BinaryMeaning(db, op, PlanExpr(larg, [schema], [], 0).value.expr, PlanExpr(rarg, [schema], [], 0).value.expr, [row]);
    case FuncCall(_, args) =>
      ListOnRow(db, args, schema, row);
      ArrayMeaning(db, PlanList(args, [schema], [], 0).value.exprs, row, AllOnRow(db, schema, row, args));
    case Alias(_, child) => PlannedOnRow(db, child, schema, row);
    case AggCall(_, _, _) => assert false;
    case Unsupported(_) => assert false;
  }

  lemma {:induction false} ListOnRow(db: Db, es: seq<BoundExpr>, schema: Schema, row: Row)
    requires PlanList(es, [schema], [], 0).Some?
    ensures
      var l := PlanList(es, [schema], [], 0).value;
      && l.next == 0 && |l.exprs| == |es| && |AllOnRow(db, schema, row, es)| == |es|
      && forall i :: 0 <= i < |es| ==> Eval(db, l.exprs[i], [row]) == AllOnRow(db, schema, row, es)[i]
    decreases es
  {
    if es != [] {
      PlannedOnRow(db, es[0], schema, row);
      ListOnRow(db, es[1..], schema, row);
      hide Eval, OnRow;
    }
  }

  /** A planned call's input aggregates to the call's value over the group; count(*) becomes a count of ones. */
  lemma {:induction false} CallMeaning(db: Db, call: BoundExpr, child: Schema, rows: seq<Row>)
    requires CountsRows(db) && call.AggCall? && PlanCall(call, child).Some?
    ensures
      var a := PlanCall(call, child).value;
      AggOf(db, a.ty, a.input, rows) == OfCall(db, child, rows, call)
  {
    var a := PlanCall(call, child).value;
    ListLengths(call.args, [child], [], 0);
    if call.args != [] {
      forall i | 0 <= i < |rows|
        ensures Eval(db, a.input, [rows[i]]) == OnRow(db, child, rows[i], call.args[0])
      {
        PlannedOnRow(db, call.args[0], child, rows[i]);
      }
      assert seq(|rows|, i requires 0 <= i < |rows| => Eval(db, a.input, [rows[i]]))
          == seq(|rows|, i requires 0 <= i < |rows| => OnRow(db, child, rows[i], call.args[0]));
    }
    hide Eval, OnRow;
  }

  /** The names an aggregate of one argument can have. */
  predicate TakesOne(func: string) {
    func == "min" || func == "max" || func == "sum" || func == "count"
  }

  /** A call is accepted exactly when it is not distinct, its arguments can be planned, and its name goes with their number; count(*) is given ones. */
  lemma {:induction false} CallAccepted(call: BoundExpr, child: Schema)
    requires call.AggCall?
    ensures PlanCall(call, child).Some? <==>
      && !call.distinct && PlanList(call.args, [child], [], 0).Some?
      && ((call.func == "count_star" && |call.args| == 0) || (TakesOne(call.func) && |call.args| == 1))
    ensures PlanCall(call, child).Some? && call.args == [] ==> PlanCall(call, child).value == AggInput(CountStar, Const(Integer(1)))
  {
    hide PlanList;
    if PlanList(call.args, [child], [], 0).Some? {
      ListLengths(call.args, [child], [], 0);
    }
  }

  lemma {:induction false} CallsMeaning(calls: seq<BoundExpr>, child: Schema, i: nat)
    requires (forall c :: c in calls ==> c.AggCall?) && PlanCalls(calls, child).Some? && i < |calls|
    ensures |PlanCalls(calls, child).value| == |calls| && PlanCall(calls[i], child) == Some(PlanCalls(calls, child).value[i])
  {
    var most := calls[..|calls| - 1];
    PlannedLength(most, child);
    if i < |most| {
      CallsMeaning(most, child, i);
    }
    hide PlanCall;
  }

  lemma {:induction false} PlannedLength(calls: seq<BoundExpr>, child: Schema)
    requires (forall c :: c in calls ==> c.AggCall?) && PlanCalls(calls, child).Some?
    ensures |PlanCalls(calls, child).value| == |calls|
  {
    hide PlanCall;
    if calls != [] {
      PlannedLength(calls[..|calls| - 1], child);
    }
  }

  /**** Planning stripped expressions over the output row ****/

  /** The output row and its schema, as the second walk sees them. */
  datatype Output = Output(schema: Schema, row: Row, groups: nat, calls: seq<BoundExpr>)

  /** Column groups + i of the output row is call i over the group. */
  ghost predicate CallsOk(db: Db, child: Schema, rows: seq<Row>, out: Output) {
    && |out.row| == out.groups + |out.calls|
    && (forall i :: 0 <= i < |out.calls| ==>
          out.calls[i].AggCall? && out.row[out.groups + i] == OfCall(db, child, rows, out.calls[i]))
  }

  /** A qualified name that resolves in the output resolves to that column over the group. */
  ghost predicate NamesOk(db: Db, child: Schema, rows: seq<Row>, out: Output) {
    forall name :: '.' in name && PlanColumnRef(name, [out.schema]).Some? ==>
      Eval(db, PlanColumnRef(name, [out.schema]).value, [out.row]) == OverGroup(db, child, rows, ColumnRef(name))
  }

  lemma {:induction false} NameAt(db: Db, child: Schema, rows: seq<Row>, out: Output, name: string)
    requires NamesOk(db, child, rows, out) && '.' in name && PlanColumnRef(name, [out.schema]).Some?
    ensures Eval(db, PlanColumnRef(name, [out.schema]).value, [out.row]) == OverGroup(db, child, rows, ColumnRef(name))
  {
    hide Eval, PlanColumnRef, OverGroup;
  }

  lemma {:induction false} CallAt(db: Db, child: Schema, rows: seq<Row>, out: Output, k: nat)
    requires CallsOk(db, child, rows, out) && k < |out.calls|
    ensures out.calls[k].AggCall?
    ensures Eval(db, AggColumns(out.groups, |out.calls|)[k], [out.row]) == OfCall(db, child, rows, out.calls[k])
  {
    hide OfCall;
  }

  /**
   The planning walk meets the calls in the order of the collecting walk: started at call k, it uses
   calls k, k + 1, … of its expression, each once, and gives an expression with the source's value.
   */
  lemma {:induction false} PlannedOverGroup(db: Db, child: Schema, rows: seq<Row>, out: Output, e: BoundExpr, k: nat)
    requires CallsOk(db, child, rows, out) && NamesOk(db, child, rows, out) && Qualified(e)
    requires k + |Calls(e)| <= |out.calls| && out.calls[k..k + |Calls(e)|] == Calls(e)
    requires PlanExpr(Stripped(e, k), [out.schema], AggColumns(out.groups, |out.calls|), k).Some?
    ensures
      var x := PlanExpr(Stripped(e, k), [out.schema], AggColumns(out.groups, |out.calls|), k).value;
      x.next == k + |Calls(e)| && Eval(db, x.expr, [out.row]) == OverGroup(db, child, rows, e)
    decreases e
  {
    hide CallsOk, NamesOk, Eval, BinaryExpression, BinaryValue, OfCall, OnRow, PlanExpr, Stripped;
    var cols := AggColumns(out.groups, |out.calls|);
    CallsUsed(e, k, [out.schema], cols, k);
    match e
    case BinaryOp(op, larg, rarg) =>
      var m := k + |Calls(larg)|;
      BinaryPlanned(op, larg, rarg, k, [out.schema], cols);
      SliceSplit(out.calls, k, Calls(larg), Calls(rarg));
      PlannedOverGroup(db, child, rows, out, larg, k);
      PlannedOverGroup(db, child, rows, out, rarg, m);
      BinaryMeaning(db, op, PlanExpr(Stripped(larg, k), [out.schema], cols, k).value.expr,
                    PlanExpr(Stripped(rarg, m), [out.schema], cols, m).value.expr, [out.row]);
    case FuncCall(func, args) =>
      ArrayPlanned(func, args, k, [out.schema], cols);
      ListOverGroup(db, child, rows, out, args, k);
      ArrayMeaning(db, PlanList(StrippedAll(args, k), [out.schema], cols, k).value.exprs, out.row, AllOverGroup(db, child, rows, args));
    case Alias(alias, inner) =>
      AliasPlanned(alias, inner, k, [out.schema], cols);
      PlannedOverGroup(db, child, rows, out, inner, k);
    case _ => LeafOverGroup(db, child, rows, out, e, k);
  }

  /** Names, constants and the calls themselves. */
  lemma {:induction false} LeafOverGroup(db: Db, child: Schema, rows: seq<Row>, out: Output, e: BoundExpr, k: nat)
    requires CallsOk(db, child, rows, out) && NamesOk(db, child, rows, out) && Qualified(e)
    requires !e.BinaryOp? && !e.FuncCall? && !e.Alias?
    requires k + |Calls(e)| <= |out.calls| && out.calls[k..k + |Calls(e)|] == Calls(e)
    requires PlanExpr(Stripped(e, k), [out.schema], AggColumns(out.groups, |out.calls|), k).Some?
    ensures Eval(db, PlanExpr(Stripped(e, k), [out.schema], AggColumns(out.groups, |out.calls|), k).value.expr, [out.row]) == OverGroup(db, child, rows, e)
  {
    hide CallsOk, NamesOk, Eval, BinaryExpression, PlanColumnRef, OfCall, OnRow;
    match e
    case ColumnRef(name) => NameAt(db, child, rows, out, name);
    case Constant(v) => ConstMeaning(db, v, out.row);
    case AggCall(_, _, _) =>
      assert out.calls[k..k + 1][0] == out.calls[k];
      CallAt(db, child, rows, out, k);
    case Unsupported(_) => assert false;
  }

  lemma {:induction false} AliasPlanned(alias: string, inner: BoundExpr, k: nat, children: seq<Schema>, inAgg: seq<Expr>)
    requires PlanExpr(Stripped(Alias(alias, inner), k), children, inAgg, k).Some?
    ensures PlanExpr(Stripped(inner, k), children, inAgg, k).Some?
    ensures PlanExpr(Stripped(Alias(alias, inner), k), children, inAgg, k).value.expr == PlanExpr(Stripped(inner, k), children, inAgg, k).value.expr
  {
  }

  /** The second operand of a planned operator starts at the call after those of the first. */
  lemma {:induction false} BinaryPlanned(op: string, larg: BoundExpr, rarg: BoundExpr, k: nat, children: seq<Schema>, inAgg: seq<Expr>)
    requires PlanExpr(Stripped(BinaryOp(op, larg, rarg), k), children, inAgg, k).Some?
    ensures PlanExpr(Stripped(larg, k), children, inAgg, k).Some?
    ensures
      var m := k + |Calls(larg)|;
      var l, r := PlanExpr(Stripped(larg, k), children, inAgg, k), PlanExpr(Stripped(rarg, m), children, inAgg, m);
      && r.Some? && BinaryExpression(op, l.value.expr, r.value.expr).Some?
      && PlanExpr(Stripped(BinaryOp(op, larg, rarg), k), children, inAgg, k)
           == Some(Planned(UNNAMED_COLUMN, BinaryExpression(op, l.value.expr, r.value.expr).value, r.value.next))
  {
    CallsUsed(larg, k, children, inAgg, k);
    hide BinaryExpression;
  }

  lemma {:induction false} ArrayPlanned(func: string, args: seq<BoundExpr>, k: nat, children: seq<Schema>, inAgg: seq<Expr>)
    requires PlanExpr(Stripped(FuncCall(func, args), k), children, inAgg, k).Some?
    ensures PlanList(StrippedAll(args, k), children, inAgg, k).Some?
    ensures
      var l := PlanList(StrippedAll(args, k), children, inAgg, k).value;
      PlanExpr(Stripped(FuncCall(func, args), k), children, inAgg, k) == Some(Planned(UNNAMED_COLUMN, Call(Array, l.exprs), l.next))
  {
    hide PlanList, StrippedAll;
  }

  lemma {:induction false} ConstMeaning(db: Db, v: Value, row: Row)
    ensures Eval(db, Const(v), [row]) == v
  {
  }

  lemma {:induction false} ArrayMeaning(db: Db, exprs: seq<Expr>, row: Row, vs: seq<Value>)
    requires |exprs| == |vs| && forall i :: 0 <= i < |vs| ==> Eval(db, exprs[i], [row]) == vs[i]
    ensures Eval(db, Call(Array, exprs), [row]) == Vector(vs)
  {
    assert seq(|exprs|, i requires 0 <= i < |exprs| => Eval(db, exprs[i], [row])) == vs;
  }

  lemma {:induction false} ListOverGroup(db: Db, child: Schema, rows: seq<Row>, out: Output, es: seq<BoundExpr>, k: nat)
    requires CallsOk(db, child, rows, out) && NamesOk(db, child, rows, out) && AllQualified(es)
    requires k + |CallsAll(es)| <= |out.calls| && out.calls[k..k + |CallsAll(es)|] == CallsAll(es)
    requires PlanList(StrippedAll(es, k), [out.schema], AggColumns(out.groups, |out.calls|), k).Some?
    ensures
      var l := PlanList(StrippedAll(es, k), [out.schema], AggColumns(out.groups, |out.calls|), k).value;
      && l.next == k + |CallsAll(es)| && |l.exprs| == |es| && |AllOverGroup(db, child, rows, es)| == |es|
      && forall i :: 0 <= i < |es| ==> Eval(db, l.exprs[i], [out.row]) == AllOverGroup(db, child, rows, es)[i]
    decreases es
  {
    hide CallsOk, NamesOk, Eval, OverGroup, PlanExpr, Stripped, Calls;
    AllCallsUsed(es, k, [out.schema], AggColumns(out.groups, |out.calls|), k);
    if es != [] {
      CallsUsed(es[0], k, [out.schema], AggColumns(out.groups, |out.calls|), k);
      SliceSplit(out.calls, k, Calls(es[0]), CallsAll(es[1..]));
      assert StrippedAll(es, k)[1..] == StrippedAll(es[1..], k + |Calls(es[0])|);
      PlannedOverGroup(db, child, rows, out, es[0], k);
      ListOverGroup(db, child, rows, out, es[1..], k + |Calls(es[0])|);
    }
  }

  lemma {:induction false} SliceSplit(s: seq<BoundExpr>, k: nat, a: seq<BoundExpr>, b: seq<BoundExpr>)
    requires k + |a| + |b| <= |s| && s[k..k + |a + b|] == a + b
    ensures s[k..k + |a|] == a && s[k + |a|..k + |a| + |b|] == b
  {
    var slice := s[k..k + |a + b|];
    assert slice[..|a|] == a && slice[|a|..] == b;
    assert s[k..k + |a|] == slice[..|a|] && s[k + |a|..k + |a| + |b|] == slice[|a|..];
  }

  /**** The whole statement ****/

  /** Group-by items name their columns after the column they refer to, and nothing else is qualified. */
  predicate GroupsPlain(groupBy: seq<BoundExpr>) {
    forall i :: 0 <= i < |groupBy| ==> !groupBy[i].Alias? && (groupBy[i].ColumnRef? ==> '.' in groupBy[i].name)
  }

  ghost predicate StatementOk(s: AggSelect) {
    GroupsPlain(s.groupBy) && (s.having.Some? ==> Qualified(s.having.value)) && AllQualified(s.items)
  }

  lemma {:induction false} GroupNames(es: seq<BoundExpr>, child: Schema, i: nat)
    requires PlanList(es, [child], [], 0).Some? && GroupsPlain(es) && i < |es|
    ensures
      var l := PlanList(es, [child], [], 0).value;
      && |l.names| == |es| && |l.exprs| == |es|
      && PlanExpr(es[i], [child], [], 0) == Some(Planned(l.names[i], l.exprs[i], 0))
      && (if es[i].ColumnRef? then l.names[i] == es[i].name else l.names[i] == UNNAMED_COLUMN)
  {
    ListLengths(es, [child], [], 0);
    NoneUsed(es[0], [child]);
    if i > 0 {
      GroupNames(es[1..], child, i - 1);
    }
    hide PlanColumnRef, BinaryExpression;
  }

  /** In the output schema a qualified name can only be that of a group-by column. */
  lemma {:induction false} NamesResolve(db: Db, s: AggSelect, child: Schema, rows: seq<Row>, out: Output, name: string)
    requires PlanList(s.groupBy, [child], [], 0).Some? && GroupsPlain(s.groupBy) && '.' in name
    requires
      var l := PlanList(s.groupBy, [child], [], 0).value;
      && |l.names| == |l.exprs| && out.schema == AggSchema(l.names, l.exprs, |out.calls|) && out.groups == |l.exprs|
      && |out.row| == out.groups + |out.calls| && out.row[..out.groups] == KeyOf(db, l.exprs, rows)
    requires PlanColumnRef(name, [out.schema]).Some?
    ensures Eval(db, PlanColumnRef(name, [out.schema]).value, [out.row]) == OverGroup(db, child, rows, ColumnRef(name))
  {
    var l := PlanList(s.groupBy, [child], [], 0).value;
    ListLengths(s.groupBy, [child], [], 0);
    var i := TryGetColIdx(out.schema, name).value;
    if i >= out.groups {
      NotQualified(i - out.groups);
      assert false;
    }
    GroupNames(s.groupBy, child, i);
    NotQualified(0);
    assert out.schema[i].name == l.names[i];
    assert s.groupBy[i] == ColumnRef(name);
    assert out.row[i] == out.row[..out.groups][i];
    if rows != [] {
      PlannedOnRow(db, ColumnRef(name), child, rows[0]);
    }
  }

  function OutputSchema(l: PlannedList, n: nat): Schema {
    if |l.names| == |l.exprs| then AggSchema(l.names, l.exprs, n) else []
  }

  function Used(s: AggSelect): nat {
    if s.having.Some? then |Calls(s.having.value)| else 0
  }

  /** The parts of a successful aggregation plan. */
  lemma {:induction false} NodeParts(s: AggSelect, child: Schema)
    requires PlanAggregate(s, child).Some?
    ensures PlanList(s.groupBy, [child], [], 0).Some? && (forall c :: c in AllCalls(s) ==> c.AggCall?)
    ensures PlanCalls(AllCalls(s), child).Some?
    ensures
      var p, l, inputs := PlanAggregate(s, child).value, PlanList(s.groupBy, [child], [], 0).value, PlanCalls(AllCalls(s), child).value;
      && |l.names| == |l.exprs| && p.groupBys == l.exprs && |inputs| == |AllCalls(s)| == |p.inputs| == |p.types|
      && (forall i :: 0 <= i < |inputs| ==> p.inputs[i] == inputs[i].input && p.types[i] == inputs[i].ty)
  {
    AllAreCalls(s);
    PlannedLength(AllCalls(s), child);
    hide PlanList, PlanExpr, PlanCalls, AllCalls, Stripped, StrippedAll, AggSchema;
  }

  lemma {:induction false} ExprParts(s: AggSelect, child: Schema)
    requires PlanAggregate(s, child).Some?
    ensures PlanList(s.groupBy, [child], [], 0).Some?
    ensures
      var p, l := PlanAggregate(s, child).value, PlanList(s.groupBy, [child], [], 0).value;
      var n := |AllCalls(s)|;
      var schema, cols := OutputSchema(l, n), AggColumns(|l.exprs|, n);
      var having := if s.having.Some? then PlanExpr(Stripped(s.having.value, 0), [schema], cols, 0) else None;
      && p.having.Some? == s.having.Some? && (s.having.Some? ==> having.Some? && p.having == Some(having.value.expr))
      && var items := PlanList(StrippedAll(s.items, Used(s)), [schema], cols, if s.having.Some? then having.value.next else 0);
      && items.Some? && p.exprs == items.value.exprs
  {
    AllAreCalls(s);
    PlannedLength(AllCalls(s), child);
    hide PlanList, PlanExpr, PlanCalls, AllCalls, Stripped, StrippedAll, AggSchema, Calls;
  }

  /**
   For every statement that aggregation planning accepts and every group of rows: HAVING and each item
   of the select list, evaluated over the row the aggregation puts out for the group, have the values
   of their source expressions over the group.
   */
  lemma {:induction false} AggregationIsRight(db: Db, s: AggSelect, child: Schema, rows: seq<Row>)
    requires CountsRows(db) && StatementOk(s) && PlanAggregate(s, child).Some?
    ensures
      var p := PlanAggregate(s, child).value;
      && |p.types| == |p.inputs| == |AllCalls(s)| && |p.exprs| == |s.items| && p.having.Some? == s.having.Some?
      && (s.having.Some? ==>
            Eval(db, p.having.value, [GroupRow(db, p.groupBys, p.inputs, p.types, rows)]) == OverGroup(db, child, rows, s.having.value))
      && |AllOverGroup(db, child, rows, s.items)| == |s.items|
      && forall i :: 0 <= i < |s.items| ==>
           Eval(db, p.exprs[i], [GroupRow(db, p.groupBys, p.inputs, p.types, rows)]) == AllOverGroup(db, child, rows, s.items)[i]
  {
    hide CallsOk, NamesOk, Eval, OverGroup, AllOverGroup, PlanExpr, PlanList, GroupRow, Stripped, StrippedAll, PlanAggregate;
    hide PlanCalls, Calls, CallsAll, CountsRows;
    NodeParts(s, child);
    ExprParts(s, child);
    var p, l := PlanAggregate(s, child).value, PlanList(s.groupBy, [child], [], 0).value;
    var out := Output(OutputSchema(l, |AllCalls(s)|), GroupRow(db, p.groupBys, p.inputs, p.types, rows), |l.exprs|, AllCalls(s));
    OutputOk(db, s, child, rows, out);
    CallSlices(s);
    if s.having.Some? {
      PlannedOverGroup(db, child, rows, out, s.having.value, 0);
    }
    ListOverGroup(db, child, rows, out, s.items, Used(s));
  }

  lemma {:induction false} CallSlices(s: AggSelect)
    ensures |AllCalls(s)| == Used(s) + |CallsAll(s.items)|
    ensures s.having.Some? ==> AllCalls(s)[0..0 + |Calls(s.having.value)|] == Calls(s.having.value)
    ensures AllCalls(s)[Used(s)..Used(s) + |CallsAll(s.items)|] == CallsAll(s.items)
  {
    hide Calls, CallsAll;
  }

  /** The planning walk of a stripped expression uses as many prepared columns as the expression has calls. */
  lemma {:induction false} CallsUsed(e: BoundExpr, k: nat, children: seq<Schema>, inAgg: seq<Expr>, next: nat)
    requires PlanExpr(Stripped(e, k), children, inAgg, next).Some?
    ensures PlanExpr(Stripped(e, k), children, inAgg, next).value.next == next + |Calls(e)|
    decreases e
  {
    hide BinaryExpression, PlanColumnRef;
    match e
    case BinaryOp(_, larg, rarg) =>
      CallsUsed(larg, k, children, inAgg, next);
      CallsUsed(rarg, k + |Calls(larg)|, children, inAgg, next + |Calls(larg)|);
    case FuncCall(_, args) => AllCallsUsed(args, k, children, inAgg, next);
    case Alias(_, child) => CallsUsed(child, k, children, inAgg, next);
    case _ =>
  }

  lemma {:induction false} AllCallsUsed(es: seq<BoundExpr>, k: nat, children: seq<Schema>, inAgg: seq<Expr>, next: nat)
    requires PlanList(StrippedAll(es, k), children, inAgg, next).Some?
    ensures PlanList(StrippedAll(es, k), children, inAgg, next).value.next == next + |CallsAll(es)|
    decreases es
  {
    if es != [] {
      assert StrippedAll(es, k)[1..] == StrippedAll(es[1..], k + |Calls(es[0])|);
      CallsUsed(es[0], k, children, inAgg, next);
      AllCallsUsed(es[1..], k + |Calls(es[0])|, children, inAgg, next + |Calls(es[0])|);
    }
  }

  /**
   Aggregation planning uses each prepared column exactly once: in every accepted statement the two walks
   together consume as many as there are calls.
   */
  lemma {:induction false} EveryCallUsedOnce(s: AggSelect, child: Schema)
    requires PlanAggregate(s, child).Some?
    ensures PlanList(s.groupBy, [child], [], 0).Some?
    ensures
      var l, n := PlanList(s.groupBy, [child], [], 0).value, |AllCalls(s)|;
      var schema, cols := OutputSchema(l, n), AggColumns(|l.exprs|, n);
      var having := if s.having.Some? then PlanExpr(Stripped(s.having.value, 0), [schema], cols, 0) else None;
      && (s.having.Some? ==> having.Some? && having.value.next == Used(s))
      && var items := PlanList(StrippedAll(s.items, Used(s)), [schema], cols, Used(s));
      && items.Some? && items.value.next == n
  {
    hide PlanExpr, PlanList, Stripped, StrippedAll, PlanAggregate, Calls, CallsAll;
    ExprParts(s, child);
    CallSlices(s);
    var l, n := PlanList(s.groupBy, [child], [], 0).value, |AllCalls(s)|;
    var schema, cols := OutputSchema(l, n), AggColumns(|l.exprs|, n);
    if s.having.Some? {
      CallsUsed(s.having.value, 0, [schema], cols, 0);
    }
    AllCallsUsed(s.items, Used(s), [schema], cols, Used(s));
  }

  lemma {:induction false} OutputOk(db: Db, s: AggSelect, child: Schema, rows: seq<Row>, out: Output)
    requires CountsRows(db) && StatementOk(s) && PlanAggregate(s, child).Some?
    requires PlanList(s.groupBy, [child], [], 0).Some?
    requires
      var p, l := PlanAggregate(s, child).value, PlanList(s.groupBy, [child], [], 0).value;
      && |p.types| == |p.inputs| && out.row == GroupRow(db, p.groupBys, p.inputs, p.types, rows)
      && out == Output(OutputSchema(l, |AllCalls(s)|), out.row, |l.exprs|, AllCalls(s))
    ensures CallsOk(db, child, rows, out) && NamesOk(db, child, rows, out)
  {
    hide PlanList, PlanExpr, PlanCalls, AllCalls, PlanCall, Eval, OverGroup, OfCall, AggOf, PlanAggregate, PlanColumnRef, AggSchema, CountsRows;
    NodeParts(s, child);
    var p, l := PlanAggregate(s, child).value, PlanList(s.groupBy, [child], [], 0).value;
    forall i | 0 <= i < |out.calls|
      ensures out.calls[i].AggCall? && out.row[out.groups + i] == OfCall(db, child, rows, out.calls[i])
    {
      CallsMeaning(AllCalls(s), child, i);
      CallMeaning(db, out.calls[i], child, rows);
    }
    assert out.row[..out.groups] == KeyOf(db, l.exprs, rows);
    forall name | '.' in name && PlanColumnRef(name, [out.schema]).Some?
      ensures Eval(db, PlanColumnRef(name, [out.schema]).value, [out.row]) == OverGroup(db, child, rows, ColumnRef(name))
    {
      NamesResolve(db, s, child, rows, out, name);
    }
  }
}
