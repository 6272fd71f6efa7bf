/**
 The planner of expressions: bound expressions become expressions over the columns of their children. None stands
 for an exception. An aggregate call takes the next of the expressions prepared for it.
 */
module Planning {
  import opened Sequences
  import opened Relational
  import opened Optimizer

  const UNNAMED_COLUMN := "<unnamed>"

  /** Unsupported is every expression both walks of the planner reject: stars, unary operators, windows. */
  datatype BoundExpr =
    | ColumnRef(name: string)
    | Constant(v: Value)
    | BinaryOp(op: string, larg: BoundExpr, rarg: BoundExpr)
    | FuncCall(func: string, args: seq<BoundExpr>)
    | Alias(alias: string, child: BoundExpr)
    | AggCall(func: string, distinct: bool, args: seq<BoundExpr>)
    | Unsupported(kind: string)

  /**** Columns ****/

  /** The first column of that name. */
  function TryGetColIdx(schema: Schema, name: string): (r: Option<nat>)
    ensures r.Some? ==> r.value < |schema| && schema[r.value].name == name
    ensures r.Some? ==> forall i :: 0 <= i < r.value ==> schema[i].name != name
    ensures r.None? ==> forall i :: 0 <= i < |schema| ==> schema[i].name != name
  {
    if schema == [] then None
    else if schema[0].name == name then Some(0)
    else
      var r := TryGetColIdx(schema[1..], name);
      if r.None? then None else Some(r.value + 1)
  }

  /** Two columns of the schema have that name. */
  ghost predicate Duplicated(schema: Schema, name: string) {
    exists i, j :: 0 <= i < j < |schema| && schema[i].name == name && schema[j].name == name
  }

  /** The loop that looks for a second column of the same name. */
  method HasDuplicate(schema: Schema, name: string) returns (duplicated: bool)
    ensures duplicated <==> Duplicated(schema, name)
  {
    var found := false;
    for k := 0 to |schema|
      invariant found <==> exists i :: 0 <= i < k && schema[i].name == name
      invariant forall i, j :: 0 <= i < j < k ==> schema[i].name != name || schema[j].name != name
    {
      if schema[k].name == name {
        if found {
          return true;
        }
        found := true;
      }
    }
    return false;
  }

  /** A column is resolved against the schemas of one child, or of the two sides of a join. */
  ghost function PlanColumnRef(name: string, children: seq<Schema>): Option<Expr> {
    if |children| == 1 then
      var i := TryGetColIdx(children[0], name);
      if Duplicated(children[0], name) || i.None? then None else Some(Col(0, i.value, children[0][i.value]))
    else if |children| == 2 then
      var i, j := TryGetColIdx(children[0], name), TryGetColIdx(children[1], name);
      if i.Some? && j.Some? then None
      else if i.Some? then Some(Col(0, i.value, children[0][i.value]))
      else if j.Some? then Some(Col(1, j.value, children[1][j.value]))
      else None
    else None
  }

  /**** Expressions ****/

  function ValueType(v: Value): Type {
    match v
    case Null => IntegerType
    case Boolean(_) => BooleanType
    case Integer(_) => IntegerType
    case Decimal(_) => DecimalType
    case Varchar(_) => VarcharType
    case Vector(_) => VectorType
  }

  function TypeOf(e: Expr): Type {
    match e
    case Col(_, _, ret) => ret.ty
    case Const(v) => ValueType(v)
    case Call(fn, _) =>
      match fn
      case Equal => BooleanType
      case Array => VectorType
      case Fn(name) => if name == "+" || name == "-" then IntegerType else BooleanType
  }

  /** Arithmetic wants integers and logic wants booleans on both sides. */
  function BinaryExpression(op: string, l: Expr, r: Expr): Option<Expr> {
    if op == "=" || op == "==" then Some(Call(Equal, [l, r]))
    else if op == "!=" || op == "<>" then Some(Call(Fn("!="), [l, r]))
    else if op == "<" || op == "<=" || op == ">" || op == ">=" then Some(Call(Fn(op), [l, r]))
    else if op == "+" || op == "-" then
      if TypeOf(l).IntegerType? && TypeOf(r).IntegerType? then Some(Call(Fn(op), [l, r])) else None
    else if op == "and" || op == "or" then
      if TypeOf(l).BooleanType? && TypeOf(r).BooleanType? then Some(Call(Fn(op), [l, r])) else None
    else None
  }

  /** A planned expression, the name it gives its column, and the next aggregate to be used. */
  datatype Planned = Planned(name: string, expr: Expr, next: nat)

  datatype PlannedList = PlannedList(names: seq<string>, exprs: seq<Expr>, next: nat)

  /** `inAgg` are the expressions prepared for aggregate calls, of which `next` have been used. */
  ghost function PlanExpr(e: BoundExpr, children: seq<Schema>, inAgg: seq<Expr>, next: nat): Option<Planned>
    decreases e
  {
    match e
    case AggCall(_, _, _) => if next >= |inAgg| then None else Some(Planned(UNNAMED_COLUMN, inAgg[next], next + 1))
    case ColumnRef(name) =>
      var c := PlanColumnRef(name, children);
      if c.None? then None else Some(Planned(name, c.value, next))
    case BinaryOp(op, larg, rarg) =>
      var l := PlanExpr(larg, children, inAgg, next);
      if l.None? then None else
      var r := PlanExpr(rarg, children, inAgg, l.value.next);
      if r.None? then None else
      var b := BinaryExpression(op, l.value.expr, r.value.expr);
      if b.None? then None else Some(Planned(UNNAMED_COLUMN, b.value, r.value.next))
    case FuncCall(func, args) =>
      var l := PlanList(args, children, inAgg, next);
      if l.None? || func != "construct_array" then None
      else Some(Planned(UNNAMED_COLUMN, Call(Array, l.value.exprs), l.value.next))
    case Constant(v) => Some(Planned(UNNAMED_COLUMN, Const(v), next))
    case Alias(alias, child) =>
      var c := PlanExpr(child, children, inAgg, next);
      if c.None? then None else Some(c.value.(name := alias))
    case Unsupported(_) => None
  }

  ghost function PlanList(es: seq<BoundExpr>, children: seq<Schema>, inAgg: seq<Expr>, next: nat): Option<PlannedList>
    decreases es
  {
    if es == [] then Some(PlannedList([], [], next))
    else
      var e := PlanExpr(es[0], children, inAgg, next);
      if e.None? then None else
      var rest := PlanList(es[1..], children, inAgg, e.value.next);
      if rest.None? then None
      else Some(PlannedList([e.value.name] + rest.value.names, [e.value.expr] + rest.value.exprs, rest.value.next))
  }

  /**** Planning against a join and rewriting for it commute ****/

  /** Resolving in the joined schema succeeds exactly when resolving in the two sides does and neither side repeats the name. */
  lemma {:induction false} JoinedColumn(name: string, l: Schema, r: Schema)
    ensures PlanColumnRef(name, [l + r]).Some? <==>
      PlanColumnRef(name, [l, r]).Some? && !Duplicated(l, name) && !Duplicated(r, name)
    ensures PlanColumnRef(name, [l + r]).Some? ==>
      RewriteExpressionForJoin(PlanColumnRef(name, [l + r]).value, |l|, |r|) == PlanColumnRef(name, [l, r])
  {
    var i, j := TryGetColIdx(l, name), TryGetColIdx(r, name);
    JoinedDuplicate(name, l, r);
    JoinedFirst(name, l, r);
  }

  lemma {:induction false} JoinedFirst(name: string, l: Schema, r: Schema)
    ensures
      var i, j := TryGetColIdx(l, name), TryGetColIdx(r, name);
      TryGetColIdx(l + r, name) == if i.Some? then i else if j.Some? then Some(|l| + j.value) else None
  {
    var i, j, k := TryGetColIdx(l, name), TryGetColIdx(r, name), TryGetColIdx(l + r, name);
    if i.Some? {
      assert (l + r)[i.value].name == name;
    } else if j.Some? {
      assert (l + r)[|l| + j.value].name == name;
    }
  }

  lemma {:induction false} JoinedDuplicate(name: string, l: Schema, r: Schema)
    ensures Duplicated(l + r, name) <==>
      Duplicated(l, name) || Duplicated(r, name) || (TryGetColIdx(l, name).Some? && TryGetColIdx(r, name).Some?)
  {
    if Duplicated(l, name) {
      var i, j :| 0 <= i < j < |l| && l[i].name == name && l[j].name == name;
      assert (l + r)[i].name == name && (l + r)[j].name == name;
    }
    if Duplicated(r, name) {
      var i, j :| 0 <= i < j < |r| && r[i].name == name && r[j].name == name;
      assert (l + r)[|l| + i].name == name && (l + r)[|l| + j].name == name;
    }
    if TryGetColIdx(l, name).Some? && TryGetColIdx(r, name).Some? {
      var i, j := TryGetColIdx(l, name).value, TryGetColIdx(r, name).value;
      assert (l + r)[i].name == name && (l + r)[|l| + j].name == name;
    }
  }

  lemma {:induction false} RewrittenType(e: Expr, left: nat)
    ensures TypeOf(Rewritten(e, left)) == TypeOf(e)
  {
  }

  lemma {:induction false} RewriteBinary(op: string, x: Expr, y: Expr, left: nat, right: nat)
    requires RewriteExpressionForJoin(x, left, right).Some? && RewriteExpressionForJoin(y, left, right).Some?
    ensures
      var b := BinaryExpression(op, x, y);
      var c := BinaryExpression(op, Rewritten(x, left), Rewritten(y, left));
      b.Some? == c.Some? && (b.Some? ==> RewriteExpressionForJoin(b.value, left, right) == c)
  {
    RewrittenType(x, left);
    RewrittenType(y, left);
    var b := BinaryExpression(op, x, y);
    if b.Some? {
      assert b.value.args == [x, y];
      assert Rewritten(b.value, left).args == [Rewritten(x, left), Rewritten(y, left)];
    }
  }

  /**
   An expression that planning against the joined schema accepts is accepted against the two sides,
   with the same name, and the join rewrite turns the one result into the other.
   */
  lemma {:induction false} PlanThenRewrite(e: BoundExpr, l: Schema, r: Schema)
    requires PlanExpr(e, [l + r], [], 0).Some?
    ensures PlanExpr(e, [l, r], [], 0).Some?
    ensures
      var joined, sides := PlanExpr(e, [l + r], [], 0).value, PlanExpr(e, [l, r], [], 0).value;
      && joined.name == sides.name && joined.next == 0 && sides.next == 0
      && RewriteExpressionForJoin(joined.expr, |l|, |r|) == Some(sides.expr)
    decreases e
  {
    match e
    case ColumnRef(name) => JoinedColumn(name, l, r);
    case BinaryOp(op, larg, rarg) =>
      PlanThenRewrite(larg, l, r);
      PlanThenRewrite(rarg, l, r);
      RewriteBinary(op, PlanExpr(larg, [l + r], [], 0).value.expr, PlanExpr(rarg, [l + r], [], 0).value.expr, |l|, |r|);
    case FuncCall(func, args) =>
      PlanListThenRewrite(args, l, r);
      var joined, sides := PlanList(args, [l + r], [], 0).value, PlanList(args, [l, r], [], 0).value;
      assert Rewritten(Call(Array, joined.exprs), |l|).args == sides.exprs;
    case Constant(_) =>
    case Alias(_, child) => PlanThenRewrite(child, l, r);
    case AggCall(_, _, _) => assert false;
    case Unsupported(_) => assert false;
  }

  lemma {:induction false} PlanListThenRewrite(es: seq<BoundExpr>, l: Schema, r: Schema)
    requires PlanList(es, [l + r], [], 0).Some?
    ensures PlanList(es, [l, r], [], 0).Some?
    ensures
      var joined, sides := PlanList(es, [l + r], [], 0).value, PlanList(es, [l, r], [], 0).value;
      && joined.next == 0 && sides.next == 0 && |joined.exprs| == |sides.exprs|
      && forall i :: 0 <= i < |joined.exprs| ==> RewriteExpressionForJoin(joined.exprs[i], |l|, |r|) == Some(sides.exprs[i])
    decreases es
  {
    if es != [] {
      PlanThenRewrite(es[0], l, r);
      PlanListThenRewrite(es[1..], l, r);
    }
  }
}
