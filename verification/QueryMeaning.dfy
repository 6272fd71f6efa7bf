/** The planner is right: the plan of a query gives the query's rows, and so does the plan that either pipeline makes of it. */
module QueryMeaning {
  import opened Sequences
  import opened Relational
  import opened Optimizer
  import opened OptimizerSound
  import opened Planning
  import opened AggPlanning
  import opened AggMeaning
  import opened SelectPlanning
  import opened PlannerShape
  import opened SqlMeaning

  /**** Only names matter ****/

  predicate SameNames(a: Schema, b: Schema) {
    |a| == |b| && forall i :: 0 <= i < |a| ==> a[i].name == b[i].name
  }

  lemma {:induction false} SameIndex(a: Schema, b: Schema, name: string)
    requires SameNames(a, b)
    ensures TryGetColIdx(a, name) == TryGetColIdx(b, name)
  {
  }

  lemma {:induction false} NamesOnRow(db: Db, a: Schema, b: Schema, row: Row, e: BoundExpr)
    requires SameNames(a, b)
    ensures OnRow(db, a, row, e) == OnRow(db, b, row, e)
    decreases e
  {
    hide SameNames, TryGetColIdx;
    match e
    case ColumnRef(name) => SameIndex(a, b, name);
    case BinaryOp(_, larg, rarg) =>
      NamesOnRow(db, a, b, row, larg);
      NamesOnRow(db, a, b, row, rarg);
    case FuncCall(_, args) => NamesAllOnRow(db, a, b, row, args);
    case Alias(_, child) => NamesOnRow(db, a, b, row, child);
    case _ =>
  }

  lemma {:induction false} NamesAllOnRow(db: Db, a: Schema, b: Schema, row: Row, es: seq<BoundExpr>)
    requires SameNames(a, b)
    ensures AllOnRow(db, a, row, es) == AllOnRow(db, b, row, es)
    decreases es
  {
    hide SameNames, OnRow;
    if es != [] {
      NamesOnRow(db, a, b, row, es[0]);
      NamesAllOnRow(db, a, b, row, es[1..]);
    }
  }

  lemma {:induction false} NamesOfCall(db: Db, a: Schema, b: Schema, rows: seq<Row>, call: BoundExpr)
    requires SameNames(a, b) && call.AggCall?
    ensures OfCall(db, a, rows, call) == OfCall(db, b, rows, call)
  {
    hide SameNames, OnRow;
    if call.args != [] {
      forall i | 0 <= i < |rows|
        ensures OnRow(db, a, rows[i], call.args[0]) == OnRow(db, b, rows[i], call.args[0])
      {
        NamesOnRow(db, a, b, rows[i], call.args[0]);
      }
      assert seq(|rows|, i requires 0 <= i < |rows| => OnRow(db, a, rows[i], call.args[0]))
          == seq(|rows|, i requires 0 <= i < |rows| => OnRow(db, b, rows[i], call.args[0]));
    }
  }

  lemma {:induction false} NamesOverGroup(db: Db, a: Schema, b: Schema, rows: seq<Row>, e: BoundExpr)
    requires SameNames(a, b)
    ensures OverGroup(db, a, rows, e) == OverGroup(db, b, rows, e)
    decreases e
  {
    hide SameNames, OnRow, OfCall;
    match e
    case ColumnRef(_) =>
      if rows != [] {
        NamesOnRow(db, a, b, rows[0], e);
      }
    case BinaryOp(_, larg, rarg) =>
      NamesOverGroup(db, a, b, rows, larg);
      NamesOverGroup(db, a, b, rows, rarg);
    case FuncCall(_, args) => NamesAllOverGroup(db, a, b, rows, args);
    case Alias(_, child) => NamesOverGroup(db, a, b, rows, child);
    case AggCall(_, _, _) => NamesOfCall(db, a, b, rows, e);
    case _ =>
  }

  lemma {:induction false} NamesAllOverGroup(db: Db, a: Schema, b: Schema, rows: seq<Row>, es: seq<BoundExpr>)
    requires SameNames(a, b)
    ensures AllOverGroup(db, a, rows, es) == AllOverGroup(db, b, rows, es)
    decreases es
  {
    hide SameNames, OverGroup;
    if es != [] {
      NamesOverGroup(db, a, b, rows, es[0]);
      NamesAllOverGroup(db, a, b, rows, es[1..]);
    }
  }

  lemma {:induction false} NamesOverGroups(db: Db, a: Schema, b: Schema, s: AggSelect, groups: seq<seq<Row>>)
    requires SameNames(a, b)
    ensures OverGroups(db, a, s, groups) == OverGroups(db, b, s, groups)
  {
    hide SameNames, OverGroup, AllOverGroup;
    if groups != [] {
      if s.having.Some? {
        NamesOverGroup(db, a, b, groups[0], s.having.value);
      }
      NamesAllOverGroup(db, a, b, groups[0], s.items);
      NamesOverGroups(db, a, b, s, groups[1..]);
    }
  }

  lemma {:induction false} NamesValues(db: Db, a: Schema, b: Schema, es: seq<BoundExpr>, rows: seq<Row>)
    requires SameNames(a, b)
    ensures Values(db, a, es, rows) == Values(db, b, es, rows)
  {
    hide SameNames, AllOnRow;
    forall i | 0 <= i < |rows|
      ensures AllOnRow(db, a, rows[i], es) == AllOnRow(db, b, rows[i], es)
    {
      NamesAllOnRow(db, a, b, rows[i], es);
    }
  }

  lemma {:induction false} NamesSelectList(db: Db, s: Select, a: Schema, b: Schema, rows: seq<Row>)
    requires SameNames(a, b)
    ensures SelectList(db, s, a, rows) == SelectList(db, s, b, rows)
  {
    hide SameNames, Values, OverGroups, GroupsOf, Grouped;
    NamesValues(db, a, b, s.items, rows);
    NamesValues(db, a, b, s.groupBy, rows);
    NamesOverGroups(db, a, b, AggSelect(s.groupBy, s.having, s.items), GroupsOf(db, Values(db, b, s.groupBy, rows), rows));
  }

  /**** Which selects are aggregations ****/

  lemma {:induction false} SameWalk(e: BoundExpr)
    ensures HasAggregation(e) <==> Aggregates(e)
    decreases e
  {
    match e
    case BinaryOp(_, larg, rarg) =>
      SameWalk(larg);
      SameWalk(rarg);
    case Alias(_, child) => SameWalk(child);
    case _ =>
  }

  lemma {:induction false} SameWalks(items: seq<BoundExpr>)
    ensures AnyAggregates(items) <==> exists i :: 0 <= i < |items| && HasAggregation(items[i])
  {
    hide HasAggregation, Aggregates;
    if items != [] {
      SameWalk(items[0]);
      SameWalks(items[1..]);
      if AnyAggregates(items[1..]) {
        var i :| 0 <= i < |items[1..]| && HasAggregation(items[1..][i]);
        assert HasAggregation(items[i + 1]);
      }
      if exists i :: 1 <= i < |items| && HasAggregation(items[i]) {
        var i :| 1 <= i < |items| && HasAggregation(items[i]);
        assert HasAggregation(items[1..][i - 1]);
      }
    }
  }

  /** The planner takes a select for an aggregation exactly when it has groups. */
  lemma {:induction false} AggregationIff(s: Select)
    ensures IsAggregation(s) <==> Grouped(s)
  {
    hide HasAggregation;
    SameWalks(s.items);
  }

  /** q projects an aggregation of p, directly or through a filter. */
  predicate ProjectsAggregate(q: Plan, p: Plan) {
    && q.op.Projection? && |q.children| == 1
    && var over := if q.children[0].op.Filter? && |q.children[0].children| == 1 then q.children[0].children[0] else q.children[0];
       over.op.Aggregate? && over.children == [p]
  }

  /** The select list becomes a projection of an aggregation of the filtered table exactly when the select has groups, else a projection of that table. */
  lemma {:induction false} AggregatePlanned(p: Plan, s: Select)
    requires PlanItems(p, s).Some?
    ensures ProjectsAggregate(PlanItems(p, s).value, p) <==> Grouped(s)
    ensures !Grouped(s) ==> PlanItems(p, s).value.op.Projection? && PlanItems(p, s).value.children == [p]
    ensures Grouped(s) ==>
      var q := PlanItems(p, s).value.children[0];
      s.having.Some? <==> q.op.Filter?
  {
    hide PlanAggregate, PlanList, IsAggregation, Grouped, Size;
    AggregationIff(s);
    if Grouped(s) {
      HavingPlanned(AggPart(s), p.schema);
    } else {
      if p.op.Filter? && |p.children| == 1 {
        assert p.children == [p.children[0]];
        OverIsLarger(p.children[0], p);
        if p.children[0].children == [p] {
          OverIsLarger(p, p.children[0]);
        }
      }
      if p.children == [p] {
        OverIsLarger(p, p);
      }
    }
  }

  lemma {:induction false} HavingPlanned(s: AggSelect, child: Schema)
    requires PlanAggregate(s, child).Some?
    ensures PlanAggregate(s, child).value.having.Some? <==> s.having.Some?
  {
    hide PlanList, PlanExpr, PlanCalls, AllCalls, Stripped, StrippedAll, Accepted;
    AllAreCalls(s);
  }

  /** PlanSelect puts only DISTINCT, ORDER BY and LIMIT over what it makes of the select list. */
  lemma {:induction false} SelectLayers(s: Select)
    requires PlanSelect(s).Some?
    ensures PlanTableRef(s.table).Some? && PlanFilter(PlanTableRef(s.table).value, s.filter).Some?
    ensures
      var filtered := PlanFilter(PlanTableRef(s.table).value, s.filter).value;
      && PlanItems(filtered, s).Some? && PlanSort(PlanDistinct(PlanItems(filtered, s).value, s.distinct), s.sort).Some?
      && PlanSelect(s).value == PlanLimit(PlanSort(PlanDistinct(PlanItems(filtered, s).value, s.distinct), s.sort).value, s.limit)
  {
    hide PlanTableRef, PlanFilter, PlanItems, PlanSort;
  }

  /**** WHERE ****/

  lemma {:induction false} WhereMeaning(db: Db, e: BoundExpr, schema: Schema, columns: Schema, rows: seq<Row>)
    requires PlanExpr(e, [schema], [], 0).Some? && SameNames(schema, columns)
    ensures Keep(db, PlanExpr(e, [schema], [], 0).value.expr, [], rows) == Where(db, columns, e, rows)
  {
    hide PlanExpr, OnRow, Eval, SameNames;
    if rows != [] {
      PlannedOnRow(db, e, schema, rows[0]);
      NamesOnRow(db, schema, columns, rows[0], e);
      WhereMeaning(db, e, schema, columns, rows[1..]);
      assert [] + [rows[0]] == [rows[0]];
    }
  }

  /**** Joins ****/

  /** A condition planned against the two sides has its value over the joined columns on the joined row. */
  lemma {:induction false} PlannedOnPair(db: Db, e: BoundExpr, l: Schema, r: Schema, a: Row, b: Row)
    requires PlanExpr(e, [l, r], [], 0).Some? && NoArray(e) && |a| == |l| && |b| == |r|
    ensures PlanExpr(e, [l, r], [], 0).value.next == 0
    ensures Eval(db, PlanExpr(e, [l, r], [], 0).value.expr, [a, b]) == OnRow(db, l + r, a + b, e)
    decreases e
  {
    match e
    case ColumnRef(name) => JoinedFirst(name, l, r);
    case Constant(_) =>
    case BinaryOp(op, larg, rarg) =>
      PlannedOnPair(db, larg, l, r, a, b);
      PlannedOnPair(db, rarg, l, r, a, b);
      BinaryMeaning(db, op, PlanExpr(larg, [l, r], [], 0).value.expr, PlanExpr(rarg, [l, r], [], 0).value.expr, [a, b]);
    case Alias(_, child) => PlannedOnPair(db, child, l, r, a, b);
    case AggCall(_, _, _) => assert false;
    case Unsupported(_) => assert false;
  }

  lemma {:induction false} MatchingMeaning(db: Db, e: BoundExpr, l: Schema, r: Schema, columns: Schema, a: Row, rights: seq<Row>)
    requires PlanExpr(e, [l, r], [], 0).Some? && NoArray(e) && |a| == |l| && Wide(rights, |r|) && SameNames(l + r, columns)
    ensures Keep(db, PlanExpr(e, [l, r], [], 0).value.expr, [a], rights) == Matching(db, columns, e, a, rights)
  {
    hide PlanExpr, OnRow, Eval, SameNames, NoArray;
    if rights != [] {
      PlannedOnPair(db, e, l, r, a, rights[0]);
      NamesOnRow(db, l + r, columns, a + rights[0], e);
      MatchingMeaning(db, e, l, r, columns, a, rights[1..]);
      assert [a] + [rights[0]] == [a, rights[0]];
    }
  }

  lemma {:induction false} PairedIsEmit(kind: JoinKind, l: Row, matches: seq<Row>, width: nat)
    ensures Paired(kind, l, matches, width) == Emit(kind, l, matches, width)
  {
    if |matches| > 1 {
      PairedIsEmit(kind, l, matches[1..], width);
    }
  }

  lemma {:induction false} JoinMeaning(db: Db, e: BoundExpr, l: Schema, r: Schema, columns: Schema, kind: JoinKind, lefts: seq<Row>, rights: seq<Row>)
    requires PlanExpr(e, [l, r], [], 0).Some? && NoArray(e) && Wide(lefts, |l|) && Wide(rights, |r|) && SameNames(l + r, columns)
    ensures JoinRows(db, PlanExpr(e, [l, r], [], 0).value.expr, kind, lefts, rights, |r|) == JoinOn(db, columns, e, kind, lefts, rights, |r|)
  {
    hide PlanExpr, SameNames, NoArray, Keep, Matching, Emit, Paired;
    if lefts != [] {
      PairedIsEmit(kind, lefts[0], Matching(db, columns, e, lefts[0], rights), |r|);
      MatchingMeaning(db, e, l, r, columns, lefts[0], rights);
      JoinMeaning(db, e, l, r, columns, kind, lefts[1..], rights);
    }
  }

  /**** The select list ****/

  lemma {:induction false} ValuesMeaning(db: Db, es: seq<BoundExpr>, schema: Schema, rows: seq<Row>)
    requires PlanList(es, [schema], [], 0).Some?
    ensures Project(db, PlanList(es, [schema], [], 0).value.exprs, rows) == Values(db, schema, es, rows)
  {
    hide PlanList, AllOnRow, Eval;
    var exprs := PlanList(es, [schema], [], 0).value.exprs;
    forall i | 0 <= i < |rows|
      ensures Project(db, exprs, rows)[i] == AllOnRow(db, schema, rows[i], es)
    {
      ListOnRow(db, es, schema, rows[i]);
    }
  }

  function Listed(db: Db, exprs: seq<Expr>, row: Row): Row {
    seq(|exprs|, j requires 0 <= j < |exprs| => Eval(db, exprs[j], [row]))
  }

  /** One group: HAVING and the select list over its output row. */
  lemma {:induction false} GroupMeaning(db: Db, s: AggSelect, child: Schema, rows: seq<Row>)
    requires CountsRows(db) && StatementOk(s) && PlanAggregate(s, child).Some?
    ensures
      var p := PlanAggregate(s, child).value;
      var row := GroupRow(db, p.groupBys, p.inputs, p.types, rows);
      && p.having.Some? == s.having.Some?
      && (s.having.Some? ==> (Passes(db, p.having.value, [] + [row]) <==> OverGroup(db, child, rows, s.having.value) == Boolean(true)))
      && Listed(db, p.exprs, row) == AllOverGroup(db, child, rows, s.items)
  {
    hide CountsRows, StatementOk, PlanAggregate, GroupRow, Eval, OverGroup, AllOverGroup;
    AggregationIsRight(db, s, child, rows);
    assert forall row: Row :: [] + [row] == [row];
  }

  /** The rows of HAVING and the select list over the output rows of the groups. */
  function Outputs(db: Db, p: AggPlan, groups: seq<seq<Row>>): seq<Row> {
    var rows := seq(|groups|, g requires 0 <= g < |groups| => GroupRow(db, p.groupBys, p.inputs, p.types, groups[g]));
    Project(db, p.exprs, if p.having.Some? then Keep(db, p.having.value, [], rows) else rows)
  }

  lemma {:induction false} ProjectOne(db: Db, exprs: seq<Expr>, row: Row, rows: seq<Row>)
    ensures Project(db, exprs, [row] + rows) == [Listed(db, exprs, row)] + Project(db, exprs, rows)
  {
    hide Eval;
  }

  lemma {:induction false} OutputsOne(db: Db, p: AggPlan, groups: seq<seq<Row>>)
    requires groups != []
    ensures
      var row, rest := GroupRow(db, p.groupBys, p.inputs, p.types, groups[0]), Outputs(db, p, groups[1..]);
      Outputs(db, p, groups) ==
        if p.having.None? || Passes(db, p.having.value, [] + [row]) then [Listed(db, p.exprs, row)] + rest else rest
  {
    hide GroupRow, Passes, Project, Listed;
    var rows := seq(|groups|, g requires 0 <= g < |groups| => GroupRow(db, p.groupBys, p.inputs, p.types, groups[g]));
    var tail := seq(|groups[1..]|, g requires 0 <= g < |groups[1..]| => GroupRow(db, p.groupBys, p.inputs, p.types, groups[1..][g]));
    assert rows[1..] == tail && rows == [rows[0]] + tail;
    assert rows[0] == GroupRow(db, p.groupBys, p.inputs, p.types, groups[0]);
    if p.having.Some? {
      ProjectOne(db, p.exprs, rows[0], Keep(db, p.having.value, [], tail));
    } else {
      ProjectOne(db, p.exprs, rows[0], tail);
    }
  }

  lemma {:induction false} OutputsMeaning(db: Db, s: AggSelect, child: Schema, groups: seq<seq<Row>>)
    requires CountsRows(db) && StatementOk(s) && PlanAggregate(s, child).Some?
    ensures Outputs(db, PlanAggregate(s, child).value, groups) == OverGroups(db, child, s, groups)
  {
    hide CountsRows, StatementOk, PlanAggregate, GroupRow, Eval, OverGroup, AllOverGroup, Listed;
    var p := PlanAggregate(s, child).value;
    if groups == [] {
    } else {
      hide Outputs;
      OutputsOne(db, p, groups);
      GroupMeaning(db, s, child, groups[0]);
      OutputsMeaning(db, s, child, groups[1..]);
    }
  }

  /** A planned aggregation gives the select list over each group that HAVING keeps. */
  lemma {:induction false} AggSelectMeaning(db: Db, p: Plan, s: AggSelect)
    requires CountsRows(db) && StatementOk(s) && PlanAggSelect(p, s).Some?
    ensures Rows(db, PlanAggSelect(p, s).value) == Aggregated(db, p.schema, s, Rows(db, p))
  {
    hide CountsRows, StatementOk, PlanAggregate, OverGroups, Rows, GroupsOf, Project, Values, PlanList;
    var a, rows := PlanAggregate(s, p.schema).value, Rows(db, p);
    NodeParts(s, p.schema);
    ValuesMeaning(db, s.groupBy, p.schema, rows);
    var groups := GroupsOf(db, Values(db, p.schema, s.groupBy, rows), rows);
    OutputsMeaning(db, s, p.schema, groups);
    AggNodeRows(db, p, a);
    RowsOf(db, AggFilter(p, a));
    RowsOf(db, PlanAggSelect(p, s).value);
  }

  lemma {:induction false} AggNodeRows(db: Db, p: Plan, a: AggPlan)
    ensures Rows(db, AggNode(p, a)) == AggregateRows(db, a.groupBys, a.inputs, a.types, Rows(db, p))
  {
    hide AggregateRows;
  }

  /**** Groups ****/

  function AllPositions(groups: seq<seq<nat>>): seq<nat> {
    if groups == [] then [] else groups[0] + AllPositions(groups[1..])
  }

  function AllRows(groups: seq<seq<Row>>): seq<Row> {
    if groups == [] then [] else groups[0] + AllRows(groups[1..])
  }

  function FirstPositions(n: nat): seq<nat> {
    seq(n, i => i)
  }

  lemma {:induction false} PickAppend(rows: seq<Row>, a: seq<nat>, b: seq<nat>)
    ensures Pick(rows, a + b) == Pick(rows, a) + Pick(rows, b)
  {
    if a == [] {
      assert a + b == b;
    } else {
      PickAppend(rows, a[1..], b);
      PickOne(rows, a[0], a[1..] + b);
      PickOne(rows, a[0], a[1..]);
      hide Pick;
      assert a + b == [a[0]] + (a[1..] + b) && a == [a[0]] + a[1..];
    }
  }

  lemma {:induction false} PickOne(rows: seq<Row>, x: nat, rest: seq<nat>)
    ensures Pick(rows, [x] + rest) == (if x < |rows| then [rows[x]] else []) + Pick(rows, rest)
  {
    assert ([x] + rest)[1..] == rest;
  }

  lemma {:induction false} PickGroups(rows: seq<Row>, groups: seq<seq<nat>>)
    ensures AllRows(seq(|groups|, g requires 0 <= g < |groups| => Pick(rows, groups[g]))) == Pick(rows, AllPositions(groups))
  {
    if groups != [] {
      var picked := seq(|groups|, g requires 0 <= g < |groups| => Pick(rows, groups[g]));
      var rest := groups[1..];
      PickGroups(rows, rest);
      assert picked[1..] == seq(|rest|, g requires 0 <= g < |rest| => Pick(rows, rest[g]));
      PickAppend(rows, groups[0], AllPositions(rest));
    }
  }

  lemma {:induction false} PickOut(rows: seq<Row>, at: seq<nat>, i: nat)
    requires i < |at|
    ensures multiset(Pick(rows, at)) == multiset(Pick(rows, [at[i]])) + multiset(Pick(rows, at[..i] + at[i + 1..]))
    ensures multiset(at[..i] + at[i + 1..]) == multiset(at) - multiset{at[i]}
  {
    var l, x, r := at[..i], [at[i]], at[i + 1..];
    assert at == l + (x + r);
    PickAppend(rows, l, x + r);
    PickAppend(rows, x, r);
    PickAppend(rows, l, r);
    hide Pick;
  }

  lemma {:induction false} PickPermutes(rows: seq<Row>, a: seq<nat>, b: seq<nat>)
    requires multiset(a) == multiset(b)
    ensures multiset(Pick(rows, a)) == multiset(Pick(rows, b))
    decreases |a|
  {
    assert |multiset(a)| == |a| && |multiset(b)| == |b|;
    if a != [] {
      assert a[0] in multiset(b);
      var i: nat :| i < |b| && b[i] == a[0];
      PickOut(rows, a, 0);
      PickOut(rows, b, i);
      hide Pick;
      PickPermutes(rows, a[..0] + a[1..], b[..i] + b[i + 1..]);
    }
  }

  lemma {:induction false} PickFirst(rows: seq<Row>, n: nat)
    requires n <= |rows|
    ensures Pick(rows, FirstPositions(n)) == rows[..n]
  {
    if n > 0 {
      PickFirst(rows, n - 1);
      assert FirstPositions(n) == FirstPositions(n - 1) + [n - 1];
      PickAppend(rows, FirstPositions(n - 1), [n - 1]);
      assert [n - 1][1..] == [];
      assert Pick(rows, [n - 1]) == [rows[n - 1]];
      assert rows[..n] == rows[..n - 1] + [rows[n - 1]];
    }
  }

  /** If the hash table puts every position in one group, the groups together hold exactly the rows. */
  lemma {:induction false} GroupsKeepRows(db: Db, keys: seq<Row>, rows: seq<Row>)
    requires multiset(AllPositions(db.groups(keys))) == multiset(FirstPositions(|rows|))
    ensures multiset(AllRows(GroupsOf(db, keys, rows))) == multiset(rows)
  {
    hide Pick, AllRows, FirstPositions;
    PickGroups(rows, db.groups(keys));
    PickPermutes(rows, AllPositions(db.groups(keys)), FirstPositions(|rows|));
    PickFirst(rows, |rows|);
    assert rows[..|rows|] == rows;
  }

  /**** DISTINCT, ORDER BY and LIMIT ****/

  lemma {:induction false} PickWide(rows: seq<Row>, at: seq<nat>, width: nat)
    requires Wide(rows, width)
    ensures Wide(Pick(rows, at), width)
  {
    if at != [] {
      PickWide(rows, at[1..], width);
    }
  }

  lemma {:induction false} FirstRow(db: Db, schema: Schema, group: seq<Row>)
    requires Wide(group, |schema|)
    ensures GroupRow(db, AllColumns(schema), [], [], group) == if group == [] then NullRow(|schema|) else group[0]
  {
    var key := KeyOf(db, AllColumns(schema), group);
    assert GroupRow(db, AllColumns(schema), [], [], group) == key;
    if group != [] {
      assert group[0] in group;
    }
  }

  lemma {:induction false} DistinctMeaning(db: Db, schema: Schema, rows: seq<Row>)
    requires Wide(rows, |schema|)
    ensures AggregateRows(db, AllColumns(schema), [], [], rows) == OneOfEach(db, rows, |schema|)
  {
    hide GroupRow, Wide, Eval;
    ProjectIdentity(db, AllColumns(schema), rows);
    hide Project;
    var groups := db.groups(rows);
    forall g | 0 <= g < |groups|
      ensures GroupRow(db, AllColumns(schema), [], [], Pick(rows, groups[g]))
        == if Pick(rows, groups[g]) == [] then NullRow(|schema|) else Pick(rows, groups[g])[0]
    {
      PickWide(rows, groups[g], |schema|);
      FirstRow(db, schema, Pick(rows, groups[g]));
    }
  }

  lemma {:induction false} OrderMeaning(db: Db, sort: seq<BoundOrderBy>, schema: Schema, columns: Schema, a: Row, b: Row)
    requires PlanOrderBys(sort, schema).Some? && SameNames(schema, columns)
    ensures RowLess(db, PlanOrderBys(sort, schema).value, a, b) == ComesBefore(db, columns, sort, a, b)
  {
    hide PlanExpr, OnRow, Eval, SameNames;
    if sort != [] {
      var e := sort[0].expr;
      PlannedOnRow(db, e, schema, a);
      PlannedOnRow(db, e, schema, b);
      NamesOnRow(db, schema, columns, a, e);
      NamesOnRow(db, schema, columns, b, e);
      OrderMeaning(db, sort[1..], schema, columns, a, b);
      var o := PlanOrderBys(sort, schema).value;
      assert o[1..] == PlanOrderBys(sort[1..], schema).value;
    }
  }

  lemma {:induction false} InsertMeaning(db: Db, sort: seq<BoundOrderBy>, schema: Schema, columns: Schema, r: Row, rows: seq<Row>)
    requires PlanOrderBys(sort, schema).Some? && SameNames(schema, columns)
    ensures Insert(db, PlanOrderBys(sort, schema).value, r, rows) == PutBefore(db, columns, sort, r, rows)
  {
    hide PlanOrderBys, SameNames, RowLess, ComesBefore;
    if rows != [] {
      OrderMeaning(db, sort, schema, columns, rows[0], r);
      InsertMeaning(db, sort, schema, columns, r, rows[1..]);
    }
  }

  lemma {:induction false} SortMeaning(db: Db, sort: seq<BoundOrderBy>, schema: Schema, columns: Schema, rows: seq<Row>)
    requires PlanOrderBys(sort, schema).Some? && SameNames(schema, columns)
    ensures SortRows(db, PlanOrderBys(sort, schema).value, rows) == Sorted(db, columns, sort, rows)
  {
    hide PlanOrderBys, SameNames, Insert, PutBefore;
    if rows != [] {
      SortMeaning(db, sort, schema, columns, rows[1..]);
      InsertMeaning(db, sort, schema, columns, rows[0], Sorted(db, columns, sort, rows[1..]));
    }
  }

  /**** Names of planned columns ****/

  lemma {:induction false} PlannedName(e: BoundExpr, k: nat, children: seq<Schema>, inAgg: seq<Expr>, next: nat)
    requires PlanExpr(e, children, inAgg, next).Some?
    ensures PlanExpr(e, children, inAgg, next).value.name == ItemName(e) && ItemName(Stripped(e, k)) == ItemName(e)
  {
    hide PlanColumnRef, BinaryExpression;
  }

  lemma {:induction false} PlannedNames(es: seq<BoundExpr>, children: seq<Schema>, inAgg: seq<Expr>, next: nat, i: nat)
    requires PlanList(es, children, inAgg, next).Some? && i < |es|
    ensures
      var names := PlanList(es, children, inAgg, next).value.names;
      |names| == |es| && names[i] == ItemName(es[i])
  {
    ListLengths(es, children, inAgg, next);
    PlannedName(es[0], 0, children, inAgg, next);
    hide PlanExpr;
    if i > 0 {
      PlannedNames(es[1..], children, inAgg, PlanExpr(es[0], children, inAgg, next).value.next, i - 1);
    }
  }

  lemma {:induction false} StrippedNames(es: seq<BoundExpr>, k: nat, i: nat)
    requires i < |es|
    ensures |StrippedAll(es, k)| == |es| && ItemName(StrippedAll(es, k)[i]) == ItemName(es[i])
  {
    StrippedLength(es, k);
    if i > 0 {
      StrippedNames(es[1..], k + |Calls(es[0])|, i - 1);
    }
  }

  lemma {:induction false} StrippedLength(es: seq<BoundExpr>, k: nat)
    ensures |StrippedAll(es, k)| == |es|
  {
    if es != [] {
      StrippedLength(es[1..], k + |Calls(es[0])|);
    }
  }

  lemma {:induction false} AggNames(s: AggSelect, child: Schema, i: nat)
    requires PlanAggregate(s, child).Some? && i < |s.items|
    ensures
      var names := PlanAggregate(s, child).value.names;
      |names| == |s.items| && names[i] == ItemName(s.items[i])
  {
    hide PlanList, PlanExpr, PlanCalls, AllCalls, Stripped, StrippedAll, Accepted, ItemName;
    AllAreCalls(s);
    var groups, inputs := PlanList(s.groupBy, [child], [], 0).value, PlanCalls(AllCalls(s), child).value;
    var n := |inputs|;
    var schema, cols := AggSchema(groups.names, groups.exprs, n), AggColumns(|groups.exprs|, n);
    var next := if s.having.Some? then PlanExpr(Stripped(s.having.value, 0), [schema], cols, 0).value.next else 0;
    var used := if s.having.Some? then |Calls(s.having.value)| else 0;
    StrippedNames(s.items, used, i);
    PlannedNames(StrippedAll(s.items, used), [schema], cols, next, i);
  }

  lemma {:induction false} NamesMatch(names: seq<string>, exprs: seq<Expr>, s: Select)
    requires |names| == |exprs| == |s.items| && forall i :: 0 <= i < |names| ==> names[i] == ItemName(s.items[i])
    ensures SameNames(ProjectionSchema(names, exprs), SelectColumns(s))
  {
    hide ItemName;
  }

  /**** One select ****/

  lemma {:induction false} FilterRows(db: Db, p: Plan, filter: Option<BoundExpr>, columns: Schema)
    requires PlanFilter(p, filter).Some? && SameNames(p.schema, columns)
    ensures PlanFilter(p, filter).value.schema == p.schema
    ensures Rows(db, PlanFilter(p, filter).value) == if filter.Some? then Where(db, columns, filter.value, Rows(db, p)) else Rows(db, p)
  {
    hide PlanExpr, Where, Rows, Keep, SameNames;
    if filter.Some? {
      WhereMeaning(db, filter.value, p.schema, columns, Rows(db, p));
      RowsOf(db, PlanFilter(p, filter).value);
    }
  }

  lemma {:induction false} ItemsNames(p: Plan, s: Select)
    requires PlanItems(p, s).Some?
    ensures |PlanItems(p, s).value.schema| == |s.items| && SameNames(PlanItems(p, s).value.schema, SelectColumns(s))
  {
    hide PlanAggregate, PlanList, IsAggregation, SelectColumns, ItemName;
    if IsAggregation(s) {
      var a := PlanAggregate(AggPart(s), p.schema).value;
      AggItems(AggPart(s), p.schema);
      forall i | 0 <= i < |s.items|
        ensures |a.names| == |s.items| && a.names[i] == ItemName(s.items[i])
      {
        AggNames(AggPart(s), p.schema, i);
      }
      NamesMatch(a.names, a.exprs, s);
    } else {
      var l := PlanList(s.items, [p.schema], [], 0).value;
      ListLengths(s.items, [p.schema], [], 0);
      forall i | 0 <= i < |s.items|
        ensures l.names[i] == ItemName(s.items[i])
      {
        PlannedNames(s.items, [p.schema], [], 0, i);
      }
      NamesMatch(l.names, l.exprs, s);
    }
  }

  lemma {:induction false} AggItems(s: AggSelect, child: Schema)
    requires PlanAggregate(s, child).Some?
    ensures |PlanAggregate(s, child).value.names| == |s.items| && |PlanAggregate(s, child).value.exprs| == |s.items|
  {
    hide PlanList, PlanExpr, PlanCalls, AllCalls, Stripped, StrippedAll, Accepted;
    AllAreCalls(s);
    var groups, inputs := PlanList(s.groupBy, [child], [], 0).value, PlanCalls(AllCalls(s), child).value;
    var n := |inputs|;
    var schema, cols := AggSchema(groups.names, groups.exprs, n), AggColumns(|groups.exprs|, n);
    var next := if s.having.Some? then PlanExpr(Stripped(s.having.value, 0), [schema], cols, 0).value.next else 0;
    var used := if s.having.Some? then |Calls(s.having.value)| else 0;
    StrippedLength(s.items, used);
    ListLengths(StrippedAll(s.items, used), [schema], cols, next);
  }

  lemma {:induction false} ItemsRows(db: Db, p: Plan, s: Select, columns: Schema)
    requires CountsRows(db) && (Grouped(s) ==> StatementOk(AggPart(s))) && PlanItems(p, s).Some? && SameNames(p.schema, columns)
    ensures Rows(db, PlanItems(p, s).value) == SelectList(db, s, columns, Rows(db, p))
  {
    hide PlanAggSelect, PlanList, IsAggregation, Grouped, Aggregated, Values, Rows, Project, StatementOk, CountsRows, SameNames;
    AggregationIff(s);
    if IsAggregation(s) {
      AggSelectMeaning(db, p, AggPart(s));
    } else {
      ValuesMeaning(db, s.items, p.schema, Rows(db, p));
      RowsOf(db, PlanItems(p, s).value);
    }
    NamesSelectList(db, s, p.schema, columns, Rows(db, p));
  }

  lemma {:induction false} DistinctRows(db: Db, p: Plan, distinct: bool)
    requires Wide(Rows(db, p), |p.schema|)
    ensures PlanDistinct(p, distinct).schema == p.schema
    ensures Rows(db, PlanDistinct(p, distinct)) == if distinct then OneOfEach(db, Rows(db, p), |p.schema|) else Rows(db, p)
  {
    hide AggregateRows, OneOfEach, Wide;
    if distinct {
      DistinctMeaning(db, p.schema, Rows(db, p));
    }
  }

  lemma {:induction false} SortedRows(db: Db, p: Plan, sort: seq<BoundOrderBy>, columns: Schema)
    requires PlanSort(p, sort).Some? && SameNames(p.schema, columns)
    ensures PlanSort(p, sort).value.schema == p.schema
    ensures Rows(db, PlanSort(p, sort).value) == if sort == [] then Rows(db, p) else Sorted(db, columns, sort, Rows(db, p))
  {
    hide PlanOrderBys, Sorted, SortRows, Rows, SameNames;
    if sort != [] {
      SortMeaning(db, sort, p.schema, columns, Rows(db, p));
      RowsOf(db, PlanSort(p, sort).value);
    }
  }

  lemma {:induction false} LimitedRows(db: Db, p: Plan, limit: Option<nat>)
    ensures PlanLimit(p, limit).schema == p.schema && Rows(db, PlanLimit(p, limit)) == FirstRows(limit, Rows(db, p))
  {
  }

  /**** Whole queries ****/

  /**
   Join conditions build no arrays, and the names in aggregations are those that the binder makes: columns
   qualified, group-by items not aliases.
   */
  ghost predicate Readable(s: Select)
    decreases s
  {
    ReadableTable(s.table) && (Grouped(s) ==> StatementOk(AggPart(s)))
  }

  ghost predicate ReadableTable(t: TableRef)
    decreases t
  {
    match t
    case CrossProduct(left, right) => ReadableTable(left) && ReadableTable(right)
    case JoinRef(_, left, right, condition) => ReadableTable(left) && ReadableTable(right) && NoArray(condition)
    case Subquery(select, _) => Readable(select)
    case _ => true
  }

  lemma {:induction false} JoinNames(a: Schema, b: Schema, c: Schema, d: Schema)
    requires SameNames(a, c) && SameNames(b, d)
    ensures SameNames(a + b, c + d) && |b| == |d|
  {
  }

  lemma {:induction false} LeafRows(db: Db, p: Plan)
    requires p.op.Other? && p.children == []
    ensures Rows(db, p) == db.other(p.op.tag, |p.schema|, [])
  {
    assert seq(|p.children|, i requires 0 <= i < |p.children| => Rows(db, p.children[i])) == [];
  }

  lemma {:induction false} JoinedRows(db: Db, p: Plan, e: BoundExpr, kind: JoinKind, left: TableRef, right: TableRef)
    requires |p.children| == 2 && Wide(Rows(db, p.children[0]), |p.children[0].schema|) && Wide(Rows(db, p.children[1]), |p.children[1].schema|)
    requires NoArray(e) && PlanExpr(e, [p.children[0].schema, p.children[1].schema], [], 0).Some?
    requires p.op == NestedLoopJoin(PlanExpr(e, [p.children[0].schema, p.children[1].schema], [], 0).value.expr, kind)
    requires SameNames(p.children[0].schema, TableColumns(left)) && SameNames(p.children[1].schema, TableColumns(right))
    requires Rows(db, p.children[0]) == TableRows(db, left) && Rows(db, p.children[1]) == TableRows(db, right)
    ensures Rows(db, p) == JoinOn(db, TableColumns(left) + TableColumns(right), e, kind, TableRows(db, left), TableRows(db, right), |TableColumns(right)|)
  {
    hide PlanExpr, Rows, Wide, SameNames, TableRows, TableColumns, JoinRows, JoinOn, NoArray;
    RowsOf(db, p);
    JoinNames(p.children[0].schema, p.children[1].schema, TableColumns(left), TableColumns(right));
    JoinMeaning(db, e, p.children[0].schema, p.children[1].schema, TableColumns(left) + TableColumns(right), kind, Rows(db, p.children[0]), Rows(db, p.children[1]));
  }

  lemma {:induction false} SubqueryRows(db: Db, p: Plan, names: seq<string>)
    requires Wide(Rows(db, p), |p.schema|) && |names| == |p.schema|
    ensures
      var q := Plan(ProjectionSchema(names, AllColumns(p.schema)), Projection(AllColumns(p.schema)), [p]);
      Rows(db, q) == Rows(db, p) && SameNames(q.schema, Labels(names))
  {
    var q := Plan(ProjectionSchema(names, AllColumns(p.schema)), Projection(AllColumns(p.schema)), [p]);
    hide Rows;
    RowsOf(db, q);
    ProjectIdentity(db, AllColumns(p.schema), Rows(db, p));
  }

  /** The plan of a table reference has its columns' names and gives its rows. */
  lemma {:induction false} TableMeaning(db: Db, t: TableRef)
    requires OthersOk(db) && CountsRows(db) && Fits(db, t) && ReadableTable(t) && PlanTableRef(t).Some?
    ensures SameNames(PlanTableRef(t).value.schema, TableColumns(t)) && Rows(db, PlanTableRef(t).value) == TableRows(db, t)
    decreases t
  {
    hide Rows, JoinOn, Wide, OthersOk, CountsRows, PlanExpr, NoArray, SelectRows;
    var p := PlanTableRef(t).value;
    match t
    case BaseTable(_, _) => RowsOf(db, p);
    case Leaf(_, _) => LeafRows(db, p);
    case CrossProduct(left, right) =>
      TableMeaning(db, left);
      TableMeaning(db, right);
      TableWide(db, left);
      TableWide(db, right);
      TrueCondition([p.children[0].schema, p.children[1].schema]);
      JoinNames(p.children[0].schema, p.children[1].schema, TableColumns(left), TableColumns(right));
      JoinedRows(db, p, Constant(Boolean(true)), Inner, left, right);
    case JoinRef(kind, left, right, condition) =>
      TableMeaning(db, left);
      TableMeaning(db, right);
      TableWide(db, left);
      TableWide(db, right);
      JoinNames(p.children[0].schema, p.children[1].schema, TableColumns(left), TableColumns(right));
      JoinedRows(db, p, condition, kind, left, right);
    case Subquery(select, names) =>
      SelectMeaning(db, select);
      SelectTyped(db, select);
      var q := PlanSelect(select).value;
      RowsWide(db, q);
      hide PlanSelect, Typed;
      SubqueryRows(db, q, names);
  }

  lemma {:induction false} TrueCondition(children: seq<Schema>)
    ensures PlanExpr(Constant(Boolean(true)), children, [], 0) == Some(Planned(UNNAMED_COLUMN, Const(Boolean(true)), 0))
    ensures NoArray(Constant(Boolean(true)))
  {
  }

  lemma {:induction false} TableWide(db: Db, t: TableRef)
    requires OthersOk(db) && Fits(db, t) && PlanTableRef(t).Some?
    ensures Wide(Rows(db, PlanTableRef(t).value), |PlanTableRef(t).value.schema|)
  {
    hide Rows, Wide, OthersOk, Fits, PlanTableRef, Typed;
    TableRefTyped(db, t);
    RowsWide(db, PlanTableRef(t).value);
  }

  /** The plan of a select has its columns' names and gives its rows. */
  lemma {:induction false} SelectMeaning(db: Db, s: Select)
    requires OthersOk(db) && CountsRows(db) && Fits(db, s.table) && Readable(s) && PlanSelect(s).Some?
    ensures SameNames(PlanSelect(s).value.schema, SelectColumns(s)) && Rows(db, PlanSelect(s).value) == SelectRows(db, s)
    decreases s
  {
    hide Rows, OthersOk, CountsRows, Fits, SameNames, TableRows, TableColumns, SelectColumns, ReadableTable, PlanTableRef, StatementOk, Grouped;
    hide PlanFilter, PlanItems, PlanDistinct, PlanSort, PlanLimit, Where, SelectList, OneOfEach, Sorted, FirstRows, Typed, Wide;
    TableMeaning(db, s.table);
    TableRefTyped(db, s.table);
    var table, columns := PlanTableRef(s.table).value, TableColumns(s.table);
    FilterRows(db, table, s.filter, columns);
    FilterTyped(db, table, s.filter);
    var filtered := PlanFilter(table, s.filter).value;
    ItemsRows(db, filtered, s, columns);
    ItemsNames(filtered, s);
    ItemsTyped(db, filtered, s);
    var listed := PlanItems(filtered, s).value;
    RowsWide(db, listed);
    DistinctRows(db, listed, s.distinct);
    var once := PlanDistinct(listed, s.distinct);
    SortedRows(db, once, s.sort, SelectColumns(s));
    LimitedRows(db, PlanSort(once, s.sort).value, s.limit);
  }

  /**
   End to end: planning and optimizing a query, with either pipeline, gives a plan whose rows are the
   query's, aggregations and subqueries included.
   */
  lemma {:induction false} QueryIsRight(forceStarterRules: bool, db: Db, s: Select)
    requires DbOk(db) && CountsRows(db) && Fits(db, s.table) && Readable(s) && Avoids(s) && PlanSelect(s).Some?
    ensures Optimize(forceStarterRules, db.cat, PlanSelect(s).value).Some?
    ensures Rows(db, Optimize(forceStarterRules, db.cat, PlanSelect(s).value).value) == SelectRows(db, s)
  {
    hide Rows, CountsRows, Fits, Readable, Avoids, PlanSelect, Optimize, SelectRows, IndexesOk, OrderOk, OthersOk;
    QueryPreserved(forceStarterRules, db, s);
    SelectMeaning(db, s);
  }
}
