/** Queries that the planner accepts and the shipped pipelines do not keep the rows of, from statement to optimized plan. */
module PlannerLimits {
  import opened Sequences
  import opened Relational
  import opened Optimizer
  import opened OptimizerSound
  import opened OptimizerLimits
  import opened OptimizerNulls
  import opened Planning
  import opened AggPlanning
  import opened SelectPlanning
  import opened PlannerShape

  /**** Selecting every column ****/

  function AllNames(schema: Schema): seq<string> {
    seq(|schema|, i requires 0 <= i < |schema| => schema[i].name)
  }

  /** The select list that a star stands for. */
  function Star(schema: Schema): seq<BoundExpr> {
    seq(|schema|, i requires 0 <= i < |schema| => ColumnRef(schema[i].name))
  }

  predicate DistinctNames(schema: Schema) {
    forall i, j :: 0 <= i < j < |schema| ==> schema[i].name != schema[j].name
  }

  lemma {:induction false} StarFrom(schema: Schema, k: nat)
    requires DistinctNames(schema) && k <= |schema|
    ensures PlanList(Star(schema)[k..], [schema], [], 0) == Some(PlannedList(AllNames(schema)[k..], AllColumns(schema)[k..], 0))
    decreases |schema| - k
  {
    hide PlanExpr;
    if k < |schema| {
      StarFrom(schema, k + 1);
      var items := Star(schema)[k..];
      assert items[1..] == Star(schema)[k + 1..] && items[0] == ColumnRef(schema[k].name);
      StarColumn(schema, k);
      assert AllNames(schema)[k..] == [schema[k].name] + AllNames(schema)[k + 1..];
      assert AllColumns(schema)[k..] == [Col(0, k, schema[k])] + AllColumns(schema)[k + 1..];
    } else {
      assert Star(schema)[k..] == [] && AllNames(schema)[k..] == [] && AllColumns(schema)[k..] == [];
    }
  }

  lemma {:induction false} StarColumn(schema: Schema, k: nat)
    requires DistinctNames(schema) && k < |schema|
    ensures PlanExpr(ColumnRef(schema[k].name), [schema], [], 0) == Some(Planned(schema[k].name, Col(0, k, schema[k]), 0))
  {
    var i := TryGetColIdx(schema, schema[k].name);
    assert i == Some(k);
  }

  /** The projection of a star over p. */
  function StarOver(p: Plan): Plan {
    Plan(p.schema, Projection(AllColumns(p.schema)), [p])
  }

  lemma {:induction false} StarPlanned(p: Plan)
    requires DistinctNames(p.schema)
    ensures PlanProjection(p, Star(p.schema)) == Some(StarOver(p))
  {
    StarFrom(p.schema, 0);
    assert Star(p.schema)[0..] == Star(p.schema);
    assert AllNames(p.schema)[0..] == AllNames(p.schema) && AllColumns(p.schema)[0..] == AllColumns(p.schema);
    hide PlanList;
    assert ProjectionSchema(AllNames(p.schema), AllColumns(p.schema)) == p.schema;
  }

  /** The first rule drops it. */
  lemma {:induction false} StarDropped(cat: Catalog, p: Plan)
    requires Normal(MergeProjection, cat, p)
    ensures Apply(MergeProjection, cat, StarOver(p)) == Some(p)
  {
    NormalFixed(MergeProjection, cat, p);
    hide Apply, Normal;
    ApplyUnfold(MergeProjection, cat, StarOver(p), StarOver(p));
  }

  lemma {:induction false} StarRows(db: Db, p: Plan)
    requires OthersOk(db) && Typed(db, p)
    ensures Rows(db, StarOver(p)) == Rows(db, p)
  {
    RowsWide(db, p);
    hide Rows, OthersOk, Typed;
    RowsOf(db, StarOver(p));
    ProjectIdentity(db, AllColumns(p.schema), Rows(db, p));
  }

  /**** Pipelines ****/

  lemma {:induction false} NextRule(rules: seq<Rule>, cat: Catalog, p: Plan, q: Plan)
    requires rules != [] && Apply(rules[0], cat, p) == Some(q)
    ensures ApplyAll(rules, cat, p) == ApplyAll(rules[1..], cat, q)
  {
    hide Apply;
  }

  lemma {:induction false} RulesInOrder()
    ensures STARTER_RULES[1..][1..][1..][1..] == [MergeFilterScan] && STARTER_RULES[1..][1..][1..][1..][1..] == []
    ensures STARTER_RULES[0] == MergeProjection && STARTER_RULES[1..][0] == MergeFilterNLJ
    ensures STARTER_RULES[1..][1..][0] == NLJAsIndexJoin && STARTER_RULES[1..][1..][1..][0] == OrderByAsIndexScan
    ensures CUSTOM_RULES[1..][1..][1..] == [MergeFilterScan] && CUSTOM_RULES[1..][1..][1..][1..] == []
    ensures CUSTOM_RULES[0] == MergeProjection && CUSTOM_RULES[1..][0] == MergeFilterNLJ && CUSTOM_RULES[1..][1..][0] == OrderByAsIndexScan
  {
  }

  /** Each rule's outcome given, the pipelines' outcome. */
  lemma {:induction false} RunRules(forceStarterRules: bool, cat: Catalog, p: Plan, a: Plan, b: Plan, c: Plan)
    requires Apply(MergeProjection, cat, p) == Some(a) && Apply(MergeFilterNLJ, cat, a) == Some(b)
    requires Apply(NLJAsIndexJoin, cat, b) == Some(b) && Apply(OrderByAsIndexScan, cat, b) == Some(c)
    requires Apply(MergeFilterScan, cat, c) == Some(c)
    ensures Optimize(forceStarterRules, cat, p) == Some(c)
  {
    hide Apply;
    RulesInOrder();
    var rules := if forceStarterRules then STARTER_RULES else CUSTOM_RULES;
    NextRule(rules, cat, p, a);
    NextRule(rules[1..], cat, a, b);
    if forceStarterRules {
      NextRule(rules[1..][1..], cat, b, b);
      NextRule(rules[1..][1..][1..], cat, b, c);
      NextRule(rules[1..][1..][1..][1..], cat, c, c);
    } else {
      NextRule(rules[1..][1..], cat, b, c);
      NextRule(rules[1..][1..][1..], cat, c, c);
    }
  }

  /**** Ordering a table by indexed columns ****/

  /** Select every column of a table in some order. */
  function OrderedTable(t: TableId, schema: Schema, sort: seq<BoundOrderBy>): Select {
    Select(BaseTable(t, schema), None, [], None, Star(schema), false, sort, None)
  }

  function Scan(t: TableId, schema: Schema): Plan {
    Plan(schema, SeqScan(t, None), [])
  }

  lemma {:induction false} OrderedPlanned(t: TableId, schema: Schema, sort: seq<BoundOrderBy>)
    requires DistinctNames(schema) && sort != [] && PlanOrderBys(sort, schema).Some?
    ensures PlanSelect(OrderedTable(t, schema, sort)) ==
      Some(Plan(schema, Sort(PlanOrderBys(sort, schema).value), [StarOver(Scan(t, schema))]))
  {
    StarPlanned(Scan(t, schema));
    hide PlanProjection, PlanOrderBys, Star;
    assert PlanTableRef(BaseTable(t, schema)) == Some(Scan(t, schema));
  }

  /** Both pipelines give the index scan. */
  lemma {:induction false} OrderedOptimized(forceStarterRules: bool, cat: Catalog, t: TableId, schema: Schema, orderBys: seq<OrderBy>)
    requires OrderColumns(orderBys).Some? && MatchIndex(cat, t, OrderColumns(orderBys).value).Some?
    ensures
      var sort := Plan(schema, Sort(orderBys), [Scan(t, schema)]);
      && SortByIndex(cat, sort).Some? && SortByIndex(cat, sort) != Some(sort)
      && Optimize(forceStarterRules, cat, sort.(children := [StarOver(Scan(t, schema))])) == SortByIndex(cat, sort)
  {
    var sort := Plan(schema, Sort(orderBys), [Scan(t, schema)]);
    var p := sort.(children := [StarOver(Scan(t, schema))]);
    hide OrderColumns, MatchIndex;
    var q := SortByIndex(cat, sort).value;
    StarDropped(cat, Scan(t, schema));
    ApplyUnfold(MergeProjection, cat, p, sort);
    forall rule: Rule
      ensures Apply(rule, cat, sort) == Local(rule, cat, sort)
    {
      LeafApply(rule, cat, Scan(t, schema));
      ApplyUnfold(rule, cat, sort, sort);
    }
    hide Apply, Optimize;
    LeafApply(MergeFilterScan, cat, q);
    RunRules(forceStarterRules, cat, p, sort, sort, q);
  }

  lemma {:induction false} OrderedTyped(db: Db, t: TableId, schema: Schema, sort: seq<BoundOrderBy>)
    requires t in db.tables && Wide(db.tables[t], |schema|) && PlanOrderBys(sort, schema).Some?
    ensures Typed(db, Scan(t, schema)) && Typed(db, Plan(schema, Sort(PlanOrderBys(sort, schema).value), [Scan(t, schema)]))
  {
    OrderBysScoped(sort, schema);
    hide PlanOrderBys, Scoped;
    assert Typed(db, Scan(t, schema));
  }

  /**
   Selecting a table in ascending order of an index's columns, with any null orders: either pipeline keeps
   the rows exactly when no two rows of the table clash.
   */
  lemma {:induction false} OrderedTableIff(forceStarterRules: bool, db: Db, t: TableId, schema: Schema, sort: seq<BoundOrderBy>)
    requires DbOk(db) && WeakOrder(db) && t in db.tables && Wide(db.tables[t], |schema|) && DistinctNames(schema) && sort != []
    requires PlanOrderBys(sort, schema).Some? && OrderColumns(PlanOrderBys(sort, schema).value).Some?
    requires MatchIndex(db.cat, t, OrderColumns(PlanOrderBys(sort, schema).value).value).Some?
    ensures
      var p := PlanSelect(OrderedTable(t, schema, sort));
      && p.Some? && Optimize(forceStarterRules, db.cat, p.value).Some?
      && (Rows(db, Optimize(forceStarterRules, db.cat, p.value).value) == Rows(db, p.value) <==>
          ClashFree(db, PlanOrderBys(sort, schema).value, Table(db, t)))
  {
    var orderBys := PlanOrderBys(sort, schema).value;
    var scan := Scan(t, schema);
    var plan := Plan(schema, Sort(orderBys), [scan]);
    OrderedPlanned(t, schema, sort);
    OrderedOptimized(forceStarterRules, db.cat, t, schema, orderBys);
    hide PlanOrderBys, PlanSelect, Rows, Optimize, OrderColumns, MatchIndex, ClashFree, Typed, WeakOrder, SortByIndex;
    OrderedTyped(db, t, schema, sort);
    StarRows(db, scan);
    RowsCongruent(db, plan, plan.(children := [StarOver(scan)]));
    SortByIndexIff(db, plan);
  }

  /** A table of a null and another key, indexed on it. */
  function NullAndValue(v: Value): Db {
    Db(Catalog(map[0 := [0]], map[0 := [0]]), map[0 := [[Null], [v]]], map[0 := [[Null], [v]]],
       (_, _) => Null, (_, _, _) => [], (_, _) => false, (_, _) => Null, _ => [])
  }

  /** Asked for its keys in ascending order, nulls last, either pipeline gives the null first. */
  lemma {:induction false} NullsLastBroken(forceStarterRules: bool, v: Value, column: Column)
    requires !v.Null?
    ensures
      var db, s := NullAndValue(v), OrderedTable(0, [column], [BoundOrderBy(Asc, NullsLast, ColumnRef(column.name))]);
      var p := PlanSelect(s);
      && DbOk(db) && WeakOrder(db) && Fits(db, s.table) && p.Some? && Optimize(forceStarterRules, db.cat, p.value).Some?
      && Rows(db, Optimize(forceStarterRules, db.cat, p.value).value) != Rows(db, p.value)
  {
    var db, sort := NullAndValue(v), [BoundOrderBy(Asc, NullsLast, ColumnRef(column.name))];
    var o := OrderBy(Asc, NullsLast, Col(0, 0, column));
    assert NullsClash(db, [o], [Null], [v]);
    NullAndValueOk(v);
    NullsLastPlanned(column);
    hide PlanOrderBys, PlanSelect, Rows, Optimize, OrderColumns, DbOk, WeakOrder, PlanExpr, NullsClash;
    OrderedTableIff(forceStarterRules, db, 0, [column], sort);
    assert [Null] in Table(db, 0) && [v] in Table(db, 0);
  }

  lemma {:induction false} NullsLastPlanned(column: Column)
    ensures PlanOrderBys([BoundOrderBy(Asc, NullsLast, ColumnRef(column.name))], [column]) == Some([OrderBy(Asc, NullsLast, Col(0, 0, column))])
    ensures OrderColumns([OrderBy(Asc, NullsLast, Col(0, 0, column))]) == Some([0])
  {
    var sort, o := [BoundOrderBy(Asc, NullsLast, ColumnRef(column.name))], OrderBy(Asc, NullsLast, Col(0, 0, column));
    assert TryGetColIdx([column], column.name) == Some(0);
    assert PlanExpr(sort[0].expr, [[column]], [], 0) == Some(Planned(column.name, o.expr, 0));
    hide PlanExpr;
    assert sort[1..] == [] && PlanOrderBys(sort[1..], [column]) == Some([]);
    assert [o] + [] == [o];
    assert [o][1..] == [] && OrderColumns([o][1..]) == Some([]);
    assert [0] + [] == [0];
  }

  lemma {:induction false} NullAndValueOk(v: Value)
    requires !v.Null?
    ensures DbOk(NullAndValue(v)) && WeakOrder(NullAndValue(v)) && Wide(NullAndValue(v).tables[0], 1)
    ensures MatchIndex(NullAndValue(v).cat, 0, [0]) == Some(0)
  {
    var db := NullAndValue(v);
    var rows := db.tables[0];
    assert RowLess(db, Ascending([0]), rows[0], rows[1]);
    assert IndexOk(db, [0], rows, rows);
    assert Table(db, 0) == rows;
  }

  /**** A filter over a LEFT JOIN on a true constant ****/

  /** Two one-column, one-row tables. */
  function TwoTables(a: Value, b: Value): Db {
    Db(Catalog(map[], map[]), map[0 := [[a]], 1 := [[b]]], map[], (_, _) => Null, (_, _, _) => [], (_, _) => false, (_, _) => Null, _ => [])
  }

  /** Select every column from a LEFT JOIN on a true constant where the two columns are equal. */
  function LeftJoinSelect(s: Column, t: Column): Select {
    Select(JoinRef(Left, BaseTable(0, [s]), BaseTable(1, [t]), Constant(Boolean(true))),
           Some(BinaryOp("=", ColumnRef(s.name), ColumnRef(t.name))), [], None, Star([s, t]), false, [], None)
  }

  function LeftJoin(s: Column, t: Column): Plan {
    Plan([s, t], NestedLoopJoin(Const(Boolean(true)), Left), [Scan(0, [s]), Scan(1, [t])])
  }

  /** Its plan, without the projection. */
  function LeftJoinQuery(s: Column, t: Column): Plan {
    Plan([s, t], Filter(Call(Equal, [Col(0, 0, s), Col(0, 1, t)])), [LeftJoin(s, t)])
  }

  lemma {:induction false} LeftJoinPlanned(s: Column, t: Column)
    requires s.name != t.name
    ensures PlanSelect(LeftJoinSelect(s, t)) == Some(StarOver(LeftJoinQuery(s, t)))
  {
    var select, query := LeftJoinSelect(s, t), LeftJoinQuery(s, t);
    LeftJoinFiltered(s, t);
    StarPlanned(query);
    hide PlanTableRef, PlanFilter, PlanProjection, Star;
    assert PlanSort(StarOver(query), []) == Some(StarOver(query));
  }

  lemma {:induction false} LeftJoinFiltered(s: Column, t: Column)
    requires s.name != t.name
    ensures PlanTableRef(LeftJoinSelect(s, t).table) == Some(LeftJoin(s, t))
    ensures PlanFilter(LeftJoin(s, t), LeftJoinSelect(s, t).filter) == Some(LeftJoinQuery(s, t))
  {
    assert PlanTableRef(BaseTable(0, [s])) == Some(Scan(0, [s])) && PlanTableRef(BaseTable(1, [t])) == Some(Scan(1, [t]));
    assert [s] + [t] == [s, t];
    assert PlanTableRef(LeftJoinSelect(s, t).table) == Some(LeftJoin(s, t));
    var schema := [s, t];
    assert !Duplicated(schema, s.name) && !Duplicated(schema, t.name);
    assert TryGetColIdx(schema, s.name) == Some(0) && TryGetColIdx(schema, t.name) == Some(1) by {
      assert schema[0].name == s.name && schema[1].name == t.name;
    }
    assert PlanExpr(ColumnRef(s.name), [schema], [], 0) == Some(Planned(s.name, Col(0, 0, s), 0));
    assert PlanExpr(ColumnRef(t.name), [schema], [], 0) == Some(Planned(t.name, Col(0, 1, t), 0));
  }

  /** Both pipelines merge the filter into the join and do no more. */
  lemma {:induction false} LeftJoinOptimized(forceStarterRules: bool, a: Value, b: Value, s: Column, t: Column)
    ensures FilterIntoJoin(LeftJoinQuery(s, t)).Some?
    ensures Optimize(forceStarterRules, TwoTables(a, b).cat, StarOver(LeftJoinQuery(s, t))) == FilterIntoJoin(LeftJoinQuery(s, t))
  {
    var cat, query, join := TwoTables(a, b).cat, LeftJoinQuery(s, t), LeftJoin(s, t);
    LeftJoinTyped(a, b, s, t);
    FilterIntoJoinParts(TwoTables(a, b), query);
    var merged := FilterIntoJoin(query).value;
    LeftJoinStays(cat, join);
    LeftJoinStays(cat, merged);
    assert Normal(MergeProjection, cat, query);
    StarDropped(cat, query);
    hide Apply, Optimize, Rewritten, Typed, Normal, DbOk;
    ApplyUnfold(MergeFilterNLJ, cat, query, query);
    RunRules(forceStarterRules, cat, StarOver(query), query, merged, merged);
  }

  /** No rule changes a join of two scans without indexes. */
  lemma {:induction false} LeftJoinStays(cat: Catalog, join: Plan)
    requires cat.tableIndexes == map[] && join.op.NestedLoopJoin? && |join.children| == 2
    requires forall i :: 0 <= i < 2 ==> join.children[i].op.SeqScan? && join.children[i].children == []
    ensures forall rule: Rule :: Normal(rule, cat, join) && Apply(rule, cat, join) == Some(join)
  {
    forall rule: Rule
      ensures Normal(rule, cat, join) && Apply(rule, cat, join) == Some(join)
    {
      assert Normal(rule, cat, join.children[0]) && Normal(rule, cat, join.children[1]);
      NormalFixed(rule, cat, join);
    }
  }

  /** With different values the query gives no row, but the plan that either pipeline makes of it gives a padded one. */
  lemma {:induction false} LeftJoinMergedWrongly(forceStarterRules: bool, a: Value, b: Value, s: Column, t: Column)
    requires a != b && s.name != t.name
    ensures
      var db, select := TwoTables(a, b), LeftJoinSelect(s, t);
      var p := PlanSelect(select);
      && DbOk(db) && Fits(db, select.table) && p.Some? && Optimize(forceStarterRules, db.cat, p.value).Some?
      && Rows(db, p.value) == [] && |Rows(db, Optimize(forceStarterRules, db.cat, p.value).value)| == 1
  {
    hide PlanSelect, Optimize, Star, Rows, FilterIntoJoin, Typed, IndexesOk, OrderOk;
    var db, query := TwoTables(a, b), LeftJoinQuery(s, t);
    LeftJoinPlanned(s, t);
    LeftJoinTyped(a, b, s, t);
    LeftJoinOptimized(forceStarterRules, a, b, s, t);
    StarRows(db, query);
    LeftJoinRows(a, b, s, t);
  }

  lemma {:induction false} LeftJoinRows(a: Value, b: Value, s: Column, t: Column)
    requires a != b
    ensures FilterIntoJoin(LeftJoinQuery(s, t)).Some? && Rows(TwoTables(a, b), LeftJoinQuery(s, t)) == []
    ensures |Rows(TwoTables(a, b), FilterIntoJoin(LeftJoinQuery(s, t)).value)| == 1
  {
    var db, query, join := TwoTables(a, b), LeftJoinQuery(s, t), LeftJoin(s, t);
    LeftJoinTyped(a, b, s, t);
    assert OthersOk(db) && IsPredicateTrue(join.op.pred);
    NothingEqual(a, b, s, t);
    assert ArrayFree(query.op.pred);
    hide Typed, Rewritten, Rewritable, ArrayFree, Eval, Rows, FilterIntoJoin, Keep, Emit, Lost, Wide, Passes, IsPredicateTrue, JoinRows, DbOk, Scoped;
    RowsOf(db, query);
    RowsOf(db, join);
    RowsOf(db, join.children[0]);
    RowsOf(db, join.children[1]);
    FilterIntoLeftJoin(db, query);
    OneLeftRow(db, join.op.pred, query.op.pred, [a], [[b]], 1);
  }

  lemma {:induction false} OneLeftRow(db: Db, truth: Expr, pred: Expr, l: Row, rights: seq<Row>, rw: nat)
    requires IsPredicateTrue(truth)
    ensures JoinRows(db, truth, Left, [l], rights, rw) == Emit(Left, l, rights, rw)
    ensures Lost(db, pred, [l], rights, rw) == if Survives(db, pred, l, rights, rw) then 0 else 1
  {
    hide Keep, Emit, IsPredicateTrue;
    KeepTrue(db, truth, [l], rights);
    assert [l][1..] == [];
    assert JoinRows(db, truth, Left, [], rights, rw) == [] && Lost(db, pred, [], rights, rw) == 0;
  }

  lemma {:induction false} NothingEqual(a: Value, b: Value, s: Column, t: Column)
    requires a != b
    ensures Keep(TwoTables(a, b), LeftJoinQuery(s, t).op.pred, [], Emit(Left, [a], [[b]], 1)) == []
  {
    var db, pred := TwoTables(a, b), LeftJoinQuery(s, t).op.pred;
    assert [a] + [b] == [a, b];
    assert Emit(Left, [a], [[b]], 1) == [[a, b]];
    BothArgs(db, pred, [[a, b]]);
    assert [] + [[a, b]] == [[a, b]];
    assert !Passes(db, pred, [] + [[a, b]]);
    assert [[a, b]][1..] == [];
    KeepNothing(db, pred, []);
  }

  lemma {:induction false} LeftJoinTyped(a: Value, b: Value, s: Column, t: Column)
    ensures DbOk(TwoTables(a, b)) && Typed(TwoTables(a, b), LeftJoinQuery(s, t))
  {
    var db, p := TwoTables(a, b), LeftJoinQuery(s, t);
    var join := p.children[0];
    assert Typed(db, join.children[0]) && Typed(db, join.children[1]);
    assert Typed(db, join);
    var pred := p.op.pred;
    assert Scoped(pred.args[0], [2]) && Scoped(pred.args[1], [2]);
  }
}
