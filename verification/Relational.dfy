/**
 Expressions, plans and their meaning: a plan denotes a sequence of rows over a database. Operators
 other than equality, and plan nodes that no rule looks into, have an arbitrary meaning.
 */
module Relational {
  import opened Sequences

  datatype Value =
    | Null
    | Boolean(b: bool)
    | Integer(n: int)
    | Decimal(r: real)
    | Varchar(s: string)
    | Vector(elems: seq<Value>)

  datatype Type = BooleanType | IntegerType | DecimalType | VarcharType | VectorType | OtherType(name: string)

  datatype Column = Column(name: string, ty: Type)

  type Schema = seq<Column>

  type Row = seq<Value>

  type TableId = nat

  type IndexId = nat

  /** The functions an expression node can compute. */
  datatype Fn = Equal | Array | Fn(name: string)

  /** Col reads column `col` of tuple `tuple`: tuple 1 is the right side of a join. */
  datatype Expr =
    | Col(tuple: nat, col: nat, ret: Column)
    | Const(v: Value)
    | Call(fn: Fn, args: seq<Expr>)

  datatype Direction = Asc | Desc | DefaultDirection

  datatype NullOrder = NullsFirst | NullsLast | DefaultNulls

  datatype OrderBy = OrderBy(dir: Direction, nulls: NullOrder, expr: Expr)

  datatype JoinKind = Inner | Left

  datatype AggType = CountStar | Count | Sum | Min | Max

  datatype Op =
    | SeqScan(table: TableId, filter: Option<Expr>)
    | IndexScan(table: TableId, index: IndexId)
    | Filter(pred: Expr)
    | Projection(exprs: seq<Expr>)
    | NestedLoopJoin(pred: Expr, kind: JoinKind)
    | NestedIndexJoin(key: Expr, table: TableId, index: IndexId, inner: Schema, kind: JoinKind)
    | Aggregate(groupBys: seq<Expr>, inputs: seq<Expr>, types: seq<AggType>)
    | Sort(orderBys: seq<OrderBy>)
    | Limit(n: nat)
    | Other(tag: string)

  datatype Plan = Plan(schema: Schema, op: Op, children: seq<Plan>)

  /** What the optimizer sees of the indexes: which a table has, in catalog order, and their key columns. */
  datatype Catalog = Catalog(tableIndexes: map<TableId, seq<IndexId>>, keys: map<IndexId, seq<nat>>)

  /**
   `entries` lists each index's rows in key order. `agg` is what each aggregate makes of its input values, and
   `groups` what the hash table makes of the keys of its input rows: the positions of each group, in the order of
   the groups.
   */
  datatype Db = Db(
    cat: Catalog,
    tables: map<TableId, seq<Row>>,
    entries: map<IndexId, seq<Row>>,
    fn: (string, seq<Value>) -> Value,
    other: (string, nat, seq<seq<Row>>) -> seq<Row>,
    lt: (Value, Value) -> bool,
    agg: (AggType, seq<Value>) -> Value,
    groups: seq<Row> -> seq<seq<nat>>)

  /**** Expressions ****/

  /** SQL equality: unknown as soon as one side is null. */
  function EqualValues(v: Value, w: Value): Value {
    if v.Null? || w.Null? then Null else Boolean(v == w)
  }

  function Zeros(n: nat): seq<Value> {
    seq(n, _ => Decimal(0.0))
  }

  /** Evaluated over a join, an array is built after as many zeros as it has elements. */
  function Compute(db: Db, fn: Fn, vs: seq<Value>, joined: bool): Value {
    match fn
    case Equal => if |vs| == 2 then EqualValues(vs[0], vs[1]) else Null
    case Array => Vector(if joined then Zeros(|vs|) + vs else vs)
    case Fn(name) => db.fn(name, vs)
  }

  /** The value of e on one tuple, or on the two tuples of a join. */
  function Eval(db: Db, e: Expr, tuples: seq<Row>): Value {
    match e
    case Col(t, c, _) => if t < |tuples| && c < |tuples[t]| then tuples[t][c] else Null
    case Const(v) => v
    case Call(fn, args) =>
      Compute(db, fn, seq(|args|, i requires 0 <= i < |args| => Eval(db, args[i], tuples)), |tuples| == 2)
  }

  /** A row is kept iff the predicate is known and true. */
  predicate Passes(db: Db, pred: Expr, tuples: seq<Row>) {
    Eval(db, pred, tuples) == Boolean(true)
  }

  /** Every column of e exists in tuples of these widths. */
  predicate Scoped(e: Expr, widths: seq<nat>) {
    match e
    case Col(t, c, _) => t < |widths| && c < widths[t]
    case Const(_) => true
    case Call(_, args) => forall i :: 0 <= i < |args| ==> Scoped(args[i], widths)
  }

  /**** Operators on rows ****/

  /** The rows r for which pred holds of the tuples `prefix + [r]`. */
  function Keep(db: Db, pred: Expr, prefix: seq<Row>, rows: seq<Row>): seq<Row> {
    if rows == [] then []
    else if Passes(db, pred, prefix + [rows[0]]) then [rows[0]] + Keep(db, pred, prefix, rows[1..])
    else Keep(db, pred, prefix, rows[1..])
  }

  function Project(db: Db, exprs: seq<Expr>, rows: seq<Row>): seq<Row> {
    seq(|rows|, i requires 0 <= i < |rows| =>
      seq(|exprs|, j requires 0 <= j < |exprs| => Eval(db, exprs[j], [rows[i]])))
  }

  /** The rows at these positions. */
  function Pick(rows: seq<Row>, at: seq<nat>): seq<Row> {
    if at == [] then []
    else if at[0] < |rows| then [rows[at[0]]] + Pick(rows, at[1..])
    else Pick(rows, at[1..])
  }

  /** The rows by group, given the key of each. */
  function GroupsOf(db: Db, keys: seq<Row>, rows: seq<Row>): seq<seq<Row>> {
    var groups := db.groups(keys);
    seq(|groups|, g requires 0 <= g < |groups| => Pick(rows, groups[g]))
  }

  /** The key of a group is that of its first row. */
  function KeyOf(db: Db, groupBys: seq<Expr>, rows: seq<Row>): Row {
    seq(|groupBys|, i requires 0 <= i < |groupBys| => if rows == [] then Null else Eval(db, groupBys[i], [rows[0]]))
  }

  function AggOf(db: Db, ty: AggType, input: Expr, rows: seq<Row>): Value {
    db.agg(ty, seq(|rows|, i requires 0 <= i < |rows| => Eval(db, input, [rows[i]])))
  }

  /** The row that a group gives: its key, then its aggregates. */
  function GroupRow(db: Db, groupBys: seq<Expr>, inputs: seq<Expr>, types: seq<AggType>, rows: seq<Row>): Row {
    KeyOf(db, groupBys, rows)
    + seq(|inputs|, i requires 0 <= i < |inputs| =>
        AggOf(db, if i < |types| then types[i] else CountStar, inputs[i], rows))
  }

  function AggregateRows(db: Db, groupBys: seq<Expr>, inputs: seq<Expr>, types: seq<AggType>, rows: seq<Row>): seq<Row> {
    var groups := GroupsOf(db, Project(db, groupBys, rows), rows);
    seq(|groups|, g requires 0 <= g < |groups| => GroupRow(db, groupBys, inputs, types, groups[g]))
  }

  function NullRow(width: nat): Row {
    seq(width, _ => Null)
  }

  /** What a left row contributes to a join, given its matches. */
  function Emit(kind: JoinKind, l: Row, matches: seq<Row>, width: nat): seq<Row> {
    if matches == [] && kind.Left? then [l + NullRow(width)]
    else seq(|matches|, i requires 0 <= i < |matches| => l + matches[i])
  }

  function JoinRows(db: Db, pred: Expr, kind: JoinKind, lefts: seq<Row>, rights: seq<Row>, width: nat): seq<Row> {
    if lefts == [] then []
    else Emit(kind, lefts[0], Keep(db, pred, [lefts[0]], rights), width)
         + JoinRows(db, pred, kind, lefts[1..], rights, width)
  }

  /** The index entries whose key column equals v. */
  function Lookup(entries: seq<Row>, col: nat, v: Value): seq<Row> {
    if entries == [] then []
    else if col < |entries[0]| && EqualValues(v, entries[0][col]) == Boolean(true)
    then [entries[0]] + Lookup(entries[1..], col, v)
    else Lookup(entries[1..], col, v)
  }

  function IndexJoinRows(db: Db, key: Expr, col: nat, kind: JoinKind, lefts: seq<Row>, entries: seq<Row>, width: nat): seq<Row> {
    if lefts == [] then []
    else Emit(kind, lefts[0], Lookup(entries, col, Eval(db, key, [lefts[0]])), width)
         + IndexJoinRows(db, key, col, kind, lefts[1..], entries, width)
  }

  /** Nulls come first in ascending and last in descending order unless the order says otherwise. */
  predicate NullsComeFirst(o: OrderBy) {
    o.nulls.NullsFirst? || (o.nulls.DefaultNulls? && !o.dir.Desc?)
  }

  predicate ValueLess(db: Db, o: OrderBy, v: Value, w: Value) {
    if v.Null? then !w.Null? && NullsComeFirst(o)
    else if w.Null? then !NullsComeFirst(o)
    else if o.dir.Desc? then db.lt(w, v) else db.lt(v, w)
  }

  /** Lexicographic order on the sort keys. */
  predicate RowLess(db: Db, orderBys: seq<OrderBy>, a: Row, b: Row) {
    orderBys != [] &&
    var v, w := Eval(db, orderBys[0].expr, [a]), Eval(db, orderBys[0].expr, [b]);
    || ValueLess(db, orderBys[0], v, w)
    || (!ValueLess(db, orderBys[0], w, v) && RowLess(db, orderBys[1..], a, b))
  }

  function Insert(db: Db, orderBys: seq<OrderBy>, r: Row, rows: seq<Row>): seq<Row> {
    if rows == [] || !RowLess(db, orderBys, rows[0], r) then [r] + rows
    else [rows[0]] + Insert(db, orderBys, r, rows[1..])
  }

  /** The stable sort. */
  function SortRows(db: Db, orderBys: seq<OrderBy>, rows: seq<Row>): seq<Row> {
    if rows == [] then [] else Insert(db, orderBys, rows[0], SortRows(db, orderBys, rows[1..]))
  }

  /**** Plans ****/

  function Table(db: Db, t: TableId): seq<Row> {
    if t in db.tables then db.tables[t] else []
  }

  function Entries(db: Db, index: IndexId): seq<Row> {
    if index in db.entries then db.entries[index] else []
  }

  /** The key column of a single-column index. */
  function KeyColumn(cat: Catalog, index: IndexId): nat {
    if index in cat.keys && |cat.keys[index]| == 1 then cat.keys[index][0] else 0
  }

  function Input(inputs: seq<seq<Row>>, i: nat): seq<Row> {
    if i < |inputs| then inputs[i] else []
  }

  /** What a node makes of its children's rows; `right` is the width of the second child. */
  function Meaning(db: Db, op: Op, width: nat, right: nat, inputs: seq<seq<Row>>): seq<Row> {
    match op
    case SeqScan(t, filter) => if filter.None? then Table(db, t) else Keep(db, filter.value, [], Table(db, t))
    case IndexScan(t, index) => Entries(db, index)
    case Filter(pred) => Keep(db, pred, [], Input(inputs, 0))
    case Projection(exprs) => Project(db, exprs, Input(inputs, 0))
    case NestedLoopJoin(pred, kind) => JoinRows(db, pred, kind, Input(inputs, 0), Input(inputs, 1), right)
    case NestedIndexJoin(key, t, index, inner, kind) =>
      IndexJoinRows(db, key, KeyColumn(db.cat, index), kind, Input(inputs, 0), Entries(db, index), |inner|)
    case Aggregate(groupBys, args, types) => AggregateRows(db, groupBys, args, types, Input(inputs, 0))
    case Sort(orderBys) => SortRows(db, orderBys, Input(inputs, 0))
    case Limit(n) => if n <= |Input(inputs, 0)| then Input(inputs, 0)[..n] else Input(inputs, 0)
    case Other(tag) => db.other(tag, width, inputs)
  }

  function RightWidth(p: Plan): nat {
    if |p.children| == 2 then |p.children[1].schema| else 0
  }

  function Rows(db: Db, p: Plan): seq<Row> {
    Meaning(db, p.op, |p.schema|, RightWidth(p),
            seq(|p.children|, i requires 0 <= i < |p.children| => Rows(db, p.children[i])))
  }

  /**** Databases and plans that fit together ****/

  function Ascending(keys: seq<nat>): seq<OrderBy> {
    if keys == [] then [] else [OrderBy(Asc, DefaultNulls, Col(0, keys[0], Column("", OtherType(""))))] + Ascending(keys[1..])
  }

  /** An index is complete, has unique keys, and lists its entries in ascending key order. */
  ghost predicate IndexOk(db: Db, keys: seq<nat>, rows: seq<Row>, entries: seq<Row>) {
    && multiset(entries) == multiset(rows)
    && forall i, j :: 0 <= i < j < |entries| ==> RowLess(db, Ascending(keys), entries[i], entries[j])
  }

  ghost predicate IndexesOk(db: Db) {
    forall t, i :: t in db.cat.tableIndexes && 0 <= i < |db.cat.tableIndexes[t]| ==>
      var index := db.cat.tableIndexes[t][i];
      index in db.cat.keys && index in db.entries && IndexOk(db, db.cat.keys[index], Table(db, t), db.entries[index])
  }

  /** The comparison of values is asymmetric. */
  ghost predicate OrderOk(db: Db) {
    forall v, w :: db.lt(v, w) ==> !db.lt(w, v)
  }

  /** An unmodelled node produces rows of its schema's width. */
  ghost predicate OthersOk(db: Db) {
    forall tag, width, inputs, r :: r in db.other(tag, width, inputs) ==> |r| == width
  }

  ghost predicate DbOk(db: Db) {
    IndexesOk(db) && OrderOk(db) && OthersOk(db)
  }

  ghost predicate Wide(rows: seq<Row>, width: nat) {
    forall r :: r in rows ==> |r| == width
  }

  predicate ArityOk(p: Plan) {
    match p.op
    case SeqScan(_, _) => |p.children| == 0
    case IndexScan(_, _) => |p.children| == 0
    case NestedLoopJoin(_, _) => |p.children| == 2
    case Other(_) => true
    case _ => |p.children| == 1
  }

  /** Widths and column references of one node agree with its children and the database. */
  ghost predicate NodeTyped(db: Db, p: Plan)
    requires ArityOk(p)
  {
    match p.op
    case SeqScan(t, filter) =>
      t in db.tables && Wide(db.tables[t], |p.schema|) && (filter.Some? ==> Scoped(filter.value, [|p.schema|]))
    case IndexScan(t, index) => Wide(Entries(db, index), |p.schema|)
    case Filter(pred) => |p.schema| == |p.children[0].schema| && Scoped(pred, [|p.schema|])
    case Projection(exprs) =>
      |exprs| == |p.schema| && forall i :: 0 <= i < |exprs| ==> Scoped(exprs[i], [|p.children[0].schema|])
    case NestedLoopJoin(pred, kind) =>
      && |p.schema| == |p.children[0].schema| + |p.children[1].schema|
      && Scoped(pred, [|p.children[0].schema|, |p.children[1].schema|])
    case NestedIndexJoin(key, t, index, inner, kind) =>
      && |p.schema| == |p.children[0].schema| + |inner| && Wide(Entries(db, index), |inner|)
      && Scoped(key, [|p.children[0].schema|])
    case Aggregate(groupBys, inputs, types) =>
      && |p.schema| == |groupBys| + |inputs| && |types| == |inputs|
      && (forall i :: 0 <= i < |groupBys| ==> Scoped(groupBys[i], [|p.children[0].schema|]))
      && (forall i :: 0 <= i < |inputs| ==> Scoped(inputs[i], [|p.children[0].schema|]))
    case Sort(orderBys) =>
      && |p.schema| == |p.children[0].schema|
      && forall i :: 0 <= i < |orderBys| ==> Scoped(orderBys[i].expr, [|p.schema|])
    case Limit(_) => |p.schema| == |p.children[0].schema|
    case Other(_) => true
  }

  ghost predicate Typed(db: Db, p: Plan) {
    ArityOk(p) && NodeTyped(db, p) && forall i :: 0 <= i < |p.children| ==> Typed(db, p.children[i])
  }

  /**** Widths ****/

  lemma {:induction false} KeepSubset(db: Db, pred: Expr, prefix: seq<Row>, rows: seq<Row>)
    ensures |Keep(db, pred, prefix, rows)| <= |rows|
    ensures forall r :: r in Keep(db, pred, prefix, rows) ==> r in rows && Passes(db, pred, prefix + [r])
  {
    hide Passes;
    if rows == [] {
    } else {
      KeepSubset(db, pred, prefix, rows[1..]);
    }
  }

  lemma {:induction false} JoinWide(db: Db, pred: Expr, kind: JoinKind, lefts: seq<Row>, rights: seq<Row>, lw: nat, rw: nat)
    requires Wide(lefts, lw) && Wide(rights, rw)
    ensures Wide(JoinRows(db, pred, kind, lefts, rights, rw), lw + rw)
  {
    if lefts == [] {
    } else {
      JoinWide(db, pred, kind, lefts[1..], rights, lw, rw);
      KeepSubset(db, pred, [lefts[0]], rights);
      EmitWide(kind, lefts[0], Keep(db, pred, [lefts[0]], rights), rw);
    }
  }

  lemma {:induction false} EmitWide(kind: JoinKind, l: Row, matches: seq<Row>, width: nat)
    requires Wide(matches, width)
    ensures Wide(Emit(kind, l, matches, width), |l| + width)
  {
  }

  lemma {:induction false} LookupSubset(entries: seq<Row>, col: nat, v: Value)
    ensures forall r :: r in Lookup(entries, col, v) ==> r in entries && col < |r| && EqualValues(v, r[col]) == Boolean(true)
  {
    if entries == [] {
    } else {
      LookupSubset(entries[1..], col, v);
    }
  }

  lemma {:induction false} IndexJoinWide(db: Db, key: Expr, col: nat, kind: JoinKind, lefts: seq<Row>, entries: seq<Row>, lw: nat, rw: nat)
    requires Wide(lefts, lw) && Wide(entries, rw)
    ensures Wide(IndexJoinRows(db, key, col, kind, lefts, entries, rw), lw + rw)
  {
    if lefts == [] {
    } else {
      IndexJoinWide(db, key, col, kind, lefts[1..], entries, lw, rw);
      var matches := Lookup(entries, col, Eval(db, key, [lefts[0]]));
      LookupSubset(entries, col, Eval(db, key, [lefts[0]]));
      EmitWide(kind, lefts[0], matches, rw);
    }
  }

  lemma {:induction false} InsertElems(db: Db, orderBys: seq<OrderBy>, r: Row, rows: seq<Row>)
    ensures multiset(Insert(db, orderBys, r, rows)) == multiset(rows) + multiset{r}
  {
    if rows == [] || !RowLess(db, orderBys, rows[0], r) {
    } else {
      InsertElems(db, orderBys, r, rows[1..]);
      assert rows == [rows[0]] + rows[1..];
    }
  }

  lemma {:induction false} SortElems(db: Db, orderBys: seq<OrderBy>, rows: seq<Row>)
    ensures multiset(SortRows(db, orderBys, rows)) == multiset(rows)
  {
    if rows == [] {
    } else {
      SortElems(db, orderBys, rows[1..]);
      InsertElems(db, orderBys, rows[0], SortRows(db, orderBys, rows[1..]));
      assert rows == [rows[0]] + rows[1..];
    }
  }

  lemma {:induction false} SortWide(db: Db, orderBys: seq<OrderBy>, rows: seq<Row>, width: nat)
    requires Wide(rows, width)
    ensures Wide(SortRows(db, orderBys, rows), width)
  {
    SortElems(db, orderBys, rows);
    var sorted := SortRows(db, orderBys, rows);
    forall r | r in sorted
      ensures |r| == width
    {
      assert r in multiset(sorted);
    }
  }

  lemma {:induction false} ProjectWide(db: Db, exprs: seq<Expr>, rows: seq<Row>)
    ensures Wide(Project(db, exprs, rows), |exprs|)
  {
  }

  lemma {:induction false} AggregateWide(db: Db, groupBys: seq<Expr>, inputs: seq<Expr>, types: seq<AggType>, rows: seq<Row>)
    ensures Wide(AggregateRows(db, groupBys, inputs, types, rows), |groupBys| + |inputs|)
  {
    hide GroupsOf, AggOf, Eval;
  }

  /** A well-typed plan's rows have its schema's width. */
  lemma {:induction false} RowsWide(db: Db, p: Plan)
    requires OthersOk(db) && Typed(db, p)
    ensures Wide(Rows(db, p), |p.schema|)
    decreases p
  {
    hide Keep, Project, AggregateRows, JoinRows, IndexJoinRows, SortRows, Scoped;
    forall i | 0 <= i < |p.children|
      ensures Wide(Rows(db, p.children[i]), |p.children[i].schema|)
    {
      RowsWide(db, p.children[i]);
    }
    match p.op
    case SeqScan(t, filter) =>
      if filter.Some? {
        KeepSubset(db, filter.value, [], Table(db, t));
      }
    case IndexScan(_, _) =>
    case Filter(pred) => KeepSubset(db, pred, [], Rows(db, p.children[0]));
    case Projection(exprs) => ProjectWide(db, exprs, Rows(db, p.children[0]));
    case NestedLoopJoin(pred, kind) =>
      JoinWide(db, pred, kind, Rows(db, p.children[0]), Rows(db, p.children[1]), |p.children[0].schema|, |p.children[1].schema|);
    case NestedIndexJoin(key, _, index, inner, kind) =>
      IndexJoinWide(db, key, KeyColumn(db.cat, index), kind, Rows(db, p.children[0]), Entries(db, index), |p.children[0].schema|, |inner|);
    case Aggregate(groupBys, inputs, types) => AggregateWide(db, groupBys, inputs, types, Rows(db, p.children[0]));
    case Sort(orderBys) => SortWide(db, orderBys, Rows(db, p.children[0]), |p.schema|);
    case Limit(_) =>
    case Other(_) =>
  }

  /**** Sizes ****/

  function Size(p: Plan): nat {
    1 + SizeAll(p.children)
  }

  function SizeAll(ps: seq<Plan>): nat {
    if ps == [] then 0 else Size(ps[0]) + SizeAll(ps[1..])
  }

  lemma {:induction false} OverIsLarger(p: Plan, q: Plan)
    requires q.children == [p]
    ensures Size(q) == 1 + Size(p)
  {
    assert [p][1..] == [];
    assert SizeAll([]) == 0;
    assert SizeAll([p]) == Size(p);
  }
}
