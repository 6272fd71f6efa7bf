/**
 What a select means by itself, columns found by name and no plan in sight: rows are filtered, grouped,
 projected, ordered and cut.
 */
module SqlMeaning {
  import opened Sequences
  import opened Relational
  import opened Planning
  import opened AggPlanning
  import opened AggMeaning
  import opened SelectPlanning

  /**** Columns ****/

  /** Only the names of columns matter here. */
  function Labels(names: seq<string>): Schema {
    seq(|names|, i requires 0 <= i < |names| => Column(names[i], OtherType("")))
  }

  function ItemName(e: BoundExpr): string {
    match e
    case ColumnRef(name) => name
    case Alias(alias, _) => alias
    case _ => UNNAMED_COLUMN
  }

  function SelectColumns(s: Select): Schema {
    Labels(seq(|s.items|, i requires 0 <= i < |s.items| => ItemName(s.items[i])))
  }

  function TableColumns(t: TableRef): Schema {
    match t
    case BaseTable(_, schema) => schema
    case Leaf(_, schema) => schema
    case CrossProduct(left, right) => TableColumns(left) + TableColumns(right)
    case JoinRef(_, left, right, _) => TableColumns(left) + TableColumns(right)
    case Subquery(_, names) => Labels(names)
  }

  /**** Rows ****/

  function Where(db: Db, columns: Schema, e: BoundExpr, rows: seq<Row>): seq<Row> {
    if rows == [] then []
    else if OnRow(db, columns, rows[0], e) == Boolean(true) then [rows[0]] + Where(db, columns, e, rows[1..])
    else Where(db, columns, e, rows[1..])
  }

  /** What l gives with its matches; alone in a LEFT join it is padded with nulls. */
  function Paired(kind: JoinKind, l: Row, matches: seq<Row>, width: nat): seq<Row> {
    if matches == [] then
      match kind
      case Inner => []
      case Left => [l + seq(width, _ => Null)]
    else if |matches| == 1 then [l + matches[0]]
    else [l + matches[0]] + Paired(kind, l, matches[1..], width)
  }

  /** The right rows that the condition pairs with l. */
  function Matching(db: Db, columns: Schema, e: BoundExpr, l: Row, rights: seq<Row>): seq<Row> {
    if rights == [] then []
    else if OnRow(db, columns, l + rights[0], e) == Boolean(true) then [rights[0]] + Matching(db, columns, e, l, rights[1..])
    else Matching(db, columns, e, l, rights[1..])
  }

  function JoinOn(db: Db, columns: Schema, e: BoundExpr, kind: JoinKind, lefts: seq<Row>, rights: seq<Row>, width: nat): seq<Row> {
    if lefts == [] then []
    else Paired(kind, lefts[0], Matching(db, columns, e, lefts[0], rights), width)
         + JoinOn(db, columns, e, kind, lefts[1..], rights, width)
  }

  function Values(db: Db, columns: Schema, es: seq<BoundExpr>, rows: seq<Row>): seq<Row> {
    seq(|rows|, i requires 0 <= i < |rows| => AllOnRow(db, columns, rows[i], es))
  }

  /** The select list over each group that HAVING keeps. */
  function OverGroups(db: Db, columns: Schema, s: AggSelect, groups: seq<seq<Row>>): seq<Row> {
    if groups == [] then []
    else if s.having.None? || OverGroup(db, columns, groups[0], s.having.value) == Boolean(true)
    then [AllOverGroup(db, columns, groups[0], s.items)] + OverGroups(db, columns, s, groups[1..])
    else OverGroups(db, columns, s, groups[1..])
  }

  function Aggregated(db: Db, columns: Schema, s: AggSelect, rows: seq<Row>): seq<Row> {
    OverGroups(db, columns, s, GroupsOf(db, Values(db, columns, s.groupBy, rows), rows))
  }

  /** One row of each group of equal rows. */
  function OneOfEach(db: Db, rows: seq<Row>, width: nat): seq<Row> {
    var groups := GroupsOf(db, rows, rows);
    seq(|groups|, g requires 0 <= g < |groups| => if groups[g] == [] then NullRow(width) else groups[g][0])
  }

  /** Nulls come where the order says, and if it says nothing, first in ascending and last in descending order. */
  predicate NullsFront(o: BoundOrderBy) {
    match o.nulls
    case NullsFirst => true
    case NullsLast => false
    case DefaultNulls => o.dir != Desc
  }

  predicate Precedes(db: Db, o: BoundOrderBy, v: Value, w: Value) {
    if v == Null || w == Null then v != w && (v == Null <==> NullsFront(o))
    else if o.dir == Desc then db.lt(w, v)
    else db.lt(v, w)
  }

  predicate ComesBefore(db: Db, columns: Schema, sort: seq<BoundOrderBy>, a: Row, b: Row) {
    sort != [] &&
    var o := sort[0];
    var v, w := OnRow(db, columns, a, o.expr), OnRow(db, columns, b, o.expr);
    Precedes(db, o, v, w) || (!Precedes(db, o, w, v) && ComesBefore(db, columns, sort[1..], a, b))
  }

  function PutBefore(db: Db, columns: Schema, sort: seq<BoundOrderBy>, r: Row, rows: seq<Row>): seq<Row> {
    if rows == [] || !ComesBefore(db, columns, sort, rows[0], r) then [r] + rows
    else [rows[0]] + PutBefore(db, columns, sort, r, rows[1..])
  }

  function Sorted(db: Db, columns: Schema, sort: seq<BoundOrderBy>, rows: seq<Row>): seq<Row> {
    if rows == [] then [] else PutBefore(db, columns, sort, rows[0], Sorted(db, columns, sort, rows[1..]))
  }

  function FirstRows(limit: Option<nat>, rows: seq<Row>): seq<Row> {
    if limit.Some? && limit.value <= |rows| then rows[..limit.value] else rows
  }

  /** The expression calls an aggregate, outside of any function call. */
  predicate Aggregates(e: BoundExpr) {
    match e
    case AggCall(_, _, _) => true
    case Alias(_, child) => Aggregates(child)
    case BinaryOp(_, larg, rarg) => Aggregates(larg) || Aggregates(rarg)
    case FuncCall(_, _) => false
    case ColumnRef(_) => false
    case Constant(_) => false
    case Unsupported(_) => false
  }

  predicate AnyAggregates(items: seq<BoundExpr>) {
    items != [] && (Aggregates(items[0]) || AnyAggregates(items[1..]))
  }

  /** The select has groups: by GROUP BY, by HAVING, or because it calls an aggregate. */
  predicate Grouped(s: Select) {
    s.groupBy != [] || s.having.Some? || AnyAggregates(s.items)
  }

  function SelectList(db: Db, s: Select, columns: Schema, rows: seq<Row>): seq<Row> {
    if Grouped(s) then Aggregated(db, columns, AggSelect(s.groupBy, s.having, s.items), rows) else Values(db, columns, s.items, rows)
  }

  ghost function TableRows(db: Db, t: TableRef): seq<Row>
    decreases t
  {
    match t
    case BaseTable(table, _) => Table(db, table)
    case Leaf(tag, schema) => db.other(tag, |schema|, [])
    case CrossProduct(left, right) =>
      JoinOn(db, TableColumns(t), Constant(Boolean(true)), Inner, TableRows(db, left), TableRows(db, right), |TableColumns(right)|)
    case JoinRef(kind, left, right, condition) =>
      JoinOn(db, TableColumns(t), condition, kind, TableRows(db, left), TableRows(db, right), |TableColumns(right)|)
    case Subquery(select, _) => SelectRows(db, select)
  }

  ghost function SelectRows(db: Db, s: Select): seq<Row>
    decreases s
  {
    var columns, rows := TableColumns(s.table), TableRows(db, s.table);
    var kept := if s.filter.Some? then Where(db, columns, s.filter.value, rows) else rows;
    var listed := SelectList(db, s, columns, kept);
    var once := if s.distinct then OneOfEach(db, listed, |s.items|) else listed;
    FirstRows(s.limit, if s.sort == [] then once else Sorted(db, SelectColumns(s), s.sort, once))
  }
}
