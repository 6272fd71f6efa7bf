/** Batches of rows with their record ids, and what a filter makes of its child's batches. */
module Batches {
  import opened Sequences
  import opened Relational

  datatype Rid = Rid(page: int, slot: nat)

  datatype Item = Item(tuple: Row, rid: Rid)

  /** Tuples with the rids at the same positions; both sequences are always equally long. */
  function Zip(tuples: seq<Row>, rids: seq<Rid>): (items: seq<Item>)
    ensures |tuples| == |rids| ==> |items| == |tuples|
  {
    var n := if |tuples| <= |rids| then |tuples| else |rids|;
    seq(n, i requires 0 <= i < n => Item(tuples[i], rids[i]))
  }

  function Take(items: seq<Item>, n: nat): seq<Item> {
    if n <= |items| then items[..n] else items
  }

  function Drop(items: seq<Item>, n: nat): seq<Item> {
    if n <= |items| then items[n..] else []
  }

  function KeepItems(db: Db, pred: Expr, items: seq<Item>): seq<Item> {
    if items == [] then []
    else if Passes(db, pred, [items[0].tuple]) then [items[0]] + KeepItems(db, pred, items[1..])
    else KeepItems(db, pred, items[1..])
  }

  function ProjectRow(db: Db, exprs: seq<Expr>, row: Row): Row {
    seq(|exprs|, i requires 0 <= i < |exprs| => Eval(db, exprs[i], [row]))
  }

  function ProjectItems(db: Db, exprs: seq<Expr>, items: seq<Item>): (r: seq<Item>)
    ensures |r| == |items|
  {
    seq(|items|, i requires 0 <= i < |items| => Item(ProjectRow(db, exprs, items[i].tuple), items[i].rid))
  }

  lemma {:induction false} KeepItemsAppend(db: Db, pred: Expr, a: seq<Item>, b: seq<Item>)
    ensures KeepItems(db, pred, a + b) == KeepItems(db, pred, a) + KeepItems(db, pred, b)
  {
    hide Passes;
    if a == [] {
      assert a + b == b;
    } else {
      KeepItemsAppend(db, pred, a[1..], b);
      assert (a + b)[1..] == a[1..] + b;
    }
  }

  lemma {:induction false} KeepItemsSize(db: Db, pred: Expr, items: seq<Item>)
    ensures |KeepItems(db, pred, items)| <= |items|
  {
    hide Passes;
    if items != [] {
      KeepItemsSize(db, pred, items[1..]);
    }
  }

  lemma {:induction false} ProjectItemsAppend(db: Db, exprs: seq<Expr>, a: seq<Item>, b: seq<Item>)
    ensures ProjectItems(db, exprs, a + b) == ProjectItems(db, exprs, a) + ProjectItems(db, exprs, b)
  {
  }

  /**** One pull of a filter ****/

  /** How many items of the batch have been looked at when `room` of them have passed. */
  function FillPoint(db: Db, pred: Expr, batch: seq<Item>, room: nat): (k: Option<nat>)
    requires room >= 1
    ensures k.Some? ==> 1 <= k.value <= |batch|
  {
    if batch == [] then None
    else
      var passes := Passes(db, pred, [batch[0].tuple]);
      if passes && room == 1 then Some(1)
      else
        var rest := FillPoint(db, pred, batch[1..], if passes then room - 1 else room);
        if rest.None? then None else Some(rest.value + 1)
  }

  /** A pull's output, the unread rest of the last child batch, and what the child still has. */
  datatype Pull = Pull(out: seq<Item>, left: seq<Item>, rest: seq<Item>)

  /** Child batches are filtered into `out` until it is full or the child has no more. */
  function Fill(db: Db, pred: Expr, size: nat, out: seq<Item>, items: seq<Item>): Pull
    requires |out| < size
    decreases |items|
  {
    if items == [] then Pull(out, [], [])
    else
      var batch, rest := Take(items, size), Drop(items, size);
      var k := FillPoint(db, pred, batch, size - |out|);
      if k.Some? then Pull(out + KeepItems(db, pred, batch[..k.value]), batch[k.value..], rest)
      else
        FillPointNone(db, pred, batch, size - |out|);
        Fill(db, pred, size, out + KeepItems(db, pred, batch), rest)
  }

  lemma {:induction false} FillPointNone(db: Db, pred: Expr, batch: seq<Item>, room: nat)
    requires room >= 1
    ensures FillPoint(db, pred, batch, room).None? <==> |KeepItems(db, pred, batch)| < room
  {
    hide Passes;
    if batch != [] {
      var passes := Passes(db, pred, [batch[0].tuple]);
      if !(passes && room == 1) {
        FillPointNone(db, pred, batch[1..], if passes then room - 1 else room);
      }
    }
  }

  lemma {:induction false} FillPointSome(db: Db, pred: Expr, batch: seq<Item>, room: nat)
    requires room >= 1 && FillPoint(db, pred, batch, room).Some?
    ensures |KeepItems(db, pred, batch[..FillPoint(db, pred, batch, room).value])| == room
  {
    hide Passes;
    var k := FillPoint(db, pred, batch, room).value;
    var passes := Passes(db, pred, [batch[0].tuple]);
    if passes && room == 1 {
      assert batch[..1][1..] == [];
    } else {
      FillPointSome(db, pred, batch[1..], if passes then room - 1 else room);
      assert batch[..k][1..] == batch[1..][..k - 1];
    }
  }

  /** Unfolds one child batch of a pull. */
  lemma {:induction false} FillStep(db: Db, pred: Expr, size: nat, out: seq<Item>, items: seq<Item>)
    requires |out| < size && items != []
    ensures
      var batch, rest := Take(items, size), Drop(items, size);
      var k := FillPoint(db, pred, batch, size - |out|);
      if k.Some? then
        && |out + KeepItems(db, pred, batch[..k.value])| == size
        && Fill(db, pred, size, out, items) == Pull(out + KeepItems(db, pred, batch[..k.value]), batch[k.value..], rest)
      else
        && |out + KeepItems(db, pred, batch)| < size
        && Fill(db, pred, size, out, items) == Fill(db, pred, size, out + KeepItems(db, pred, batch), rest)
  {
    var batch := Take(items, size);
    FillPointNone(db, pred, batch, size - |out|);
    if FillPoint(db, pred, batch, size - |out|).Some? {
      FillPointSome(db, pred, batch, size - |out|);
    }
    hide FillPoint, KeepItems;
  }

  /** What filtering one child batch into an output with room leaves: the new output and the unread rest. */
  ghost predicate Filtered(db: Db, pred: Expr, size: nat, out: seq<Item>, batch: seq<Item>, out': seq<Item>, left: seq<Item>, full: bool) {
    |out| < size &&
    var k := FillPoint(db, pred, batch, size - |out|);
    if k.Some? then full && out' == out + KeepItems(db, pred, batch[..k.value]) && left == batch[k.value..]
    else !full && out' == out + KeepItems(db, pred, batch) && left == []
  }

  lemma {:induction false} FilteredStep(db: Db, pred: Expr, size: nat, out: seq<Item>, items: seq<Item>, out': seq<Item>, left: seq<Item>, full: bool)
    requires items != [] && Filtered(db, pred, size, out, Take(items, size), out', left, full)
    ensures |out| < size && (full <==> |out'| == size) && (!full ==> |out'| < size)
    ensures Fill(db, pred, size, out, items) == if full then Pull(out', left, Drop(items, size)) else Fill(db, pred, size, out', Drop(items, size))
  {
    FillStep(db, pred, size, out, items);
    hide Fill, FillPoint, KeepItems;
  }

  lemma {:induction false} TakeDrop(a: seq<Item>, b: seq<Item>, size: nat)
    requires |a| == size
    ensures Take(a + b, size) == a && Drop(a + b, size) == b
  {
  }

  lemma {:induction false} FillNothing(db: Db, pred: Expr, size: nat, out: seq<Item>)
    requires |out| < size
    ensures Fill(db, pred, size, out, []) == Pull(out, [], []) && KeepItems(db, pred, []) == []
  {
  }

  lemma {:induction false} FullIsRight(db: Db, pred: Expr, size: nat, out: seq<Item>, batch: seq<Item>, rest: seq<Item>, k: nat)
    requires 1 <= k <= |batch| <= size && |out + KeepItems(db, pred, batch[..k])| == size
    ensures
      var all := out + KeepItems(db, pred, batch + rest);
      && out + KeepItems(db, pred, batch[..k]) == Take(all, size) && KeepItems(db, pred, batch[k..] + rest) == Drop(all, size)
      && |batch[k..]| < size && |all| >= size
  {
    hide KeepItems;
    var seen, left := batch[..k], batch[k..];
    assert batch + rest == seen + (left + rest);
    KeepItemsAppend(db, pred, seen, left + rest);
    var a, b := out + KeepItems(db, pred, seen), KeepItems(db, pred, left + rest);
    assert out + KeepItems(db, pred, batch + rest) == a + b;
    TakeDrop(a, b, size);
  }

  /** A pull fills the batch as far as the passing items go, loses none, and leaves less than a batch unread. */
  lemma {:induction false} FillIsRight(db: Db, pred: Expr, size: nat, out: seq<Item>, items: seq<Item>)
    requires |out| < size
    ensures
      var all, p := out + KeepItems(db, pred, items), Fill(db, pred, size, out, items);
      && p.out == Take(all, size) && KeepItems(db, pred, p.left + p.rest) == Drop(all, size)
      && |p.left| < size && (|all| < size ==> p.left == [] && p.rest == [])
    decreases |items|
  {
    hide Fill, FillPoint, KeepItems;
    if items == [] {
      FillNothing(db, pred, size, out);
      assert [] + [] == items && out + items == out;
    } else {
      FillStep(db, pred, size, out, items);
      var batch, rest := Take(items, size), Drop(items, size);
      assert items == batch + rest;
      KeepItemsAppend(db, pred, batch, rest);
      var k := FillPoint(db, pred, batch, size - |out|);
      if k.Some? {
        FullIsRight(db, pred, size, out, batch, rest, k.value);
      } else {
        FillIsRight(db, pred, size, out + KeepItems(db, pred, batch), rest);
        assert out + KeepItems(db, pred, items) == (out + KeepItems(db, pred, batch)) + KeepItems(db, pred, rest);
      }
    }
  }
}
