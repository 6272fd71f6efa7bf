/**
 The pull pipeline: filters and projections over a leaf, each pulling batches from its child. One class
 stands for the executor classes; `kind` selects the virtual methods.
 */
module Executors {
  import opened Sequences
  import opened Relational
  import opened Batches

  /** A leaf gives fixed items; the values executor gives its rows under the default rid. */
  datatype Kind = Leaf(items: seq<Item>) | Filter(pred: Expr) | Projection(exprs: seq<Expr>)

  /** What a child batch still holds from the offset on; offset 0 stands for a batch that has been read. */
  ghost function Unread(tuples: seq<Row>, rids: seq<Rid>, offset: nat): seq<Item> {
    if offset == 0 then [] else Drop(Zip(tuples, rids), offset)
  }

  class Executor {
    const db: Db
    const kind: Kind
    const child: Executor?
    ghost const Repr: set<Executor>
    var cursor: nat
    var childTuples: seq<Row>
    var childRids: seq<Rid>
    var childOffset: nat

    /** The child is a smaller pipeline of its own. */
    ghost predicate Linked() {
      this in Repr && child != null && child in Repr && child.Repr <= Repr && this !in child.Repr
    }

    ghost predicate Valid()
      reads this, Repr
      decreases Repr
    {
      && this in Repr && (kind.Leaf? <==> child == null) && (child != null ==> Linked() && child.Valid())
      && |childTuples| == |childRids| && childOffset <= |childTuples|
      && (kind.Leaf? ==> cursor <= |kind.items|) && (kind.Projection? ==> childOffset == 0)
    }

    /** The unread rest of the last child batch. */
    ghost function Leftover(): seq<Item>
      reads this
    {
      Unread(childTuples, childRids, childOffset)
    }

    /** The items still to come. */
    ghost function Pending(): seq<Item>
      reads this, Repr
      decreases Repr
    {
      match kind
      case Leaf(items) => Drop(items, cursor)
      case Filter(pred) => KeepItems(db, pred, Leftover() + if Linked() then child.Pending() else [])
      case Projection(exprs) => ProjectItems(db, exprs, if Linked() then child.Pending() else [])
    }

    /** All the items of the pipeline. */
    ghost function Full(): seq<Item>
      reads this, Repr
      decreases Repr
    {
      match kind
      case Leaf(items) => items
      case Filter(pred) => KeepItems(db, pred, if Linked() then child.Full() else [])
      case Projection(exprs) => ProjectItems(db, exprs, if Linked() then child.Full() else [])
    }

    /** The items that unread child batches will add in front after the next Init. */
    ghost function Extra(): seq<Item>
      reads this, Repr
      decreases Repr
    {
      match kind
      case Leaf(_) => []
      case Filter(pred) => KeepItems(db, pred, Leftover() + if Linked() then child.Extra() else [])
      case Projection(exprs) => ProjectItems(db, exprs, if Linked() then child.Extra() else [])
    }

    /** The most that any executor of the pipeline has unread. */
    ghost function MaxLeft(): nat
      reads this, Repr
      decreases Repr
    {
      if Linked() && child.MaxLeft() > |Leftover()| then child.MaxLeft() else |Leftover()|
    }

    constructor MakeLeaf(database: Db, items: seq<Item>)
      ensures Valid() && fresh(this) && db == database && kind == Leaf(items) && Repr == {this}
      ensures Pending() == items && Full() == items && Extra() == [] && MaxLeft() == 0
    {
      db, kind, child, Repr := database, Leaf(items), null, {this};
      cursor, childTuples, childRids, childOffset := 0, [], [], 0;
    }

    constructor MakeNode(k: Kind, source: Executor)
      requires source.Valid() && !k.Leaf?
      ensures Valid() && fresh(this) && db == source.db && kind == k && child == source && Repr == {this} + source.Repr
      ensures childOffset == 0
      ensures MaxLeft() == source.MaxLeft()
    {
      db, kind, child, Repr := source.db, k, source, {this} + source.Repr;
      cursor, childTuples, childRids, childOffset := 0, [], [], 0;
    }

    /** Resets the leaf's cursor, but no executor's child offset. */
    method Init()
      requires Valid()
      modifies Repr
      ensures Valid() && Full() == old(Full()) && Extra() == old(Extra())
      ensures Pending() == old(Extra()) + Full()
      ensures Pending() == Full() <==> old(Extra()) == []
      ensures MaxLeft() == old(MaxLeft())
      ensures childOffset == old(childOffset) && childTuples == old(childTuples) && childRids == old(childRids)
      decreases Repr
    {
      hide KeepItems, ProjectItems;
      PrefixEmpty(Extra(), Full());
      match kind
      case Leaf(items) => cursor := 0;
      case Filter(pred) =>
        child.Init();
        KeepItemsAppend(db, pred, Leftover() + child.Extra(), child.Full());
        assert Leftover() + child.Pending() == (Leftover() + child.Extra()) + child.Full();
      case Projection(exprs) =>
        child.Init();
        ProjectItemsAppend(db, exprs, child.Extra(), child.Full());
    }

    /**
     A pull: the next `size` pending items, or all of them if there are fewer, as aligned tuples and rids.
     It says false, with an empty batch, exactly when nothing is pending; then no child batch is unread.
     */
    method Next(size: nat) returns (tuples: seq<Row>, rids: seq<Rid>, status: bool)
      requires Valid() && size >= 1 && MaxLeft() < size
      modifies Repr
      ensures Valid() && MaxLeft() < size && Full() == old(Full()) && |tuples| == |rids|
      ensures Zip(tuples, rids) == Take(old(Pending()), size) && Pending() == Drop(old(Pending()), size)
      ensures status <==> old(Pending()) != []
      ensures !status ==> Extra() == []
      decreases Repr, 3
    {
      match kind
      case Leaf(_) => tuples, rids, status := NextLeaf(size);
      case Filter(_) => tuples, rids, status := NextFilter(size);
      case Projection(_) => tuples, rids, status := NextProjection(size);
    }

    method NextLeaf(size: nat) returns (tuples: seq<Row>, rids: seq<Rid>, status: bool)
      requires Valid() && kind.Leaf? && size >= 1 && MaxLeft() < size
      modifies Repr
      ensures Valid() && MaxLeft() < size && Full() == old(Full()) && |tuples| == |rids|
      ensures Zip(tuples, rids) == Take(old(Pending()), size) && Pending() == Drop(old(Pending()), size)
      ensures status <==> old(Pending()) != []
      ensures !status ==> Extra() == []
      decreases Repr, 0
    {
      tuples, rids := [], [];
      ghost var pending := Pending();
      ZipNothing(pending);
      while |tuples| < size && cursor < |kind.items|
        invariant old(cursor) <= cursor <= |kind.items| && |tuples| == |rids| == cursor - old(cursor) <= size
        invariant Zip(tuples, rids) == Take(pending, |tuples|)
        modifies this`cursor
      {
        ZipAppend(tuples, rids, kind.items[cursor].tuple, kind.items[cursor].rid);
        TakeOne(kind.items, old(cursor), |tuples|);
        tuples, rids := tuples + [kind.items[cursor].tuple], rids + [kind.items[cursor].rid];
        cursor := cursor + 1;
      }
      TakeRest(kind.items, old(cursor), |tuples|, size);
      status := tuples != [];
    }

    /** Reads the unread rest of the last child batch, without looking at the batch size. */
    method FilterLeftover() returns (tuples: seq<Row>, rids: seq<Rid>)
      requires Valid() && kind.Filter? && childOffset != 0
      ensures |tuples| == |rids| && Zip(tuples, rids) == KeepItems(db, kind.pred, Leftover())
    {
      tuples, rids := [], [];
      ghost var left := Leftover();
      for i := childOffset to |childTuples|
        invariant |tuples| == |rids| && Zip(tuples, rids) == KeepItems(db, kind.pred, left[..i - childOffset])
      {
        ghost var k := i - childOffset;
        assert left[k] == Item(childTuples[i], childRids[i]);
        assert left[..k + 1] == left[..k] + [left[k]];
        KeepItemsAppend(db, kind.pred, left[..k], [left[k]]);
        KeepOne(db, kind.pred, left[k]);
        if Passes(db, kind.pred, [childTuples[i]]) {
          ZipAppend(tuples, rids, childTuples[i], childRids[i]);
          tuples, rids := tuples + [childTuples[i]], rids + [childRids[i]];
        }
      }
      assert left[..|childTuples| - childOffset] == left;
    }

    /** Filters the current child batch into the output; stops, remembering where, as soon as it is full. */
    method FilterBatch(done: seq<Row>, doneRids: seq<Rid>, size: nat) returns (tuples: seq<Row>, rids: seq<Rid>, full: bool)
      requires |childTuples| == |childRids| && kind.Filter? && childOffset == 0 && |done| == |doneRids| < size
      modifies this`childOffset
      ensures |tuples| == |rids| && childOffset <= |childTuples| && (!full ==> childOffset == 0)
      ensures Filtered(db, kind.pred, size, Zip(done, doneRids), Zip(childTuples, childRids), Zip(tuples, rids), Leftover(), full)
    {
      hide FilteredSoFar, Filtered, Passes, Zip, Unread, Drop;
      tuples, rids, full := done, doneRids, false;
      ghost var batch, out := Zip(childTuples, childRids), Zip(done, doneRids);
      FilteredStart(db, kind.pred, size, out, batch);
      var i := 0;
      while i < |childTuples| && !full
        invariant 0 <= i <= |childTuples| && |tuples| == |rids| && childOffset <= |childTuples|
        invariant !full ==> |tuples| < size && childOffset == 0 && FilteredSoFar(db, kind.pred, size, out, batch, i, Zip(tuples, rids))
        invariant full ==> Filtered(db, kind.pred, size, out, batch, Zip(tuples, rids), Leftover(), true)
      {
        FilteredOne(db, kind.pred, size, out, batch, i, Zip(tuples, rids));
        ZipAt(childTuples, childRids, i);
        if Passes(db, kind.pred, [childTuples[i]]) {
          ZipAppend(tuples, rids, childTuples[i], childRids[i]);
          tuples, rids := tuples + [childTuples[i]], rids + [childRids[i]];
          if |tuples| >= size {
            UnreadFrom(childTuples, childRids, i);
            childOffset := if i + 1 < |childTuples| then i + 1 else 0;
            full := true;
          }
        }
        i := i + 1;
      }
      if !full {
        FilteredEnd(db, kind.pred, size, out, batch, Zip(tuples, rids));
        UnreadNone(childTuples, childRids);
      }
    }

    method NextFilter(size: nat) returns (tuples: seq<Row>, rids: seq<Rid>, status: bool)
      requires Valid() && kind.Filter? && size >= 1 && MaxLeft() < size
      modifies Repr
      ensures Valid() && MaxLeft() < size && Full() == old(Full()) && |tuples| == |rids|
      ensures Zip(tuples, rids) == Take(old(Pending()), size) && Pending() == Drop(old(Pending()), size)
      ensures status <==> old(Pending()) != []
      ensures !status ==> Extra() == []
      ensures old(childOffset) == 0 ==>
        var p := Fill(db, kind.pred, size, [], old(child.Pending()));
        Leftover() == p.left && child.Pending() == p.rest
      decreases Repr, 2
    {
      hide Fill, FillPoint, KeepItems, Passes, Pending, Full, Extra, MaxLeft;
      FilterView(this);
      ghost var left, items := Leftover(), child.Pending();
      tuples, rids := [], [];
      KeepItemsAppend(db, kind.pred, left, items);
      KeepItemsSize(db, kind.pred, left);
      KeepNoItems(db, kind.pred);
      if childOffset != 0 {
        tuples, rids := FilterLeftover();
      }
      FillIsRight(db, kind.pred, size, Zip(tuples, rids), items);
      childOffset := 0;
      tuples, rids, status := PullFilter(tuples, rids, size);
      FilterView(this);
    }

    /** Pulls child batches until the output is full or the child has no more. */
    method PullFilter(done: seq<Row>, doneRids: seq<Rid>, size: nat) returns (tuples: seq<Row>, rids: seq<Rid>, status: bool)
      requires Valid() && kind.Filter? && child.MaxLeft() < size && childOffset == 0 && |done| == |doneRids| < size
      modifies Repr
      ensures Valid() && child.MaxLeft() < size && child.Full() == old(child.Full()) && |tuples| == |rids|
      ensures
        var p := Fill(db, kind.pred, size, Zip(done, doneRids), old(child.Pending()));
        Zip(tuples, rids) == p.out && Leftover() == p.left && child.Pending() == p.rest
      ensures status <==> tuples != []
      ensures !status ==> child.Extra() == []
      decreases Repr, 1
    {
      hide Fill, Filtered, Pending, Full, Extra, MaxLeft, Zip, Take, Drop, Unread;
      tuples, rids := done, doneRids;
      while true
        invariant Valid() && child.MaxLeft() < size && childOffset == 0 && child.Full() == old(child.Full())
        invariant |tuples| == |rids| < size
        invariant Fill(db, kind.pred, size, Zip(tuples, rids), child.Pending())
               == Fill(db, kind.pred, size, Zip(done, doneRids), old(child.Pending()))
        modifies Repr
        decreases |child.Pending()|
      {
        ghost var rest, out := child.Pending(), Zip(tuples, rids);
        var full: bool;
        tuples, rids, full, status := PullBatch(tuples, rids, size);
        if !status {
          FillNothing(db, kind.pred, size, out);
          status := tuples != [];
          return;
        }
        FilteredStep(db, kind.pred, size, out, rest, Zip(tuples, rids), Leftover(), full);
        DropSome(rest, size);
        if full {
          return;
        }
      }
    }

    /** One child batch: says false when the child has no more. */
    method PullBatch(done: seq<Row>, doneRids: seq<Rid>, size: nat)
      returns (tuples: seq<Row>, rids: seq<Rid>, full: bool, status: bool)
      requires Valid() && kind.Filter? && child.MaxLeft() < size && childOffset == 0 && |done| == |doneRids| < size
      modifies Repr
      ensures Valid() && child.MaxLeft() < size && child.Full() == old(child.Full()) && |tuples| == |rids|
      ensures status <==> old(child.Pending()) != []
      ensures child.Pending() == Drop(old(child.Pending()), size) && (!full ==> childOffset == 0)
      ensures status ==>
        Filtered(db, kind.pred, size, Zip(done, doneRids), Take(old(child.Pending()), size), Zip(tuples, rids), Leftover(), full)
      ensures !status ==> tuples == done && rids == doneRids && Leftover() == [] && child.Pending() == [] && child.Extra() == []
      decreases Repr, 0
    {
      hide Filtered, Pending, Full, Extra, MaxLeft, Zip;
      tuples, rids, full := done, doneRids, false;
      childTuples, childRids, status := child.Next(size);
      if status {
        tuples, rids, full := FilterBatch(tuples, rids, size);
      }
    }

    /** A projection's output batch is its child's, so the unread rest is always empty. */
    method NextProjection(size: nat) returns (tuples: seq<Row>, rids: seq<Rid>, status: bool)
      requires Valid() && kind.Projection? && size >= 1 && MaxLeft() < size
      modifies Repr
      ensures Valid() && MaxLeft() < size && Full() == old(Full()) && |tuples| == |rids|
      ensures Zip(tuples, rids) == Take(old(Pending()), size) && Pending() == Drop(old(Pending()), size)
      ensures status <==> old(Pending()) != []
      ensures !status ==> Extra() == []
      decreases Repr, 1
    {
      hide ProjectItems, Take, Drop;
      ProjectTakeDrop(db, kind.exprs, child.Pending(), size);
      tuples, rids, status := PullProjection(size);
    }

    method PullProjection(size: nat) returns (tuples: seq<Row>, rids: seq<Rid>, status: bool)
      requires Valid() && kind.Projection? && size >= 1 && child.MaxLeft() < size
      modifies Repr
      ensures Valid() && child.MaxLeft() < size && child.Full() == old(child.Full()) && |tuples| == |rids|
      ensures Zip(tuples, rids) == ProjectItems(db, kind.exprs, Take(old(child.Pending()), size))
      ensures child.Pending() == Drop(old(child.Pending()), size)
      ensures status <==> old(child.Pending()) != []
      ensures !status ==> child.Extra() == []
      decreases Repr, 0
    {
      hide ProjectItems, Pending, Full, Extra, MaxLeft;
      if childOffset != 0 {
        assert false;
      }
      childOffset := 0;
      childTuples, childRids, status := child.Next(size);
      if !status {
        tuples, rids := [], [];
        ProjectNothing(db, kind.exprs);
        return;
      }
      tuples, rids := ProjectBatch(size);
      status := tuples != [];
    }

    /** Projects the current child batch, which is no longer than the output may be. */
    method ProjectBatch(size: nat) returns (tuples: seq<Row>, rids: seq<Rid>)
      requires |childTuples| == |childRids| <= size && kind.Projection? && childOffset == 0
      modifies this`childOffset
      ensures |tuples| == |rids| && childOffset == 0
      ensures Zip(tuples, rids) == ProjectItems(db, kind.exprs, Zip(childTuples, childRids))
    {
      tuples, rids := [], [];
      ghost var batch := Zip(childTuples, childRids);
      for i := 0 to |childTuples|
        invariant |tuples| == |rids| == i && childOffset == 0
        invariant Zip(tuples, rids) == ProjectItems(db, kind.exprs, batch[..i])
      {
        var row := ProjectRow(db, kind.exprs, childTuples[i]);
        assert batch[..i + 1] == batch[..i] + [batch[i]];
        ZipAppend(tuples, rids, row, childRids[i]);
        tuples, rids := tuples + [row], rids + [childRids[i]];
        if |tuples| >= size {
          if i + 1 < |childTuples| {
            assert false;
          }
          childOffset := 0;
          assert batch[..i + 1] == batch;
          return;
        }
      }
      assert batch[..|childTuples|] == batch;
    }
  }

  /** What a filter makes of its child and of its own unread rest. */
  lemma {:induction false} FilterView(e: Executor)
    requires e.Valid() && e.kind.Filter?
    ensures e.Pending() == KeepItems(e.db, e.kind.pred, e.Leftover() + e.child.Pending())
    ensures e.Full() == KeepItems(e.db, e.kind.pred, e.child.Full())
    ensures e.Extra() == KeepItems(e.db, e.kind.pred, e.Leftover() + e.child.Extra())
    ensures e.MaxLeft() == if e.child.MaxLeft() > |e.Leftover()| then e.child.MaxLeft() else |e.Leftover()|
  {
    hide KeepItems;
  }

  lemma {:induction false} ZipAt(tuples: seq<Row>, rids: seq<Rid>, i: nat)
    requires |tuples| == |rids| && i < |tuples|
    ensures Zip(tuples, rids)[i] == Item(tuples[i], rids[i])
  {
  }

  lemma {:induction false} UnreadFrom(tuples: seq<Row>, rids: seq<Rid>, i: nat)
    requires |tuples| == |rids| && i < |tuples|
    ensures Unread(tuples, rids, if i + 1 < |tuples| then i + 1 else 0) == Drop(Zip(tuples, rids), i + 1)
  {
  }

  lemma {:induction false} UnreadNone(tuples: seq<Row>, rids: seq<Rid>)
    ensures Unread(tuples, rids, 0) == []
  {
  }

  lemma {:induction false} DropSome(items: seq<Item>, size: nat)
    requires items != [] && size >= 1
    ensures |Drop(items, size)| < |items|
  {
  }

  lemma {:induction false} ZipNothing(items: seq<Item>)
    ensures Zip([], []) == Take(items, 0)
  {
  }

  lemma {:induction false} TakeOne(items: seq<Item>, from: nat, n: nat)
    requires from + n < |items|
    ensures Take(Drop(items, from), n + 1) == Take(Drop(items, from), n) + [items[from + n]]
  {
  }

  lemma {:induction false} TakeRest(items: seq<Item>, from: nat, n: nat, size: nat)
    requires from + n <= |items| && n <= size && (n == size || from + n == |items|)
    ensures Take(Drop(items, from), n) == Take(Drop(items, from), size)
    ensures Drop(items, from + n) == Drop(Drop(items, from), size)
    ensures n == 0 && size > 0 <==> size > 0 && Drop(items, from) == []
  {
  }

  lemma {:induction false} ProjectTakeDrop(db: Db, exprs: seq<Expr>, items: seq<Item>, size: nat)
    ensures ProjectItems(db, exprs, Take(items, size)) == Take(ProjectItems(db, exprs, items), size)
    ensures ProjectItems(db, exprs, Drop(items, size)) == Drop(ProjectItems(db, exprs, items), size)
  {
  }

  lemma {:induction false} ProjectNothing(db: Db, exprs: seq<Expr>)
    ensures ProjectItems(db, exprs, []) == []
  {
  }

  lemma {:induction false} KeepNoItems(db: Db, pred: Expr)
    ensures KeepItems(db, pred, []) == []
  {
  }

  lemma {:induction false} PrefixEmpty(extra: seq<Item>, full: seq<Item>)
    ensures extra + full == full <==> extra == []
  {
    assert |extra + full| == |extra| + |full|;
  }

  function Later(i: nat, k: Option<nat>): Option<nat> {
    if k.None? then None else Some(i + k.value)
  }

  lemma {:induction false} KeepOne(db: Db, pred: Expr, item: Item)
    ensures KeepItems(db, pred, [item]) == if Passes(db, pred, [item.tuple]) then [item] else []
  {
    assert [item][1..] == [];
  }

  /** i items of the batch have been filtered into the output, which has room left. */
  ghost predicate FilteredSoFar(db: Db, pred: Expr, size: nat, out: seq<Item>, batch: seq<Item>, i: nat, out': seq<Item>) {
    && i <= |batch| && |out| < size && |out'| < size && out' == out + KeepItems(db, pred, batch[..i])
    && FillPoint(db, pred, batch, size - |out|) == Later(i, FillPoint(db, pred, batch[i..], size - |out'|))
  }

  lemma {:induction false} FilteredStart(db: Db, pred: Expr, size: nat, out: seq<Item>, batch: seq<Item>)
    requires |out| < size
    ensures FilteredSoFar(db, pred, size, out, batch, 0, out)
  {
    assert batch[..0] == [] && batch[0..] == batch;
  }

  lemma {:induction false} FilteredEnd(db: Db, pred: Expr, size: nat, out: seq<Item>, batch: seq<Item>, out': seq<Item>)
    requires FilteredSoFar(db, pred, size, out, batch, |batch|, out')
    ensures Filtered(db, pred, size, out, batch, out', [], false)
  {
    assert batch[..|batch|] == batch && batch[|batch|..] == [];
  }

  /** What the next item does to the output. */
  lemma {:induction false} FilteredOne(db: Db, pred: Expr, size: nat, out: seq<Item>, batch: seq<Item>, i: nat, out': seq<Item>)
    requires FilteredSoFar(db, pred, size, out, batch, i, out') && i < |batch|
    ensures
      if !Passes(db, pred, [batch[i].tuple]) then FilteredSoFar(db, pred, size, out, batch, i + 1, out')
      else if |out'| + 1 < size then FilteredSoFar(db, pred, size, out, batch, i + 1, out' + [batch[i]])
      else Filtered(db, pred, size, out, batch, out' + [batch[i]], Drop(batch, i + 1), true)
  {
    hide Passes, FillPoint, KeepItems;
    ScanOne(db, pred, batch, i, size - |out'|);
    var kept, one := KeepItems(db, pred, batch[..i]), KeepItems(db, pred, batch[..i + 1]);
    if Passes(db, pred, [batch[i].tuple]) {
      assert out' + [batch[i]] == out + one;
    } else {
      assert one == kept;
    }
  }

  lemma {:induction false} ZipAppend(tuples: seq<Row>, rids: seq<Rid>, tuple: Row, rid: Rid)
    requires |tuples| == |rids|
    ensures Zip(tuples + [tuple], rids + [rid]) == Zip(tuples, rids) + [Item(tuple, rid)] && |Zip(tuples, rids)| == |tuples|
  {
  }

  /** Looking at item i of a batch with `room` places left. */
  lemma {:induction false} ScanOne(db: Db, pred: Expr, batch: seq<Item>, i: nat, room: nat)
    requires i < |batch| && room >= 1
    ensures KeepItems(db, pred, batch[..i + 1]) ==
      KeepItems(db, pred, batch[..i]) + if Passes(db, pred, [batch[i].tuple]) then [batch[i]] else []
    ensures
      var passes := Passes(db, pred, [batch[i].tuple]);
      FillPoint(db, pred, batch[i..], room) ==
        if passes && room == 1 then Some(1)
        else Later(1, FillPoint(db, pred, batch[i + 1..], if passes then room - 1 else room))
  {
    hide Passes;
    assert batch[i..][0] == batch[i] && batch[i..][1..] == batch[i + 1..];
    assert batch[..i + 1] == batch[..i] + [batch[i]];
    KeepItemsAppend(db, pred, batch[..i], [batch[i]]);
    KeepOne(db, pred, batch[i]);
  }

  /**** Whole pipelines ****/

  ghost function Concat(batches: seq<seq<Item>>): seq<Item> {
    if batches == [] then [] else Concat(batches[..|batches| - 1]) + batches[|batches| - 1]
  }

  /** The batches so far hold between one and `size` items each and together with what is pending make up `all`. */
  ghost predicate PulledSoFar(batches: seq<seq<Item>>, pending: seq<Item>, all: seq<Item>, size: nat) {
    && Concat(batches) + pending == all
    && forall i :: 0 <= i < |batches| ==> 1 <= |batches[i]| <= size
  }

  lemma {:induction false} PulledOne(batches: seq<seq<Item>>, pending: seq<Item>, all: seq<Item>, size: nat)
    requires PulledSoFar(batches, pending, all, size) && size >= 1 && pending != []
    ensures PulledSoFar(batches + [Take(pending, size)], Drop(pending, size), all, size)
    ensures |Drop(pending, size)| < |pending|
  {
    var batch, rest := Take(pending, size), Drop(pending, size);
    assert (batches + [batch])[..|batches|] == batches;
    assert pending == batch + rest;
    assert (Concat(batches) + batch) + rest == Concat(batches) + pending;
  }

  lemma {:induction false} PulledNone(all: seq<Item>, size: nat)
    ensures PulledSoFar([], all, all, size)
  {
  }

  lemma {:induction false} PulledAll(batches: seq<seq<Item>>, all: seq<Item>, size: nat)
    requires PulledSoFar(batches, [], all, size)
    ensures Concat(batches) == all
  {
  }

  /**
   Pulling any pipeline with one batch size until it says false: the batches concatenate to exactly what
   was pending, each holds between one and `size` items, and the pipeline can be reinitialized.
   */
  method PullAll(e: Executor, size: nat) returns (batches: seq<seq<Item>>)
    requires e.Valid() && size >= 1 && e.MaxLeft() < size
    modifies e.Repr
    ensures e.Valid() && Concat(batches) == old(e.Pending()) && e.Pending() == [] && e.Extra() == [] && e.Full() == old(e.Full())
    ensures e.MaxLeft() < size
    ensures forall i :: 0 <= i < |batches| ==> 1 <= |batches[i]| <= size
  {
    hide Executor.Valid, Executor.Pending, Executor.Full, Executor.Extra, Executor.MaxLeft, Concat, Zip, Take, PulledSoFar, Executor.Linked;
    batches := [];
    ghost var all := e.Pending();
    PulledNone(all, size);
    var status := true;
    while status
      invariant e.Valid() && e.MaxLeft() < size && e.Full() == old(e.Full()) && PulledSoFar(batches, e.Pending(), all, size)
      invariant !status ==> e.Pending() == [] && e.Extra() == []
      modifies e.Repr
      decreases status, |e.Pending()|
    {
      ghost var pending := e.Pending();
      var tuples, rids;
      tuples, rids, status := e.Next(size);
      if status {
        PulledOne(batches, pending, all, size);
        batches := batches + [Zip(tuples, rids)];
      }
    }
    PulledAll(batches, all, size);
    PulledSizes(batches, all, size);
  }

  lemma {:induction false} PulledSizes(batches: seq<seq<Item>>, all: seq<Item>, size: nat)
    requires PulledSoFar(batches, [], all, size)
    ensures forall i :: 0 <= i < |batches| ==> 1 <= |batches[i]| <= size
  {
  }

  /** After a drained run, Init makes the pipeline give all its items again. */
  method PullAllTwice(e: Executor, size: nat) returns (first: seq<seq<Item>>, second: seq<seq<Item>>)
    requires e.Valid() && size >= 1 && e.MaxLeft() < size && e.Extra() == []
    modifies e.Repr
    ensures e.Valid() && Concat(first) == old(e.Full()) && Concat(second) == old(e.Full())
  {
    e.Init();
    first := PullAll(e, size);
    e.Init();
    second := PullAll(e, size);
  }

  /**** The rows of a plan ****/

  function Tuples(items: seq<Item>): seq<Row> {
    seq(|items|, i requires 0 <= i < |items| => items[i].tuple)
  }

  /** The filter and projection executors compute what their plan nodes mean. */
  lemma {:induction false} FilterMeaning(db: Db, pred: Expr, items: seq<Item>)
    ensures Tuples(KeepItems(db, pred, items)) == Keep(db, pred, [], Tuples(items))
  {
    hide Passes;
    if items == [] {
    } else {
      FilterMeaning(db, pred, items[1..]);
      assert Tuples(items)[1..] == Tuples(items[1..]);
      assert [] + [items[0].tuple] == [items[0].tuple];
      var kept := KeepItems(db, pred, items[1..]);
      assert Tuples([items[0]] + kept) == [items[0].tuple] + Tuples(kept);
    }
  }

  lemma {:induction false} ProjectionMeaning(db: Db, exprs: seq<Expr>, items: seq<Item>)
    ensures Tuples(ProjectItems(db, exprs, items)) == Project(db, exprs, Tuples(items))
  {
  }

  /**** Init in mid-run ****/

  function Flagged(b: bool): Item {
    Item([Boolean(b)], Rid(0, 0))
  }

  lemma {:induction false} MidBatch(db: Db, pred: Expr)
    requires pred == Col(0, 0, Column("", BooleanType))
    ensures Fill(db, pred, 2, [], [Flagged(false), Flagged(true), Flagged(true), Flagged(true)]).left == [Flagged(true)]
  {
    var no, yes := Flagged(false), Flagged(true);
    var items := [no, yes, yes, yes];
    assert Take(items, 2) == [no, yes] && Drop(items, 2) == [yes, yes];
    assert [no, yes][1..] == [yes] && [yes][1..] == [] && [yes, yes][1..] == [yes];
    assert KeepItems(db, pred, [yes]) == [yes];
    assert KeepItems(db, pred, [no, yes]) == [yes];
    assert FillPoint(db, pred, [], 1) == None;
    assert FillPoint(db, pred, [yes], 2) == None;
    assert FillPoint(db, pred, [no, yes], 2) == None;
    assert FillPoint(db, pred, [yes, yes], 1) == Some(1);
    assert [] + [yes] == [yes];
    assert Take([yes, yes], 2) == [yes, yes] && Drop([yes, yes], 2) == [];
    assert Fill(db, pred, 2, [yes], [yes, yes]).left == [yes];
  }

  lemma {:induction false} ExtraOf(e: Executor, left: seq<Item>)
    requires e.Valid() && e.kind.Filter? && e.child.kind.Leaf? && e.Leftover() == left
    ensures e.Extra() == KeepItems(e.db, e.kind.pred, left)
  {
    assert left + [] == left;
    hide KeepItems;
  }

  /** One pull of two rows from a fresh filter over four rows, of which the first fails. */
  method PullOnce(e: Executor)
    requires e.Valid() && e.kind == Kind.Filter(Col(0, 0, Column("", BooleanType))) && e.childOffset == 0 && e.MaxLeft() < 2
    requires e.child.kind.Leaf? && e.child.Pending() == [Flagged(false), Flagged(true), Flagged(true), Flagged(true)]
    modifies e.Repr
    ensures e.Valid() && e.Extra() == [Flagged(true)]
  {
    hide Fill, KeepItems, ProjectItems, Executor.Pending, Executor.Full, Executor.Extra, Executor.MaxLeft, Flagged;
    var tuples, rids, status := e.NextFilter(2);
    MidBatch(e.db, e.kind.pred);
    KeepYes(e.db, e.kind.pred);
    ExtraOf(e, [Flagged(true)]);
  }

  lemma {:induction false} KeepYes(db: Db, pred: Expr)
    requires pred == Col(0, 0, Column("", BooleanType))
    ensures KeepItems(db, pred, [Flagged(true)]) == [Flagged(true)]
  {
    KeepOne(db, pred, Flagged(true));
  }

  /** A filter reinitialized after that pull gives the unread row of its last child batch again, before all its rows. */
  method ReInitTooEarly(db: Db) returns (e: Executor)
    ensures e.Valid() && e.Pending() == [Flagged(true)] + e.Full() && e.Pending() != e.Full()
  {
    var leaf := new Executor.MakeLeaf(db, [Flagged(false), Flagged(true), Flagged(true), Flagged(true)]);
    e := new Executor.MakeNode(Kind.Filter(Col(0, 0, Column("", BooleanType))), leaf);
    hide Executor.Valid, Executor.Pending, Executor.Full, Executor.Extra, Executor.MaxLeft;
    PullOnce(e);
    e.Init();
  }
}
