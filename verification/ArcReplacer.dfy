/**
 The replacer as the program keeps it: four linked lists, and two hash maps whose entries hold a
 list iterator. A list is the sequence of its nodes; an iterator is the handle of a node, which
 stays valid until that node is erased.
 */
module ArcReplacing {
  import opened Sequences
  import A = Arc
  import opened ArcTypes = Arc

  datatype Node = Node(handle: nat, value: nat)

  datatype ArcStatus = MRU | MFU | MRU_GHOST | MFU_GHOST
  datatype AliveEntry = AliveEntry(page: PageId, evictable: bool, status: ArcStatus, iter: nat)
  datatype GhostEntry = GhostEntry(status: ArcStatus, iter: nat)

  function Values(l: seq<Node>): (s: seq<nat>)
    ensures |s| == |l| && forall i :: 0 <= i < |l| ==> s[i] == l[i].value
  {
    seq(|l|, i requires 0 <= i < |l| => l[i].value)
  }

  ghost predicate Points(l: seq<Node>, iter: nat) {
    exists i :: 0 <= i < |l| && l[i].handle == iter
  }

  function Position(l: seq<Node>, iter: nat): (i: nat)
    requires Points(l, iter)
    ensures i < |l| && l[i].handle == iter
  {
    if l[0].handle == iter then 0
    else
      assert Points(l[1..], iter) by {
        var i :| 0 <= i < |l| && l[i].handle == iter;
        assert l[1..][i - 1].handle == iter;
      }
      1 + Position(l[1..], iter)
  }

  /** list::erase at an iterator. */
  function Erase(l: seq<Node>, iter: nat): seq<Node>
    requires Points(l, iter)
  {
    RemoveAt(l, Position(l, iter))
  }

  /** The list holds exactly the keys of `at`, each once, and `at` holds the iterator of each. */
  ghost predicate Linked(l: seq<Node>, at: map<nat, nat>, next: nat) {
    && (forall i, j :: 0 <= i < j < |l| ==> l[i].handle != l[j].handle)
    && (forall i :: 0 <= i < |l| ==> l[i].handle < next && l[i].value in at && at[l[i].value] == l[i].handle)
    && (forall k :: k in at ==> Node(at[k], k) in l)
  }

  lemma {:induction false} LinkedValues(l: seq<Node>, at: map<nat, nat>, next: nat)
    requires Linked(l, at, next)
    ensures Distinct(Values(l))
    ensures forall k :: k in Values(l) <==> k in at
  {
    forall k | k in at
      ensures k in Values(l)
    {
      var i :| 0 <= i < |l| && l[i] == Node(at[k], k);
      assert Values(l)[i] == k;
    }
  }

  lemma {:induction false} LinkedPoints(l: seq<Node>, at: map<nat, nat>, next: nat, k: nat)
    requires Linked(l, at, next) && k in at
    ensures Points(l, at[k]) && l[Position(l, at[k])] == Node(at[k], k)
  {
    var i :| 0 <= i < |l| && l[i] == Node(at[k], k);
    assert l[i].handle == at[k];
  }

  lemma {:induction false} EraseMembers(l: seq<Node>, at: map<nat, nat>, next: nat, k: nat, j: nat)
    requires Linked(l, at, next) && k in at && j in at && j != k
    ensures Points(l, at[k]) && Node(at[j], j) in Erase(l, at[k])
  {
    LinkedPoints(l, at, next, k);
    var p := Position(l, at[k]);
    var i :| 0 <= i < |l| && l[i] == Node(at[j], j);
    assert Erase(l, at[k])[if i < p then i else i - 1] == l[i];
  }

  lemma {:induction false} EraseValues(l: seq<Node>, at: map<nat, nat>, next: nat, k: nat)
    requires Linked(l, at, next) && k in at
    ensures Points(l, at[k]) && Values(Erase(l, at[k])) == Without(Values(l), k)
  {
    LinkedPoints(l, at, next, k);
    LinkedValues(l, at, next);
    var p := Position(l, at[k]);
    assert Values(Erase(l, at[k])) == RemoveAt(Values(l), p);
    RemoveAtIsWithout(Values(l), p);
  }

  lemma {:induction false} EraseNodes(l: seq<Node>, at: map<nat, nat>, next: nat, k: nat, r: seq<Node>)
    requires Linked(l, at, next) && k in at && Points(l, at[k]) && r == Erase(l, at[k])
    ensures forall i, j :: 0 <= i < j < |r| ==> r[i].handle != r[j].handle
    ensures forall i :: 0 <= i < |r| ==>
      r[i].handle < next && r[i].value in at - {k} && (at - {k})[r[i].value] == r[i].handle
  {
  }

  /** Erasing at the iterator a key's entry holds takes out that key. */
  lemma {:induction false} EraseLinked(l: seq<Node>, at: map<nat, nat>, next: nat, k: nat)
    requires Linked(l, at, next) && k in at
    ensures Points(l, at[k])
    ensures Linked(Erase(l, at[k]), at - {k}, next)
    ensures Values(Erase(l, at[k])) == Without(Values(l), k)
  {
    EraseValues(l, at, next, k);
    var r := Erase(l, at[k]);
    assert Linked(r, at - {k}, next) by {
      EraseNodes(l, at, next, k, r);
      forall j | j in at - {k}
        ensures Node((at - {k})[j], j) in r
      {
        EraseMembers(l, at, next, k, j);
      }
      hide Values, Without, RemoveAt, Position, Erase;
    }
  }

  lemma {:induction false} AppendLinked(l: seq<Node>, at: map<nat, nat>, next: nat, k: nat)
    requires Linked(l, at, next) && k !in at
    ensures Linked(l + [Node(next, k)], at[k := next], next + 1)
    ensures Values(l + [Node(next, k)]) == Values(l) + [k]
  {
    var r := l + [Node(next, k)];
    assert r[|l|] == Node(next, k);
  }

  lemma {:induction false} PrependLinked(l: seq<Node>, at: map<nat, nat>, next: nat, k: nat)
    requires Linked(l, at, next) && k !in at
    ensures Linked([Node(next, k)] + l, at[k := next], next + 1)
    ensures Values([Node(next, k)] + l) == [k] + Values(l)
  {
    PrependMembers(l, at, next, k);
    hide Values;
    assert Values([Node(next, k)] + l) == [k] + Values(l) by {
      PrependValues(l, next, k);
    }
    var r := [Node(next, k)] + l;
    assert forall i :: 0 < i < |r| ==> r[i] == l[i - 1];
  }

  lemma {:induction false} PrependValues(l: seq<Node>, next: nat, k: nat)
    ensures Values([Node(next, k)] + l) == [k] + Values(l)
  {
  }

  lemma {:induction false} PrependMembers(l: seq<Node>, at: map<nat, nat>, next: nat, k: nat)
    requires Linked(l, at, next) && k !in at
    ensures
      var at' := at[k := next];
      forall j :: j in at' ==> Node(at'[j], j) in [Node(next, k)] + l
  {
    var at', r := at[k := next], [Node(next, k)] + l;
    forall j | j in at'
      ensures Node(at'[j], j) in r
    {
      if j == k {
        assert r[0] == Node(next, k);
      } else {
        var i :| 0 <= i < |l| && l[i] == Node(at[j], j);
        assert r[i + 1] == l[i];
      }
    }
  }

  lemma {:induction false} LinkedLater(l: seq<Node>, at: map<nat, nat>, next: nat)
    requires Linked(l, at, next)
    ensures Linked(l, at, next + 1)
  {
  }

  /** The iterators of one list, as the alive map holds them. */
  function AliveIters(alive: map<FrameId, AliveEntry>, s: ArcStatus): map<nat, nat> {
    map f | f in alive && alive[f].status == s :: alive[f].iter
  }

  function GhostIters(dead: map<PageId, GhostEntry>, s: ArcStatus): map<nat, nat> {
    map p | p in dead && dead[p].status == s :: dead[p].iter
  }

  function Pages(alive: map<FrameId, AliveEntry>): map<FrameId, PageId> {
    map f | f in alive :: alive[f].page
  }

  function Evictables(alive: map<FrameId, AliveEntry>): set<FrameId> {
    set f | f in alive && alive[f].evictable
  }

  lemma {:induction false} AlivePut(alive: map<FrameId, AliveEntry>, f: FrameId, e: AliveEntry)
    ensures AliveIters(alive[f := e], e.status) == AliveIters(alive, e.status)[f := e.iter]
    ensures forall s :: s != e.status ==> AliveIters(alive[f := e], s) == AliveIters(alive, s) - {f}
    ensures Pages(alive[f := e]) == Pages(alive)[f := e.page]
    ensures Evictables(alive[f := e]) ==
      if e.evictable then Evictables(alive) + {f} else Evictables(alive) - {f}
  {
  }

  lemma {:induction false} AliveDrop(alive: map<FrameId, AliveEntry>, f: FrameId)
    ensures forall s :: AliveIters(alive - {f}, s) == AliveIters(alive, s) - {f}
    ensures Pages(alive - {f}) == Pages(alive) - {f}
    ensures Evictables(alive - {f}) == Evictables(alive) - {f}
  {
  }

  lemma {:induction false} GhostPut(dead: map<PageId, GhostEntry>, p: PageId, e: GhostEntry)
    ensures GhostIters(dead[p := e], e.status) == GhostIters(dead, e.status)[p := e.iter]
    ensures forall s :: s != e.status ==> GhostIters(dead[p := e], s) == GhostIters(dead, s) - {p}
  {
  }

  lemma {:induction false} GhostDrop(dead: map<PageId, GhostEntry>, p: PageId)
    ensures forall s :: GhostIters(dead - {p}, s) == GhostIters(dead, s) - {p}
  {
  }

  ghost predicate AliveOk(mru: seq<Node>, mfu: seq<Node>, alive: map<FrameId, AliveEntry>, next: nat) {
    && Linked(mru, AliveIters(alive, MRU), next) && Linked(mfu, AliveIters(alive, MFU), next)
    && (forall f :: f in alive ==> alive[f].status.MRU? || alive[f].status.MFU?)
  }

  ghost predicate GhostOk(mru: seq<Node>, mfu: seq<Node>, dead: map<PageId, GhostEntry>, next: nat) {
    && Linked(mru, GhostIters(dead, MRU_GHOST), next) && Linked(mfu, GhostIters(dead, MFU_GHOST), next)
    && (forall p :: p in dead ==> dead[p].status.MRU_GHOST? || dead[p].status.MFU_GHOST?)
  }

  /** What the lists say of the alive map. */
  lemma {:induction false} AliveFacts(mru: seq<Node>, mfu: seq<Node>, alive: map<FrameId, AliveEntry>, next: nat)
    requires AliveOk(mru, mfu, alive, next)
    ensures Distinct(Values(mru)) && Distinct(Values(mfu))
    ensures forall f :: f in Values(mru) <==> f in alive && alive[f].status.MRU?
    ensures forall f :: f in Values(mfu) <==> f in alive && alive[f].status.MFU?
  {
    LinkedValues(mru, AliveIters(alive, MRU), next);
    LinkedValues(mfu, AliveIters(alive, MFU), next);
  }

  lemma {:induction false} GhostFacts(mru: seq<Node>, mfu: seq<Node>, dead: map<PageId, GhostEntry>, next: nat)
    requires GhostOk(mru, mfu, dead, next)
    ensures Distinct(Values(mru)) && Distinct(Values(mfu))
    ensures forall p :: p in Values(mru) <==> p in dead && dead[p].status.MRU_GHOST?
    ensures forall p :: p in Values(mfu) <==> p in dead && dead[p].status.MFU_GHOST?
  {
    LinkedValues(mru, GhostIters(dead, MRU_GHOST), next);
    LinkedValues(mfu, GhostIters(dead, MFU_GHOST), next);
  }

  lemma {:induction false} EntryFacts(mru: seq<Node>, mfu: seq<Node>, alive: map<FrameId, AliveEntry>, next: nat, f: FrameId)
    requires AliveOk(mru, mfu, alive, next) && f in alive
    ensures alive[f].status.MRU? <==> !alive[f].status.MFU?
    ensures f in Evictables(alive) <==> alive[f].evictable
    ensures f in Pages(alive) && Pages(alive)[f] == alive[f].page
  {
  }

  /** The lists after an alive entry is erased at the iterator it holds. */
  lemma {:induction false} EraseMruOk(mru: seq<Node>, mfu: seq<Node>, alive: map<FrameId, AliveEntry>, next: nat, f: FrameId)
    requires AliveOk(mru, mfu, alive, next) && f in alive && alive[f].status.MRU?
    ensures Points(mru, alive[f].iter)
    ensures AliveOk(Erase(mru, alive[f].iter), mfu, alive - {f}, next)
    ensures Values(Erase(mru, alive[f].iter)) == Without(Values(mru), f) && f !in Values(mfu)
  {
    hide Linked;
    AliveDrop(alive, f);
    EraseLinked(mru, AliveIters(alive, MRU), next, f);
    assert AliveIters(alive, MFU) - {f} == AliveIters(alive, MFU);
    LinkedValues(mfu, AliveIters(alive, MFU), next);
  }

  lemma {:induction false} EraseMfuOk(mru: seq<Node>, mfu: seq<Node>, alive: map<FrameId, AliveEntry>, next: nat, f: FrameId)
    requires AliveOk(mru, mfu, alive, next) && f in alive && !alive[f].status.MRU?
    ensures Points(mfu, alive[f].iter)
    ensures AliveOk(mru, Erase(mfu, alive[f].iter), alive - {f}, next)
    ensures Values(Erase(mfu, alive[f].iter)) == Without(Values(mfu), f) && f !in Values(mru)
  {
    hide Linked;
    AliveDrop(alive, f);
    EraseLinked(mfu, AliveIters(alive, MFU), next, f);
    assert AliveIters(alive, MRU) - {f} == AliveIters(alive, MRU);
    LinkedValues(mru, AliveIters(alive, MRU), next);
  }

  lemma {:induction false} EraseMruGhostOk(mru: seq<Node>, mfu: seq<Node>, dead: map<PageId, GhostEntry>, next: nat, p: PageId)
    requires GhostOk(mru, mfu, dead, next) && p in dead && dead[p].status.MRU_GHOST?
    ensures Points(mru, dead[p].iter)
    ensures GhostOk(Erase(mru, dead[p].iter), mfu, dead - {p}, next)
    ensures Values(Erase(mru, dead[p].iter)) == Without(Values(mru), p) && p !in Values(mfu)
  {
    hide Linked;
    GhostDrop(dead, p);
    EraseLinked(mru, GhostIters(dead, MRU_GHOST), next, p);
    assert GhostIters(dead, MFU_GHOST) - {p} == GhostIters(dead, MFU_GHOST);
    LinkedValues(mfu, GhostIters(dead, MFU_GHOST), next);
  }

  lemma {:induction false} EraseMfuGhostOk(mru: seq<Node>, mfu: seq<Node>, dead: map<PageId, GhostEntry>, next: nat, p: PageId)
    requires GhostOk(mru, mfu, dead, next) && p in dead && !dead[p].status.MRU_GHOST?
    ensures Points(mfu, dead[p].iter)
    ensures GhostOk(mru, Erase(mfu, dead[p].iter), dead - {p}, next)
    ensures Values(Erase(mfu, dead[p].iter)) == Without(Values(mfu), p) && p !in Values(mru)
  {
    hide Linked;
    GhostDrop(dead, p);
    EraseLinked(mfu, GhostIters(dead, MFU_GHOST), next, p);
    assert GhostIters(dead, MRU_GHOST) - {p} == GhostIters(dead, MRU_GHOST);
    LinkedValues(mru, GhostIters(dead, MRU_GHOST), next);
  }

  /** The lists after a frame that is in neither is pushed. */
  lemma {:induction false} PushMruOk(mru: seq<Node>, mfu: seq<Node>, alive: map<FrameId, AliveEntry>, next: nat, f: FrameId, e: AliveEntry)
    requires AliveOk(mru, mfu, alive - {f}, next) && e.status.MRU? && e.iter == next
    ensures AliveOk(mru + [Node(next, f)], mfu, alive[f := e], next + 1)
    ensures Values(mru + [Node(next, f)]) == Values(mru) + [f]
  {
    hide Linked;
    AlivePut(alive - {f}, f, e);
    AppendLinked(mru, AliveIters(alive - {f}, MRU), next, f);
    LinkedLater(mfu, AliveIters(alive - {f}, MFU), next);
    assert AliveIters(alive - {f}, MFU) - {f} == AliveIters(alive - {f}, MFU);
    assert (alive - {f})[f := e] == alive[f := e];
  }

  lemma {:induction false} PushMfuOk(mru: seq<Node>, mfu: seq<Node>, alive: map<FrameId, AliveEntry>, next: nat, f: FrameId, e: AliveEntry)
    requires AliveOk(mru, mfu, alive - {f}, next) && e.status.MFU? && e.iter == next
    ensures AliveOk(mru, [Node(next, f)] + mfu, alive[f := e], next + 1)
    ensures Values([Node(next, f)] + mfu) == [f] + Values(mfu)
  {
    hide Linked;
    AlivePut(alive - {f}, f, e);
    PrependLinked(mfu, AliveIters(alive - {f}, MFU), next, f);
    LinkedLater(mru, AliveIters(alive - {f}, MRU), next);
    assert AliveIters(alive - {f}, MRU) - {f} == AliveIters(alive - {f}, MRU);
    assert (alive - {f})[f := e] == alive[f := e];
  }

  lemma {:induction false} PushGhostOk(mru: seq<Node>, mfu: seq<Node>, dead: map<PageId, GhostEntry>, next: nat, p: PageId)
    requires GhostOk(mru, mfu, dead, next) && p !in dead
    ensures GhostOk(mru + [Node(next, p)], mfu, dead[p := GhostEntry(MRU_GHOST, next)], next + 1)
    ensures Values(mru + [Node(next, p)]) == Values(mru) + [p]
    ensures GhostOk(mru, [Node(next, p)] + mfu, dead[p := GhostEntry(MFU_GHOST, next)], next + 1)
    ensures Values([Node(next, p)] + mfu) == [p] + Values(mfu)
  {
    hide Linked;
    GhostPut(dead, p, GhostEntry(MRU_GHOST, next));
    GhostPut(dead, p, GhostEntry(MFU_GHOST, next));
    AppendLinked(mru, GhostIters(dead, MRU_GHOST), next, p);
    PrependLinked(mfu, GhostIters(dead, MFU_GHOST), next, p);
    LinkedLater(mru, GhostIters(dead, MRU_GHOST), next);
    LinkedLater(mfu, GhostIters(dead, MFU_GHOST), next);
    assert GhostIters(dead, MRU_GHOST) - {p} == GhostIters(dead, MRU_GHOST);
    assert GhostIters(dead, MFU_GHOST) - {p} == GhostIters(dead, MFU_GHOST);
  }

  lemma {:induction false} GhostLater(mru: seq<Node>, mfu: seq<Node>, dead: map<PageId, GhostEntry>, next: nat)
    requires GhostOk(mru, mfu, dead, next)
    ensures GhostOk(mru, mfu, dead, next + 1)
  {
  }

  lemma {:induction false} AliveLater(mru: seq<Node>, mfu: seq<Node>, alive: map<FrameId, AliveEntry>, next: nat)
    requires AliveOk(mru, mfu, alive, next)
    ensures AliveOk(mru, mfu, alive, next + 1)
  {
  }

  class ArcReplacer {
    const replacerSize: nat
    var target: nat
    var currSize: nat
    var mru: seq<Node>
    var mfu: seq<Node>
    var mruGhost: seq<Node>
    var mfuGhost: seq<Node>
    var aliveMap: map<FrameId, AliveEntry>
    var ghostMap: map<PageId, GhostEntry>
    var nextHandle: nat

    /** Every stored iterator points at its own element in the list its status names. */
    ghost predicate Valid()
      reads this
    {
      && AliveOk(mru, mfu, aliveMap, nextHandle)
      && GhostOk(mruGhost, mfuGhost, ghostMap, nextHandle)
      && currSize == |Evictables(aliveMap)|
      && target <= replacerSize
    }

    /** The four-sequence ARC this replacer stands for. */
    ghost function Abs(): State
      reads this
    {
      State(replacerSize, target, Values(mru), Values(mfu), Values(mruGhost), Values(mfuGhost),
            Pages(aliveMap), Evictables(aliveMap))
    }

    lemma {:induction false} AbsWellFormed()
      requires Valid()
      ensures WellFormed(Abs())
    {
      AliveFacts(mru, mfu, aliveMap, nextHandle);
      GhostFacts(mruGhost, mfuGhost, ghostMap, nextHandle);
    }

    constructor (numFrames: nat)
      ensures Valid() && replacerSize == numFrames
      ensures Abs() == A.Initial(numFrames)
    {
      replacerSize := numFrames;
      target, currSize, nextHandle := 0, 0, 0;
      mru, mfu, mruGhost, mfuGhost := [], [], [], [];
      aliveMap, ghostMap := map[], map[];
    }

    method Size() returns (n: nat)
      requires Valid()
      ensures n == |Abs().evictable|
    {
      n := currSize;
    }

    /** Erases an alive entry from its list and from the map. */
    method EraseAlive(f: FrameId)
      requires Valid() && f in aliveMap
      modifies this`mru, this`mfu, this`aliveMap, this`currSize
      ensures Valid() && Abs() == A.Forget(old(Abs()), f)
      ensures f !in aliveMap
    {
      hide AliveOk, GhostOk, Values, Without, Evictables, Pages;
      var e := aliveMap[f];
      EntryFacts(mru, mfu, aliveMap, nextHandle, f);
      AliveDrop(aliveMap, f);
      if e.status.MRU? {
        EraseMruOk(mru, mfu, aliveMap, nextHandle, f);
        mru := Erase(mru, e.iter);
      } else {
        EraseMfuOk(mru, mfu, aliveMap, nextHandle, f);
        mfu := Erase(mfu, e.iter);
      }
      if e.evictable {
        currSize := currSize - 1;
      }
      aliveMap := aliveMap - {f};
    }

    method RemoveGhostEntry(p: PageId)
      requires Valid()
      modifies this`mruGhost, this`mfuGhost, this`ghostMap
      ensures Valid() && Abs() == A.DropGhost(old(Abs()), p)
      ensures p !in ghostMap
    {
      hide AliveOk, GhostOk;
      if p !in ghostMap {
        GhostFacts(mruGhost, mfuGhost, ghostMap, nextHandle);
        return;
      }
      var e := ghostMap[p];
      if e.status.MRU_GHOST? {
        EraseMruGhostOk(mruGhost, mfuGhost, ghostMap, nextHandle, p);
        mruGhost := Erase(mruGhost, e.iter);
      } else {
        EraseMfuGhostOk(mruGhost, mfuGhost, ghostMap, nextHandle, p);
        mfuGhost := Erase(mfuGhost, e.iter);
      }
      ghostMap := ghostMap - {p};
    }

    method InsertMruGhost(p: PageId)
      requires Valid()
      modifies this`mruGhost, this`mfuGhost, this`ghostMap, this`nextHandle
      ensures Valid()
      ensures Abs() == var b := A.DropGhost(old(Abs()), p); b.(mruGhost := b.mruGhost + [p])
    {
      hide AliveOk, GhostOk;
      RemoveGhostEntry(p);
      PushGhostOk(mruGhost, mfuGhost, ghostMap, nextHandle, p);
      AliveLater(mru, mfu, aliveMap, nextHandle);
      mruGhost := mruGhost + [Node(nextHandle, p)];
      ghostMap := ghostMap[p := GhostEntry(MRU_GHOST, nextHandle)];
      nextHandle := nextHandle + 1;
    }

    method InsertMfuGhost(p: PageId)
      requires Valid()
      modifies this`mruGhost, this`mfuGhost, this`ghostMap, this`nextHandle
      ensures Valid()
      ensures Abs() == var b := A.DropGhost(old(Abs()), p); b.(mfuGhost := [p] + b.mfuGhost)
    {
      hide AliveOk, GhostOk;
      RemoveGhostEntry(p);
      PushGhostOk(mruGhost, mfuGhost, ghostMap, nextHandle, p);
      AliveLater(mru, mfu, aliveMap, nextHandle);
      mfuGhost := [Node(nextHandle, p)] + mfuGhost;
      ghostMap := ghostMap[p := GhostEntry(MFU_GHOST, nextHandle)];
      nextHandle := nextHandle + 1;
    }

    method InsertToMru(f: FrameId, p: PageId)
      requires Valid() && f !in aliveMap
      modifies this`mru, this`aliveMap, this`nextHandle
      ensures Valid() && Abs() == A.InsertMru(old(Abs()), f, p)
    {
      hide AliveOk, GhostOk;
      var e := AliveEntry(p, false, MRU, nextHandle);
      assert aliveMap - {f} == aliveMap;
      PushMruOk(mru, mfu, aliveMap, nextHandle, f, e);
      AlivePut(aliveMap, f, e);
      assert Evictables(aliveMap) - {f} == Evictables(aliveMap);
      GhostLater(mruGhost, mfuGhost, ghostMap, nextHandle);
      mru := mru + [Node(nextHandle, f)];
      aliveMap := aliveMap[f := e];
      nextHandle := nextHandle + 1;
    }

    method InsertToMfu(f: FrameId, p: PageId)
      requires Valid() && f !in aliveMap
      modifies this`mfu, this`aliveMap, this`nextHandle
      ensures Valid() && Abs() == A.InsertMfu(old(Abs()), f, p)
    {
      hide AliveOk, GhostOk;
      var e := AliveEntry(p, false, MFU, nextHandle);
      assert aliveMap - {f} == aliveMap;
      PushMfuOk(mru, mfu, aliveMap, nextHandle, f, e);
      AlivePut(aliveMap, f, e);
      assert Evictables(aliveMap) - {f} == Evictables(aliveMap);
      GhostLater(mruGhost, mfuGhost, ghostMap, nextHandle);
      mfu := [Node(nextHandle, f)] + mfu;
      aliveMap := aliveMap[f := e];
      nextHandle := nextHandle + 1;
    }

    method MoveAliveToMfu(f: FrameId)
      requires Valid() && f in aliveMap
      modifies this`mru, this`mfu, this`aliveMap, this`nextHandle
      ensures Valid() && Abs() == A.Touch(old(Abs()), f, Unknown)
    {
      hide AliveOk, GhostOk, Values, Without, Evictables, Pages;
      var e := aliveMap[f];
      EntryFacts(mru, mfu, aliveMap, nextHandle, f);
      var e' := e.(status := MFU, iter := nextHandle);
      if e.status.MRU? {
        EraseMruOk(mru, mfu, aliveMap, nextHandle, f);
        mru := Erase(mru, e.iter);
      } else {
        EraseMfuOk(mru, mfu, aliveMap, nextHandle, f);
        mfu := Erase(mfu, e.iter);
      }
      PushMfuOk(mru, mfu, aliveMap, nextHandle, f, e');
      KeepEntry(f, e');
      GhostLater(mruGhost, mfuGhost, ghostMap, nextHandle);
      mfu := [Node(nextHandle, f)] + mfu;
      aliveMap := aliveMap[f := e'];
      nextHandle := nextHandle + 1;
    }

    /** The Scan form of a hit: the frame goes to the back of the mru list whichever list held it. */
    method MoveAliveToMru(f: FrameId)
      requires Valid() && f in aliveMap
      modifies this`mru, this`mfu, this`aliveMap, this`nextHandle
      ensures Valid() && Abs() == A.Touch(old(Abs()), f, Scan)
    {
      hide AliveOk, GhostOk, Values, Without, Evictables, Pages;
      var e := aliveMap[f];
      EntryFacts(mru, mfu, aliveMap, nextHandle, f);
      var e' := e.(status := MRU, iter := nextHandle);
      if e.status.MFU? {
        EraseMfuOk(mru, mfu, aliveMap, nextHandle, f);
        mfu := Erase(mfu, e.iter);
      } else {
        EraseMruOk(mru, mfu, aliveMap, nextHandle, f);
        mru := Erase(mru, e.iter);
      }
      PushMruOk(mru, mfu, aliveMap, nextHandle, f, e');
      KeepEntry(f, e');
      GhostLater(mruGhost, mfuGhost, ghostMap, nextHandle);
      mru := mru + [Node(nextHandle, f)];
      aliveMap := aliveMap[f := e'];
      nextHandle := nextHandle + 1;
    }

    lemma {:induction false} KeepEntry(f: FrameId, e: AliveEntry)
      requires f in aliveMap && e.page == aliveMap[f].page && e.evictable == aliveMap[f].evictable
      ensures Pages(aliveMap[f := e]) == Pages(aliveMap)
      ensures Evictables(aliveMap[f := e]) == Evictables(aliveMap)
    {
    }

    /** Throws, here returns false, when the frame id is negative. */
    method SetEvictable(frame: int, on: bool) returns (ok: bool)
      requires Valid()
      modifies this`aliveMap, this`currSize
      ensures Valid() && ok == (frame >= 0)
      ensures Abs() == if ok then A.SetEvictable(old(Abs()), frame, on) else old(Abs())
    {
      hide AliveOk, GhostOk;
      if frame < 0 {
        return false;
      }
      ok := true;
      var f: FrameId := frame;
      if f !in aliveMap || aliveMap[f].evictable == on {
        SetEvictableNoop(f, on);
        return;
      }
      var e := aliveMap[f].(evictable := on);
      SetEvictableOk(f, e);
      if on {
        currSize := currSize + 1;
      } else {
        assert f in Evictables(aliveMap);
        currSize := currSize - 1;
      }
      aliveMap := aliveMap[f := e];
    }

    lemma {:induction false} SetEvictableNoop(f: FrameId, on: bool)
      requires f in aliveMap ==> aliveMap[f].evictable == on
      ensures Abs() == A.SetEvictable(Abs(), f, on)
    {
      if f in aliveMap {
        assert Evictables(aliveMap) == if on then Evictables(aliveMap) + {f} else Evictables(aliveMap) - {f};
      }
    }

    lemma {:induction false} SetEvictableOk(f: FrameId, e: AliveEntry)
      requires Valid() && f in aliveMap && e == aliveMap[f].(evictable := e.evictable)
      ensures AliveOk(mru, mfu, aliveMap[f := e], nextHandle)
      ensures Pages(aliveMap[f := e]) == Pages(aliveMap)
      ensures Evictables(aliveMap[f := e]) ==
        if e.evictable then Evictables(aliveMap) + {f} else Evictables(aliveMap) - {f}
    {
      hide Linked;
      assert AliveIters(aliveMap[f := e], MRU) == AliveIters(aliveMap, MRU);
      assert AliveIters(aliveMap[f := e], MFU) == AliveIters(aliveMap, MFU);
    }

    /** Throws, here returns false, exactly when the frame is alive and not evictable. */
    method Remove(f: FrameId) returns (ok: bool)
      requires Valid()
      modifies this`mru, this`mfu, this`aliveMap, this`currSize
      ensures Valid()
      ensures ok <==> f !in old(Abs()).page || f in old(Abs()).evictable
      ensures Abs() == if f in old(Abs()).evictable then A.Forget(old(Abs()), f) else old(Abs())
    {
      hide AliveOk, GhostOk;
      if f !in aliveMap {
        return true;
      }
      if !aliveMap[f].evictable {
        return false;
      }
      EraseAlive(f);
      ok := true;
    }

    /** The oldest evictable frame of the mru list becomes an mru ghost. The stale-entry branch is dead. */
    method TryEvictFromMru() returns (victim: Option<FrameId>)
      requires Valid()
      modifies this`mru, this`mfu, this`aliveMap, this`currSize, this`mruGhost, this`mfuGhost, this`ghostMap, this`nextHandle
      ensures Valid() && victim == A.MruVictim(old(Abs()))
      ensures victim.Some? ==> victim.value in old(Abs()).page && Abs() == A.BuryMru(old(Abs()), victim.value)
      ensures victim.None? ==> Abs() == old(Abs())
    {
      hide AliveOk, GhostOk;
      var i := 0;
      while i < |mru|
        invariant 0 <= i <= |mru| && unchanged(this)
        invariant forall j :: 0 <= j < i ==> Values(mru)[j] !in Evictables(aliveMap)
      {
        var fid := mru[i].value;
        MruEntry(mru, mfu, aliveMap, nextHandle, i);
        if fid !in aliveMap || aliveMap[fid].status != MRU {
          assert false; // the program erases the list element here
        }
        if !aliveMap[fid].evictable {
          i := i + 1;
          continue;
        }
        A.FirstInUnique(Values(mru), Evictables(aliveMap), i);
        var page := aliveMap[fid].page;
        EraseAlive(fid); // erases at the loop's own position, by MruEntry
        InsertMruGhost(page);
        return Some(fid);
      }
      return None;
    }

    /** The oldest evictable frame of the mfu list becomes an mfu ghost. The stale-entry branch is dead. */
    method TryEvictFromMfu() returns (victim: Option<FrameId>)
      requires Valid()
      modifies this`mru, this`mfu, this`aliveMap, this`currSize, this`mruGhost, this`mfuGhost, this`ghostMap, this`nextHandle
      ensures Valid() && victim == A.MfuVictim(old(Abs()))
      ensures victim.Some? ==> victim.value in old(Abs()).page && Abs() == A.BuryMfu(old(Abs()), victim.value)
      ensures victim.None? ==> Abs() == old(Abs())
    {
      hide AliveOk, GhostOk;
      var i := |mfu|;
      while i > 0
        invariant 0 <= i <= |mfu| && unchanged(this)
        invariant forall j :: i <= j < |mfu| ==> Values(mfu)[j] !in Evictables(aliveMap)
      {
        i := i - 1;
        var fid := mfu[i].value;
        MfuEntry(mru, mfu, aliveMap, nextHandle, i);
        if fid !in aliveMap || aliveMap[fid].status != MFU {
          assert false; // the program erases the list element here
        }
        if !aliveMap[fid].evictable {
          continue;
        }
        A.LastInUnique(Values(mfu), Evictables(aliveMap), i);
        var page := aliveMap[fid].page;
        EraseAlive(fid); // erases at the loop's own position, by MfuEntry
        InsertMfuGhost(page);
        return Some(fid);
      }
      return None;
    }

    method Evict() returns (victim: Option<FrameId>)
      requires Valid()
      modifies this`mru, this`mfu, this`aliveMap, this`currSize, this`mruGhost, this`mfuGhost, this`ghostMap, this`nextHandle
      ensures Valid() && WellFormed(old(Abs()))
      ensures victim == A.Victim(old(Abs())) && Abs() == A.Evict(old(Abs()))
    {
      AbsWellFormed();
      VictimSides(Abs());
      SizeFacts();
      hide Valid, Abs, WellFormed, A.Victim, A.Evict, A.MruVictim, A.MfuVictim, A.BuryMru, A.BuryMfu, A.PrefersMru;
      if currSize == 0 {
        A.VictimExists(Abs());
        return None;
      }
      var mruFirst := |mru| >= target;
      if mruFirst {
        victim := TryEvictFromMru();
      } else {
        victim := TryEvictFromMfu();
      }
      if victim.Some? {
        return;
      }
      if mruFirst {
        victim := TryEvictFromMfu();
      } else {
        victim := TryEvictFromMru();
      }
    }

    lemma {:induction false} SizeFacts()
      requires Valid()
      ensures A.PrefersMru(Abs()) <==> |mru| >= target
      ensures currSize == 0 <==> Abs().evictable == {}
    {
      hide AliveOk, GhostOk;
    }

    /** Makes room in the ghost lists before a miss. */
    method TrimGhosts()
      requires Valid()
      modifies this`mruGhost, this`mfuGhost, this`ghostMap
      ensures Valid() && Abs() == A.Trim(old(Abs()))
    {
      hide AliveOk, GhostOk;
      var leftSize := |mru| + |mruGhost|;
      if leftSize == replacerSize {
        if |mru| < replacerSize && mruGhost != [] {
          PopMruGhost(mruGhost, mfuGhost, ghostMap, nextHandle);
          var oldest := mruGhost[0].value;
          mruGhost := mruGhost[1..];
          ghostMap := ghostMap - {oldest};
        }
      } else if leftSize < replacerSize {
        var totalSize := |mru| + |mfu| + |mruGhost| + |mfuGhost|;
        if totalSize >= replacerSize && totalSize == 2 * replacerSize && mfuGhost != [] {
          PopMfuGhost(mruGhost, mfuGhost, ghostMap, nextHandle);
          var oldest := mfuGhost[|mfuGhost| - 1].value;
          mfuGhost := mfuGhost[..|mfuGhost| - 1];
          ghostMap := ghostMap - {oldest};
        }
      }
    }

    /** A hit on a ghost moves the target towards the side that would have kept the page. */
    method AdaptTarget(p: PageId)
      requires Valid() && p in ghostMap
      modifies this`target
      ensures Valid() && Abs() == old(Abs()).(target := A.Adapt(old(Abs()), p))
    {
      AccessCase(0, p);
      A.AdaptBound(Abs(), p);
      hide AliveOk, GhostOk, Values;
      var b1Size, b2Size := |mruGhost|, |mfuGhost|;
      if ghostMap[p].status.MRU_GHOST? {
        var delta := A.Delta(b2Size, b1Size);
        target := A.Min(replacerSize, target + delta);
      } else {
        var delta := A.Delta(b1Size, b2Size);
        target := if target > delta then target - delta else 0;
      }
      assert target == A.AdaptSizes(ghostMap[p].status.MRU_GHOST?, replacerSize, old(target), b1Size, b2Size);
    }

    /** Throws, here returns false, when the frame id is negative. */
    method RecordAccess(frame: int, p: PageId, t: AccessType) returns (ok: bool)
      requires Valid()
      modifies this
      ensures Valid() && ok == (frame >= 0)
      ensures Abs() == if ok then A.RecordAccess(old(Abs()), frame, p, t) else old(Abs())
    {
      if frame < 0 {
        return false;
      }
      ok := true;
      var f: FrameId := frame;
      AccessCase(f, p);
      hide Valid, Abs, A.Admit, A.Forget, A.IsHit, A.Touch;
      if f in aliveMap {
        if aliveMap[f].page != p {
          EraseAlive(f);
        } else {
          if t.Scan? {
            MoveAliveToMru(f);
          } else {
            MoveAliveToMfu(f);
          }
          return;
        }
      }
      AdmitPage(f, p, t);
    }

    /** The page comes in: back from the ghosts, or new. */
    method AdmitPage(f: FrameId, p: PageId, t: AccessType)
      requires Valid() && f !in aliveMap
      modifies this
      ensures Valid() && Abs() == A.Admit(old(Abs()), f, p, t)
    {
      AccessCase(f, p);
      hide Valid, Abs, A.Trim, A.Adapt, A.DropGhost, A.InsertMru, A.InsertMfu, A.IsGhost;
      if p in ghostMap {
        AdaptTarget(p);
        RemoveGhostEntry(p);
        if t.Scan? {
          InsertToMru(f, p);
        } else {
          InsertToMfu(f, p);
        }
        return;
      }
      TrimGhosts();
      InsertToMru(f, p);
    }

    lemma {:induction false} AccessCase(f: FrameId, p: PageId)
      requires Valid()
      ensures A.IsHit(Abs(), f, p) <==> f in aliveMap && aliveMap[f].page == p
      ensures A.Settle(Abs(), f, p) == if f in aliveMap && aliveMap[f].page != p then A.Forget(Abs(), f) else Abs()
      ensures A.IsGhost(Abs(), p) <==> p in ghostMap
      ensures p in ghostMap ==> (p in Values(mruGhost) <==> ghostMap[p].status.MRU_GHOST?)
    {
      GhostFacts(mruGhost, mfuGhost, ghostMap, nextHandle);
      hide GhostOk, AliveOk, A.Forget;
    }
  }

  /** Which side Evict takes, and what it makes of it. */
  lemma {:induction false} VictimSides(a: State)
    requires WellFormed(a)
    ensures
      var mru, mfu := A.MruVictim(a), A.MfuVictim(a);
      var first, second := if A.PrefersMru(a) then mru else mfu, if A.PrefersMru(a) then mfu else mru;
      && A.Victim(a) == (if first.Some? then first else second)
      && (mru.Some? && A.Victim(a) == mru ==> mru.value in a.page && A.Evict(a) == A.BuryMru(a, mru.value))
      && (mfu.Some? && A.Victim(a) == mfu ==> mfu.value in a.page && A.Evict(a) == A.BuryMfu(a, mfu.value))
      && (A.Victim(a).None? ==> A.Evict(a) == a)
  {
    hide A.BuryMru, A.BuryMfu, A.FirstIn, A.LastIn;
  }

  lemma {:induction false} MruEntry(mru: seq<Node>, mfu: seq<Node>, alive: map<FrameId, AliveEntry>, next: nat, i: nat)
    requires AliveOk(mru, mfu, alive, next) && i < |mru|
    ensures mru[i].value in alive && alive[mru[i].value].status.MRU?
    ensures Points(mru, alive[mru[i].value].iter) && Erase(mru, alive[mru[i].value].iter) == RemoveAt(mru, i)
  {
    LinkedPoints(mru, AliveIters(alive, MRU), next, mru[i].value);
  }

  lemma {:induction false} MfuEntry(mru: seq<Node>, mfu: seq<Node>, alive: map<FrameId, AliveEntry>, next: nat, i: nat)
    requires AliveOk(mru, mfu, alive, next) && i < |mfu|
    ensures mfu[i].value in alive && alive[mfu[i].value].status.MFU?
    ensures Points(mfu, alive[mfu[i].value].iter) && Erase(mfu, alive[mfu[i].value].iter) == RemoveAt(mfu, i)
  {
    LinkedPoints(mfu, AliveIters(alive, MFU), next, mfu[i].value);
  }

  lemma {:induction false} PopMruGhost(mru: seq<Node>, mfu: seq<Node>, dead: map<PageId, GhostEntry>, next: nat)
    requires GhostOk(mru, mfu, dead, next) && mru != []
    ensures GhostOk(mru[1..], mfu, dead - {mru[0].value}, next)
    ensures Values(mru[1..]) == Values(mru)[1..]
  {
    var p := mru[0].value;
    ErasedAt(mru, GhostIters(dead, MRU_GHOST), next, 0);
    hide Linked, GhostOk, Erase, Values;
    EraseMruGhostOk(mru, mfu, dead, next, p);
    assert RemoveAt(mru, 0) == mru[1..];
    assert Values(mru[1..]) == Values(mru)[1..];
  }

  lemma {:induction false} PopMfuGhost(mru: seq<Node>, mfu: seq<Node>, dead: map<PageId, GhostEntry>, next: nat)
    requires GhostOk(mru, mfu, dead, next) && mfu != []
    ensures GhostOk(mru, mfu[..|mfu| - 1], dead - {mfu[|mfu| - 1].value}, next)
    ensures Values(mfu[..|mfu| - 1]) == Values(mfu)[..|mfu| - 1]
  {
    var last := |mfu| - 1;
    var p := mfu[last].value;
    ErasedAt(mfu, GhostIters(dead, MFU_GHOST), next, last);
    hide Linked, GhostOk, Erase, Values;
    EraseMfuGhostOk(mru, mfu, dead, next, p);
    assert RemoveAt(mfu, last) == mfu[..last];
    assert Values(mfu[..last]) == Values(mfu)[..last];
  }

  /** Erasing at the iterator of the key at position i is erasing at that position. */
  lemma {:induction false} ErasedAt(l: seq<Node>, at: map<nat, nat>, next: nat, i: nat)
    requires Linked(l, at, next) && i < |l|
    ensures l[i].value in at && Points(l, at[l[i].value]) && Erase(l, at[l[i].value]) == RemoveAt(l, i)
  {
    LinkedPoints(l, at, next, l[i].value);
  }
}
