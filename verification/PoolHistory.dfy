/** The replacer inside the pool: in every run it has the history of the pool's own calls, so the theorems about histories are theorems about fetches. */
module PoolHistory {
  import opened Sequences
  import opened PoolProtocol
  import opened PoolRuns
  import opened PoolErasure
  import A = Arc
  import H = ArcHistory
  import P = Pool

  /** The replacer calls of a step, in order. */
  function Calls(s: System, step: Step): seq<H.Op> {
    match step
    case FetchHit(_, p, _, t) =>
      if p in s.pool.table then [H.Access(s.pool.table[p], p, t), H.Mark(s.pool.table[p], false)] else []
    case FetchTake(_, _, _, _) => if s.pool.free == [] then [H.Replace] else []
    case FetchInstall =>
      if s.work.Fetching? then [H.Access(s.work.f, s.work.p, s.work.t), H.Mark(s.work.f, false)] else []
    case GuardUnpin(g) =>
      if g in s.guards && s.guards[g].frame < |s.pool.frames| && s.pool.frames[s.guards[g].frame].pins == 1
      then [H.Mark(s.guards[g].frame, true)] else []
    case DeletePage(p, _) => if p in s.pool.table then [H.Discard(s.pool.table[p])] else []
    case _ => []
  }

  /** The replacer after these calls. */
  function After(a: A.State, calls: seq<H.Op>): (b: A.State)
    requires A.WellFormed(a)
    ensures A.WellFormed(b)
    decreases |calls|
  {
    if calls == [] then a else After(H.Step(a, calls[0]), calls[1..])
  }

  lemma {:induction false} AfterOne(a: A.State, x: H.Op)
    requires A.WellFormed(a)
    ensures After(a, [x]) == H.Step(a, x)
  {
    hide H.Step, A.WellFormed;
    assert [x][1..] == [];
  }

  lemma {:induction false} AfterTwo(a: A.State, x: H.Op, y: H.Op)
    requires A.WellFormed(a)
    ensures After(a, [x, y]) == H.Step(H.Step(a, x), y)
  {
    hide H.Step, A.WellFormed;
    AfterOne(H.Step(a, x), y);
    assert [x, y][1..] == [y];
  }

  lemma {:induction false} TouchCalls(a: A.State, f: FrameId, p: PageId, t: A.AccessType)
    requires A.WellFormed(a)
    ensures P.Touch(a, f, p, t) == After(a, [H.Access(f, p, t), H.Mark(f, false)])
  {
    hide A.WellFormed, A.RecordAccess, A.SetEvictable, After;
    AfterTwo(a, H.Access(f, p, t), H.Mark(f, false));
  }

  lemma {:induction false} TakeCalls(s: System, step: Step)
    requires step.FetchTake? && Enabled(s, step)
    ensures A.WellFormed(s.pool.arc) && Apply(s, step).pool.arc == After(s.pool.arc, Calls(s, step))
  {
    hide A.WellFormed, A.Evict, A.Victim, After;
    AfterNone(s.pool.arc);
    AfterOne(s.pool.arc, H.Replace);
  }

  lemma {:induction false} UnpinCalls(s: System, step: Step)
    requires step.GuardUnpin? && Enabled(s, step) && A.WellFormed(s.pool.arc)
    ensures Apply(s, step).pool.arc == After(s.pool.arc, Calls(s, step))
  {
    hide A.WellFormed, A.SetEvictable, After;
    AfterNone(s.pool.arc);
    AfterOne(s.pool.arc, H.Mark(s.guards[step.g].frame, true));
  }

  lemma {:induction false} DeleteCalls(s: System, step: Step)
    requires step.DeletePage? && Enabled(s, step) && A.WellFormed(s.pool.arc) && P.TableOk(s.pool.frames, s.pool.table)
    ensures Apply(s, step).pool.arc == After(s.pool.arc, Calls(s, step))
  {
    hide A.WellFormed, A.Forget, After;
    AfterNone(s.pool.arc);
    if step.p in s.pool.table {
      AfterOne(s.pool.arc, H.Discard(s.pool.table[step.p]));
    }
  }

  /** The other steps do not call the replacer. */
  lemma {:induction false} NoCalls(s: System, step: Step)
    requires Enabled(s, step)
    requires !step.FetchHit? && !step.FetchTake? && !step.FetchInstall? && !step.GuardUnpin? && !step.DeletePage?
    ensures Apply(s, step).pool.arc == s.pool.arc && Calls(s, step) == []
  {
    hide Unlatched, Shareable, P.Choice, A.WellFormed;
  }

  /** A step leaves the replacer as its calls leave it. */
  lemma {:induction false} StepCalls(s: System, step: Step)
    requires Structured(s) && Enabled(s, step)
    ensures A.WellFormed(s.pool.arc) && Apply(s, step).pool.arc == After(s.pool.arc, Calls(s, step))
  {
    hide Structured, A.WellFormed, A.Exclusive, After, P.Touch, P.TableOk, P.FreeOk, P.Agrees, Mapped, PinsOk, LatchesOk;
    ReachableAgrees(s);
    match step
    case FetchHit(_, p, _, t) => TouchCalls(s.pool.arc, s.pool.table[p], p, t);
    case FetchInstall => TouchCalls(s.pool.arc, s.work.f, s.work.p, s.work.t);
    case FetchTake(_, _, _, _) => TakeCalls(s, step);
    case GuardUnpin(g) => UnpinCalls(s, step);
    case DeletePage(p, _) => DeleteCalls(s, step);
    case _ =>
      NoCalls(s, step);
      AfterNone(s.pool.arc);
  }

  lemma {:induction false} AfterNone(a: A.State)
    requires A.WellFormed(a)
    ensures After(a, []) == a
  {
  }

  /** The replacer calls of the first k steps. */
  ghost function History(states: seq<System>, steps: seq<Step>, k: nat): seq<H.Op>
    requires k <= |steps| < |states|
  {
    if k == 0 then [] else History(states, steps, k - 1) + Calls(states[k - 1], steps[k - 1])
  }

  lemma {:induction false} RunAfter(capacity: nat, ops: seq<H.Op>, calls: seq<H.Op>)
    ensures H.Run(capacity, ops + calls) == After(H.Run(capacity, ops), calls)
    decreases |calls|
  {
    hide H.Run, H.Step, A.WellFormed;
    if calls == [] {
      assert ops + calls == ops;
    } else {
      H.RunConcat(capacity, ops, calls[0]);
      RunAfter(capacity, ops + [calls[0]], calls[1..]);
      assert ops + calls == (ops + [calls[0]]) + calls[1..];
    }
  }

  /** Every call of a step names a frame of the pool. */
  lemma {:induction false} CallsFit(s: System, step: Step)
    requires Structured(s) && Enabled(s, step)
    ensures H.AllFit(|s.pool.frames|, Calls(s, step))
  {
    hide Structured, P.ArcOk, P.FreeOk, P.Agrees, Mapped, PinsOk, LatchesOk, Unlatched, Shareable, P.Choice, A.WellFormed;
    ReachableAgrees(s);
  }

  /** In every run the replacer is that of the history of the pool's calls, which all name frames of the pool. */
  lemma {:induction false} ReplacerIsHistory(states: seq<System>, steps: seq<Step>, numFrames: nat, k: nat)
    requires Run(states, steps) && Init(states[0], numFrames) && k <= |steps| < |states|
    ensures states[k].pool.arc == H.Run(numFrames, History(states, steps, k)) && |states[k].pool.frames| == numFrames
    ensures H.AllFit(numFrames, History(states, steps, k))
  {
    hide Enabled, Apply, Structured, Calls, After;
    if k == 0 {
    } else {
      hide Init, H.Run;
      ReplacerIsHistory(states, steps, numFrames, k - 1);
      RunStructured(states, steps, numFrames, k - 1);
      RunStructured(states, steps, numFrames, k);
      StepCalls(states[k - 1], steps[k - 1]);
      CallsFit(states[k - 1], steps[k - 1]);
      RunAfter(numFrames, History(states, steps, k - 1), Calls(states[k - 1], steps[k - 1]));
      ReplacerSize(states[k]);
    }
  }

  lemma {:induction false} ReplacerSize(s: System)
    requires Structured(s)
    ensures s.pool.arc.capacity == |s.pool.frames|
  {
    hide Structured, Mapped, PinsOk, LatchesOk, P.TableOk, P.FreeOk, P.Agrees, A.WellFormed, A.Exclusive;
    ReachableAgrees(s);
  }

  /**** Bounds on the lists ****/

  /** The fetch is a Scan that brings a page of the mfu side to an mru side that is already full. */
  predicate DemotingFetch(s: System, step: Step) {
    var calls := Calls(s, step);
    calls != [] && H.DemotesOp(s.pool.arc, calls[0])
  }

  lemma {:induction false} MarkBounded(a: A.State, f: FrameId, on: bool)
    requires A.WellFormed(a)
    ensures H.Bounded(H.Step(a, H.Mark(f, on))) <==> H.Bounded(a)
    ensures H.InRange(a) ==> H.InRange(H.Step(a, H.Mark(f, on)))
  {
    hide A.WellFormed;
  }

  lemma {:induction false} StepBounded(s: System, step: Step)
    requires Structured(s) && Enabled(s, step) && H.InRange(s.pool.arc) && H.Bounded(s.pool.arc)
    ensures H.Bounded(Apply(s, step).pool.arc) <==> !DemotingFetch(s, step)
    ensures H.InRange(Apply(s, step).pool.arc)
  {
    hide Structured, Enabled, Apply, A.WellFormed, H.Bounded, H.InRange, H.DemotesOp, H.Step, After;
    StepCalls(s, step);
    CallsFit(s, step);
    ReplacerSize(s);
    var a, calls := s.pool.arc, Calls(s, step);
    if calls == [] {
      AfterNone(a);
    } else {
      assert H.Fits(calls[0], a.capacity);
      H.StepBounded(a, calls[0]);
      if |calls| == 1 {
        assert calls == [calls[0]];
        AfterOne(a, calls[0]);
      } else {
        assert calls == [calls[0], calls[1]];
        AfterTwo(a, calls[0], calls[1]);
        MarkBounded(H.Step(a, calls[0]), calls[1].f, false);
      }
    }
  }

  lemma {:induction false} StartBounded(s: System, numFrames: nat)
    requires Init(s, numFrames)
    ensures H.Bounded(s.pool.arc) && H.InRange(s.pool.arc)
  {
  }

  lemma {:induction false} BoundedUntil(states: seq<System>, steps: seq<Step>, numFrames: nat, k: nat)
    requires Run(states, steps) && Init(states[0], numFrames) && k <= |steps|
    requires forall i :: 0 <= i < k ==> !DemotingFetch(states[i], steps[i])
    ensures H.Bounded(states[k].pool.arc) && H.InRange(states[k].pool.arc)
  {
    hide Init, Enabled, Apply, Structured, H.Bounded, H.InRange, DemotingFetch;
    if k == 0 {
      StartBounded(states[0], numFrames);
    } else {
      BoundedUntil(states, steps, numFrames, k - 1);
      RunStructured(states, steps, numFrames, k - 1);
      StepBounded(states[k - 1], steps[k - 1]);
    }
  }

  lemma {:induction false} NoDemotionUntil(states: seq<System>, steps: seq<Step>, numFrames: nat, k: nat)
    requires Run(states, steps) && Init(states[0], numFrames) && k <= |steps|
    requires forall i :: 0 <= i <= |steps| ==> H.Bounded(states[i].pool.arc)
    ensures forall i :: 0 <= i < k ==> !DemotingFetch(states[i], steps[i])
  {
    hide Init, Enabled, Apply, Structured, H.Bounded, H.InRange, DemotingFetch;
    if k > 0 {
      NoDemotionUntil(states, steps, numFrames, k - 1);
      BoundedUntil(states, steps, numFrames, k - 1);
      RunStructured(states, steps, numFrames, k - 1);
      StepBounded(states[k - 1], steps[k - 1]);
      assert H.Bounded(states[k].pool.arc);
    }
  }

  /** Every run of the pool keeps the replacer's lists within c and 2c at all of its states exactly when no fetch demotes. */
  lemma {:induction false} PoolBoundedIff(states: seq<System>, steps: seq<Step>, numFrames: nat)
    requires Run(states, steps) && Init(states[0], numFrames)
    ensures (forall k :: 0 <= k <= |steps| ==> H.Bounded(states[k].pool.arc)) <==>
      forall i :: 0 <= i < |steps| ==> !DemotingFetch(states[i], steps[i])
  {
    hide Init, Enabled, Apply, H.Bounded, DemotingFetch;
    if forall k :: 0 <= k <= |steps| ==> H.Bounded(states[k].pool.arc) {
      NoDemotionUntil(states, steps, numFrames, |steps|);
    }
    if forall i :: 0 <= i < |steps| ==> !DemotingFetch(states[i], steps[i]) {
      forall k | 0 <= k <= |steps|
        ensures H.Bounded(states[k].pool.arc)
      {
        BoundedUntil(states, steps, numFrames, k);
      }
    }
  }

  ghost predicate NoScans(steps: seq<Step>) {
    forall i :: 0 <= i < |steps| ==> (steps[i].FetchHit? || steps[i].FetchTake?) ==> !steps[i].t.Scan?
  }

  lemma {:induction false} WorkScans(s: System, step: Step)
    requires Enabled(s, step) && (s.work.Fetching? ==> !s.work.t.Scan?)
    requires step.FetchHit? || step.FetchTake? ==> !step.t.Scan?
    ensures Apply(s, step).work.Fetching? ==> !Apply(s, step).work.t.Scan?
    ensures !DemotingFetch(s, step)
  {
    hide P.Hit, P.Take, P.WriteBack, P.Install, P.Unpin, P.Delete, P.FlushWrite, P.SetDirty, P.Store, P.Choice, P.CanDelete;
    hide Unlatched, Shareable, A.WellFormed;
  }

  lemma {:induction false} NoScansFetching(states: seq<System>, steps: seq<Step>, numFrames: nat, k: nat)
    requires Run(states, steps) && Init(states[0], numFrames) && NoScans(steps) && k <= |steps|
    ensures states[k].work.Fetching? ==> !states[k].work.t.Scan?
    ensures forall i :: 0 <= i < k ==> !DemotingFetch(states[i], steps[i])
  {
    hide DemotingFetch;
    if k == 0 {
    } else {
      NoScansFetching(states, steps, numFrames, k - 1);
      hide Init, Enabled, Apply;
      WorkScans(states[k - 1], steps[k - 1]);
    }
  }

  /** Without Scan fetches the lists stay within c and 2c in every run of the pool. */
  lemma {:induction false} PoolWithoutScans(states: seq<System>, steps: seq<Step>, numFrames: nat, k: nat)
    requires Run(states, steps) && Init(states[0], numFrames) && NoScans(steps) && k <= |steps|
    ensures H.Bounded(states[k].pool.arc)
  {
    hide Init, Run, H.Bounded, DemotingFetch, NoScans;
    NoScansFetching(states, steps, numFrames, k);
    BoundedUntil(states, steps, numFrames, k);
  }

  /**** Recency of fetches ****/

  /** The step fetches the page of frame f, or a page into it. */
  predicate Fetches(s: System, step: Step, f: FrameId) {
    || (step.FetchHit? && step.p in s.pool.table && s.pool.table[step.p] == f)
    || (step.FetchInstall? && s.work.Fetching? && s.work.f == f)
  }

  /** The number of the last of the first k steps that fetches into f, counting from 1; 0 if there is none. */
  ghost function LastFetch(states: seq<System>, steps: seq<Step>, k: nat, f: FrameId): (n: nat)
    requires k <= |steps| < |states|
    ensures n <= k
  {
    if k == 0 then 0
    else if Fetches(states[k - 1], steps[k - 1], f) then k
    else LastFetch(states, steps, k - 1, f)
  }

  lemma {:induction false} LastAccessOne(ops: seq<H.Op>, x: H.Op, f: FrameId)
    ensures H.LastAccess(ops + [x], f) == if x.Access? && x.f == f then |ops| + 1 else H.LastAccess(ops, f)
  {
    assert (ops + [x])[..|ops|] == ops;
  }

  lemma {:induction false} CallsAccess(s: System, step: Step, ops: seq<H.Op>, f: FrameId)
    ensures H.LastAccess(ops + Calls(s, step), f) == if Fetches(s, step, f) then |ops| + 1 else H.LastAccess(ops, f)
  {
    hide H.LastAccess;
    var calls := Calls(s, step);
    if calls == [] {
      assert ops + calls == ops;
    } else {
      LastAccessOne(ops, calls[0], f);
      if |calls| == 1 {
        assert calls == [calls[0]];
      } else {
        LastAccessOne(ops + [calls[0]], calls[1], f);
        assert ops + calls == (ops + [calls[0]]) + [calls[1]];
      }
    }
  }

  /** When step n of the run reaches the replacer. */
  ghost function CallTime(states: seq<System>, steps: seq<Step>, n: nat): nat
    requires n <= |steps| < |states|
  {
    if n == 0 then 0 else |History(states, steps, n - 1)| + 1
  }

  lemma {:induction false} FetchIsAccess(states: seq<System>, steps: seq<Step>, k: nat, f: FrameId)
    requires k <= |steps| < |states|
    ensures H.LastAccess(History(states, steps, k), f) == CallTime(states, steps, LastFetch(states, steps, k, f))
  {
    hide Calls, Fetches;
    if k > 0 {
      hide H.LastAccess;
      FetchIsAccess(states, steps, k - 1, f);
      CallsAccess(states[k - 1], steps[k - 1], History(states, steps, k - 1), f);
    }
  }

  lemma {:induction false} HistoryGrows(states: seq<System>, steps: seq<Step>, i: nat, k: nat)
    requires i <= k <= |steps| < |states|
    ensures |History(states, steps, i)| <= |History(states, steps, k)|
    decreases k
  {
    hide Calls;
    if i < k {
      HistoryGrows(states, steps, i, k - 1);
    }
  }

  /** What comes first for the replacer came first in the run. */
  lemma {:induction false} FetchedBefore(states: seq<System>, steps: seq<Step>, k: nat, f: FrameId, g: FrameId)
    requires k <= |steps| < |states|
    requires H.LastAccess(History(states, steps, k), f) < H.LastAccess(History(states, steps, k), g)
    ensures LastFetch(states, steps, k, f) < LastFetch(states, steps, k, g)
  {
    hide H.LastAccess, History, LastFetch;
    FetchIsAccess(states, steps, k, f);
    FetchIsAccess(states, steps, k, g);
    var m, n := LastFetch(states, steps, k, f), LastFetch(states, steps, k, g);
    if m >= n && n > 0 {
      HistoryGrows(states, steps, n - 1, m - 1);
    }
  }

  ghost predicate HasUnpinned(list: seq<FrameId>, frames: seq<P.Frame>) {
    exists f: FrameId :: f in list && f < |frames| && frames[f].pins == 0
  }

  /** With no free frame every frame is the replacer's, evictable exactly when it is not pinned. */
  lemma {:induction false} EvictableIsUnpinned(s: System)
    requires Structured(s) && s.work.Idle? && s.pool.free == []
    ensures forall f: FrameId :: f in s.pool.arc.evictable <==> f < |s.pool.frames| && s.pool.frames[f].pins == 0
  {
    hide Structured, P.TableOk, P.ArcOk, Mapped, PinsOk, LatchesOk;
    ReachableAgrees(s);
    assert forall f: FrameId :: f !in s.pool.free;
  }

  lemma {:induction false} TakeReady(s: System, step: Step)
    requires step.FetchTake? && Enabled(s, step)
    ensures s.work.Idle? && P.Choice(s.pool).Some?
  {
    hide A.WellFormed, A.Victim;
  }

  /**
   Every eviction of every run takes the least recently fetched unpinned frame of its side. That is the
   side that |mru| >= target picks, or the other side if the picked one has no unpinned frame.
   */
  lemma {:induction false} EvictsLeastRecentlyFetched(states: seq<System>, steps: seq<Step>, numFrames: nat, k: nat)
    requires Run(states, steps) && Init(states[0], numFrames) && k < |steps| < |states|
    requires steps[k].FetchTake? && states[k].pool.free == []
    ensures P.Choice(states[k].pool).Some?
    ensures
      var v, arc, frames := P.Choice(states[k].pool).value, states[k].pool.arc, states[k].pool.frames;
      && v < |frames| && frames[v].pins == 0
      && (forall f: FrameId :: f < |frames| && frames[f].pins == 0 && f != v && (f in arc.mru <==> v in arc.mru) ==>
            LastFetch(states, steps, k, v) < LastFetch(states, steps, k, f))
      && (v in arc.mru <==> if |arc.mru| >= arc.target then HasUnpinned(arc.mru, frames) else !HasUnpinned(arc.mfu, frames))
  {
    hide Init, Enabled, Apply, Structured, History, LastFetch, H.Run, H.LastAccess, A.Victim, H.AllFit;
    var s := states[k];
    TakeReady(s, steps[k]);
    hide Run;
    var v, ops := P.Choice(s.pool).value, History(states, steps, k);
    ReplacerIsHistory(states, steps, numFrames, k);
    RunStructured(states, steps, numFrames, k);
    EvictableIsUnpinned(s);
    H.VictimIsLeastRecent(numFrames, ops, v);
    forall f: FrameId | f < |s.pool.frames| && s.pool.frames[f].pins == 0 && f != v && (f in s.pool.arc.mru <==> v in s.pool.arc.mru)
      ensures LastFetch(states, steps, k, v) < LastFetch(states, steps, k, f)
    {
      assert H.Competes(s.pool.arc, v, f);
      FetchedBefore(states, steps, k, v, f);
    }
  }
}
