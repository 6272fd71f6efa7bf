/**
 When the cache is not transparent: exactly when an eviction drops a frame that the disk does not hold,
 and a run in which an unsafe flush leads to that.
 */
module PoolLoss {
  import opened Sequences
  import opened PoolProtocol
  import opened PoolRuns
  import opened PoolErasure
  import A = Arc
  import P = Pool

  /**** The exact condition ****/

  /** The structure that content depends on, in every reachable state. */
  ghost predicate Placed(s: System) {
    && P.TableOk(s.pool.frames, s.pool.table) && Mapped(s.guards, s.pool.table)
    && (s.work.Fetching? ==> s.work.p !in s.pool.table && s.work.f < |s.pool.frames|)
    && (s.work.Flushing? && s.work.cursor.Some? ==>
          s.work.cursor.value.page in s.pool.table && s.pool.table[s.work.cursor.value.page] == s.work.cursor.value.frame)
  }

  lemma {:induction false} StructuredPlaced(s: System)
    requires Structured(s)
    ensures Placed(s)
  {
    var e :| Erased(s, e) && Inv(e);
    assert e.work.Flushing? && e.work.cursor.Some? ==> CursorOk(e, e.work.cursor.value, e.work.safe);
    ReachableAgrees(s);
    hide P.FreeOk, P.ArcOk, P.Agrees, P.TableOk, P.CleanOk, Coherent, Mapped, PinsOk, LatchesOk, FlushedOk, DiskBlank, P.ZeroPage;
  }

  /** A step that evicts finds the evicted frame's data on disk. */
  ghost predicate EvictsWhole(s: System, step: Step) {
    step.FetchInstall? && CanFetchInstall(s) && s.pool.frames[s.work.f].page.Some? ==>
      P.Get(s.pool.disk, s.pool.frames[s.work.f].page.value) == s.pool.frames[s.work.f].data
  }

  lemma {:induction false} InstallIff(pool: P.State, f: FrameId, p: PageId, t: A.AccessType)
    requires P.TableOk(pool.frames, pool.table) && f < |pool.frames| && p !in pool.table
    ensures P.SameContent(pool, P.Install(pool, f, p, t)) <==>
      (pool.frames[f].page.Some? ==> P.Get(pool.disk, pool.frames[f].page.value) == pool.frames[f].data)
  {
    hide P.Touch, P.ZeroPage;
    if pool.frames[f].page.Some? {
      var was := pool.frames[f].page.value;
      assert P.Logical(pool, was) == pool.frames[f].data;
      assert P.Logical(P.Install(pool, f, p, t), was) == P.Get(pool.disk, was);
    }
  }

  /** Nothing but the content of the frames' pages matters to it. */
  lemma {:induction false} SameData(pool: P.State, pool': P.State)
    requires pool'.table == pool.table && pool'.disk == pool.disk && |pool'.frames| == |pool.frames|
    requires forall f: FrameId :: f < |pool.frames| ==> pool'.frames[f].data == pool.frames[f].data
    ensures P.SameContent(pool, pool')
  {
  }

  /** A resident page's frame goes to disk. */
  lemma {:induction false} SameWritten(pool: P.State, pool': P.State, p: PageId)
    requires pool'.table == pool.table && |pool'.frames| == |pool.frames| && p in pool.table && pool.table[p] < |pool.frames|
    requires pool'.disk == pool.disk[p := pool.frames[pool.table[p]].data]
    requires forall f: FrameId :: f < |pool.frames| ==> pool'.frames[f].data == pool.frames[f].data
    ensures P.SameContent(pool, pool')
  {
  }

  lemma {:induction false} StoreLogical(pool: P.State, p: PageId, f: FrameId, data: PageData)
    requires P.TableOk(pool.frames, pool.table) && p in pool.table && pool.table[p] == f
    ensures forall q :: P.Logical(P.Store(pool, f, data), q) == if q == p then data else P.Logical(pool, q)
  {
  }

  lemma {:induction false} DeleteLogical(pool: P.State, p: PageId, left: PageData)
    requires P.TableOk(pool.frames, pool.table) && P.CanDelete(pool, p)
    ensures forall q :: P.Logical(P.Delete(pool, p, left), q) == if q == p then left else P.Logical(pool, q)
  {
    hide A.Forget, P.ZeroPage;
  }

  /** Steps of the pool latch holder and of guards that leave every page's content alone. */
  lemma {:induction false} SilentContent(s: System, step: Step)
    requires Placed(s) && Enabled(s, step) && !step.FetchInstall? && !step.GuardStore? && !step.DeletePage?
    ensures P.SameContent(s.pool, Apply(s, step).pool) && Apply(s, step).content == s.content
  {
    hide P.TableOk, P.SameContent, P.Touch, A.Evict, A.SetEvictable, A.WellFormed, A.Victim, Unlatched, Shareable;
    var pool, pool' := s.pool, Apply(s, step).pool;
    if step.FlushWrite? {
      SameWritten(pool, pool', s.work.cursor.value.page);
    } else if step.GuardFlush? {
      SameWritten(pool, pool', s.guards[step.g].page);
    } else if step.FetchWriteBack? {
      WriteBackSame(pool, s.work.f);
    } else {
      SameData(pool, pool');
    }
  }

  lemma {:induction false} WriteBackSame(pool: P.State, f: FrameId)
    requires P.TableOk(pool.frames, pool.table) && f < |pool.frames|
    ensures P.SameContent(pool, P.WriteBack(pool, f))
  {
    var fr := pool.frames[f];
    if fr.page.Some? && fr.dirty {
      SameWritten(pool, P.WriteBack(pool, f), fr.page.value);
    }
  }

  lemma {:induction false} CoherentIff(s: System, s': System)
    requires Coherent(s) && s'.content == s.content
    ensures Coherent(s') <==> P.SameContent(s.pool, s'.pool)
  {
    hide P.Logical, P.Get;
  }

  /** One step of any run keeps the content right exactly when it does not evict a frame that the disk does not hold. */
  lemma {:induction false} StepContent(s: System, step: Step)
    requires Placed(s) && Enabled(s, step) && Coherent(s)
    ensures Coherent(Apply(s, step)) <==> EvictsWhole(s, step)
  {
    hide P.TableOk, P.SameContent, P.Logical, P.Get, Coherent, P.Install, P.Store, P.Delete;
    var s' := Apply(s, step);
    match step
    case FetchInstall =>
      InstallIff(s.pool, s.work.f, s.work.p, s.work.t);
      CoherentIff(s, s');
    case GuardStore(g, data) =>
      StoreLogical(s.pool, s.guards[g].page, s.guards[g].frame, data);
      CoherentStore(s, s', s.guards[g].page, data);
    case DeletePage(p, left) =>
      DeleteLogical(s.pool, p, left);
      CoherentStore(s, s', p, left);
    case _ =>
      SilentContent(s, step);
      CoherentIff(s, s');
  }

  /** The plain map is what the pool holds. */
  ghost predicate Transparent(states: seq<System>, steps: seq<Step>, k: nat)
    requires Run(states, steps) && k <= |steps|
  {
    forall p :: P.Logical(states[k].pool, p) == P.Get(PlainMap(states, steps, k), p)
  }

  lemma {:induction false} TransparentIsCoherent(states: seq<System>, steps: seq<Step>, numFrames: nat, k: nat)
    requires Run(states, steps) && Init(states[0], numFrames) && k <= |steps|
    ensures Transparent(states, steps, k) <==> Coherent(states[k])
  {
    PlainMapIsContent(states, steps, numFrames, k);
    hide Init, Run, PlainMap, P.Logical, P.Get;
  }

  lemma {:induction false} TransparentNext(states: seq<System>, steps: seq<Step>, numFrames: nat, k: nat)
    requires Run(states, steps) && Init(states[0], numFrames) && k < |steps| && Transparent(states, steps, k)
    ensures Transparent(states, steps, k + 1) <==> EvictsWhole(states[k], steps[k])
  {
    hide Init, Enabled, Apply, Transparent, EvictsWhole, Coherent, Placed, Structured;
    RunStructured(states, steps, numFrames, k);
    StructuredPlaced(states[k]);
    TransparentIsCoherent(states, steps, numFrames, k);
    TransparentIsCoherent(states, steps, numFrames, k + 1);
    StepContent(states[k], steps[k]);
  }

  lemma {:induction false} TransparentStart(states: seq<System>, steps: seq<Step>, numFrames: nat)
    requires Run(states, steps) && Init(states[0], numFrames)
    ensures Transparent(states, steps, 0)
  {
    InitInv(states[0], numFrames);
    TransparentIsCoherent(states, steps, numFrames, 0);
    hide Init, Run, Transparent, Coherent, P.Inv, P.CleanOk;
  }

  lemma {:induction false} TransparentUntil(states: seq<System>, steps: seq<Step>, numFrames: nat, k: nat)
    requires Run(states, steps) && Init(states[0], numFrames) && k <= |steps|
    requires forall i :: 0 <= i < k ==> EvictsWhole(states[i], steps[i])
    ensures Transparent(states, steps, k)
  {
    hide Init, Enabled, Apply, Transparent, EvictsWhole;
    if k == 0 {
      TransparentStart(states, steps, numFrames);
    } else {
      TransparentUntil(states, steps, numFrames, k - 1);
      TransparentNext(states, steps, numFrames, k - 1);
    }
  }

  /**
   Every run, with any flushes and any writers: the cache is transparent at all of its states exactly when
   each eviction finds the evicted frame's data on disk.
   */
  lemma {:induction false} TransparentIff(states: seq<System>, steps: seq<Step>, numFrames: nat)
    requires Run(states, steps) && Init(states[0], numFrames)
    ensures (forall k :: 0 <= k <= |steps| ==> Transparent(states, steps, k)) <==>
      forall i :: 0 <= i < |steps| ==> EvictsWhole(states[i], steps[i])
  {
    hide Init, Enabled, Apply, Transparent, EvictsWhole;
    if forall k :: 0 <= k <= |steps| ==> Transparent(states, steps, k) {
      forall i | 0 <= i < |steps|
        ensures EvictsWhole(states[i], steps[i])
      {
        assert Transparent(states, steps, i + 1);
        TransparentNext(states, steps, numFrames, i);
      }
    }
    if forall i :: 0 <= i < |steps| ==> EvictsWhole(states[i], steps[i]) {
      forall k | 0 <= k <= |steps|
        ensures Transparent(states, steps, k)
      {
        TransparentUntil(states, steps, numFrames, k);
      }
    }
  }

  /**** A lost write ****/

  /** Storing into a frame and then clearing its dirty bit is right exactly when the disk already holds the bytes. */
  lemma {:induction false} StoreThenClear(pool: P.State, p: PageId, f: FrameId, data: PageData)
    requires P.TableOk(pool.frames, pool.table) && P.CleanOk(pool) && p in pool.table && pool.table[p] == f
    ensures P.CleanOk(P.SetDirty(P.Store(pool, f, data), f, false)) <==> data == P.Get(pool.disk, p)
  {
    P.TableKeep(pool.frames, pool.table, f, P.Store(pool, f, data).frames[f]);
    P.StoreContent(pool, p, f, data);
    P.ClearContent(P.Store(pool, f, data), p, f);
  }

  /**
   The last guard write inside the window of an unsafe flush: the flush then marks the frame clean, and
   clean frames still agree with the disk exactly when the write was calm.
   */
  lemma {:induction false} NoisyWriteBreaksClean(s: System, g: GuardId, data: PageData)
    requires Inv(s) && CanGuardStore(s, g, data) && InWindow(s, s.guards[g].frame)
    ensures CanFlushDone(DoGuardStore(s, g, data))
    ensures P.CleanOk(DoFlushDone(DoGuardStore(s, g, data)).pool) <==> Calm(s, GuardStore(g, data))
  {
    GuardFacts(s, g);
    hide P.FreeOk, P.ArcOk, P.Agrees, P.TableOk, P.CleanOk, Coherent, Mapped, PinsOk, LatchesOk, FlushedOk, WorkOk, P.Logical, P.Get;
    var gd := s.guards[g];
    StoreThenClear(s.pool, gd.page, gd.frame, data);
  }

  /** A clean frame that differs from the disk loses its page's content when it is evicted. */
  lemma {:induction false} EvictionOfStaleFrame(pool: P.State, f: FrameId, was: PageId, p: PageId, t: A.AccessType)
    requires P.TableOk(pool.frames, pool.table) && f < |pool.frames| && pool.frames[f].page == Some(was)
    requires !pool.frames[f].dirty && p !in pool.table
    ensures P.Logical(P.Install(P.WriteBack(pool, f), f, p, t), was) == P.Get(pool.disk, was)
    ensures P.Logical(pool, was) == pool.frames[f].data
  {
    hide P.Touch, P.Get;
  }

  /** The single page of a one-frame pool, held by one writer. */
  ghost predicate SinglePage(s: System, work: Work, phase: Phase, dirty: bool, data: PageData, disk: PageData) {
    && s.work == work && s.guards == map[0 := Guard(0, 0, Writing, phase)]
    && s.pool.frames == [P.Frame(Some(0), 1, dirty, data)] && s.pool.table == map[0 := 0]
    && P.Get(s.pool.disk, 0) == disk && P.Get(s.content, 0) == data
  }

  lemma {:induction false} FetchOnly() returns (states: seq<System>, steps: seq<Step>)
    ensures Run(states, steps) && |steps| == 3 && Init(states[0], 1)
    ensures SinglePage(states[3], Idle, Pending, false, P.ZeroPage(), P.ZeroPage())
  {
    hide P.Touch, P.ZeroPage, A.WellFormed;
    var s0 := System(P.Initial(1, map[]), Idle, map[], map[]);
    assert A.WellFormed(s0.pool.arc) by {
      P.InitialInv(1, map[]);
    }
    assert s0.pool.free[0] == 0;
    var s1 := DoFetchTake(s0, 0, 0, Writing, A.Unknown);
    var s2 := DoFetchWriteBack(s1);
    var s3 := DoFetchInstall(s2);
    states, steps := [s0, s1, s2, s3], [FetchTake(0, 0, Writing, A.Unknown), FetchWriteBack, FetchInstall];
  }

  lemma {:induction false} Then(states: seq<System>, steps: seq<Step>, step: Step) returns (states': seq<System>, steps': seq<Step>)
    requires Run(states, steps) && |states| == |steps| + 1 && Enabled(states[|steps|], step)
    ensures states' == states + [Apply(states[|steps|], step)] && steps' == steps + [step] && Run(states', steps')
  {
    states', steps' := states + [Apply(states[|steps|], step)], steps + [step];
    hide Enabled, Apply;
  }

  lemma {:induction false} WriteOnce(s: System, d: PageData, disk: PageData, work: Work, dirty: bool, was: PageData)
    requires SinglePage(s, work, Latched, dirty, was, disk)
    ensures Enabled(s, GuardStore(0, d)) && SinglePage(Apply(s, GuardStore(0, d)), work, Latched, true, d, disk)
  {
  }

  lemma {:induction false} LatchOnce(s: System, d: PageData, disk: PageData)
    requires SinglePage(s, Idle, Pending, false, d, disk)
    ensures Enabled(s, GuardLatch(0)) && SinglePage(Apply(s, GuardLatch(0)), Idle, Latched, true, d, disk)
  {
    assert Unlatched(s, 0);
  }

  lemma {:induction false} FlushOnce(s: System, d: PageData, disk: PageData) returns (s1: System, s2: System, s3: System)
    requires SinglePage(s, Idle, Latched, true, d, disk)
    ensures Enabled(s, FlushBegin({0}, false)) && s1 == Apply(s, FlushBegin({0}, false))
    ensures Enabled(s1, FlushNext(0)) && s2 == Apply(s1, FlushNext(0))
    ensures Enabled(s2, FlushWrite) && s3 == Apply(s2, FlushWrite)
    ensures SinglePage(s3, Flushing({0}, Some(Cursor(0, 0, true)), false), Latched, true, d, d)
  {
    s1 := DoFlushBegin(s, {0}, false);
    s2 := DoFlushNext(s1, 0);
    s3 := DoFlushWrite(s2);
  }

  lemma {:induction false} ClearOnce(s: System, d: PageData, disk: PageData)
    requires SinglePage(s, Flushing({0}, Some(Cursor(0, 0, true)), false), Latched, true, d, disk)
    ensures Enabled(s, FlushDone) && SinglePage(Apply(s, FlushDone), Flushing({}, None, false), Latched, false, d, disk)
  {
  }

  lemma {:induction false} EndOnce(s: System, d: PageData, disk: PageData)
    requires SinglePage(s, Flushing({}, None, false), Latched, false, d, disk)
    ensures Enabled(s, FlushEnd) && SinglePage(Apply(s, FlushEnd), Idle, Latched, false, d, disk)
  {
  }

  lemma {:induction false} ReleaseOnce(s: System, d: PageData, disk: PageData)
    requires SinglePage(s, Idle, Latched, false, d, disk)
    ensures Enabled(s, GuardRelease(0)) && SinglePage(Apply(s, GuardRelease(0)), Idle, Released, false, d, disk)
  {
  }

  lemma {:induction false} UnpinOnce(s: System, d: PageData, disk: PageData)
    requires SinglePage(s, Idle, Released, false, d, disk)
    ensures Enabled(s, GuardUnpin(0)) && Unheld(Apply(s, GuardUnpin(0)), d, disk)
  {
    hide A.SetEvictable, P.Get;
    assert DoGuardUnpin(s, 0).guards == map[];
  }

  /** The page is in its frame, clean and held by nobody. */
  ghost predicate Unheld(s: System, d: PageData, disk: PageData) {
    && s.work == Idle && s.guards == map[] && s.pool.frames == [P.Frame(Some(0), 0, false, d)] && s.pool.table == map[0 := 0]
    && P.Get(s.pool.disk, 0) == disk && P.Get(s.content, 0) == d
  }

  /** A fetch of another page takes the frame, as it is clean, without writing it out. */
  lemma {:induction false} TakeOver(s: System, d: PageData, disk: PageData) returns (s1: System, s2: System, s3: System)
    requires Unheld(s, d, disk) && Structured(s)
    ensures Enabled(s, FetchTake(0, 1, Reading, A.Unknown)) && s1 == Apply(s, FetchTake(0, 1, Reading, A.Unknown))
    ensures Enabled(s1, FetchWriteBack) && s2 == Apply(s1, FetchWriteBack)
    ensures Enabled(s2, FetchInstall) && s3 == Apply(s2, FetchInstall)
    ensures P.Get(s3.content, 0) == d && P.Logical(s3.pool, 0) == disk
  {
    hide Structured, P.Get, P.Logical;
    s1 := TakeClean(s, d, disk);
    s2 := DoFetchWriteBack(s1);
    s3 := DoFetchInstall(s2);
    hide P.Install, P.WriteBack;
    EvictionOfStaleFrame(s1.pool, 0, 0, 1, A.Unknown);
  }

  lemma {:induction false} TakeClean(s: System, d: PageData, disk: PageData) returns (s1: System)
    requires Unheld(s, d, disk) && Structured(s)
    ensures CanFetchTake(s, 0, 1, Reading, A.Unknown) && s1 == DoFetchTake(s, 0, 1, Reading, A.Unknown)
    ensures s1.work == Fetching(0, 1, Reading, A.Unknown, 0, false) && s1.content == s.content
    ensures s1.pool.frames == s.pool.frames && s1.pool.table == s.pool.table && s1.pool.disk == s.pool.disk
  {
    ReachableAgrees(s);
    hide Structured, A.Evict, A.Victim, A.WellFormed, P.Get, P.TableOk, P.FreeOk, P.Agrees;
    P.ChoiceExists(s.pool);
    assert s.pool.frames[0].pins == 0;
    ChoiceUnpinned(s.pool, None);
    s1 := DoFetchTake(s, 0, 1, Reading, A.Unknown);
  }

  /** The first ten steps: the page is written as `a`, flushed unsafely, and written as `b` before the flush clears the bit. */
  lemma {:induction false} FlushRace(a: PageData, b: PageData) returns (states: seq<System>, steps: seq<Step>)
    ensures Run(states, steps) && Init(states[0], 1) && |steps| == 10
    ensures SinglePage(states[10], Flushing({}, None, false), Latched, false, b, a)
  {
    hide Enabled, Apply, Init, P.Get, P.ZeroPage, SinglePage, Run;
    states, steps := FetchOnly();
    RunLength(states, steps);
    LatchOnce(states[3], P.ZeroPage(), P.ZeroPage());
    states, steps := Then(states, steps, GuardLatch(0));
    WriteOnce(states[4], a, P.ZeroPage(), Idle, true, P.ZeroPage());
    states, steps := Then(states, steps, GuardStore(0, a));
    var s6, s7, s8 := FlushOnce(states[5], a, P.ZeroPage());
    states, steps := Then(states, steps, FlushBegin({0}, false));
    states, steps := Then(states, steps, FlushNext(0));
    states, steps := Then(states, steps, FlushWrite);
    WriteOnce(states[8], b, a, Flushing({0}, Some(Cursor(0, 0, true)), false), true, a);
    states, steps := Then(states, steps, GuardStore(0, b));
    ClearOnce(states[9], b, a);
    states, steps := Then(states, steps, FlushDone);
  }

  lemma {:induction false} RunLength(states: seq<System>, steps: seq<Step>)
    requires Run(states, steps)
    ensures |states| == |steps| + 1
  {
  }

  /**
   The promise about unsafe flushes is needed: one page, written as `a`, flushed unsafely, written as `b`
   before the flush clears the bit, released and evicted, holds `a` again, where the plain map holds `b`.
   */
  lemma {:induction false} UnsafeFlushLosesWrite(a: PageData, b: PageData) returns (states: seq<System>, steps: seq<Step>)
    ensures Run(states, steps) && Init(states[0], 1) && |steps| == 16
    ensures P.Logical(states[16].pool, 0) == a && P.Get(PlainMap(states, steps, 16), 0) == b
  {
    hide Enabled, Apply, Init, P.Get, SinglePage, Unheld, Run, P.Logical, PlainMap, Structured;
    states, steps := FlushRace(a, b);
    RunLength(states, steps);
    EndOnce(states[10], b, a);
    states, steps := Then(states, steps, FlushEnd);
    ReleaseOnce(states[11], b, a);
    states, steps := Then(states, steps, GuardRelease(0));
    UnpinOnce(states[12], b, a);
    states, steps := Then(states, steps, GuardUnpin(0));
    RunStructured(states, steps, 1, 13);
    var s14, s15, s16 := TakeOver(states[13], b, a);
    states, steps := Then(states, steps, FetchTake(0, 1, Reading, A.Unknown));
    states, steps := Then(states, steps, FetchWriteBack);
    states, steps := Then(states, steps, FetchInstall);
    PlainMapIsContent(states, steps, 1, 16);
  }
}
