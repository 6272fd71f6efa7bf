/** Whole runs of the buffer pool protocol: what every interleaving keeps. */
module PoolRuns {
  import opened Sequences
  import opened PoolProtocol
  import A = Arc
  import P = Pool

  /** Every step keeps the invariant. */
  lemma {:induction false} StepInv(s: System, step: Step)
    requires Inv(s) && Enabled(s, step) && Quiet(s, step)
    ensures Inv(Apply(s, step))
  {
    hide Inv, CanFetchHit, CanFetchFail, CanFetchTake, CanFetchWriteBack, CanFetchInstall, CanGuardLatch, CanGuardStore;
    hide CanGuardFlush, CanGuardFlushDone, CanGuardRelease, CanGuardUnpin, CanFlushBegin, CanFlushNext, CanFlushWrite;
    hide CanFlushDone, CanFlushEnd, CanDeletePage;
    hide DoFetchHit, DoFetchTake, DoFetchWriteBack, DoFetchInstall, DoGuardLatch, DoGuardStore, DoGuardFlush;
    hide DoGuardFlushDone, DoGuardRelease, DoGuardUnpin, DoFlushBegin, DoFlushNext, DoFlushWrite, DoFlushDone;
    hide DoFlushEnd, DoDeletePage;
    match step
    case FetchHit(g, p, mode, t) => FetchHitInv(s, g, p, mode, t);
    case FetchFail(p) =>
    case FetchTake(g, p, mode, t) => FetchTakeInv(s, g, p, mode, t);
    case FetchWriteBack => FetchWriteBackInv(s);
    case FetchInstall => FetchInstallInv(s);
    case GuardLatch(g) => GuardLatchInv(s, g);
    case GuardStore(g, data) => GuardStoreInv(s, g, data);
    case GuardFlush(g) => GuardFlushInv(s, g);
    case GuardFlushDone(g) => GuardFlushDoneInv(s, g);
    case GuardRelease(g) => GuardReleaseInv(s, g);
    case GuardUnpin(g) => GuardUnpinInv(s, g);
    case FlushBegin(todo, safe) => FlushBeginInv(s, todo, safe);
    case FlushNext(p) => FlushNextInv(s, p);
    case FlushWrite => FlushWriteInv(s);
    case FlushDone => FlushDoneInv(s);
    case FlushEnd => FlushEndInv(s);
    case DeletePage(p, left) => DeletePageInv(s, p, left);
  }

  /** states[i] steps to states[i + 1] by steps[i]. */
  ghost predicate Run(states: seq<System>, steps: seq<Step>) {
    && |states| == |steps| + 1
    && forall i :: 0 <= i < |steps| ==> Enabled(states[i], steps[i]) && states[i + 1] == Apply(states[i], steps[i])
  }

  /** At each unsafe FlushDone among the first k steps the disk holds the frame's data. */
  ghost predicate QuietUntil(states: seq<System>, steps: seq<Step>, k: nat)
    requires Run(states, steps) && k <= |steps|
  {
    forall i :: 0 <= i < k ==> Quiet(states[i], steps[i])
  }

  ghost predicate QuietRun(states: seq<System>, steps: seq<Step>)
    requires Run(states, steps)
  {
    QuietUntil(states, steps, |steps|)
  }

  lemma {:induction false} RunInv(states: seq<System>, steps: seq<Step>, numFrames: nat, k: nat)
    requires Run(states, steps) && Init(states[0], numFrames) && k <= |steps| && QuietUntil(states, steps, k)
    ensures Inv(states[k])
  {
    if k == 0 {
      InitInv(states[0], numFrames);
    } else {
      RunInv(states, steps, numFrames, k - 1);
      hide Inv, Init, Enabled, Apply, Quiet;
      StepInv(states[k - 1], steps[k - 1]);
    }
  }

  /** The plain map: what one step does to the page contents. */
  ghost function Written(content: map<PageId, PageData>, s: System, step: Step): map<PageId, PageData>
    requires Enabled(s, step)
  {
    match step
    case GuardStore(g, data) => content[s.guards[g].page := data]
    case DeletePage(p, left) => content[p := left]
    case _ => content
  }

  ghost function PlainMap(states: seq<System>, steps: seq<Step>, k: nat): map<PageId, PageData>
    requires Run(states, steps) && k <= |steps|
  {
    if k == 0 then states[0].pool.disk else Written(PlainMap(states, steps, k - 1), states[k - 1], steps[k - 1])
  }

  lemma {:induction false} WrittenIsContent(s: System, step: Step)
    requires Enabled(s, step)
    ensures Apply(s, step).content == Written(s.content, s, step)
  {
    hide P.Hit, P.Take, P.WriteBack, P.Install, P.Unpin, P.Delete, P.FlushWrite, P.SetDirty, P.Store, P.Choice, Unlatched, Shareable;
  }

  lemma {:induction false} PlainMapIsContent(states: seq<System>, steps: seq<Step>, numFrames: nat, k: nat)
    requires Run(states, steps) && Init(states[0], numFrames) && k <= |steps|
    ensures states[k].content == PlainMap(states, steps, k)
  {
    if k == 0 {
    } else {
      PlainMapIsContent(states, steps, numFrames, k - 1);
      hide Init, Enabled, Apply, Written;
      WrittenIsContent(states[k - 1], steps[k - 1]);
    }
  }

  /**
   Cache transparency: at every point of every quiet run, each page's content (its frame if resident,
   else the disk) is what a plain map updated only by guard writes and deletions holds, and a
   resident clean page is on disk as it is in its frame.
   */
  lemma {:induction false} CacheIsPlainMap(states: seq<System>, steps: seq<Step>, numFrames: nat, k: nat, p: PageId)
    requires Run(states, steps) && QuietRun(states, steps) && Init(states[0], numFrames) && k <= |steps|
    ensures P.Logical(states[k].pool, p) == P.Get(PlainMap(states, steps, k), p)
    ensures P.CleanOk(states[k].pool)
  {
    RunInv(states, steps, numFrames, k);
    PlainMapIsContent(states, steps, numFrames, k);
    hide Run, QuietRun, Init;
  }

  /**** Safe flushes need no promise about writers ****/

  ghost predicate SafeSteps(steps: seq<Step>) {
    forall i :: 0 <= i < |steps| && steps[i].FlushBegin? ==> steps[i].safe
  }

  ghost predicate SafeWork(s: System) {
    s.work.Flushing? ==> s.work.safe
  }

  /**
   The shared page latch of a safe flush keeps writers off its frame, so that what it has written out is
   still what the frame holds.
   */
  lemma {:induction false} LatchExcludesWriters(s: System, g: GuardId, data: PageData)
    requires Inv(s) && s.work.Flushing? && s.work.safe && s.work.cursor.Some?
    ensures
      var c := s.work.cursor.value;
      && c.frame < |s.pool.frames|
      && (CanGuardStore(s, g, data) ==> s.guards[g].frame != c.frame)
      && (c.written ==> P.Get(s.pool.disk, c.page) == s.pool.frames[c.frame].data)
  {
    hide P.Inv, P.CleanOk, Coherent, Mapped, PinsOk, LatchesOk, FlushedOk;
    assert CursorOk(s, s.work.cursor.value, true);
  }

  lemma {:induction false} SafeStep(s: System, step: Step)
    requires Enabled(s, step) && SafeWork(s) && (step.FlushBegin? ==> step.safe)
    ensures SafeWork(Apply(s, step))
  {
    hide P.Hit, P.Take, P.WriteBack, P.Install, P.Unpin, P.Delete, P.FlushWrite, P.SetDirty, P.Store, P.Choice, Unlatched, Shareable;
  }

  lemma {:induction false} SafeIsQuiet(s: System, step: Step)
    requires SafeWork(s)
    ensures Quiet(s, step)
  {
  }

  lemma {:induction false} SafeRunIsQuiet(states: seq<System>, steps: seq<Step>, numFrames: nat, k: nat)
    requires Run(states, steps) && SafeSteps(steps) && Init(states[0], numFrames) && k <= |steps|
    ensures QuietUntil(states, steps, k) && SafeWork(states[k])
  {
    if k == 0 {
    } else {
      SafeRunIsQuiet(states, steps, numFrames, k - 1);
      hide Init, Enabled, Apply, Quiet, SafeWork;
      SafeIsQuiet(states[k - 1], steps[k - 1]);
      SafeStep(states[k - 1], steps[k - 1]);
    }
  }

  /** Cache transparency for every run whose flushes are the safe ones, whatever its writers do. */
  lemma {:induction false} SafeCacheIsPlainMap(states: seq<System>, steps: seq<Step>, numFrames: nat, k: nat, p: PageId)
    requires Run(states, steps) && SafeSteps(steps) && Init(states[0], numFrames) && k <= |steps|
    ensures P.Logical(states[k].pool, p) == P.Get(PlainMap(states, steps, k), p)
    ensures P.CleanOk(states[k].pool)
  {
    hide Init, QuietUntil, P.CleanOk;
    SafeRunIsQuiet(states, steps, numFrames, |steps|);
    CacheIsPlainMap(states, steps, numFrames, k, p);
  }

  /**** Guards ****/

  /** A pinned page is kept: mapped to its guard's frame, never the next victim, never deletable, and refetched as a hit. */
  lemma {:induction false} PinnedIsKept(s: System, g: GuardId)
    requires Inv(s) && g in s.guards
    ensures
      var gd := s.guards[g];
      && gd.page in s.pool.table && s.pool.table[gd.page] == gd.frame
      && P.Choice(s.pool) != Some(gd.frame) && !P.CanDelete(s.pool, gd.page)
      && (s.work.Fetching? ==> s.work.f != gd.frame)
  {
    GuardFacts(s, g);
    if s.work.Fetching? {
      TakenFrame(s);
    }
    if P.Choice(s.pool) == Some(s.guards[g].frame) {
      ChoiceUnpinned(s.pool, Taken(s.work));
    }
    hide PinsOk, Coherent, P.CleanOk, Mapped, LatchesOk, FlushedOk, P.TableOk, P.FreeOk, P.ArcOk, P.Agrees, WorkOk;
  }

  lemma {:induction false} ChoiceUnpinned(pool: P.State, taken: Option<FrameId>)
    requires P.Inv(pool, taken) && P.Choice(pool).Some?
    ensures P.Choice(pool).value < |pool.frames| && pool.frames[P.Choice(pool).value].pins == 0
  {
    if pool.free == [] {
      A.EvictEffect(pool.arc, P.Choice(pool).value);
    }
    hide A.Victim, A.WellFormed, A.Exclusive;
  }

  /** A guard that holds its page latch reads what the plain map holds, and a writer is alone on its page. */
  lemma {:induction false} LatchedReads(s: System, g: GuardId, h: GuardId)
    requires Inv(s) && g in s.guards && Held(s.guards[g])
    ensures s.guards[g].frame < |s.pool.frames|
    ensures s.pool.frames[s.guards[g].frame].data == P.Get(s.content, s.guards[g].page)
    ensures h in s.guards && h != g && s.guards[h].page == s.guards[g].page && Held(s.guards[h]) ==>
      s.guards[g].mode.Reading? && s.guards[h].mode.Reading?
  {
    GuardFacts(s, g);
    assert P.Logical(s.pool, s.guards[g].page) == P.Get(s.content, s.guards[g].page);
    if h in s.guards && h != g && s.guards[h].page == s.guards[g].page && Held(s.guards[h]) {
      GuardFacts(s, h);
      assert Conflict(s.guards[g], s.guards[h]) && Conflict(s.guards[h], s.guards[g]);
    }
    hide P.Inv, P.CleanOk, PinsOk, FlushedOk, WorkOk;
  }

  /** If every frame is pinned there is a guard for each. */
  lemma {:induction false} GuardPerFrame(guards: map<GuardId, Guard>, frames: seq<P.Frame>, n: nat)
    requires PinsOk(guards, frames) && n <= |frames|
    requires forall f: FrameId :: 0 <= f < |frames| ==> frames[f].pins > 0
    ensures |guards| >= n
    ensures exists some: set<GuardId> :: SomeGuards(guards, some, n)
  {
    if n == 0 {
      assert SomeGuards(guards, {}, 0);
    } else {
      GuardPerFrame(guards, frames, n - 1);
      var rest: set<GuardId> :| SomeGuards(guards, rest, n - 1);
      assert On(guards, n - 1) != {};
      var g :| g in On(guards, n - 1);
      assert SomeGuards(guards, rest + {g}, n);
      SubsetSize(rest + {g}, guards.Keys);
    }
  }

  ghost predicate SomeGuards(guards: map<GuardId, Guard>, some: set<GuardId>, n: nat) {
    |some| == n && some <= guards.Keys && forall g :: g in some ==> guards[g].frame < n
  }

  /**** Unsafe flushes ****/

  /** A noisy step leaves a clean frame that differs from the disk. */
  lemma {:induction false} NoiseBreaksClean(s: System, step: Step)
    requires Inv(s) && Enabled(s, step) && !Quiet(s, step)
    ensures !P.CleanOk(Apply(s, step).pool)
  {
    hide P.FreeOk, P.ArcOk, P.Agrees, P.TableOk, P.CleanOk, Coherent, Mapped, PinsOk, LatchesOk, FlushedOk, P.Logical, P.Get;
    assert CursorOk(s, s.work.cursor.value, s.work.safe);
    P.ClearContent(s.pool, s.work.cursor.value.page, s.work.cursor.value.frame);
  }

  lemma {:induction false} CleanThenQuiet(states: seq<System>, steps: seq<Step>, numFrames: nat, k: nat)
    requires Run(states, steps) && Init(states[0], numFrames) && k <= |steps|
    requires forall i :: 0 <= i <= k ==> P.CleanOk(states[i].pool)
    ensures QuietUntil(states, steps, k)
  {
    hide Init, P.CleanOk, Quiet, Enabled, Apply;
    if k > 0 {
      CleanThenQuiet(states, steps, numFrames, k - 1);
      RunInv(states, steps, numFrames, k - 1);
      assert P.CleanOk(states[k].pool);
      if !Quiet(states[k - 1], steps[k - 1]) {
        NoiseBreaksClean(states[k - 1], steps[k - 1]);
      }
    }
  }

  /**
   Every run: clean frames agree with the disk at all of its states exactly when at each unsafe FlushDone
   the disk holds the frame's data.
   */
  lemma {:induction false} CleanIffQuiet(states: seq<System>, steps: seq<Step>, numFrames: nat)
    requires Run(states, steps) && Init(states[0], numFrames)
    ensures (forall k :: 0 <= k <= |steps| ==> P.CleanOk(states[k].pool)) <==> QuietRun(states, steps)
  {
    hide Init, P.CleanOk, Quiet, Enabled, Apply;
    if QuietRun(states, steps) {
      forall k | 0 <= k <= |steps|
        ensures P.CleanOk(states[k].pool)
      {
        CacheIsPlainMap(states, steps, numFrames, k, 0);
      }
    }
    if forall k :: 0 <= k <= |steps| ==> P.CleanOk(states[k].pool) {
      CleanThenQuiet(states, steps, numFrames, |steps|);
    }
  }

  /** An unsafe flush has written the frame out but not yet cleared its bit. */
  ghost predicate InWindow(s: System, f: FrameId) {
    && s.work.Flushing? && !s.work.safe && s.work.cursor.Some?
    && s.work.cursor.value.written && s.work.cursor.value.frame == f
  }

  /** What writers can promise: no new bytes in a frame within that window. */
  ghost predicate Calm(s: System, step: Step) {
    step.GuardStore? && step.g in s.guards && InWindow(s, s.guards[step.g].frame) ==>
      step.data == P.Get(s.pool.disk, s.guards[step.g].page)
  }

  /** In the window the disk holds the frame's data. */
  ghost predicate WindowOk(s: System) {
    s.work.Flushing? && s.work.cursor.Some? && s.work.cursor.value.written && s.work.cursor.value.frame < |s.pool.frames| ==>
      P.Get(s.pool.disk, s.work.cursor.value.page) == s.pool.frames[s.work.cursor.value.frame].data
  }

  lemma {:induction false} CalmStore(s: System, g: GuardId, data: PageData)
    requires Inv(s) && CanGuardStore(s, g, data) && WindowOk(s) && Calm(s, GuardStore(g, data))
    ensures WindowOk(DoGuardStore(s, g, data))
  {
    GuardFacts(s, g);
    if s.work.Flushing? && s.work.cursor.Some? {
      var c := s.work.cursor.value;
      assert CursorOk(s, c, s.work.safe);
      assert s.pool.frames[c.frame].page == Some(c.page);
      if s.work.safe {
        LatchExcludesWriters(s, g, data);
      }
    }
    hide P.FreeOk, P.ArcOk, P.Agrees, P.CleanOk, Coherent, Mapped, PinsOk, LatchesOk, FlushedOk, P.Get, P.TableOk;
  }

  lemma {:induction false} WindowKeep(s: System, s': System)
    requires WindowOk(s) && s'.work == s.work && s'.pool.disk == s.pool.disk && |s'.pool.frames| == |s.pool.frames|
    requires forall f: FrameId :: f < |s.pool.frames| ==> s'.pool.frames[f].data == s.pool.frames[f].data
    ensures WindowOk(s')
  {
    hide P.Get;
  }

  lemma {:induction false} CalmFlush(s: System, g: GuardId)
    requires Inv(s) && CanGuardFlush(s, g) && WindowOk(s)
    ensures WindowOk(DoGuardFlush(s, g))
  {
    GuardFacts(s, g);
    FlushBeside(s, s.guards[g].page, s.guards[g].frame);
    hide Inv;
  }

  lemma {:induction false} FlushBeside(s: System, p: PageId, f: FrameId)
    requires WorkOk(s) && WindowOk(s) && p in s.pool.table && s.pool.table[p] == f && f < |s.pool.frames|
    ensures WindowOk(s.(pool := P.FlushWrite(s.pool, p, f)))
  {
    hide Shareable, P.ZeroPage;
  }

  /** Guards latch, flush and release next to the window without disturbing it. */
  lemma {:induction false} CalmGuard(s: System, step: Step)
    requires Inv(s) && Enabled(s, step) && WindowOk(s)
    requires step.GuardLatch? || step.GuardFlush? || step.GuardFlushDone? || step.GuardRelease?
    ensures WindowOk(Apply(s, step))
  {
    hide Inv, WindowOk, Unlatched, Shareable, P.FlushWrite;
    if step.GuardFlush? {
      CalmFlush(s, step.g);
    } else {
      WindowKeep(s, Apply(s, step));
    }
  }

  lemma {:induction false} CalmWrite(s: System)
    requires CanFlushWrite(s)
    ensures WindowOk(DoFlushWrite(s))
  {
  }

  /** No other step is taken within the window. */
  lemma {:induction false} OutsideWindow(s: System, step: Step)
    requires Enabled(s, step) && !step.GuardLatch? && !step.GuardFlush? && !step.GuardFlushDone? && !step.GuardRelease? && !step.GuardStore?
    requires !step.FlushWrite?
    ensures
      var work := Apply(s, step).work;
      !(work.Flushing? && work.cursor.Some? && work.cursor.value.written)
  {
    hide P.Hit, P.Take, P.WriteBack, P.Install, P.Unpin, P.Delete, P.SetDirty, P.Choice, P.CanDelete, Unlatched, Shareable, A.WellFormed;
  }

  lemma {:induction false} CalmStep(s: System, step: Step)
    requires Inv(s) && Enabled(s, step) && WindowOk(s) && Calm(s, step)
    ensures WindowOk(Apply(s, step))
  {
    hide Inv, P.Get, P.SetDirty, P.Hit, P.Take, P.WriteBack, P.Install, P.Unpin, P.Delete, P.Choice, P.CanDelete;
    if step.GuardStore? {
      CalmStore(s, step.g, step.data);
    } else if step.GuardLatch? || step.GuardFlush? || step.GuardFlushDone? || step.GuardRelease? {
      CalmGuard(s, step);
    } else if step.FlushWrite? {
      CalmWrite(s);
    } else {
      hide Apply, Enabled;
      OutsideWindow(s, step);
    }
  }

  lemma {:induction false} WindowIsQuiet(s: System, step: Step)
    requires WindowOk(s)
    ensures Quiet(s, step)
  {
  }

  lemma {:induction false} InitWindow(s: System, numFrames: nat)
    requires Init(s, numFrames)
    ensures WindowOk(s)
  {
  }

  lemma {:induction false} CalmRunInv(states: seq<System>, steps: seq<Step>, numFrames: nat, k: nat)
    requires Run(states, steps) && Init(states[0], numFrames) && k <= |steps|
    requires forall i :: 0 <= i < |steps| ==> Calm(states[i], steps[i])
    ensures Inv(states[k]) && WindowOk(states[k]) && QuietUntil(states, steps, k)
  {
    hide Inv, Init, Enabled, Apply, Quiet, Calm, WindowOk;
    if k == 0 {
      InitInv(states[0], numFrames);
      InitWindow(states[0], numFrames);
    } else {
      CalmRunInv(states, steps, numFrames, k - 1);
      WindowIsQuiet(states[k - 1], steps[k - 1]);
      StepInv(states[k - 1], steps[k - 1]);
      CalmStep(states[k - 1], steps[k - 1]);
    }
  }

  /** A run is quiet if no guard writes new bytes into a frame between the disk write and the bit clearing of an unsafe flush. */
  lemma {:induction false} CalmIsQuiet(states: seq<System>, steps: seq<Step>, numFrames: nat)
    requires Run(states, steps) && Init(states[0], numFrames)
    requires forall i :: 0 <= i < |steps| ==> Calm(states[i], steps[i])
    ensures QuietRun(states, steps)
  {
    CalmRunInv(states, steps, numFrames, |steps|);
  }
}
