/**
 Pins, mappings and failures do not depend on page contents: every run, however its writers race with
 Unsafe flushes, has the structure of a run over blank pages, where no write is ever lost.
 */
module PoolErasure {
  import opened Sequences
  import opened PoolProtocol
  import opened PoolRuns
  import A = Arc
  import P = Pool

  function Blank(fr: P.Frame): P.Frame {
    fr.(data := P.ZeroPage())
  }

  ghost predicate FramesMatch(frames: seq<P.Frame>, blank: seq<P.Frame>) {
    |blank| == |frames| && forall f: FrameId :: f < |frames| ==> blank[f] == Blank(frames[f])
  }

  ghost predicate DiskBlank(disk: map<PageId, PageData>) {
    forall p :: P.Get(disk, p) == P.ZeroPage()
  }

  /** e is s with every page blank. */
  ghost predicate Erased(s: System, e: System) {
    && e.work == s.work && e.guards == s.guards && e.pool.table == s.pool.table && e.pool.free == s.pool.free
    && e.pool.arc == s.pool.arc && FramesMatch(s.pool.frames, e.pool.frames) && DiskBlank(e.pool.disk)
  }

  function BlankStep(step: Step): Step {
    match step
    case GuardStore(g, _) => GuardStore(g, P.ZeroPage())
    case DeletePage(p, _) => DeletePage(p, P.ZeroPage())
    case _ => step
  }

  lemma {:induction false} OneFrame(frames: seq<P.Frame>, blank: seq<P.Frame>, f: FrameId, fr: P.Frame, bl: P.Frame)
    requires FramesMatch(frames, blank) && f < |frames| && bl == Blank(fr)
    ensures FramesMatch(frames[f := fr], blank[f := bl])
  {
  }

  lemma {:induction false} OnePage(disk: map<PageId, PageData>, p: PageId, d: PageData)
    requires DiskBlank(disk) && d == P.ZeroPage()
    ensures DiskBlank(disk[p := d])
  {
    hide P.ZeroPage;
    var disk' := disk[p := d];
    forall q
      ensures P.Get(disk', q) == P.ZeroPage()
    {
      assert P.Get(disk, q) == P.ZeroPage();
    }
  }

  lemma {:induction false} FetchHitErased(s: System, e: System, g: GuardId, p: PageId, mode: Mode, t: A.AccessType)
    requires Erased(s, e) && CanFetchHit(s, g, p, mode, t)
    ensures CanFetchHit(e, g, p, mode, t) && Erased(DoFetchHit(s, g, p, mode, t), DoFetchHit(e, g, p, mode, t))
  {
    hide P.Touch, P.ZeroPage, DiskBlank;
    var f := s.pool.table[p];
    OneFrame(s.pool.frames, e.pool.frames, f, P.Hit(s.pool, p, t).frames[f], P.Hit(e.pool, p, t).frames[f]);
  }

  lemma {:induction false} FetchTakeErased(s: System, e: System, g: GuardId, p: PageId, mode: Mode, t: A.AccessType)
    requires Erased(s, e) && CanFetchTake(s, g, p, mode, t)
    ensures CanFetchTake(e, g, p, mode, t) && Erased(DoFetchTake(s, g, p, mode, t), DoFetchTake(e, g, p, mode, t))
  {
    hide P.ZeroPage, DiskBlank, FramesMatch, A.WellFormed, A.Evict, A.Victim;
  }

  lemma {:induction false} FetchWriteBackErased(s: System, e: System)
    requires Erased(s, e) && CanFetchWriteBack(s)
    ensures CanFetchWriteBack(e) && Erased(DoFetchWriteBack(s), DoFetchWriteBack(e))
  {
    hide P.ZeroPage;
    var f := s.work.f;
    var fr, bl := s.pool.frames[f], e.pool.frames[f];
    OneFrame(s.pool.frames, e.pool.frames, f, fr.(dirty := false), bl.(dirty := false));
    if fr.page.Some? {
      OnePage(e.pool.disk, fr.page.value, bl.data);
    }
    hide FramesMatch, DiskBlank;
  }

  lemma {:induction false} FetchInstallErased(s: System, e: System)
    requires Erased(s, e) && CanFetchInstall(s)
    ensures CanFetchInstall(e) && Erased(DoFetchInstall(s), DoFetchInstall(e))
  {
    hide P.ZeroPage, P.Touch;
    var f, p := s.work.f, s.work.p;
    OneFrame(s.pool.frames, e.pool.frames, f, P.Frame(Some(p), 1, false, P.Get(s.pool.disk, p)), P.Frame(Some(p), 1, false, P.Get(e.pool.disk, p)));
    hide FramesMatch, P.Get;
  }

  lemma {:induction false} SetDirtyErased(s: P.State, e: P.State, f: FrameId, dirty: bool)
    requires FramesMatch(s.frames, e.frames) && f < |s.frames|
    ensures f < |e.frames| && FramesMatch(P.SetDirty(s, f, dirty).frames, P.SetDirty(e, f, dirty).frames)
  {
    hide P.ZeroPage;
    OneFrame(s.frames, e.frames, f, s.frames[f].(dirty := dirty), e.frames[f].(dirty := dirty));
  }

  lemma {:induction false} GuardLatchErased(s: System, e: System, g: GuardId)
    requires Erased(s, e) && CanGuardLatch(s, g)
    ensures CanGuardLatch(e, g) && Erased(DoGuardLatch(s, g), DoGuardLatch(e, g))
  {
    hide P.ZeroPage, DiskBlank;
    SetDirtyErased(s.pool, e.pool, s.guards[g].frame, true);
  }

  lemma {:induction false} GuardStoreErased(s: System, e: System, g: GuardId, data: PageData)
    requires Erased(s, e) && CanGuardStore(s, g, data)
    ensures CanGuardStore(e, g, P.ZeroPage())
    ensures Erased(DoGuardStore(s, g, data), DoGuardStore(e, g, P.ZeroPage()))
  {
    hide P.ZeroPage;
    var f := s.guards[g].frame;
    OneFrame(s.pool.frames, e.pool.frames, f, s.pool.frames[f].(data := data, dirty := true), e.pool.frames[f].(data := P.ZeroPage(), dirty := true));
    hide FramesMatch, P.Get;
  }

  lemma {:induction false} GuardFlushErased(s: System, e: System, g: GuardId)
    requires Erased(s, e) && CanGuardFlush(s, g)
    ensures CanGuardFlush(e, g) && Erased(DoGuardFlush(s, g), DoGuardFlush(e, g))
  {
    hide P.ZeroPage;
    OnePage(e.pool.disk, s.guards[g].page, e.pool.frames[s.guards[g].frame].data);
    hide FramesMatch, DiskBlank;
  }

  lemma {:induction false} GuardFlushDoneErased(s: System, e: System, g: GuardId)
    requires Erased(s, e) && CanGuardFlushDone(s, g)
    ensures CanGuardFlushDone(e, g) && Erased(DoGuardFlushDone(s, g), DoGuardFlushDone(e, g))
  {
    hide P.ZeroPage, DiskBlank;
    SetDirtyErased(s.pool, e.pool, s.guards[g].frame, false);
  }

  lemma {:induction false} GuardUnpinErased(s: System, e: System, g: GuardId)
    requires Erased(s, e) && CanGuardUnpin(s, g)
    ensures CanGuardUnpin(e, g) && Erased(DoGuardUnpin(s, g), DoGuardUnpin(e, g))
  {
    hide P.ZeroPage, DiskBlank;
    var f := s.guards[g].frame;
    OneFrame(s.pool.frames, e.pool.frames, f, P.Unpin(s.pool, f).frames[f], P.Unpin(e.pool, f).frames[f]);
  }

  lemma {:induction false} FlushNextErased(s: System, e: System, p: PageId)
    requires Erased(s, e) && CanFlushNext(s, p)
    ensures CanFlushNext(e, p) && Erased(DoFlushNext(s, p), DoFlushNext(e, p))
  {
    hide P.ZeroPage, DiskBlank;
  }

  lemma {:induction false} FlushWriteErased(s: System, e: System)
    requires Erased(s, e) && CanFlushWrite(s)
    ensures CanFlushWrite(e) && Erased(DoFlushWrite(s), DoFlushWrite(e))
  {
    hide P.ZeroPage;
    OnePage(e.pool.disk, s.work.cursor.value.page, e.pool.frames[s.work.cursor.value.frame].data);
    hide FramesMatch, DiskBlank;
  }

  lemma {:induction false} FlushDoneErased(s: System, e: System)
    requires Erased(s, e) && CanFlushDone(s)
    ensures CanFlushDone(e) && Quiet(e, FlushDone) && Erased(DoFlushDone(s), DoFlushDone(e))
  {
    hide P.ZeroPage, P.Get;
    assert P.Get(e.pool.disk, s.work.cursor.value.page) == P.ZeroPage();
    SetDirtyErased(s.pool, e.pool, s.work.cursor.value.frame, false);
  }

  lemma {:induction false} DeletePageErased(s: System, e: System, p: PageId, left: PageData)
    requires Erased(s, e) && CanDeletePage(s, p, left)
    ensures CanDeletePage(e, p, P.ZeroPage()) && Erased(DoDeletePage(s, p, left), DoDeletePage(e, p, P.ZeroPage()))
  {
    hide P.ZeroPage, A.Forget;
    if p in s.pool.table && s.pool.table[p] < |s.pool.frames| {
      OneFrame(s.pool.frames, e.pool.frames, s.pool.table[p], P.EmptyFrame(), P.EmptyFrame());
    }
    OnePage(e.pool.disk, p, P.ZeroPage());
    hide FramesMatch, DiskBlank;
  }

  /** The steps that touch no page at all. */
  lemma {:induction false} PlainErased(s: System, e: System, step: Step)
    requires Erased(s, e) && Enabled(s, step)
    requires step.FetchFail? || step.GuardRelease? || step.FlushBegin? || step.FlushEnd?
    ensures Enabled(e, step) && Erased(Apply(s, step), Apply(e, step))
  {
    hide P.ZeroPage, DiskBlank, A.Victim;
  }

  /** The erased system can do the blank step, quietly, and stays the erased system. */
  lemma {:induction false} StepErased(s: System, e: System, step: Step)
    requires Erased(s, e) && Enabled(s, step)
    ensures Enabled(e, BlankStep(step)) && Quiet(e, BlankStep(step)) && Erased(Apply(s, step), Apply(e, BlankStep(step)))
  {
    hide Erased, CanFetchHit, CanFetchFail, CanFetchTake, CanFetchWriteBack, CanFetchInstall, CanGuardLatch, CanGuardStore;
    hide CanGuardFlush, CanGuardFlushDone, CanGuardRelease, CanGuardUnpin, CanFlushBegin, CanFlushNext, CanFlushWrite;
    hide CanFlushDone, CanFlushEnd, CanDeletePage, P.ZeroPage;
    hide DoFetchHit, DoFetchFail, DoFetchTake, DoFetchWriteBack, DoFetchInstall, DoGuardLatch, DoGuardStore, DoGuardFlush;
    hide DoGuardFlushDone, DoGuardRelease, DoGuardUnpin, DoFlushBegin, DoFlushNext, DoFlushWrite, DoFlushDone;
    hide DoFlushEnd, DoDeletePage;
    match step
    case FetchHit(g, p, mode, t) => FetchHitErased(s, e, g, p, mode, t);
    case FetchFail(p) => PlainErased(s, e, step);
    case FetchTake(g, p, mode, t) => FetchTakeErased(s, e, g, p, mode, t);
    case FetchWriteBack => FetchWriteBackErased(s, e);
    case FetchInstall => FetchInstallErased(s, e);
    case GuardLatch(g) => GuardLatchErased(s, e, g);
    case GuardStore(g, data) => GuardStoreErased(s, e, g, data);
    case GuardFlush(g) => GuardFlushErased(s, e, g);
    case GuardFlushDone(g) => GuardFlushDoneErased(s, e, g);
    case GuardRelease(g) => PlainErased(s, e, step);
    case GuardUnpin(g) => GuardUnpinErased(s, e, g);
    case FlushBegin(todo, safe) => PlainErased(s, e, step);
    case FlushNext(p) => FlushNextErased(s, e, p);
    case FlushWrite => FlushWriteErased(s, e);
    case FlushDone => FlushDoneErased(s, e);
    case FlushEnd => PlainErased(s, e, step);
    case DeletePage(p, left) => DeletePageErased(s, e, p, left);
  }

  /** s is the structure of a state that keeps the whole invariant. */
  ghost predicate Structured(s: System) {
    exists e :: Erased(s, e) && Inv(e)
  }

  lemma {:induction false} InitStructured(s: System, numFrames: nat)
    requires Init(s, numFrames)
    ensures Structured(s)
  {
    var e := s.(pool := P.Initial(numFrames, map[]), content := map[]);
    InitInv(e, numFrames);
    hide P.ZeroPage, Inv;
    assert Erased(s, e);
  }

  lemma {:induction false} StepStructured(s: System, step: Step)
    requires Structured(s) && Enabled(s, step)
    ensures Structured(Apply(s, step))
  {
    hide Erased, Inv, Enabled, Apply, Quiet;
    var e :| Erased(s, e) && Inv(e);
    StepErased(s, e, step);
    StepInv(e, BlankStep(step));
  }

  /** Every state of every run is structured, with no promise about writers. */
  lemma {:induction false} RunStructured(states: seq<System>, steps: seq<Step>, numFrames: nat, k: nat)
    requires Run(states, steps) && Init(states[0], numFrames) && k <= |steps|
    ensures Structured(states[k])
  {
    if k == 0 {
      InitStructured(states[0], numFrames);
    } else {
      RunStructured(states, steps, numFrames, k - 1);
      hide Structured, Enabled, Apply, Init;
      StepStructured(states[k - 1], steps[k - 1]);
    }
  }

  /** In every reachable state free list, page table, frames and replacer agree, and each frame's pin count is the number of its guards. */
  lemma {:induction false} ReachableAgrees(s: System)
    requires Structured(s)
    ensures P.Inv(s.pool, Taken(s.work)) && PinsOk(s.guards, s.pool.frames) && Mapped(s.guards, s.pool.table) && LatchesOk(s.guards)
  {
    var e :| Erased(s, e) && Inv(e);
    AgreesWithErased(s, e);
    hide P.Inv;
  }

  lemma {:induction false} AgreesWithErased(s: System, e: System)
    requires Erased(s, e) && Inv(e)
    ensures P.Inv(s.pool, Taken(s.work))
  {
    hide P.TableOk, P.FreeOk, P.Agrees, P.ArcOk, P.CleanOk, Coherent, WorkOk, FlushedOk, LatchesOk, PinsOk, Mapped, P.ZeroPage, DiskBlank;
    assert forall f: FrameId :: f < |s.pool.frames| ==>
      e.pool.frames[f].page == s.pool.frames[f].page && e.pool.frames[f].pins == s.pool.frames[f].pins;
    hide FramesMatch;
    TableMatches(s.pool, e.pool);
    FreeMatches(s.pool, e.pool, Taken(s.work));
    ReplacerMatches(s.pool, e.pool, Taken(s.work));
  }

  /** The pools have the same pages and pins in the same frames. */
  ghost predicate SamePages(s: P.State, e: P.State) {
    && |e.frames| == |s.frames| && e.table == s.table && e.free == s.free && e.arc == s.arc
    && forall f: FrameId :: f < |s.frames| ==> e.frames[f].page == s.frames[f].page && e.frames[f].pins == s.frames[f].pins
  }

  lemma {:induction false} TableMatches(s: P.State, e: P.State)
    requires SamePages(s, e) && P.TableOk(e.frames, e.table)
    ensures P.TableOk(s.frames, s.table)
  {
  }

  lemma {:induction false} FreeMatches(s: P.State, e: P.State, taken: Option<FrameId>)
    requires SamePages(s, e) && P.FreeOk(e.frames, e.free, taken)
    ensures P.FreeOk(s.frames, s.free, taken)
  {
  }

  lemma {:induction false} ReplacerMatches(s: P.State, e: P.State, taken: Option<FrameId>)
    requires SamePages(s, e) && P.Agrees(e.frames, e.arc.page, e.arc.evictable, taken)
    ensures P.Agrees(s.frames, s.arc.page, s.arc.evictable, taken)
  {
  }

  /** A pinned page of a structured state is mapped to its frame, not the next victim, and not deletable. */
  lemma {:induction false} StructuredKeepsPinned(s: System, g: GuardId)
    requires Structured(s) && g in s.guards
    ensures
      var gd := s.guards[g];
      && gd.page in s.pool.table && s.pool.table[gd.page] == gd.frame
      && P.Choice(s.pool) != Some(gd.frame) && !P.CanDelete(s.pool, gd.page)
      && (s.work.Fetching? ==> s.work.f != gd.frame)
  {
    hide Inv, P.ZeroPage, DiskBlank, A.Victim;
    var e :| Erased(s, e) && Inv(e);
    PinnedIsKept(e, g);
  }

  /** A step other than its own unpin keeps a guard, its page and its frame. */
  lemma {:induction false} GuardPersists(s: System, step: Step, g: GuardId)
    requires Structured(s) && Enabled(s, step) && g in s.guards && step != GuardUnpin(g)
    ensures
      var guards := Apply(s, step).guards;
      g in guards && guards[g].page == s.guards[g].page && guards[g].frame == s.guards[g].frame
  {
    hide P.Hit, P.Take, P.WriteBack, P.Install, P.Unpin, P.Delete, P.FlushWrite, P.SetDirty, P.Store, P.Choice, Unlatched, Shareable;
    hide P.Inv, P.CleanOk, Coherent, Mapped, PinsOk, LatchesOk, FlushedOk, FramesMatch, DiskBlank;
    if step.FetchInstall? {
      var e :| Erased(s, e) && Inv(e);
      assert s.work.g !in s.guards;
    }
  }

  /**
   From the pin of a fetch until the matching unpin, in every run, the page stays mapped to the same
   frame, Evict never gives that frame, and DeletePage refuses the page. A guard exists from the pin
   on, before its page latch is taken.
   */
  lemma {:induction false} PinnedStaysMapped(states: seq<System>, steps: seq<Step>, numFrames: nat, i: nat, j: nat, g: GuardId)
    requires Run(states, steps) && Init(states[0], numFrames)
    requires i <= j <= |steps| && g in states[i].guards
    requires forall k :: i <= k < j ==> steps[k] != GuardUnpin(g)
    ensures
      var gd := states[i].guards[g];
      && g in states[j].guards && states[j].guards[g].frame == gd.frame && states[j].guards[g].page == gd.page
      && gd.page in states[j].pool.table && states[j].pool.table[gd.page] == gd.frame
      && P.Choice(states[j].pool) != Some(gd.frame) && !P.CanDelete(states[j].pool, gd.page)
    decreases j - i
  {
    RunStructured(states, steps, numFrames, i);
    hide Structured, Init, Enabled, Apply, P.Choice, P.CanDelete;
    if i == j {
      StructuredKeepsPinned(states[i], g);
    } else {
      GuardPersists(states[i], steps[i], g);
      PinnedStaysMapped(states, steps, numFrames, i + 1, j, g);
    }
  }

  /** With the pool latch free, a fetch fails exactly when the page is not resident and every frame is pinned, in every run. */
  lemma {:induction false} FetchFailsIff(states: seq<System>, steps: seq<Step>, numFrames: nat, k: nat, p: PageId)
    requires Run(states, steps) && Init(states[0], numFrames) && k <= |steps| && states[k].work.Idle?
    ensures Enabled(states[k], FetchFail(p)) <==>
      p !in states[k].pool.table && forall f: FrameId :: 0 <= f < |states[k].pool.frames| ==> states[k].pool.frames[f].pins > 0
    ensures Enabled(states[k], FetchFail(p)) ==> |states[k].guards| >= |states[k].pool.frames|
  {
    RunStructured(states, steps, numFrames, k);
    hide Run, Init;
    ReachableAgrees(states[k]);
    hide Structured;
    P.ChoiceExists(states[k].pool);
    if Enabled(states[k], FetchFail(p)) {
      GuardPerFrame(states[k].guards, states[k].pool.frames, |states[k].pool.frames|);
    }
    hide P.Inv, PinsOk, Mapped, LatchesOk, P.Choice;
  }
}
