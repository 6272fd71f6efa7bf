/** What the pool's operations can do and achieve in every run: deletions, page latches, flushes, and that nothing gets stuck. */
module PoolProgress {
  import opened Sequences
  import opened PoolProtocol
  import opened PoolRuns
  import opened PoolErasure
  import opened PoolLoss
  import A = Arc
  import P = Pool

  /** Where a guard's page is, in every reachable state. */
  lemma {:induction false} GuardPlace(s: System, g: GuardId)
    requires Structured(s) && g in s.guards
    ensures
      var gd := s.guards[g];
      && gd.page in s.pool.table && s.pool.table[gd.page] == gd.frame && gd.frame < |s.pool.frames|
      && s.pool.frames[gd.frame].page == Some(gd.page) && s.pool.frames[gd.frame].pins > 0
  {
    ReachableAgrees(s);
    Guarded(s.guards, s.pool.frames, g);
    hide Structured, PinsOk, LatchesOk, P.FreeOk, P.ArcOk, P.Agrees;
  }

  /** Two guards are on the same frame exactly when they are on the same page. */
  lemma {:induction false} SamePlace(s: System, g: GuardId, h: GuardId)
    requires Structured(s) && g in s.guards && h in s.guards
    ensures s.guards[g].frame == s.guards[h].frame <==> s.guards[g].page == s.guards[h].page
  {
    hide Structured;
    GuardPlace(s, g);
    GuardPlace(s, h);
  }

  /**** Deletions ****/

  lemma {:induction false} PinnedByGuards(s: System, p: PageId)
    requires Structured(s)
    ensures P.CanDelete(s.pool, p) <==> forall g :: g in s.guards ==> s.guards[g].page != p
  {
    hide Structured;
    ReachableAgrees(s);
    forall g | g in s.guards && s.guards[g].page == p
      ensures !P.CanDelete(s.pool, p)
    {
      GuardPlace(s, g);
    }
    if p in s.pool.table && s.pool.table[p] < |s.pool.frames| && s.pool.frames[s.pool.table[p]].pins > 0 {
      var f := s.pool.table[p];
      assert |On(s.guards, f)| > 0;
      var g :| g in On(s.guards, f);
      GuardPlace(s, g);
      TablePage(s, p);
    }
  }

  lemma {:induction false} TablePage(s: System, p: PageId)
    requires Structured(s) && p in s.pool.table
    ensures s.pool.table[p] < |s.pool.frames| && s.pool.frames[s.pool.table[p]].page == Some(p)
  {
    hide Structured, PinsOk, LatchesOk, Mapped, P.FreeOk, P.ArcOk, P.Agrees;
    ReachableAgrees(s);
  }

  /** In every run, with the pool latch free: a page can be deleted exactly when no guard is on it. */
  lemma {:induction false} DeletableIff(states: seq<System>, steps: seq<Step>, numFrames: nat, k: nat, p: PageId, left: PageData)
    requires Run(states, steps) && Init(states[0], numFrames) && k <= |steps| && states[k].work.Idle?
    ensures Enabled(states[k], DeletePage(p, left)) <==> forall g :: g in states[k].guards ==> states[k].guards[g].page != p
  {
    hide Init, Structured, P.CanDelete;
    RunStructured(states, steps, numFrames, k);
    hide Run;
    PinnedByGuards(states[k], p);
  }

  /** A deleted page is unmapped, its frame is empty and last on the free list, and no other page moves. */
  lemma {:induction false} DeletedPage(s: System, p: PageId, left: PageData)
    requires Structured(s) && Enabled(s, DeletePage(p, left))
    ensures
      var s' := Apply(s, DeletePage(p, left));
      && p !in s'.pool.table && P.Logical(s'.pool, p) == left && s'.guards == s.guards
      && (forall q :: q in s.pool.table && q != p ==> q in s'.pool.table && s'.pool.table[q] == s.pool.table[q])
      && (p in s.pool.table ==>
            && s'.pool.free == s.pool.free + [s.pool.table[p]] && s.pool.table[p] < |s'.pool.frames|
            && s'.pool.frames[s.pool.table[p]] == P.EmptyFrame())
  {
    hide Structured, A.Forget, P.EmptyFrame;
    if p in s.pool.table {
      TablePage(s, p);
    }
  }

  /**** Page latches ****/

  /** A safe flush holds the page latch of p. */
  predicate FlushLatches(s: System, p: PageId) {
    s.work.Flushing? && s.work.safe && s.work.cursor.Some? && s.work.cursor.value.page == p
  }

  lemma {:induction false} CursorPlace(s: System, g: GuardId)
    requires Structured(s) && g in s.guards && s.work.Flushing? && s.work.cursor.Some?
    ensures s.work.cursor.value.frame == s.guards[g].frame <==> s.work.cursor.value.page == s.guards[g].page
  {
    hide Structured, P.TableOk, Mapped;
    StructuredPlaced(s);
    GuardPlace(s, g);
    TablePage(s, s.work.cursor.value.page);
  }

  /**
   A reader takes its page latch exactly when no writer holds it; a writer when no guard and no safe flush holds
   it. Readers of a page hold it together.
   */
  lemma {:induction false} LatchableIff(s: System, g: GuardId)
    requires Structured(s) && g in s.guards && s.guards[g].phase.Pending?
    ensures
      var gd := s.guards[g];
      Enabled(s, GuardLatch(g)) <==>
        if gd.mode.Reading? then
          forall h :: h in s.guards && s.guards[h].page == gd.page && Held(s.guards[h]) ==> s.guards[h].mode.Reading?
        else
          (forall h :: h in s.guards && s.guards[h].page == gd.page ==> !Held(s.guards[h])) && !FlushLatches(s, gd.page)
  {
    hide Structured;
    GuardPlace(s, g);
    forall h | h in s.guards
      ensures s.guards[g].frame == s.guards[h].frame <==> s.guards[g].page == s.guards[h].page
    {
      SamePlace(s, g, h);
    }
    if s.work.Flushing? && s.work.cursor.Some? {
      CursorPlace(s, g);
    }
  }

  /**** What guards and fetches can do ****/

  /** A guard stores while it is a latched writer, flushes and releases while it is latched, and is dropped once released and the pool latch is free. */
  lemma {:induction false} GuardCan(s: System, g: GuardId, data: PageData)
    requires Structured(s) && g in s.guards
    ensures
      var gd := s.guards[g];
      && (Enabled(s, GuardStore(g, data)) <==> gd.phase.Latched? && gd.mode.Writing?)
      && (Enabled(s, GuardFlush(g)) <==> gd.phase.Latched?) && (Enabled(s, GuardRelease(g)) <==> gd.phase.Latched?)
      && (Enabled(s, GuardFlushDone(g)) <==> gd.phase.Flushed?)
      && (Enabled(s, GuardUnpin(g)) <==> gd.phase.Released? && s.work.Idle?)
  {
    hide Structured;
    GuardPlace(s, g);
  }

  /** In every run, with the pool latch free: a fetch is a hit exactly when the page is resident, and else a miss exactly when some frame has no guard. */
  lemma {:induction false} FetchCan(states: seq<System>, steps: seq<Step>, numFrames: nat, k: nat, g: GuardId, p: PageId, mode: Mode, t: A.AccessType)
    requires Run(states, steps) && Init(states[0], numFrames) && k <= |steps| && states[k].work.Idle? && g !in states[k].guards
    ensures Enabled(states[k], FetchHit(g, p, mode, t)) <==> p in states[k].pool.table
    ensures Enabled(states[k], FetchTake(g, p, mode, t)) <==>
      p !in states[k].pool.table && exists f: FrameId :: f < |states[k].pool.frames| && On(states[k].guards, f) == {}
  {
    hide Init, Structured;
    RunStructured(states, steps, numFrames, k);
    hide Run;
    var s := states[k];
    if p in s.pool.table {
      TablePage(s, p);
    } else {
      FreeForMiss(s);
    }
  }

  lemma {:induction false} FreeForMiss(s: System)
    requires Structured(s) && s.work.Idle?
    ensures A.WellFormed(s.pool.arc)
    ensures P.Choice(s.pool).Some? <==> exists f: FrameId :: f < |s.pool.frames| && On(s.guards, f) == {}
  {
    hide Structured, P.Choice, P.TableOk, P.FreeOk, P.Agrees, Mapped, LatchesOk, A.WellFormed;
    ReachableAgrees(s);
    P.ChoiceExists(s.pool);
    if P.Choice(s.pool).Some? {
      var f: FrameId :| 0 <= f < |s.pool.frames| && s.pool.frames[f].pins == 0;
      assert |On(s.guards, f)| == 0;
    }
    if exists f: FrameId :: f < |s.pool.frames| && On(s.guards, f) == {} {
      var f: FrameId :| f < |s.pool.frames| && On(s.guards, f) == {};
      assert s.pool.frames[f].pins == 0;
    }
  }

  /** A hit gives a new guard on the page and in the mode asked for, on the page's own frame, and changes no other guard. */
  lemma {:induction false} HitGives(s: System, g: GuardId, p: PageId, mode: Mode, t: A.AccessType)
    requires CanFetchHit(s, g, p, mode, t)
    ensures
      var s' := DoFetchHit(s, g, p, mode, t);
      && s'.guards.Keys == s.guards.Keys + {g} && s'.guards[g] == Guard(p, s.pool.table[p], mode, Pending)
      && (forall h :: h in s.guards ==> s'.guards[h] == s.guards[h]) && s'.work == s.work
  {
  }

  /** The miss goes on, whatever guards do meanwhile, for the guard, page and mode it was begun for, until it installs them. */
  lemma {:induction false} MissGives(states: seq<System>, steps: seq<Step>, i: nat, k: nat)
    requires Run(states, steps) && i < k <= |steps| < |states| && steps[i].FetchTake? && forall j :: i < j < k ==> steps[j] != FetchInstall
    ensures
      var work := states[k].work;
      && work.Fetching? && work.g == steps[i].g && work.p == steps[i].p && work.mode == steps[i].mode && work.t == steps[i].t
      && P.Choice(states[i].pool) == Some(work.f)
    ensures k < |steps| && steps[k] == FetchInstall ==>
      var work, s' := states[k].work, states[k + 1];
      s'.work.Idle? && work.g in s'.guards && s'.guards[work.g] == Guard(steps[i].p, work.f, steps[i].mode, Pending)
    decreases k
  {
    if k == i + 1 {
      hide P.Choice, A.WellFormed, P.Take, P.Install;
    } else {
      hide P.Choice, A.WellFormed, P.Take, P.Install;
      MissGives(states, steps, i, k - 1);
      MissGoesOn(states[k - 1], steps[k - 1]);
    }
  }

  lemma {:induction false} MissGoesOn(s: System, step: Step)
    requires Enabled(s, step) && s.work.Fetching? && step != FetchInstall
    ensures Apply(s, step).work.Fetching? && Apply(s, step).work.(written := s.work.written) == s.work
  {
    hide P.Hit, P.Take, P.WriteBack, P.Install, P.Unpin, P.Delete, P.FlushWrite, P.SetDirty, P.Store, P.Choice, P.CanDelete, Unlatched, Shareable;
  }

  /** With the pool latch free any resident pages can be flushed, safely or not. */
  lemma {:induction false} FlushCan(s: System, todo: set<PageId>, safe: bool)
    requires s.work.Idle?
    ensures Enabled(s, FlushBegin(todo, safe)) <==> forall p :: p in todo ==> p in s.pool.table
  {
  }

  /**** Nothing gets stuck ****/

  /** Steps that bring an operation under way nearer its end. */
  predicate Advances(step: Step) {
    match step
    case FetchWriteBack => true
    case FetchInstall => true
    case GuardLatch(_) => true
    case GuardFlushDone(_) => true
    case GuardRelease(_) => true
    case GuardUnpin(_) => true
    case FlushNext(_) => true
    case FlushWrite => true
    case FlushDone => true
    case FlushEnd => true
    case _ => false
  }

  ghost predicate CanAdvance(s: System) {
    exists step :: Advances(step) && Enabled(s, step)
  }

  lemma {:induction false} HolderAdvances(s: System, g: GuardId)
    requires Structured(s) && g in s.guards && Held(s.guards[g])
    ensures CanAdvance(s)
  {
    hide Structured;
    GuardPlace(s, g);
    if s.guards[g].phase.Latched? {
      assert Enabled(s, GuardRelease(g));
    } else {
      assert Enabled(s, GuardFlushDone(g));
    }
  }

  lemma {:induction false} FlushFacts(s: System)
    requires Structured(s) && s.work.Flushing?
    ensures s.work.todo <= s.pool.table.Keys
    ensures s.work.cursor.Some? ==> s.work.cursor.value.frame < |s.pool.frames|
  {
    var e :| Erased(s, e) && Inv(e);
    assert e.work.cursor.Some? ==> CursorOk(e, e.work.cursor.value, e.work.safe);
    hide P.Inv, P.CleanOk, Coherent, Mapped, PinsOk, LatchesOk, FlushedOk, DiskBlank, P.ZeroPage;
  }

  lemma {:induction false} FlushAdvances(s: System)
    requires Structured(s) && s.work.Flushing?
    ensures CanAdvance(s)
  {
    hide Structured;
    FlushFacts(s);
    if s.work.cursor.Some? {
      if s.work.cursor.value.written {
        assert Enabled(s, FlushDone);
      } else {
        assert Enabled(s, FlushWrite);
      }
    } else if s.work.todo == {} {
      assert Enabled(s, FlushEnd);
    } else {
      var p :| p in s.work.todo;
      TablePage(s, p);
      if s.work.safe && !Shareable(s.guards, s.pool.table[p]) {
        var g :| g in s.guards && s.guards[g].frame == s.pool.table[p] && Held(s.guards[g]) && !s.guards[g].mode.Reading?;
        HolderAdvances(s, g);
      } else {
        assert Enabled(s, FlushNext(p));
      }
    }
  }

  lemma {:induction false} FetchAdvances(s: System)
    requires Structured(s) && s.work.Fetching?
    ensures CanAdvance(s)
  {
    hide Structured, P.TableOk, Mapped;
    StructuredPlaced(s);
    if s.work.written {
      assert Enabled(s, FetchInstall);
    } else {
      assert Enabled(s, FetchWriteBack);
    }
  }

  lemma {:induction false} GuardAdvances(s: System, g: GuardId)
    requires Structured(s) && g in s.guards && s.work.Idle?
    ensures CanAdvance(s)
  {
    hide Structured;
    GuardPlace(s, g);
    var gd := s.guards[g];
    if Held(gd) {
      HolderAdvances(s, g);
    } else if gd.phase.Released? {
      assert Enabled(s, GuardUnpin(g));
    } else {
      LatchableIff(s, g);
      if Enabled(s, GuardLatch(g)) {
      } else {
        var h :| h in s.guards && s.guards[h].page == gd.page && Held(s.guards[h]);
        HolderAdvances(s, h);
      }
    }
  }

  /** In every run, whatever is under way (a fetch, a flush, a guard) some step advances it or what it waits for. */
  lemma {:induction false} NeverStuck(states: seq<System>, steps: seq<Step>, numFrames: nat, k: nat)
    requires Run(states, steps) && Init(states[0], numFrames) && k <= |steps|
    requires !states[k].work.Idle? || states[k].guards != map[]
    ensures CanAdvance(states[k])
  {
    hide Init, Structured, CanAdvance;
    RunStructured(states, steps, numFrames, k);
    hide Run;
    var s := states[k];
    if s.work.Flushing? {
      FlushAdvances(s);
    } else if s.work.Fetching? {
      FetchAdvances(s);
    } else {
      var g :| g in s.guards;
      GuardAdvances(s, g);
    }
  }

  /**** What a flush achieves ****/

  /** Page p is resident and clean, and on disk as in its frame. */
  ghost predicate OnDisk(s: System, p: PageId) {
    && p in s.pool.table && s.pool.table[p] < |s.pool.frames|
    && !s.pool.frames[s.pool.table[p]].dirty && s.pool.frames[s.pool.table[p]].data == P.Get(s.pool.disk, p)
  }

  lemma {:induction false} FlushGoesOn(s: System, step: Step)
    requires Enabled(s, step) && s.work.Flushing? && step != FlushEnd
    ensures Apply(s, step).work.Flushing?
  {
    hide P.Hit, P.Take, P.WriteBack, P.Install, P.Unpin, P.Delete, P.FlushWrite, P.SetDirty, P.Store, P.Choice, P.CanDelete, Unlatched, Shareable;
  }

  /** A flush passes a page when the page is on disk. */
  lemma {:induction false} PassedPage(s: System, step: Step, p: PageId)
    requires Inv(s) && Enabled(s, step) && Inv(Apply(s, step)) && s.work.Flushing? && step != FlushEnd && p in s.work.todo
    requires Apply(s, step).work.Flushing? && p !in Apply(s, step).work.todo
    ensures OnDisk(Apply(s, step), p)
  {
    hide P.FreeOk, P.ArcOk, P.Agrees, Coherent, Mapped, PinsOk, LatchesOk, FlushedOk, Unlatched, Shareable, P.Get;
    hide P.Hit, P.Take, P.WriteBack, P.Install, P.Unpin, P.Delete, P.FlushWrite, P.Store, P.Choice, P.CanDelete;
    if step.FlushDone? {
      assert CursorOk(s, s.work.cursor.value, s.work.safe);
    }
    var s' := Apply(s, step);
    assert p in s'.pool.table && s'.pool.frames[s'.pool.table[p]].page == Some(p);
  }

  /** A flush takes up a page exactly when its frame is dirty, and passes over a clean one; neither changes the pool. */
  lemma {:induction false} FlushTakesDirty(s: System, p: PageId)
    requires CanFlushNext(s, p)
    ensures
      var s', dirty := DoFlushNext(s, p), s.pool.frames[s.pool.table[p]].dirty;
      && s'.pool == s.pool && s'.guards == s.guards && s'.work.Flushing? && s'.work.safe == s.work.safe
      && (if dirty then s'.work.cursor.Some? && s'.work.cursor.value.page == p && p in s'.work.todo
          else s'.work.cursor.None? && s'.work.todo == s.work.todo - {p})
  {
    hide Shareable;
  }

  /** Page p was on disk as in its frame, clean, at some state after i up to k. */
  ghost predicate Reached(states: seq<System>, i: nat, k: nat, p: PageId) {
    exists j: nat :: i < j <= k < |states| && OnDisk(states[j], p)
  }

  lemma {:induction false} FlushReaches(states: seq<System>, steps: seq<Step>, numFrames: nat, i: nat, k: nat, p: PageId)
    requires Run(states, steps) && Init(states[0], numFrames) && QuietRun(states, steps) && i < k <= |steps| < |states|
    requires steps[i].FlushBegin? && p in steps[i].todo && forall j :: i < j < k ==> steps[j] != FlushEnd
    ensures states[k].work.Flushing? && (p !in states[k].work.todo ==> Reached(states, i, k, p))
    decreases k
  {
    hide Init, Inv, OnDisk, Quiet;
    if k == i + 1 {
      hide CanFlushBegin;
    } else {
      hide Enabled, Apply;
      FlushReaches(states, steps, numFrames, i, k - 1, p);
      FlushGoesOn(states[k - 1], steps[k - 1]);
      RunInv(states, steps, numFrames, k - 1);
      RunInv(states, steps, numFrames, k);
      if p in states[k - 1].work.todo {
        if p !in states[k].work.todo {
          PassedPage(states[k - 1], steps[k - 1], p);
        }
      } else {
        var j: nat :| i < j <= k - 1 && OnDisk(states[j], p);
      }
    }
  }

  /** A flush that ends has had each of its pages clean and on disk, as in its frame, at some moment since it began. */
  lemma {:induction false} FlushCompletes(states: seq<System>, steps: seq<Step>, numFrames: nat, i: nat, k: nat, p: PageId)
    requires Run(states, steps) && Init(states[0], numFrames) && QuietRun(states, steps) && i < k < |steps| < |states|
    requires steps[i].FlushBegin? && p in steps[i].todo && steps[k] == FlushEnd && forall j :: i < j < k ==> steps[j] != FlushEnd
    ensures Reached(states, i, k, p)
  {
    FlushReaches(states, steps, numFrames, i, k, p);
    assert CanFlushEnd(states[k]);
    hide Init, QuietRun, Reached;
  }
}
