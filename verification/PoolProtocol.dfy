/**
 Threads over one buffer pool, interleaved. The pool latch is held across the steps of a miss and
 of a flush (`work`); page latches are held by guards and by the safe flushes; a guard is built
 only after the pool latch is released, and dropped in two steps. Disk I/O succeeds.
 */
module PoolProtocol {
  import opened Sequences
  import A = Arc
  import P = Pool

  type PageId = P.PageId
  type FrameId = P.FrameId
  type PageData = P.PageData
  type GuardId = nat

  datatype Mode = Reading | Writing

  /** Pending: pinned, page latch not yet held. Flushed: its Flush has written the disk but not cleared the bit. */
  datatype Phase = Pending | Latched | Flushed | Released

  datatype Guard = Guard(page: PageId, frame: FrameId, mode: Mode, phase: Phase)

  /** The page a flush is working on. */
  datatype Cursor = Cursor(page: PageId, frame: FrameId, written: bool)

  /** What the holder of the pool latch is doing. */
  datatype Work =
    | Idle
    | Fetching(g: GuardId, p: PageId, mode: Mode, t: A.AccessType, f: FrameId, written: bool)
    | Flushing(todo: set<PageId>, cursor: Option<Cursor>, safe: bool)

  /** `content` is the plain page-to-bytes map, changed by guard writes and deletions alone. */
  datatype System = System(pool: P.State, work: Work, guards: map<GuardId, Guard>, content: map<PageId, PageData>)

  datatype Step =
    | FetchHit(g: GuardId, p: PageId, mode: Mode, t: A.AccessType)
    | FetchFail(p: PageId)
    | FetchTake(g: GuardId, p: PageId, mode: Mode, t: A.AccessType)
    | FetchWriteBack
    | FetchInstall
    | GuardLatch(g: GuardId)
    | GuardStore(g: GuardId, data: PageData)
    | GuardFlush(g: GuardId)
    | GuardFlushDone(g: GuardId)
    | GuardRelease(g: GuardId)
    | GuardUnpin(g: GuardId)
    | FlushBegin(todo: set<PageId>, safe: bool)
    | FlushNext(p: PageId)
    | FlushWrite
    | FlushDone
    | FlushEnd
    | DeletePage(p: PageId, left: PageData)

  predicate Held(g: Guard) {
    g.phase.Latched? || g.phase.Flushed?
  }

  /** No guard holds the page latch of frame f exclusively. */
  ghost predicate Shareable(guards: map<GuardId, Guard>, f: FrameId) {
    forall g :: g in guards && guards[g].frame == f && Held(guards[g]) ==> guards[g].mode.Reading?
  }

  /** Nobody holds the page latch of frame f. */
  ghost predicate Unlatched(s: System, f: FrameId) {
    && (forall g :: g in s.guards && s.guards[g].frame == f ==> !Held(s.guards[g]))
    && (s.work.Flushing? && s.work.safe && s.work.cursor.Some? ==> s.work.cursor.value.frame != f)
  }

  function Taken(w: Work): Option<FrameId> {
    if w.Fetching? then Some(w.f) else None
  }

  ghost predicate InPhase(s: System, g: GuardId, phase: Phase) {
    g in s.guards && s.guards[g].phase == phase && s.guards[g].frame < |s.pool.frames|
  }

  function SetPhase(s: System, g: GuardId, phase: Phase): map<GuardId, Guard>
    requires g in s.guards
  {
    s.guards[g := s.guards[g].(phase := phase)]
  }

  ghost predicate CanFetchHit(s: System, g: GuardId, p: PageId, mode: Mode, t: A.AccessType) {
    s.work.Idle? && g !in s.guards && p in s.pool.table && s.pool.table[p] < |s.pool.frames|
  }

  ghost function DoFetchHit(s: System, g: GuardId, p: PageId, mode: Mode, t: A.AccessType): System
    requires CanFetchHit(s, g, p, mode, t)
  {
    s.(pool := P.Hit(s.pool, p, t), guards := s.guards[g := Guard(p, s.pool.table[p], mode, Pending)])
  }

  ghost predicate CanFetchFail(s: System, p: PageId) {
    s.work.Idle? && p !in s.pool.table && P.Choice(s.pool).None?
  }

  ghost function DoFetchFail(s: System, p: PageId): System
    requires CanFetchFail(s, p)
  {
    s
  }

  ghost predicate CanFetchTake(s: System, g: GuardId, p: PageId, mode: Mode, t: A.AccessType) {
    && s.work.Idle? && g !in s.guards && p !in s.pool.table && A.WellFormed(s.pool.arc)
    && P.Choice(s.pool).Some?
  }

  ghost function DoFetchTake(s: System, g: GuardId, p: PageId, mode: Mode, t: A.AccessType): System
    requires CanFetchTake(s, g, p, mode, t)
  {
    s.(pool := P.Take(s.pool), work := Fetching(g, p, mode, t, P.Choice(s.pool).value, false))
  }

  ghost predicate CanFetchWriteBack(s: System) {
    s.work.Fetching? && !s.work.written && s.work.f < |s.pool.frames|
  }

  ghost function DoFetchWriteBack(s: System): System
    requires CanFetchWriteBack(s)
  {
    s.(pool := P.WriteBack(s.pool, s.work.f), work := s.work.(written := true))
  }

  ghost predicate CanFetchInstall(s: System) {
    s.work.Fetching? && s.work.written && s.work.f < |s.pool.frames|
  }

  ghost function DoFetchInstall(s: System): System
    requires CanFetchInstall(s)
  {
    s.(pool := P.Install(s.pool, s.work.f, s.work.p, s.work.t), work := Idle,
       guards := s.guards[s.work.g := Guard(s.work.p, s.work.f, s.work.mode, Pending)])
  }

  ghost predicate CanGuardLatch(s: System, g: GuardId) {
    && InPhase(s, g, Pending)
    && if s.guards[g].mode.Writing? then Unlatched(s, s.guards[g].frame)
       else Shareable(s.guards, s.guards[g].frame)
  }

  ghost function DoGuardLatch(s: System, g: GuardId): System
    requires CanGuardLatch(s, g)
  {
    s.(pool := if s.guards[g].mode.Writing? then P.SetDirty(s.pool, s.guards[g].frame, true) else s.pool,
       guards := SetPhase(s, g, Latched))
  }

  ghost predicate CanGuardStore(s: System, g: GuardId, data: PageData) {
    InPhase(s, g, Latched) && s.guards[g].mode.Writing?
  }

  ghost function DoGuardStore(s: System, g: GuardId, data: PageData): System
    requires CanGuardStore(s, g, data)
  {
    s.(pool := P.Store(s.pool, s.guards[g].frame, data), content := s.content[s.guards[g].page := data])
  }

  ghost predicate CanGuardFlush(s: System, g: GuardId) {
    InPhase(s, g, Latched)
  }

  ghost function DoGuardFlush(s: System, g: GuardId): System
    requires CanGuardFlush(s, g)
  {
    s.(pool := P.FlushWrite(s.pool, s.guards[g].page, s.guards[g].frame), guards := SetPhase(s, g, Flushed))
  }

  ghost predicate CanGuardFlushDone(s: System, g: GuardId) {
    InPhase(s, g, Flushed)
  }

  ghost function DoGuardFlushDone(s: System, g: GuardId): System
    requires CanGuardFlushDone(s, g)
  {
    s.(pool := P.SetDirty(s.pool, s.guards[g].frame, false), guards := SetPhase(s, g, Latched))
  }

  ghost predicate CanGuardRelease(s: System, g: GuardId) {
    InPhase(s, g, Latched)
  }

  ghost function DoGuardRelease(s: System, g: GuardId): System
    requires CanGuardRelease(s, g)
  {
    s.(guards := SetPhase(s, g, Released))
  }

  ghost predicate CanGuardUnpin(s: System, g: GuardId) {
    s.work.Idle? && InPhase(s, g, Released) && s.pool.frames[s.guards[g].frame].pins > 0
  }

  ghost function DoGuardUnpin(s: System, g: GuardId): System
    requires CanGuardUnpin(s, g)
  {
    s.(pool := P.Unpin(s.pool, s.guards[g].frame), guards := s.guards - {g})
  }

  ghost predicate CanFlushBegin(s: System, todo: set<PageId>, safe: bool) {
    s.work.Idle? && todo <= s.pool.table.Keys
  }

  ghost function DoFlushBegin(s: System, todo: set<PageId>, safe: bool): System
    requires CanFlushBegin(s, todo, safe)
  {
    s.(work := Flushing(todo, None, safe))
  }

  ghost predicate CanFlushNext(s: System, p: PageId) {
    && s.work.Flushing? && s.work.cursor.None? && p in s.work.todo
    && p in s.pool.table && s.pool.table[p] < |s.pool.frames|
    && (s.work.safe ==> Shareable(s.guards, s.pool.table[p]))
  }

  ghost function DoFlushNext(s: System, p: PageId): System
    requires CanFlushNext(s, p)
  {
    if s.pool.frames[s.pool.table[p]].dirty
    then s.(work := s.work.(cursor := Some(Cursor(p, s.pool.table[p], false))))
    else s.(work := s.work.(todo := s.work.todo - {p}))
  }

  ghost predicate CanFlushWrite(s: System) {
    s.work.Flushing? && s.work.cursor.Some? && !s.work.cursor.value.written && s.work.cursor.value.frame < |s.pool.frames|
  }

  ghost function DoFlushWrite(s: System): System
    requires CanFlushWrite(s)
  {
    var c := s.work.cursor.value;
    s.(pool := P.FlushWrite(s.pool, c.page, c.frame), work := s.work.(cursor := Some(c.(written := true))))
  }

  ghost predicate CanFlushDone(s: System) {
    s.work.Flushing? && s.work.cursor.Some? && s.work.cursor.value.written && s.work.cursor.value.frame < |s.pool.frames|
  }

  ghost function DoFlushDone(s: System): System
    requires CanFlushDone(s)
  {
    var c := s.work.cursor.value;
    s.(pool := P.SetDirty(s.pool, c.frame, false), work := s.work.(cursor := None, todo := s.work.todo - {c.page}))
  }

  ghost predicate CanFlushEnd(s: System) {
    s.work.Flushing? && s.work.cursor.None? && s.work.todo == {}
  }

  ghost function DoFlushEnd(s: System): System
    requires CanFlushEnd(s)
  {
    s.(work := Idle)
  }

  ghost predicate CanDeletePage(s: System, p: PageId, left: PageData) {
    s.work.Idle? && P.CanDelete(s.pool, p)
  }

  ghost function DoDeletePage(s: System, p: PageId, left: PageData): System
    requires CanDeletePage(s, p, left)
  {
    s.(pool := P.Delete(s.pool, p, left), content := s.content[p := left])
  }

  ghost predicate Enabled(s: System, step: Step) {
    match step
    case FetchHit(g, p, mode, t) => CanFetchHit(s, g, p, mode, t)
    case FetchFail(p) => CanFetchFail(s, p)
    case FetchTake(g, p, mode, t) => CanFetchTake(s, g, p, mode, t)
    case FetchWriteBack => CanFetchWriteBack(s)
    case FetchInstall => CanFetchInstall(s)
    case GuardLatch(g) => CanGuardLatch(s, g)
    case GuardStore(g, data) => CanGuardStore(s, g, data)
    case GuardFlush(g) => CanGuardFlush(s, g)
    case GuardFlushDone(g) => CanGuardFlushDone(s, g)
    case GuardRelease(g) => CanGuardRelease(s, g)
    case GuardUnpin(g) => CanGuardUnpin(s, g)
    case FlushBegin(todo, safe) => CanFlushBegin(s, todo, safe)
    case FlushNext(p) => CanFlushNext(s, p)
    case FlushWrite => CanFlushWrite(s)
    case FlushDone => CanFlushDone(s)
    case FlushEnd => CanFlushEnd(s)
    case DeletePage(p, left) => CanDeletePage(s, p, left)
  }

  ghost function Apply(s: System, step: Step): System
    requires Enabled(s, step)
  {
    match step
    case FetchHit(g, p, mode, t) => DoFetchHit(s, g, p, mode, t)
    case FetchFail(p) => DoFetchFail(s, p)
    case FetchTake(g, p, mode, t) => DoFetchTake(s, g, p, mode, t)
    case FetchWriteBack => DoFetchWriteBack(s)
    case FetchInstall => DoFetchInstall(s)
    case GuardLatch(g) => DoGuardLatch(s, g)
    case GuardStore(g, data) => DoGuardStore(s, g, data)
    case GuardFlush(g) => DoGuardFlush(s, g)
    case GuardFlushDone(g) => DoGuardFlushDone(s, g)
    case GuardRelease(g) => DoGuardRelease(s, g)
    case GuardUnpin(g) => DoGuardUnpin(s, g)
    case FlushBegin(todo, safe) => DoFlushBegin(s, todo, safe)
    case FlushNext(p) => DoFlushNext(s, p)
    case FlushWrite => DoFlushWrite(s)
    case FlushDone => DoFlushDone(s)
    case FlushEnd => DoFlushEnd(s)
    case DeletePage(p, left) => DoDeletePage(s, p, left)
  }

  /**** The invariant ****/

  /** The guards on a frame. */
  function On(guards: map<GuardId, Guard>, f: FrameId): set<GuardId> {
    set g | g in guards && guards[g].frame == f
  }

  /** Every guard's page stays mapped to its frame, from the pin to the unpin. */
  ghost predicate Mapped(guards: map<GuardId, Guard>, table: map<PageId, FrameId>) {
    forall g :: g in guards ==> guards[g].page in table && table[guards[g].page] == guards[g].frame
  }

  /** A frame's pin count is the number of its guards. */
  ghost predicate PinsOk(guards: map<GuardId, Guard>, frames: seq<P.Frame>) {
    forall f: FrameId :: f < |frames| ==> frames[f].pins == |On(guards, f)|
  }

  /** Both guards hold the page latch of the same frame. */
  predicate Conflict(g: Guard, h: Guard) {
    g.frame == h.frame && Held(g) && Held(h)
  }

  /** A writer holds a page latch alone. */
  ghost predicate LatchesOk(guards: map<GuardId, Guard>) {
    forall g, h ::
      g in guards && h in guards && g != h && Conflict(guards[g], guards[h]) ==> guards[g].mode.Reading?
  }

  /** Between the two steps of its Flush, a guard's page is on disk as it is in memory. */
  ghost predicate FlushedOk(guards: map<GuardId, Guard>, frames: seq<P.Frame>, disk: map<PageId, PageData>) {
    forall g :: g in guards && guards[g].phase.Flushed? && guards[g].frame < |frames| ==>
      P.Get(disk, guards[g].page) == frames[guards[g].frame].data
  }

  ghost predicate WorkOk(s: System) {
    match s.work
    case Idle => true
    case Fetching(g, p, mode, t, f, written) =>
      && g !in s.guards && p !in s.pool.table && f < |s.pool.frames|
      && (written && s.pool.frames[f].page.Some? ==> !s.pool.frames[f].dirty)
    case Flushing(todo, cursor, safe) =>
      && todo <= s.pool.table.Keys
      && (cursor.Some? ==> CursorOk(s, cursor.value, safe))
  }

  ghost predicate CursorOk(s: System, c: Cursor, safe: bool) {
    && c.page in s.pool.table && s.pool.table[c.page] == c.frame && c.frame < |s.pool.frames|
    && (safe ==> Shareable(s.guards, c.frame))
    && (safe && c.written ==> P.Get(s.pool.disk, c.page) == s.pool.frames[c.frame].data)
  }

  /** Each page's content equals the plain map's. */
  ghost predicate Coherent(s: System) {
    forall p :: P.Logical(s.pool, p) == P.Get(s.content, p)
  }

  ghost predicate Inv(s: System) {
    && P.Inv(s.pool, Taken(s.work)) && P.CleanOk(s.pool) && Coherent(s)
    && Mapped(s.guards, s.pool.table) && PinsOk(s.guards, s.pool.frames) && LatchesOk(s.guards)
    && FlushedOk(s.guards, s.pool.frames, s.pool.disk) && WorkOk(s)
  }

  ghost predicate Init(s: System, numFrames: nat) {
    s.pool == P.Initial(numFrames, s.content) && s.work == Idle && s.guards == map[]
  }

  lemma {:induction false} InitInv(s: System, numFrames: nat)
    requires Init(s, numFrames)
    ensures Inv(s)
  {
    P.InitialInv(numFrames, s.content);
    assert forall f: FrameId :: On(s.guards, f) == {};
    hide P.Inv, P.CleanOk;
  }

  /** An unsafe flush clears the dirty bit only of a frame whose data the disk holds. The safe flushes need no such promise. */
  ghost predicate Quiet(s: System, step: Step) {
    step.FlushDone? && CanFlushDone(s) && !s.work.safe ==>
      P.Get(s.pool.disk, s.work.cursor.value.page) == s.pool.frames[s.work.cursor.value.frame].data
  }

  /**** Guard bookkeeping ****/

  lemma {:induction false} OnAdd(guards: map<GuardId, Guard>, g: GuardId, gd: Guard, f: FrameId)
    requires g !in guards
    ensures |On(guards[g := gd], f)| == |On(guards, f)| + (if gd.frame == f then 1 else 0)
  {
    assert On(guards[g := gd], f) == if gd.frame == f then On(guards, f) + {g} else On(guards, f);
  }

  lemma {:induction false} OnDrop(guards: map<GuardId, Guard>, g: GuardId, f: FrameId)
    requires g in guards
    ensures |On(guards - {g}, f)| == |On(guards, f)| - (if guards[g].frame == f then 1 else 0)
  {
    assert On(guards - {g}, f) == if guards[g].frame == f then On(guards, f) - {g} else On(guards, f);
  }

  lemma {:induction false} PinsAdd(guards: map<GuardId, Guard>, frames: seq<P.Frame>, g: GuardId, gd: Guard, fr: P.Frame)
    requires PinsOk(guards, frames) && g !in guards && gd.frame < |frames|
    requires fr.pins == frames[gd.frame].pins + 1
    ensures PinsOk(guards[g := gd], frames[gd.frame := fr])
  {
    var frames' := frames[gd.frame := fr];
    forall f: FrameId | f < |frames'|
      ensures frames'[f].pins == |On(guards[g := gd], f)|
    {
      OnAdd(guards, g, gd, f);
    }
  }

  lemma {:induction false} PinsDrop(guards: map<GuardId, Guard>, frames: seq<P.Frame>, g: GuardId, fr: P.Frame)
    requires PinsOk(guards, frames) && g in guards && guards[g].frame < |frames|
    requires fr.pins == frames[guards[g].frame].pins - 1
    ensures PinsOk(guards - {g}, frames[guards[g].frame := fr])
  {
    var frames' := frames[guards[g].frame := fr];
    forall f: FrameId | f < |frames'|
      ensures frames'[f].pins == |On(guards - {g}, f)|
    {
      OnDrop(guards, g, f);
    }
  }

  lemma {:induction false} PinsKeep(guards: map<GuardId, Guard>, frames: seq<P.Frame>, f: FrameId, fr: P.Frame)
    requires PinsOk(guards, frames) && f < |frames| && fr.pins == frames[f].pins
    ensures PinsOk(guards, frames[f := fr])
  {
  }

  lemma {:induction false} PinsPhase(guards: map<GuardId, Guard>, frames: seq<P.Frame>, g: GuardId, phase: Phase)
    requires PinsOk(guards, frames) && g in guards
    ensures PinsOk(guards[g := guards[g].(phase := phase)], frames)
  {
    var guards' := guards[g := guards[g].(phase := phase)];
    assert forall f: FrameId :: On(guards', f) == On(guards, f);
  }

  /** An unpinned frame has no guard. */
  lemma {:induction false} Unguarded(guards: map<GuardId, Guard>, frames: seq<P.Frame>, f: FrameId)
    requires PinsOk(guards, frames) && f < |frames| && frames[f].pins == 0
    ensures forall g :: g in guards ==> guards[g].frame != f
  {
    assert |On(guards, f)| == 0;
    forall g | g in guards
      ensures guards[g].frame != f
    {
      assert g !in On(guards, f);
    }
  }

  lemma {:induction false} Guarded(guards: map<GuardId, Guard>, frames: seq<P.Frame>, g: GuardId)
    requires PinsOk(guards, frames) && g in guards && guards[g].frame < |frames|
    ensures frames[guards[g].frame].pins > 0
  {
    assert g in On(guards, guards[g].frame);
  }

  /** The only guard on an exclusively latched frame that holds the latch is the writer. */
  lemma {:induction false} WriterAlone(guards: map<GuardId, Guard>, g: GuardId, h: GuardId)
    requires LatchesOk(guards) && g in guards && h in guards && g != h
    requires Held(guards[g]) && guards[g].mode.Writing? && guards[h].frame == guards[g].frame
    ensures !Held(guards[h])
  {
  }

  /** The parts of the invariant about guards alone. */
  ghost predicate GuardsOk(guards: map<GuardId, Guard>, pool: P.State) {
    && Mapped(guards, pool.table) && PinsOk(guards, pool.frames) && LatchesOk(guards)
    && FlushedOk(guards, pool.frames, pool.disk)
  }

  /** A new guard, not yet latched, on a frame that gets one more pin. */
  lemma {:induction false} GuardsAdd(guards: map<GuardId, Guard>, pool: P.State, pool': P.State, g: GuardId, gd: Guard, fr: P.Frame)
    requires GuardsOk(guards, pool) && g !in guards && gd.phase.Pending? && gd.frame < |pool.frames|
    requires pool'.frames == pool.frames[gd.frame := fr] && pool'.disk == pool.disk
    requires fr.pins == pool.frames[gd.frame].pins + 1
    requires fr.data == pool.frames[gd.frame].data || pool.frames[gd.frame].pins == 0
    requires gd.page in pool'.table && pool'.table[gd.page] == gd.frame
    requires forall p :: p in pool.table && (pool.table[p] != gd.frame || pool'.table == pool.table) ==>
      p in pool'.table && pool'.table[p] == pool.table[p]
    requires pool'.table == pool.table || pool.frames[gd.frame].pins == 0
    ensures GuardsOk(guards[g := gd], pool')
  {
    PinsAdd(guards, pool.frames, g, gd, fr);
    if pool.frames[gd.frame].pins == 0 {
      Unguarded(guards, pool.frames, gd.frame);
    }
    hide PinsOk, P.Get;
  }

  lemma {:induction false} GuardsDrop(guards: map<GuardId, Guard>, pool: P.State, pool': P.State, g: GuardId, fr: P.Frame)
    requires GuardsOk(guards, pool) && g in guards && guards[g].frame < |pool.frames|
    requires pool'.frames == pool.frames[guards[g].frame := fr] && pool'.disk == pool.disk && pool'.table == pool.table
    requires fr.pins == pool.frames[guards[g].frame].pins - 1 && fr.data == pool.frames[guards[g].frame].data
    ensures GuardsOk(guards - {g}, pool')
  {
    PinsDrop(guards, pool.frames, g, fr);
    hide PinsOk, P.Get;
  }

  /** A frame with no guard changes, or one changes without touching its data; no guarded page changes on disk. */
  lemma {:induction false} GuardsKeep(guards: map<GuardId, Guard>, pool: P.State, pool': P.State, f: FrameId, fr: P.Frame)
    requires GuardsOk(guards, pool) && f < |pool.frames| && pool'.frames == pool.frames[f := fr]
    requires fr.pins == pool.frames[f].pins && fr.data == pool.frames[f].data
    requires pool'.table == pool.table
    requires forall g :: g in guards && guards[g].frame < |pool.frames| ==>
      || P.Get(pool'.disk, guards[g].page) == P.Get(pool.disk, guards[g].page)
      || P.Get(pool'.disk, guards[g].page) == pool.frames[guards[g].frame].data
    ensures GuardsOk(guards, pool')
  {
    PinsKeep(guards, pool.frames, f, fr);
    hide PinsOk, P.Get;
  }

  lemma {:induction false} GuardsPhase(guards: map<GuardId, Guard>, pool: P.State, g: GuardId, phase: Phase)
    requires GuardsOk(guards, pool) && g in guards && guards[g].frame < |pool.frames|
    requires phase.Flushed? ==> P.Get(pool.disk, guards[g].page) == pool.frames[guards[g].frame].data
    requires phase.Latched? || phase.Flushed? ==>
      Held(guards[g]) || (forall h :: h in guards && guards[h].frame == guards[g].frame && Held(guards[h]) ==>
                            guards[h].mode.Reading? && guards[g].mode.Reading?)
    ensures GuardsOk(guards[g := guards[g].(phase := phase)], pool)
  {
    PinsPhase(guards, pool.frames, g, phase);
    hide PinsOk, P.Get;
  }

  lemma {:induction false} CoherentKeep(s: System, s': System)
    requires Coherent(s) && P.SameContent(s.pool, s'.pool) && s'.content == s.content
    ensures Coherent(s')
  {
  }

  lemma {:induction false} CoherentSame(s: System, s': System)
    requires Coherent(s) && s'.pool == s.pool && s'.content == s.content
    ensures Coherent(s')
  {
  }

  /**** Every step keeps the invariant ****/

  /** Where a guard's frame is. */
  lemma {:induction false} GuardFacts(s: System, g: GuardId)
    requires Inv(s) && g in s.guards
    ensures
      var gd := s.guards[g];
      && gd.page in s.pool.table && s.pool.table[gd.page] == gd.frame && gd.frame < |s.pool.frames|
      && s.pool.frames[gd.frame].page == Some(gd.page) && s.pool.frames[gd.frame].pins > 0
      && Taken(s.work) != Some(gd.frame)
  {
    Guarded(s.guards, s.pool.frames, g);
  }

  /** The frame a miss works on has no guard, and its page, if any, is mapped to it. */
  lemma {:induction false} TakenFrame(s: System)
    requires Inv(s) && s.work.Fetching?
    ensures s.work.f < |s.pool.frames| && s.pool.frames[s.work.f].pins == 0
    ensures forall g :: g in s.guards ==> s.guards[g].frame != s.work.f
    ensures s.pool.frames[s.work.f].page.Some? ==>
      s.pool.frames[s.work.f].page.value in s.pool.table && s.pool.table[s.pool.frames[s.work.f].page.value] == s.work.f
  {
    Unguarded(s.guards, s.pool.frames, s.work.f);
  }

  /** A page on disk under another frame's name is no guarded page. */
  lemma {:induction false} OtherPages(s: System, f: FrameId)
    requires Inv(s) && f < |s.pool.frames| && s.pool.frames[f].page.Some?
    ensures forall g :: g in s.guards && s.guards[g].frame != f ==> s.guards[g].page != s.pool.frames[f].page.value
  {
  }

  lemma {:induction false} CoherentStore(s: System, s': System, p: PageId, data: PageData)
    requires Coherent(s) && s'.content == s.content[p := data]
    requires forall q :: P.Logical(s'.pool, q) == if q == p then data else P.Logical(s.pool, q)
    ensures Coherent(s')
  {
  }

  lemma {:induction false} CleanKeep(pool: P.State, pool': P.State)
    requires P.CleanOk(pool) && pool'.frames == pool.frames && pool'.disk == pool.disk
    ensures P.CleanOk(pool')
  {
  }

  /** A guard write: its frame's latch is held by no other guard, so no flushed guard sees the change. */
  lemma {:induction false} GuardsStore(guards: map<GuardId, Guard>, pool: P.State, pool': P.State, g: GuardId, data: PageData)
    requires GuardsOk(guards, pool) && g in guards && guards[g].phase.Latched? && guards[g].mode.Writing?
    requires guards[g].frame < |pool.frames| && pool' == P.Store(pool, guards[g].frame, data)
    ensures GuardsOk(guards, pool')
  {
    PinsKeep(guards, pool.frames, guards[g].frame, pool'.frames[guards[g].frame]);
    forall h | h in guards && guards[h].phase.Flushed?
      ensures guards[h].frame != guards[g].frame
    {
      if guards[h].frame == guards[g].frame {
        WriterAlone(guards, g, h);
      }
    }
    hide PinsOk, P.Get;
  }

  /** Writing a frame's data to disk under its own page leaves every guarded page on disk right or unchanged. */
  lemma {:induction false} FlushPages(s: System, p: PageId, d: PageData)
    requires Inv(s) && p in s.pool.table && s.pool.table[p] < |s.pool.frames|
    ensures forall g :: g in s.guards && s.guards[g].page == p ==> s.guards[g].frame == s.pool.table[p]
    ensures forall g :: g in s.guards ==>
      P.Get(s.pool.disk[p := d], s.guards[g].page) == if s.guards[g].page == p then d else P.Get(s.pool.disk, s.guards[g].page)
  {
    hide P.Inv, P.CleanOk, Coherent, PinsOk, LatchesOk, FlushedOk, WorkOk, P.ZeroPage;
  }

  lemma {:induction false} FlushedEqual(s: System, g: GuardId)
    requires Inv(s) && InPhase(s, g, Flushed)
    ensures P.Get(s.pool.disk, s.guards[g].page) == s.pool.frames[s.guards[g].frame].data
  {
  }

  lemma {:induction false} OtherDisk(guards: map<GuardId, Guard>, pool: P.State, f: FrameId)
    requires f < |pool.frames|
    requires forall g :: g in guards && pool.frames[f].page.Some? ==> guards[g].page != pool.frames[f].page.value
    ensures forall g :: g in guards ==>
      P.Get(P.WriteBack(pool, f).disk, guards[g].page) == P.Get(pool.disk, guards[g].page)
  {
  }

  lemma {:induction false} InstallOthers(s: System)
    requires Inv(s) && CanFetchInstall(s)
    ensures
      var table := DoFetchInstall(s).pool.table;
      forall p :: p in s.pool.table && s.pool.table[p] != s.work.f ==> p in table && table[p] == s.pool.table[p]
  {
    hide P.Touch;
  }

  /** The pool latch holder's work is undisturbed by a step that leaves its frame alone. */
  lemma {:induction false} WorkKeep(s: System, s': System)
    requires WorkOk(s) && s'.work == s.work
    requires s'.pool.table == s.pool.table && |s'.pool.frames| == |s.pool.frames|
    requires s.work.Fetching? ==>
      s'.guards.Keys == s.guards.Keys && s'.pool.frames[s.work.f] == s.pool.frames[s.work.f]
    requires s.work.Flushing? && s.work.cursor.Some? ==> CursorKept(s, s', s.work.cursor.value)
    ensures WorkOk(s')
  {
    hide P.Get;
  }

  ghost predicate CursorKept(s: System, s': System, c: Cursor)
    requires |s'.pool.frames| == |s.pool.frames| && s.work.Flushing?
  {
    && (c.frame < |s.pool.frames| ==> s'.pool.frames[c.frame].data == s.pool.frames[c.frame].data)
    && (|| P.Get(s'.pool.disk, c.page) == P.Get(s.pool.disk, c.page)
        || (c.frame < |s.pool.frames| && P.Get(s'.pool.disk, c.page) == s.pool.frames[c.frame].data))
    && (s.work.safe ==> Shareable(s'.guards, c.frame))
  }

  /** A guard changes phase, and may write its frame out: the pool latch holder's work is undisturbed. */
  lemma {:induction false} PhaseWork(s: System, s': System, g: GuardId, phase: Phase)
    requires WorkOk(s) && g in s.guards && s'.guards == SetPhase(s, g, phase) && s'.work == s.work
    requires s'.pool.table == s.pool.table && |s'.pool.frames| == |s.pool.frames|
    requires
      var gd := s.guards[g];
      && gd.frame < |s.pool.frames| && gd.page in s.pool.table && s.pool.table[gd.page] == gd.frame
      && Taken(s.work) != Some(gd.frame)
      && (forall f: FrameId :: f < |s.pool.frames| && f != gd.frame ==> s'.pool.frames[f] == s.pool.frames[f])
      && s'.pool.frames[gd.frame].data == s.pool.frames[gd.frame].data
      && (s'.pool.disk == s.pool.disk || s'.pool.disk == s.pool.disk[gd.page := s.pool.frames[gd.frame].data])
      && (Held(gd) || gd.mode.Reading? || phase.Released?
          || (s.work.Flushing? && s.work.safe && s.work.cursor.Some? ==> s.work.cursor.value.frame != gd.frame))
    ensures WorkOk(s')
  {
    if s.work.Flushing? && s.work.cursor.Some? {
      var c := s.work.cursor.value;
      assert CursorOk(s, c, s.work.safe);
      assert c.page == s.guards[g].page ==> c.frame == s.guards[g].frame;
      assert CursorKept(s, s', c);
    }
    WorkKeep(s, s');
  }

  lemma {:induction false} FetchHitWork(s: System, g: GuardId, p: PageId, mode: Mode, t: A.AccessType)
    requires Inv(s) && CanFetchHit(s, g, p, mode, t)
    ensures WorkOk(DoFetchHit(s, g, p, mode, t))
  {
    hide P.TableOk, P.FreeOk, P.Agrees, P.ArcOk, P.CleanOk, Coherent, Mapped, PinsOk, LatchesOk, FlushedOk, P.Get, P.Logical;
  }

  lemma {:induction false} FetchHitPool(s: System, g: GuardId, p: PageId, mode: Mode, t: A.AccessType)
    requires Inv(s) && CanFetchHit(s, g, p, mode, t)
    ensures
      var s' := DoFetchHit(s, g, p, mode, t);
      P.Inv(s'.pool, None) && P.CleanOk(s'.pool) && Coherent(s')
  {
    hide Mapped, PinsOk, LatchesOk, FlushedOk, WorkOk, P.CleanOk, P.Get, P.Logical, P.TableOk, P.FreeOk, P.Agrees, P.ArcOk, Coherent;
    P.HitInv(s.pool, p, t);
    P.HitContent(s.pool, p, t);
    CoherentKeep(s, DoFetchHit(s, g, p, mode, t));
  }

  lemma {:induction false} FetchHitGuards(s: System, g: GuardId, p: PageId, mode: Mode, t: A.AccessType)
    requires Inv(s) && CanFetchHit(s, g, p, mode, t)
    ensures
      var s' := DoFetchHit(s, g, p, mode, t);
      GuardsOk(s'.guards, s'.pool)
  {
    hide Mapped, PinsOk, LatchesOk, FlushedOk, WorkOk, P.Inv, P.CleanOk, Coherent, P.Touch;
    var f := s.pool.table[p];
    GuardsAdd(s.guards, s.pool, P.Hit(s.pool, p, t), g, Guard(p, f, mode, Pending),
              s.pool.frames[f].(pins := s.pool.frames[f].pins + 1));
  }

  lemma {:induction false} FetchHitInv(s: System, g: GuardId, p: PageId, mode: Mode, t: A.AccessType)
    requires Inv(s) && CanFetchHit(s, g, p, mode, t)
    ensures Inv(DoFetchHit(s, g, p, mode, t))
  {
    hide Mapped, PinsOk, LatchesOk, FlushedOk, WorkOk, P.Inv, P.CleanOk, Coherent, P.Touch;
    FetchHitWork(s, g, p, mode, t);
    FetchHitPool(s, g, p, mode, t);
    FetchHitGuards(s, g, p, mode, t);
  }

  lemma {:induction false} FetchTakeWork(s: System, g: GuardId, p: PageId, mode: Mode, t: A.AccessType)
    requires Inv(s) && CanFetchTake(s, g, p, mode, t)
    ensures WorkOk(DoFetchTake(s, g, p, mode, t))
  {
    P.TakeInv(s.pool);
    hide P.TableOk, P.FreeOk, P.Agrees, P.ArcOk, P.CleanOk, Coherent, Mapped, PinsOk, LatchesOk, FlushedOk, P.Get, P.Logical;
  }

  lemma {:induction false} FetchTakeInv(s: System, g: GuardId, p: PageId, mode: Mode, t: A.AccessType)
    requires Inv(s) && CanFetchTake(s, g, p, mode, t)
    ensures Inv(DoFetchTake(s, g, p, mode, t))
  {
    var s' := DoFetchTake(s, g, p, mode, t);
    FetchTakeWork(s, g, p, mode, t);
    P.TakeInv(s.pool);
    hide P.TableOk, P.FreeOk, P.Agrees, P.ArcOk, P.CleanOk, Coherent, Mapped, PinsOk, LatchesOk, FlushedOk, P.Get, P.Logical, WorkOk;
    hide P.Take, P.Choice, A.WellFormed;
    assert P.SameContent(s.pool, s'.pool) by {
      assert s'.pool.table == s.pool.table && s'.pool.frames == s.pool.frames && s'.pool.disk == s.pool.disk;
    }
    CoherentKeep(s, s');
    CleanKeep(s.pool, s'.pool);
  }

  lemma {:induction false} FetchWriteBackWork(s: System)
    requires Inv(s) && CanFetchWriteBack(s)
    ensures WorkOk(DoFetchWriteBack(s))
  {
    TakenFrame(s);
    hide P.TableOk, P.FreeOk, P.Agrees, P.ArcOk, P.CleanOk, Coherent, Mapped, PinsOk, LatchesOk, FlushedOk, P.Get, P.Logical;
    P.WriteBackContent(s.pool, s.work.f);
  }

  lemma {:induction false} FetchWriteBackInv(s: System)
    requires Inv(s) && CanFetchWriteBack(s)
    ensures Inv(DoFetchWriteBack(s))
  {
    var s' := DoFetchWriteBack(s);
    FetchWriteBackWork(s);
    TakenFrame(s);
    if s.pool.frames[s.work.f].page.Some? { OtherPages(s, s.work.f); }
    OtherDisk(s.guards, s.pool, s.work.f);
    hide P.TableOk, P.FreeOk, P.Agrees, P.ArcOk, P.CleanOk, Coherent, Mapped, PinsOk, LatchesOk, FlushedOk, P.Get, P.Logical, WorkOk;
    var f := s.work.f;
    P.WriteBackInv(s.pool, f);
    P.WriteBackContent(s.pool, f);
    CoherentKeep(s, s');
    GuardsKeep(s.guards, s.pool, s'.pool, f, s'.pool.frames[f]);
  }

  lemma {:induction false} FetchInstallWork(s: System)
    requires Inv(s) && CanFetchInstall(s)
    ensures WorkOk(DoFetchInstall(s))
  {
    TakenFrame(s);
    hide P.TableOk, P.FreeOk, P.Agrees, P.ArcOk, P.CleanOk, Coherent, Mapped, PinsOk, LatchesOk, FlushedOk, P.Get, P.Logical;
  }

  lemma {:induction false} FetchInstallInv(s: System)
    requires Inv(s) && CanFetchInstall(s)
    ensures Inv(DoFetchInstall(s))
  {
    var s' := DoFetchInstall(s);
    FetchInstallWork(s);
    TakenFrame(s);
    hide P.TableOk, P.FreeOk, P.Agrees, P.ArcOk, P.CleanOk, Coherent, Mapped, PinsOk, LatchesOk, FlushedOk, P.Get, P.Logical, WorkOk;
    var f, p := s.work.f, s.work.p;
    P.InstallInv(s.pool, f, p, s.work.t);
    P.InstallContent(s.pool, f, p, s.work.t);
    CoherentKeep(s, s');
    InstallOthers(s);
    GuardsAdd(s.guards, s.pool, s'.pool, s.work.g, Guard(p, f, s.work.mode, Pending), s'.pool.frames[f]);
  }

  lemma {:induction false} GuardLatchWork(s: System, g: GuardId)
    requires Inv(s) && CanGuardLatch(s, g)
    ensures WorkOk(DoGuardLatch(s, g))
  {
    hide P.Inv, P.CleanOk, Coherent, Mapped, PinsOk, LatchesOk, FlushedOk, P.Get, P.Logical, WorkOk, Shareable;
    GuardFacts(s, g);
    if s.guards[g].mode.Writing? {
      LatchWriterWork(s, g);
    } else {
      LatchReaderWork(s, g);
    }
  }

  lemma {:induction false} LatchWriterWork(s: System, g: GuardId)
    requires WorkOk(s) && InPhase(s, g, Pending) && Unlatched(s, s.guards[g].frame)
    requires s.guards[g].page in s.pool.table && s.pool.table[s.guards[g].page] == s.guards[g].frame
    requires Taken(s.work) != Some(s.guards[g].frame)
    ensures WorkOk(s.(pool := P.SetDirty(s.pool, s.guards[g].frame, true), guards := SetPhase(s, g, Latched)))
  {
    hide P.Get, WorkOk;
    PhaseWork(s, s.(pool := P.SetDirty(s.pool, s.guards[g].frame, true), guards := SetPhase(s, g, Latched)), g, Latched);
  }

  lemma {:induction false} LatchReaderWork(s: System, g: GuardId)
    requires WorkOk(s) && InPhase(s, g, Pending) && s.guards[g].mode.Reading?
    requires s.guards[g].page in s.pool.table && s.pool.table[s.guards[g].page] == s.guards[g].frame
    requires Taken(s.work) != Some(s.guards[g].frame)
    ensures WorkOk(s.(guards := SetPhase(s, g, Latched)))
  {
    hide P.Get, WorkOk;
    PhaseWork(s, s.(guards := SetPhase(s, g, Latched)), g, Latched);
  }

  lemma {:induction false} GuardLatchPool(s: System, g: GuardId)
    requires Inv(s) && CanGuardLatch(s, g)
    ensures
      var s' := DoGuardLatch(s, g);
      P.Inv(s'.pool, Taken(s.work)) && P.CleanOk(s'.pool) && Coherent(s')
  {
    hide P.TableOk, P.FreeOk, P.Agrees, P.ArcOk, P.CleanOk, Coherent, Mapped, PinsOk, LatchesOk, FlushedOk, P.Get, P.Logical, WorkOk;
    var s', f := DoGuardLatch(s, g), s.guards[g].frame;
    P.EditInv(s.pool, Taken(s.work), f, s'.pool.frames[f]);
    assert s'.pool == s.pool.(frames := s.pool.frames[f := s'.pool.frames[f]]);
    P.DirtyContent(s.pool, f);
    CoherentKeep(s, s');
  }

  lemma {:induction false} GuardLatchGuards(s: System, g: GuardId)
    requires Inv(s) && CanGuardLatch(s, g)
    ensures GuardsOk(s.guards, DoGuardLatch(s, g).pool)
  {
    hide P.Inv, P.CleanOk, Coherent, Mapped, PinsOk, LatchesOk, FlushedOk, P.Get, P.Logical, WorkOk;
    var pool', f := DoGuardLatch(s, g).pool, s.guards[g].frame;
    assert pool'.frames == s.pool.frames[f := pool'.frames[f]];
    GuardsKeep(s.guards, s.pool, pool', f, pool'.frames[f]);
  }

  lemma {:induction false} GuardLatchInv(s: System, g: GuardId)
    requires Inv(s) && CanGuardLatch(s, g)
    ensures Inv(DoGuardLatch(s, g))
  {
    var s' := DoGuardLatch(s, g);
    GuardFacts(s, g);
    GuardLatchWork(s, g);
    GuardLatchPool(s, g);
    GuardLatchGuards(s, g);
    hide P.TableOk, P.FreeOk, P.Agrees, P.ArcOk, P.CleanOk, Coherent, Mapped, PinsOk, LatchesOk, FlushedOk, P.Get, P.Logical, WorkOk;
    hide P.Inv;
    GuardsPhase(s.guards, s'.pool, g, Latched);
  }

  /** A guard write is not seen by a safe flush: the page latch keeps them apart. */
  lemma {:induction false} StoreWork(s: System, s': System, g: GuardId, data: PageData)
    requires WorkOk(s) && g in s.guards && Held(s.guards[g]) && s.guards[g].mode.Writing?
    requires s.guards[g].frame < |s.pool.frames| && Taken(s.work) != Some(s.guards[g].frame)
    requires P.TableOk(s.pool.frames, s.pool.table) && s.pool.frames[s.guards[g].frame].page == Some(s.guards[g].page)
    requires s'.work == s.work && s'.guards == s.guards && s'.pool == P.Store(s.pool, s.guards[g].frame, data)
    ensures WorkOk(s')
  {
    if s.work.Flushing? && s.work.cursor.Some? {
      var c := s.work.cursor.value;
      assert CursorOk(s, c, s.work.safe);
      assert CursorOk(s', c, s.work.safe);
    }
    hide P.Get;
  }

  lemma {:induction false} GuardStoreWork(s: System, g: GuardId, data: PageData)
    requires Inv(s) && CanGuardStore(s, g, data)
    ensures WorkOk(DoGuardStore(s, g, data))
  {
    hide P.TableOk, P.FreeOk, P.ArcOk, P.Agrees, P.CleanOk, Coherent, Mapped, PinsOk, LatchesOk, FlushedOk, P.Get, P.Logical, WorkOk, Shareable;
    GuardFacts(s, g);
    StoreWork(s, DoGuardStore(s, g, data), g, data);
  }

  lemma {:induction false} GuardStoreInv(s: System, g: GuardId, data: PageData)
    requires Inv(s) && CanGuardStore(s, g, data)
    ensures Inv(DoGuardStore(s, g, data))
  {
    var s' := DoGuardStore(s, g, data);
    GuardStoreWork(s, g, data);
    hide P.TableOk, P.FreeOk, P.Agrees, P.ArcOk, P.CleanOk, Coherent, Mapped, PinsOk, LatchesOk, FlushedOk, P.Get, P.Logical, WorkOk;
    var gd := s.guards[g];
    P.EditInv(s.pool, Taken(s.work), gd.frame, s'.pool.frames[gd.frame]);
    P.StoreContent(s.pool, gd.page, gd.frame, data);
    CoherentStore(s, s', gd.page, data);
    GuardsStore(s.guards, s.pool, s'.pool, g, data);
  }

  lemma {:induction false} GuardFlushWork(s: System, g: GuardId)
    requires Inv(s) && CanGuardFlush(s, g)
    ensures WorkOk(DoGuardFlush(s, g))
  {
    hide P.Inv, P.CleanOk, Coherent, Mapped, PinsOk, LatchesOk, FlushedOk, P.Get, P.Logical, WorkOk, Shareable;
    GuardFacts(s, g);
    PhaseWork(s, DoGuardFlush(s, g), g, Flushed);
  }

  lemma {:induction false} FlushWriteGuards(s: System, p: PageId, f: FrameId)
    requires Inv(s) && p in s.pool.table && s.pool.table[p] == f && f < |s.pool.frames|
    ensures GuardsOk(s.guards, P.FlushWrite(s.pool, p, f))
  {
    FlushPages(s, p, s.pool.frames[f].data);
    hide P.Inv, P.CleanOk, Coherent, Mapped, PinsOk, LatchesOk, FlushedOk, P.Get, P.Logical, WorkOk;
    assert s.pool.frames[f := s.pool.frames[f]] == s.pool.frames;
    GuardsKeep(s.guards, s.pool, P.FlushWrite(s.pool, p, f), f, s.pool.frames[f]);
  }

  lemma {:induction false} FlushWritePool(s: System, p: PageId, f: FrameId)
    requires Inv(s) && p in s.pool.table && s.pool.table[p] == f && f < |s.pool.frames|
    ensures
      var s' := s.(pool := P.FlushWrite(s.pool, p, f));
      && P.Inv(s'.pool, Taken(s.work)) && P.CleanOk(s'.pool) && Coherent(s')
      && P.Get(s'.pool.disk, p) == s'.pool.frames[f].data
  {
    hide Mapped, PinsOk, LatchesOk, FlushedOk, WorkOk, P.TableOk, P.FreeOk, P.Agrees, P.ArcOk, P.CleanOk, Coherent, P.Logical;
    P.FlushWriteContent(s.pool, p, f);
    CoherentKeep(s, s.(pool := P.FlushWrite(s.pool, p, f)));
  }

  lemma {:induction false} GuardFlushInv(s: System, g: GuardId)
    requires Inv(s) && CanGuardFlush(s, g)
    ensures Inv(DoGuardFlush(s, g))
  {
    hide P.Inv, P.CleanOk, Coherent, Mapped, PinsOk, LatchesOk, FlushedOk, P.Get, P.Logical, WorkOk;
    var s', gd := DoGuardFlush(s, g), s.guards[g];
    GuardFacts(s, g);
    GuardFlushWork(s, g);
    FlushWriteGuards(s, gd.page, gd.frame);
    FlushWritePool(s, gd.page, gd.frame);
    CoherentSame(s.(pool := P.FlushWrite(s.pool, gd.page, gd.frame)), s');
    GuardsPhase(s.guards, s'.pool, g, Flushed);
  }

  lemma {:induction false} GuardFlushDoneWork(s: System, g: GuardId)
    requires Inv(s) && CanGuardFlushDone(s, g)
    ensures WorkOk(DoGuardFlushDone(s, g))
  {
    hide P.Inv, P.CleanOk, Coherent, Mapped, PinsOk, LatchesOk, FlushedOk, P.Get, P.Logical, WorkOk, Shareable;
    GuardFacts(s, g);
    PhaseWork(s, DoGuardFlushDone(s, g), g, Latched);
  }

  lemma {:induction false} GuardFlushDonePool(s: System, g: GuardId)
    requires Inv(s) && CanGuardFlushDone(s, g)
    ensures
      var s' := DoGuardFlushDone(s, g);
      && P.Inv(s'.pool, Taken(s.work)) && P.CleanOk(s'.pool) && Coherent(s') && GuardsOk(s.guards, s'.pool)
      && |s'.pool.frames| == |s.pool.frames|
      && P.Get(s'.pool.disk, s.guards[g].page) == s'.pool.frames[s.guards[g].frame].data
  {
    var s', gd := DoGuardFlushDone(s, g), s.guards[g];
    GuardFacts(s, g);
    FlushedEqual(s, g);
    hide P.TableOk, P.FreeOk, P.Agrees, P.ArcOk, P.CleanOk, Coherent, Mapped, PinsOk, LatchesOk, FlushedOk, P.Get, P.Logical, WorkOk;
    P.EditInv(s.pool, Taken(s.work), gd.frame, s'.pool.frames[gd.frame]);
    P.ClearContent(s.pool, gd.page, gd.frame);
    CoherentKeep(s, s');
    GuardsKeep(s.guards, s.pool, s'.pool, gd.frame, s'.pool.frames[gd.frame]);
  }

  lemma {:induction false} GuardFlushDoneInv(s: System, g: GuardId)
    requires Inv(s) && CanGuardFlushDone(s, g)
    ensures Inv(DoGuardFlushDone(s, g))
  {
    var s' := DoGuardFlushDone(s, g);
    GuardFlushDoneWork(s, g);
    GuardFlushDonePool(s, g);
    hide P.TableOk, P.FreeOk, P.Agrees, P.ArcOk, P.CleanOk, Coherent, Mapped, PinsOk, LatchesOk, FlushedOk, P.Get, P.Logical, WorkOk;
    hide P.Inv;
    GuardsPhase(s.guards, s'.pool, g, Latched);
  }

  lemma {:induction false} GuardReleaseInv(s: System, g: GuardId)
    requires Inv(s) && CanGuardRelease(s, g)
    ensures Inv(DoGuardRelease(s, g))
  {
    var s' := DoGuardRelease(s, g);
    GuardFacts(s, g);
    PhaseWork(s, s', g, Released);
    hide P.TableOk, P.FreeOk, P.Agrees, P.ArcOk, P.CleanOk, Coherent, Mapped, PinsOk, LatchesOk, FlushedOk, P.Get, P.Logical, WorkOk;
    CoherentKeep(s, s');
    GuardsPhase(s.guards, s.pool, g, Released);
  }

  lemma {:induction false} GuardUnpinWork(s: System, g: GuardId)
    requires Inv(s) && CanGuardUnpin(s, g)
    ensures WorkOk(DoGuardUnpin(s, g))
  {
    GuardFacts(s, g);
    hide P.TableOk, P.FreeOk, P.Agrees, P.ArcOk, P.CleanOk, Coherent, Mapped, PinsOk, LatchesOk, FlushedOk, P.Get, P.Logical;
  }

  lemma {:induction false} GuardUnpinInv(s: System, g: GuardId)
    requires Inv(s) && CanGuardUnpin(s, g)
    ensures Inv(DoGuardUnpin(s, g))
  {
    var s' := DoGuardUnpin(s, g);
    GuardUnpinWork(s, g);
    hide P.TableOk, P.FreeOk, P.Agrees, P.ArcOk, P.CleanOk, Coherent, Mapped, PinsOk, LatchesOk, FlushedOk, P.Get, P.Logical, WorkOk;
    var f := s.guards[g].frame;
    P.UnpinInv(s.pool, f);
    P.UnpinContent(s.pool, f);
    CoherentKeep(s, s');
    GuardsDrop(s.guards, s.pool, s'.pool, g, s'.pool.frames[f]);
  }

  lemma {:induction false} FlushBeginWork(s: System, todo: set<PageId>, safe: bool)
    requires Inv(s) && CanFlushBegin(s, todo, safe)
    ensures WorkOk(DoFlushBegin(s, todo, safe))
  {
    hide P.TableOk, P.FreeOk, P.Agrees, P.ArcOk, P.CleanOk, Coherent, Mapped, PinsOk, LatchesOk, FlushedOk, P.Get, P.Logical;
  }

  lemma {:induction false} FlushBeginInv(s: System, todo: set<PageId>, safe: bool)
    requires Inv(s) && CanFlushBegin(s, todo, safe)
    ensures Inv(DoFlushBegin(s, todo, safe))
  {
    var s' := DoFlushBegin(s, todo, safe);
    FlushBeginWork(s, todo, safe);
    hide P.TableOk, P.FreeOk, P.Agrees, P.ArcOk, P.CleanOk, Coherent, Mapped, PinsOk, LatchesOk, FlushedOk, P.Get, P.Logical, WorkOk;
    CoherentKeep(s, s');
  }

  lemma {:induction false} FlushNextWork(s: System, p: PageId)
    requires Inv(s) && CanFlushNext(s, p)
    ensures WorkOk(DoFlushNext(s, p))
  {
    hide P.TableOk, P.FreeOk, P.Agrees, P.ArcOk, P.CleanOk, Coherent, Mapped, PinsOk, LatchesOk, FlushedOk, P.Get, P.Logical;
  }

  lemma {:induction false} FlushNextInv(s: System, p: PageId)
    requires Inv(s) && CanFlushNext(s, p)
    ensures Inv(DoFlushNext(s, p))
  {
    var s' := DoFlushNext(s, p);
    FlushNextWork(s, p);
    hide P.TableOk, P.FreeOk, P.Agrees, P.ArcOk, P.CleanOk, Coherent, Mapped, PinsOk, LatchesOk, FlushedOk, P.Get, P.Logical, WorkOk;
    CoherentKeep(s, s');
  }

  lemma {:induction false} FlushWriteWork(s: System)
    requires Inv(s) && CanFlushWrite(s)
    ensures WorkOk(DoFlushWrite(s))
  {
    FlushPages(s, s.work.cursor.value.page, s.pool.frames[s.work.cursor.value.frame].data);
    hide P.TableOk, P.FreeOk, P.Agrees, P.ArcOk, P.CleanOk, Coherent, Mapped, PinsOk, LatchesOk, FlushedOk, P.Get, P.Logical;
  }

  lemma {:induction false} FlushWriteInv(s: System)
    requires Inv(s) && CanFlushWrite(s)
    ensures Inv(DoFlushWrite(s))
  {
    assert CursorOk(s, s.work.cursor.value, s.work.safe);
    hide P.Inv, P.CleanOk, Coherent, Mapped, PinsOk, LatchesOk, FlushedOk, P.Get, P.Logical, WorkOk;
    var s', c := DoFlushWrite(s), s.work.cursor.value;
    FlushWriteWork(s);
    FlushWriteGuards(s, c.page, c.frame);
    FlushWritePool(s, c.page, c.frame);
    CoherentSame(s.(pool := P.FlushWrite(s.pool, c.page, c.frame)), s');
  }

  lemma {:induction false} FlushDoneWork(s: System)
    requires Inv(s) && CanFlushDone(s)
    ensures WorkOk(DoFlushDone(s))
  {
    hide P.TableOk, P.FreeOk, P.Agrees, P.ArcOk, P.CleanOk, Coherent, Mapped, PinsOk, LatchesOk, FlushedOk, P.Get, P.Logical;
  }

  lemma {:induction false} FlushDoneInv(s: System)
    requires Inv(s) && CanFlushDone(s) && Quiet(s, FlushDone)
    ensures Inv(DoFlushDone(s))
  {
    var s' := DoFlushDone(s);
    FlushDoneWork(s);
    assert CursorOk(s, s.work.cursor.value, s.work.safe);
    hide P.TableOk, P.FreeOk, P.Agrees, P.ArcOk, P.CleanOk, Coherent, Mapped, PinsOk, LatchesOk, FlushedOk, P.Get, P.Logical, WorkOk;
    var c := s.work.cursor.value;
    P.EditInv(s.pool, None, c.frame, s'.pool.frames[c.frame]);
    P.ClearContent(s.pool, c.page, c.frame);
    CoherentKeep(s, s');
    GuardsKeep(s.guards, s.pool, s'.pool, c.frame, s'.pool.frames[c.frame]);
  }

  lemma {:induction false} FlushEndInv(s: System)
    requires Inv(s) && CanFlushEnd(s)
    ensures Inv(DoFlushEnd(s))
  {
    hide P.Inv, P.CleanOk, Mapped, PinsOk, LatchesOk, FlushedOk;
  }

  lemma {:induction false} DeletePageInv(s: System, p: PageId, left: PageData)
    requires Inv(s) && CanDeletePage(s, p, left)
    ensures Inv(DoDeletePage(s, p, left))
  {
    var s' := DoDeletePage(s, p, left);
    P.DeleteInv(s.pool, p, left);
    P.DeleteContent(s.pool, p, left);
    CoherentStore(s, s', p, left);
    DeleteGuards(s, p, left);
    hide P.TableOk, P.FreeOk, P.Agrees, P.ArcOk, P.CleanOk, Coherent, Mapped, PinsOk, LatchesOk, FlushedOk, P.Get, P.Logical;
  }

  lemma {:induction false} DeleteGuards(s: System, p: PageId, left: PageData)
    requires Inv(s) && P.CanDelete(s.pool, p)
    ensures GuardsOk(s.guards, P.Delete(s.pool, p, left))
  {
    DeletePins(s, p, left);
    DeleteMapped(s, p);
    DeleteFlushed(s, p, left);
    hide P.Inv, P.CleanOk, Coherent, LatchesOk, PinsOk, FlushedOk, Mapped, P.Get, WorkOk;
  }

  lemma {:induction false} DeleteMapped(s: System, p: PageId)
    requires Inv(s) && P.CanDelete(s.pool, p)
    ensures Mapped(s.guards, s.pool.table - {p})
    ensures forall g :: g in s.guards ==> s.guards[g].page != p
  {
    hide P.Inv, P.CleanOk, Coherent, LatchesOk, PinsOk, FlushedOk, WorkOk;
    forall g | g in s.guards
      ensures s.guards[g].page != p
    {
      GuardFacts(s, g);
    }
  }

  lemma {:induction false} DeletePins(s: System, p: PageId, left: PageData)
    requires Inv(s) && P.CanDelete(s.pool, p)
    ensures PinsOk(s.guards, P.Delete(s.pool, p, left).frames)
    ensures p in s.pool.table ==> forall g :: g in s.guards ==> s.guards[g].frame != s.pool.table[p]
  {
    if p in s.pool.table {
      assert s.pool.table[p] < |s.pool.frames|;
      Unguarded(s.guards, s.pool.frames, s.pool.table[p]);
      PinsKeep(s.guards, s.pool.frames, s.pool.table[p], P.EmptyFrame());
    }
    hide P.Inv, P.CleanOk, Coherent, LatchesOk, PinsOk, FlushedOk, P.Get;
  }

  lemma {:induction false} DeleteFlushed(s: System, p: PageId, left: PageData)
    requires FlushedOk(s.guards, s.pool.frames, s.pool.disk) && P.CanDelete(s.pool, p)
    requires forall g :: g in s.guards ==> s.guards[g].page != p
    requires p in s.pool.table ==> forall g :: g in s.guards ==> s.guards[g].frame != s.pool.table[p]
    ensures
      var pool := P.Delete(s.pool, p, left);
      FlushedOk(s.guards, pool.frames, pool.disk)
  {
  }
}
