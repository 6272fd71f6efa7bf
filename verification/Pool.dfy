/**
 The buffer pool on values: frames, page table, free list, replacer and disk. Each function is one
 piece of a critical section of the pool latch, so that the interleaved protocol and the class that
 runs the whole sections share them.
 */
module Pool {
  import opened Sequences
  import A = Arc

  type FrameId = A.FrameId
  type PageId = A.PageId
  type AccessType = A.AccessType
  type PageData = string

  const PAGE_SIZE := 8192

  /** A page of zero bytes: what a reset frame holds. */
  function ZeroPage(): (d: PageData)
    ensures |d| == PAGE_SIZE && forall i :: 0 <= i < |d| ==> d[i] == '\0'
  {
    seq(PAGE_SIZE, _ => '\0')
  }

  datatype Frame = Frame(page: Option<PageId>, pins: nat, dirty: bool, data: PageData)

  function EmptyFrame(): Frame { Frame(None, 0, false, ZeroPage()) }

  datatype State = State(
    frames: seq<Frame>,
    table: map<PageId, FrameId>,
    free: seq<FrameId>,
    arc: A.State,
    disk: map<PageId, PageData>)

  function Get(store: map<PageId, PageData>, p: PageId): PageData {
    if p in store then store[p] else ZeroPage()
  }

  /** The content of a page: its frame's data if it is resident, else the disk's. */
  function Logical(s: State, p: PageId): PageData {
    if p in s.table && s.table[p] < |s.frames| then s.frames[s.table[p]].data else Get(s.disk, p)
  }

  /**** The pieces of the critical sections ****/

  /** RecordAccess followed by SetEvictable(false), as every fetch does. */
  function Touch(a: A.State, f: FrameId, p: PageId, t: AccessType): A.State {
    A.SetEvictable(A.RecordAccess(a, f, p, t), f, false)
  }

  /** Fetch of a resident page. */
  function Hit(s: State, p: PageId, t: AccessType): State
    requires p in s.table && s.table[p] < |s.frames|
  {
    var f := s.table[p];
    s.(frames := s.frames[f := s.frames[f].(pins := s.frames[f].pins + 1)], arc := Touch(s.arc, f, p, t))
  }

  /** The frame a miss would use: a free one if there is any, else the replacer's victim. */
  function Choice(s: State): Option<FrameId> {
    if s.free != [] then Some(s.free[0]) else A.Victim(s.arc)
  }

  function Take(s: State): State
    requires A.WellFormed(s.arc)
  {
    if s.free != [] then s.(free := s.free[1..]) else s.(arc := A.Evict(s.arc))
  }

  /** The old page of the taken frame goes to disk if it is dirty. */
  function WriteBack(s: State, f: FrameId): State
    requires f < |s.frames|
  {
    var fr := s.frames[f];
    if fr.page.Some? && fr.dirty
    then s.(disk := s.disk[fr.page.value := fr.data], frames := s.frames[f := fr.(dirty := false)])
    else s
  }

  /** The taken frame is reset, read, pinned and mapped. */
  function Install(s: State, f: FrameId, p: PageId, t: AccessType): State
    requires f < |s.frames|
  {
    var fr := s.frames[f];
    var table := if fr.page.Some? then s.table - {fr.page.value} else s.table;
    s.(frames := s.frames[f := Frame(Some(p), 1, false, Get(s.disk, p))],
       table := table[p := f],
       arc := Touch(s.arc, f, p, t))
  }

  /** The whole latched section of a miss that finds a frame. */
  function Miss(s: State, p: PageId, t: AccessType): State
    requires A.WellFormed(s.arc) && Choice(s).Some? && Choice(s).value < |s.frames|
  {
    Install(WriteBack(Take(s), Choice(s).value), Choice(s).value, p, t)
  }

  /** A guard lets go of its frame. */
  function Unpin(s: State, f: FrameId): State
    requires f < |s.frames| && s.frames[f].pins > 0
  {
    var pins := s.frames[f].pins;
    s.(frames := s.frames[f := s.frames[f].(pins := pins - 1)],
       arc := if pins == 1 then A.SetEvictable(s.arc, f, true) else s.arc)
  }

  predicate CanDelete(s: State, p: PageId) {
    p in s.table && s.table[p] < |s.frames| ==> s.frames[s.table[p]].pins == 0
  }

  /** DeletePage when it is not refused; `left` is what the deallocated disk page is left holding. */
  function Delete(s: State, p: PageId, left: PageData): State
    requires CanDelete(s, p)
  {
    var d := s.disk[p := left];
    if p in s.table && s.table[p] < |s.frames| then
      var f := s.table[p];
      s.(frames := s.frames[f := EmptyFrame()], table := s.table - {p}, free := s.free + [f],
         arc := if f in s.arc.evictable then A.Forget(s.arc, f) else s.arc, disk := d)
    else s.(disk := d)
  }

  /** A flush writes the frame out and, as a separate step, clears the dirty bit. */
  function FlushWrite(s: State, p: PageId, f: FrameId): State
    requires f < |s.frames|
  {
    s.(disk := s.disk[p := s.frames[f].data])
  }

  function SetDirty(s: State, f: FrameId, dirty: bool): State
    requires f < |s.frames|
  {
    s.(frames := s.frames[f := s.frames[f].(dirty := dirty)])
  }

  /** A guard write sets the data and the dirty bit together. */
  function Store(s: State, f: FrameId, data: PageData): State
    requires f < |s.frames|
  {
    s.(frames := s.frames[f := s.frames[f].(data := data, dirty := true)])
  }

  /**** The structure of the pool ****/

  /** The page table and the frames' page ids are inverse to each other. */
  ghost predicate TableOk(frames: seq<Frame>, table: map<PageId, FrameId>) {
    && (forall p :: p in table ==> table[p] < |frames| && frames[table[p]].page == Some(p))
    && (forall f: FrameId :: f < |frames| && frames[f].page.Some? ==>
          frames[f].page.value in table && table[frames[f].page.value] == f)
  }

  /** The free list holds exactly the empty frames, each once; `taken` is the frame a miss is working on. */
  ghost predicate FreeOk(frames: seq<Frame>, free: seq<FrameId>, taken: Option<FrameId>) {
    && Distinct(free)
    && (forall f: FrameId :: f in free <==> f < |frames| && frames[f].page.None? && taken != Some(f))
    && (forall f: FrameId :: f < |frames| && frames[f].page.None? ==> frames[f].pins == 0)
    && (taken.Some? ==> taken.value < |frames| && frames[taken.value].pins == 0)
  }

  /** The replacer knows exactly the occupied frames, under the page they hold, evictable iff unpinned. */
  ghost predicate Agrees(frames: seq<Frame>, page: map<FrameId, PageId>, evictable: set<FrameId>, taken: Option<FrameId>) {
    && (forall f: FrameId :: f in page <==> f < |frames| && frames[f].page.Some? && taken != Some(f))
    && (forall f: FrameId :: f in page ==> frames[f].page == Some(page[f]))
    && (forall f: FrameId :: f in evictable <==> f in page && frames[f].pins == 0)
  }

  ghost predicate ArcOk(a: A.State, numFrames: nat) {
    A.WellFormed(a) && A.Exclusive(a) && a.capacity == numFrames
  }

  ghost predicate Inv(s: State, taken: Option<FrameId>) {
    && TableOk(s.frames, s.table) && FreeOk(s.frames, s.free, taken)
    && ArcOk(s.arc, |s.frames|) && Agrees(s.frames, s.arc.page, s.arc.evictable, taken)
  }

  /** Resident and clean implies frame equals disk. */
  ghost predicate CleanOk(s: State) {
    forall f: FrameId :: 0 <= f < |s.frames| && s.frames[f].page.Some? && !s.frames[f].dirty ==>
      s.frames[f].data == Get(s.disk, s.frames[f].page.value)
  }

  ghost predicate SameContent(s: State, s': State) {
    forall p :: Logical(s', p) == Logical(s, p)
  }

  function Initial(numFrames: nat, disk: map<PageId, PageData>): State {
    State(seq(numFrames, _ => EmptyFrame()), map[], seq(numFrames, i => i), A.Initial(numFrames), disk)
  }

  lemma {:induction false} InitialInv(numFrames: nat, disk: map<PageId, PageData>)
    ensures Inv(Initial(numFrames, disk), None) && CleanOk(Initial(numFrames, disk))
  {
    var s := Initial(numFrames, disk);
    forall f: FrameId | 0 <= f < numFrames
      ensures f in s.free
    {
      assert s.free[f] == f;
    }
  }

  /**** Effect of one changed frame on each part ****/

  lemma {:induction false} TableKeep(frames: seq<Frame>, table: map<PageId, FrameId>, f: FrameId, fr: Frame)
    requires TableOk(frames, table) && f < |frames| && fr.page == frames[f].page
    ensures TableOk(frames[f := fr], table)
  {
  }

  lemma {:induction false} TableMove(frames: seq<Frame>, table: map<PageId, FrameId>, f: FrameId, p: PageId, fr: Frame)
    requires TableOk(frames, table) && f < |frames| && p !in table && fr.page == Some(p)
    ensures frames[f].page.Some? ==> TableOk(frames[f := fr], (table - {frames[f].page.value})[p := f])
    ensures frames[f].page.None? ==> TableOk(frames[f := fr], table[p := f])
  {
  }

  lemma {:induction false} TableDelete(frames: seq<Frame>, table: map<PageId, FrameId>, p: PageId)
    requires TableOk(frames, table) && p in table
    ensures TableOk(frames[table[p] := EmptyFrame()], table - {p})
  {
  }

  lemma {:induction false} FreeKeep(frames: seq<Frame>, free: seq<FrameId>, taken: Option<FrameId>, f: FrameId, fr: Frame)
    requires FreeOk(frames, free, taken) && f < |frames| && fr.page == frames[f].page
    requires fr.pins == frames[f].pins || (frames[f].page.Some? && taken.None?)
    ensures FreeOk(frames[f := fr], free, taken)
  {
  }

  lemma {:induction false} FreeTake(frames: seq<Frame>, free: seq<FrameId>)
    requires FreeOk(frames, free, None) && free != []
    ensures FreeOk(frames, free[1..], Some(free[0]))
  {
    assert free == [free[0]] + free[1..];
  }

  lemma {:induction false} FreeEvict(frames: seq<Frame>, f: FrameId)
    requires FreeOk(frames, [], None) && f < |frames| && frames[f].pins == 0
    ensures FreeOk(frames, [], Some(f))
  {
    assert f !in [];
  }

  lemma {:induction false} FreeInstall(frames: seq<Frame>, free: seq<FrameId>, f: FrameId, fr: Frame)
    requires FreeOk(frames, free, Some(f)) && fr.page.Some?
    ensures FreeOk(frames[f := fr], free, None)
  {
  }

  lemma {:induction false} FreeDelete(frames: seq<Frame>, free: seq<FrameId>, f: FrameId)
    requires FreeOk(frames, free, None) && f < |frames| && frames[f].page.Some?
    ensures FreeOk(frames[f := EmptyFrame()], free + [f], None)
  {
    hide ZeroPage;
    assert f !in free;
  }

  lemma {:induction false} AgreesKeep(frames: seq<Frame>, page: map<FrameId, PageId>, ev: set<FrameId>, taken: Option<FrameId>, f: FrameId, fr: Frame)
    requires Agrees(frames, page, ev, taken) && f < |frames|
    requires fr.page == frames[f].page && (fr.pins == 0 <==> frames[f].pins == 0)
    ensures Agrees(frames[f := fr], page, ev, taken)
  {
  }

  lemma {:induction false} AgreesPin(frames: seq<Frame>, page: map<FrameId, PageId>, ev: set<FrameId>, f: FrameId, fr: Frame)
    requires Agrees(frames, page, ev, None) && f in page && fr.page == frames[f].page && fr.pins > 0
    ensures Agrees(frames[f := fr], page, ev - {f}, None)
  {
  }

  lemma {:induction false} AgreesUnpin(frames: seq<Frame>, page: map<FrameId, PageId>, ev: set<FrameId>, f: FrameId, fr: Frame)
    requires Agrees(frames, page, ev, None) && f in page && fr.page == frames[f].page && fr.pins == 0
    ensures Agrees(frames[f := fr], page, ev + {f}, None)
  {
  }

  lemma {:induction false} AgreesTake(frames: seq<Frame>, page: map<FrameId, PageId>, ev: set<FrameId>, f: FrameId)
    requires Agrees(frames, page, ev, None)
    ensures Agrees(frames, page - {f}, ev - {f}, Some(f))
  {
  }

  lemma {:induction false} AgreesInstall(frames: seq<Frame>, page: map<FrameId, PageId>, ev: set<FrameId>, f: FrameId, p: PageId, fr: Frame)
    requires Agrees(frames, page, ev, Some(f)) && f < |frames| && fr.page == Some(p) && fr.pins > 0
    ensures Agrees(frames[f := fr], page[f := p], ev - {f}, None)
  {
  }

  lemma {:induction false} AgreesDelete(frames: seq<Frame>, page: map<FrameId, PageId>, ev: set<FrameId>, f: FrameId)
    requires Agrees(frames, page, ev, None) && f < |frames|
    ensures Agrees(frames[f := EmptyFrame()], page - {f}, ev - {f}, None)
  {
  }

  lemma {:induction false} TouchEffect(a: A.State, f: FrameId, p: PageId, t: AccessType)
    requires A.WellFormed(a) && A.Exclusive(a)
    requires forall g :: g in a.page && g != f ==> a.page[g] != p
    ensures ArcOk(Touch(a, f, p, t), a.capacity)
    ensures Touch(a, f, p, t).page == a.page[f := p] && Touch(a, f, p, t).evictable == a.evictable - {f}
  {
    A.RecordAccessWellFormed(a, f, p, t);
    A.RecordAccessEffect(a, f, p, t);
    A.RecordAccessExclusive(a, f, p, t);
    hide A.RecordAccess;
  }

  /**** Every piece keeps the structure ****/

  /** A change of data or dirty bit alone. */
  lemma {:induction false} EditInv(s: State, taken: Option<FrameId>, f: FrameId, fr: Frame)
    requires Inv(s, taken) && f < |s.frames| && fr.page == s.frames[f].page && fr.pins == s.frames[f].pins
    ensures Inv(s.(frames := s.frames[f := fr]), taken)
  {
    TableKeep(s.frames, s.table, f, fr);
    FreeKeep(s.frames, s.free, taken, f, fr);
    AgreesKeep(s.frames, s.arc.page, s.arc.evictable, taken, f, fr);
    hide TableOk, FreeOk, Agrees, ArcOk;
  }

  lemma {:induction false} HitInv(s: State, p: PageId, t: AccessType)
    requires Inv(s, None) && p in s.table
    ensures s.table[p] < |s.frames| && Inv(Hit(s, p, t), None)
  {
    var f := s.table[p];
    var fr := s.frames[f].(pins := s.frames[f].pins + 1);
    assert f in s.arc.page && s.arc.page[f] == p;
    TouchEffect(s.arc, f, p, t);
    assert s.arc.page[f := p] == s.arc.page;
    TableKeep(s.frames, s.table, f, fr);
    FreeKeep(s.frames, s.free, None, f, fr);
    AgreesPin(s.frames, s.arc.page, s.arc.evictable, f, fr);
    hide TableOk, FreeOk, Agrees, ArcOk, Touch;
  }

  lemma {:induction false} TakeInv(s: State)
    requires Inv(s, None) && Choice(s).Some?
    ensures Choice(s).value < |s.frames|
    ensures Inv(Take(s), Choice(s))
    ensures Take(s).table == s.table && Take(s).frames == s.frames && Take(s).disk == s.disk
  {
    var f := Choice(s).value;
    if s.free == [] {
      A.EvictEffect(s.arc, f);
      A.EvictWellFormed(s.arc);
      A.EvictExclusive(s.arc);
      FreeEvict(s.frames, f);
      AgreesTake(s.frames, s.arc.page, s.arc.evictable, f);
      hide TableOk, FreeOk, Agrees, A.Evict, A.WellFormed, A.Exclusive, A.Victim;
    } else {
      assert f in s.free && f !in s.arc.page;
      FreeTake(s.frames, s.free);
      AgreesTake(s.frames, s.arc.page, s.arc.evictable, f);
      assert s.arc.page - {f} == s.arc.page && s.arc.evictable - {f} == s.arc.evictable;
      hide TableOk, FreeOk, Agrees, ArcOk;
    }
  }

  lemma {:induction false} WriteBackInv(s: State, f: FrameId)
    requires Inv(s, Some(f))
    ensures f < |s.frames| && Inv(WriteBack(s, f), Some(f))
  {
    EditInv(s, Some(f), f, s.frames[f].(dirty := false));
    hide TableOk, FreeOk, Agrees, ArcOk;
  }

  lemma {:induction false} InstallInv(s: State, f: FrameId, p: PageId, t: AccessType)
    requires Inv(s, Some(f)) && p !in s.table
    ensures f < |s.frames| && Inv(Install(s, f, p, t), None)
  {
    var fr := Frame(Some(p), 1, false, Get(s.disk, p));
    assert forall g :: g in s.arc.page ==> s.arc.page[g] in s.table;
    TouchEffect(s.arc, f, p, t);
    TableMove(s.frames, s.table, f, p, fr);
    FreeInstall(s.frames, s.free, f, fr);
    AgreesInstall(s.frames, s.arc.page, s.arc.evictable, f, p, fr);
    hide TableOk, FreeOk, Agrees, ArcOk, Touch, Get;
  }

  lemma {:induction false} UnpinInv(s: State, f: FrameId)
    requires Inv(s, None) && f < |s.frames| && s.frames[f].pins > 0
    ensures Inv(Unpin(s, f), None)
  {
    hide TableOk, FreeOk, Agrees, ArcOk;
    var fr := s.frames[f].(pins := s.frames[f].pins - 1);
    PinnedAlive(s, f);
    TableKeep(s.frames, s.table, f, fr);
    FreeKeep(s.frames, s.free, None, f, fr);
    if fr.pins == 0 {
      AgreesUnpin(s.frames, s.arc.page, s.arc.evictable, f, fr);
    } else {
      AgreesKeep(s.frames, s.arc.page, s.arc.evictable, None, f, fr);
    }
    MarkOk(s.arc, |s.frames|, f);
  }

  lemma {:induction false} PinnedAlive(s: State, f: FrameId)
    requires Inv(s, None) && f < |s.frames| && s.frames[f].pins > 0
    ensures f in s.arc.page && s.frames[f].page.Some?
  {
    hide TableOk, ArcOk;
  }

  lemma {:induction false} MarkOk(a: A.State, numFrames: nat, f: FrameId)
    requires ArcOk(a, numFrames) && f in a.page
    ensures ArcOk(A.SetEvictable(a, f, true), numFrames)
  {
  }

  lemma {:induction false} DeleteInv(s: State, p: PageId, left: PageData)
    requires Inv(s, None) && CanDelete(s, p)
    ensures Inv(Delete(s, p, left), None)
  {
    if p in s.table {
      var f := s.table[p];
      assert f in s.arc.evictable;
      ForgetOk(s.arc, |s.frames|, f);
      hide TableOk, FreeOk, Agrees, ArcOk, A.Forget;
      TableDelete(s.frames, s.table, p);
      FreeDelete(s.frames, s.free, f);
      AgreesDelete(s.frames, s.arc.page, s.arc.evictable, f);
    }
  }

  lemma {:induction false} ForgetOk(a: A.State, numFrames: nat, f: FrameId)
    requires ArcOk(a, numFrames)
    ensures ArcOk(A.Forget(a, f), numFrames)
    ensures A.Forget(a, f).page == a.page - {f} && A.Forget(a, f).evictable == a.evictable - {f}
  {
    A.ForgetWellFormed(a, f);
    hide A.WellFormed;
  }

  /**** Every piece keeps clean frames equal to disk, and the content of every page ****/

  lemma {:induction false} HitContent(s: State, p: PageId, t: AccessType)
    requires Inv(s, None) && CleanOk(s) && p in s.table
    ensures CleanOk(Hit(s, p, t)) && SameContent(s, Hit(s, p, t))
  {
    hide Touch, FreeOk, Agrees, ArcOk, CleanOk, SameContent;
    assert s.table[p] < |s.frames|;
    PinContent(s, s.table[p], s.frames[s.table[p]].pins + 1, Touch(s.arc, s.table[p], p, t));
  }

  lemma {:induction false} PinContent(s: State, f: FrameId, pins: nat, arc: A.State)
    requires CleanOk(s) && f < |s.frames|
    ensures
      var s' := s.(frames := s.frames[f := s.frames[f].(pins := pins)], arc := arc);
      CleanOk(s') && SameContent(s, s')
  {
  }

  lemma {:induction false} WriteBackContent(s: State, f: FrameId)
    requires TableOk(s.frames, s.table) && CleanOk(s) && f < |s.frames|
    ensures CleanOk(WriteBack(s, f)) && SameContent(s, WriteBack(s, f))
    ensures WriteBack(s, f).frames[f].page.Some? ==> !WriteBack(s, f).frames[f].dirty
    ensures WriteBack(s, f).table == s.table
  {
  }

  lemma {:induction false} InstallContent(s: State, f: FrameId, p: PageId, t: AccessType)
    requires TableOk(s.frames, s.table) && CleanOk(s) && f < |s.frames| && p !in s.table
    requires s.frames[f].page.Some? ==> !s.frames[f].dirty
    ensures CleanOk(Install(s, f, p, t)) && SameContent(s, Install(s, f, p, t))
  {
    hide Touch;
  }

  lemma {:induction false} UnpinContent(s: State, f: FrameId)
    requires CleanOk(s) && f < |s.frames| && s.frames[f].pins > 0
    ensures CleanOk(Unpin(s, f)) && SameContent(s, Unpin(s, f))
  {
  }

  /** A deletion touches the content of no other page. */
  lemma {:induction false} DeleteContent(s: State, p: PageId, left: PageData)
    requires Inv(s, None) && CleanOk(s) && CanDelete(s, p)
    ensures CleanOk(Delete(s, p, left))
    ensures forall q :: Logical(Delete(s, p, left), q) == if q == p then left else Logical(s, q)
  {
    hide ArcOk, Agrees, FreeOk, A.Forget;
  }

  lemma {:induction false} FlushWriteContent(s: State, p: PageId, f: FrameId)
    requires TableOk(s.frames, s.table) && CleanOk(s) && p in s.table && s.table[p] == f
    ensures CleanOk(FlushWrite(s, p, f)) && SameContent(s, FlushWrite(s, p, f))
  {
  }

  /** Clearing the dirty bit is right exactly when the disk holds the frame's data. */
  lemma {:induction false} ClearContent(s: State, p: PageId, f: FrameId)
    requires TableOk(s.frames, s.table) && CleanOk(s) && p in s.table && s.table[p] == f
    ensures CleanOk(SetDirty(s, f, false)) <==> s.frames[f].data == Get(s.disk, p)
    ensures SameContent(s, SetDirty(s, f, false))
  {
    assert SetDirty(s, f, false).frames[f].page == Some(p);
  }

  lemma {:induction false} DirtyContent(s: State, f: FrameId)
    requires CleanOk(s) && f < |s.frames|
    ensures CleanOk(SetDirty(s, f, true)) && SameContent(s, SetDirty(s, f, true))
    ensures SameContent(s, s)
  {
  }

  lemma {:induction false} StoreContent(s: State, p: PageId, f: FrameId, data: PageData)
    requires TableOk(s.frames, s.table) && CleanOk(s) && p in s.table && s.table[p] == f
    ensures CleanOk(Store(s, f, data))
    ensures forall q :: Logical(Store(s, f, data), q) == if q == p then data else Logical(s, q)
  {
  }

  /**** Consequences ****/

  /** A miss finds a frame exactly when some frame is not pinned. */
  lemma {:induction false} ChoiceExists(s: State)
    requires Inv(s, None)
    ensures Choice(s).None? <==> forall f: FrameId :: 0 <= f < |s.frames| ==> s.frames[f].pins > 0
  {
    A.VictimExists(s.arc);
    if s.free == [] && Choice(s).None? {
      forall f: FrameId | 0 <= f < |s.frames|
        ensures s.frames[f].pins > 0
      {
        assert f !in s.free && f in s.arc.page;
      }
    }
    if Choice(s).Some? {
      TakeInv(s);
      assert s.frames[Choice(s).value].pins == 0;
    }
  }

  /** Free list and page table split the frames, and the page table is injective. */
  lemma {:induction false} Partition(s: State)
    requires Inv(s, None)
    ensures Elems(s.free) !! s.table.Values && Elems(s.free) + s.table.Values == Below(|s.frames|)
    ensures forall p, q :: p in s.table && q in s.table && p != q ==> s.table[p] != s.table[q]
  {
    hide ArcOk, Agrees;
    forall f: FrameId | f < |s.frames| && f !in s.free
      ensures f in s.table.Values
    {
      assert s.table[s.frames[f].page.value] == f;
    }
    forall f | f in s.table.Values
      ensures f < |s.frames| && f !in s.free
    {
      var p :| p in s.table && s.table[p] == f;
    }
  }

  lemma {:induction false} PartitionSize(s: State)
    requires Inv(s, None)
    ensures |s.free| + |s.table| == |s.frames|
  {
    Partition(s);
    TableValues(s.table);
    ElemsSize(s.free);
    hide TableOk, ArcOk, Agrees;
  }

  lemma {:induction false} TableValues(table: map<PageId, FrameId>)
    requires forall p, q :: p in table && q in table && p != q ==> table[p] != table[q]
    ensures |table.Values| == |table|
  {
    if table.Keys == {} {
      assert table == map[];
    } else {
      var p :| p in table;
      var rest := table - {p};
      TableValues(rest);
      forall f | f in table.Values && f != table[p]
        ensures f in rest.Values
      {
        var q :| q in table && table[q] == f;
        assert rest[q] == f;
      }
      assert rest.Values == table.Values - {table[p]};
      assert rest.Keys == table.Keys - {p};
    }
  }

  /** Where the pool calls RecordAccess, the frame is not alive under another page. */
  lemma {:induction false} NoPageMismatch(s: State, taken: Option<FrameId>, p: PageId, f: FrameId)
    requires Inv(s, taken) && f in s.arc.page
    requires (p in s.table && s.table[p] == f) || taken == Some(f)
    ensures A.IsHit(s.arc, f, p)
  {
  }

  /** Remove inside DeletePage never throws: the frame is evictable. */
  lemma {:induction false} RemoveNeverThrows(s: State, p: PageId)
    requires Inv(s, None) && p in s.table && CanDelete(s, p)
    ensures s.table[p] in s.arc.evictable
  {
    assert s.table[p] in s.arc.page;
  }
}
