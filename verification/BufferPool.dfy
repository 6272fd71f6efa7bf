/**
 The buffer pool manager, run under its latch: a frame array, a page table, a free list, a replacer
 and a disk, updated in place. Every method is one latched section, proved against the pool on values.
 */
module BufferPool {
  import opened Sequences
  import A = Arc
  import R = ArcReplacing
  import opened Pool

  /** What flushing the pages in `done` makes of the pool. */
  ghost predicate FlushedPages(s: State, s': State, done: set<PageId>) {
    && s' == s.(frames := s'.frames, disk := s'.disk) && |s'.frames| == |s.frames|
    && (forall f: FrameId :: f < |s.frames| ==> s'.frames[f] == FrameAfter(s.frames[f], done))
    && (forall p :: p in s'.disk <==> p in s.disk || WritesOut(s, done, p))
    && (forall p :: p in s'.disk ==>
          s'.disk[p] == if WritesOut(s, done, p) then s.frames[s.table[p]].data else s.disk[p])
  }

  function FrameAfter(fr: Frame, done: set<PageId>): Frame {
    if fr.page.Some? && fr.page.value in done then fr.(dirty := false) else fr
  }

  /** Flushing the pages in `done` writes p to disk: p is among them, resident and dirty. */
  predicate WritesOut(s: State, done: set<PageId>, p: PageId) {
    p in done && p in s.table && s.table[p] < |s.frames| && s.frames[s.table[p]].dirty
  }

  lemma {:induction false} FlushedNone(s: State)
    ensures FlushedPages(s, s, {})
  {
  }

  /** One more page flushed. */
  lemma {:induction false} FlushedOneMore(s: State, s': State, s'': State, done: set<PageId>, p: PageId)
    requires TableOk(s.frames, s.table) && FlushedPages(s, s', done) && p in s.table && p !in done
    requires s'' == if s'.frames[s.table[p]].dirty
                    then SetDirty(FlushWrite(s', p, s.table[p]), s.table[p], false) else s'
    ensures FlushedPages(s, s'', done + {p})
  {
  }

  /** After flushing every resident page, all are clean, and disk and memory agree on each. */
  lemma {:induction false} FlushedAll(s: State, s': State)
    requires Inv(s, None) && CleanOk(s) && FlushedPages(s, s', s.table.Keys)
    ensures Inv(s', None) && CleanOk(s') && SameContent(s, s')
    ensures forall f: FrameId :: f < |s'.frames| && s'.frames[f].page.Some? ==> !s'.frames[f].dirty
    ensures forall p :: Get(s'.disk, p) == Logical(s, p)
  {
    FlushedInv(s, s', s.table.Keys);
    forall p
      ensures Get(s'.disk, p) == Logical(s, p) && Logical(s', p) == Logical(s, p)
    {
      FlushedContent(s, s', p);
    }
    FlushedClean(s, s');
    hide FlushedPages, ArcOk, Agrees, FreeOk, TableOk, ZeroPage, Get, Logical;
  }

  lemma {:induction false} FlushedContent(s: State, s': State, p: PageId)
    requires TableOk(s.frames, s.table) && CleanOk(s) && FlushedPages(s, s', s.table.Keys)
    ensures Get(s'.disk, p) == Logical(s, p) && Logical(s', p) == Logical(s, p)
  {
    if p in s.table && !s.frames[s.table[p]].dirty {
      assert s.frames[s.table[p]].data == Get(s.disk, p);
    }
    hide ZeroPage;
  }

  lemma {:induction false} FlushedClean(s: State, s': State)
    requires TableOk(s.frames, s.table) && FlushedPages(s, s', s.table.Keys)
    requires forall p :: Get(s'.disk, p) == Logical(s, p)
    ensures CleanOk(s') && forall f: FrameId :: f < |s'.frames| && s'.frames[f].page.Some? ==> !s'.frames[f].dirty
  {
    hide Get;
  }

  lemma {:induction false} FlushedInv(s: State, s': State, done: set<PageId>)
    requires Inv(s, None) && FlushedPages(s, s', done)
    ensures Inv(s', None)
  {
    assert forall f: FrameId :: f < |s.frames| ==> s'.frames[f].page == s.frames[f].page && s'.frames[f].pins == s.frames[f].pins;
    hide FlushedPages;
    FramesInv(s, s');
  }

  lemma {:induction false} FramesInv(s: State, s': State)
    requires Inv(s, None) && |s'.frames| == |s.frames| && s'.table == s.table && s'.free == s.free && s'.arc == s.arc
    requires forall f: FrameId :: f < |s.frames| ==> s'.frames[f].page == s.frames[f].page && s'.frames[f].pins == s.frames[f].pins
    ensures Inv(s', None)
  {
    hide ArcOk;
  }

  class BufferPoolManager {
    const numFrames: nat
    const frames: array<Frame>
    const replacer: R.ArcReplacer
    var nextPageId: PageId
    var pageTable: map<PageId, FrameId>
    var freeFrames: seq<FrameId>
    var disk: map<PageId, PageData>

    ghost function Snapshot(): State
      reads this, frames, replacer
    {
      State(frames[..], pageTable, freeFrames, replacer.Abs(), disk)
    }

    ghost predicate Valid()
      reads this, frames, replacer
    {
      replacer.Valid() && frames.Length == numFrames && Inv(Snapshot(), None) && CleanOk(Snapshot())
    }

    constructor (count: nat, onDisk: map<PageId, PageData>)
      ensures Valid() && fresh(frames) && fresh(replacer)
      ensures numFrames == count && nextPageId == 0 && Snapshot() == Initial(count, onDisk)
    {
      numFrames := count;
      nextPageId := 0;
      var headers := new Frame[count](_ => EmptyFrame());
      frames := headers;
      replacer := new R.ArcReplacer(count);
      pageTable := map[];
      disk := onDisk;
      freeFrames := [];
      new;
      for i := 0 to count
        modifies this`freeFrames
        invariant freeFrames == seq(i, j => j)
      {
        freeFrames := freeFrames + [i];
      }
      InitialInv(count, onDisk);
      assert frames[..] == seq(count, _ => EmptyFrame());
    }

    method NewPage() returns (p: PageId)
      requires Valid()
      modifies this`nextPageId
      ensures Valid() && p == old(nextPageId) && nextPageId == p + 1 && Snapshot() == old(Snapshot())
    {
      p := nextPageId;
      nextPageId := nextPageId + 1;
    }

    method GetPinCount(p: PageId) returns (n: Option<nat>)
      requires Valid()
      ensures n.None? <==> p !in pageTable
      ensures n.Some? ==> pageTable[p] < frames.Length && n.value == frames[pageTable[p]].pins
    {
      if p !in pageTable {
        return None;
      }
      assert pageTable[p] < frames.Length;
      n := Some(frames[pageTable[p]].pins);
    }

    /** RecordAccess and SetEvictable(false) on an occupied frame. */
    method RecordPinned(f: FrameId, p: PageId, t: AccessType)
      requires replacer.Valid()
      modifies replacer
      ensures replacer.Valid() && replacer.Abs() == Touch(old(replacer.Abs()), f, p, t)
    {
      var ok := replacer.RecordAccess(f, p, t);
      ok := replacer.SetEvictable(f, false);
    }

    /** `left` is what the deallocated disk page is left holding. */
    method DeletePage(p: PageId, left: PageData) returns (ok: bool)
      requires Valid()
      modifies this`pageTable, this`freeFrames, this`disk, frames, replacer
      ensures Valid() && (p in old(pageTable) ==> old(pageTable)[p] < |old(frames[..])|)
      ensures ok <==> p !in old(pageTable) || old(frames[..])[old(pageTable)[p]].pins == 0
      ensures ok ==> p !in pageTable && (forall q :: q != p ==> (q in pageTable <==> q in old(pageTable)))
      ensures ok && p in old(pageTable) ==>
        frames[old(pageTable)[p]] == EmptyFrame() && freeFrames == old(freeFrames) + [old(pageTable)[p]]
      ensures ok ==> Get(disk, p) == left
      ensures Snapshot() == if ok then Delete(old(Snapshot()), p, left) else old(Snapshot())
    {
      hide R.ArcReplacer.Valid, R.ArcReplacer.Abs, Inv, CleanOk, A.Forget, ZeroPage;
      ghost var s := Snapshot();
      TableBound(s, p);
      if p in pageTable && frames[pageTable[p]].pins > 0 {
        return false;
      }
      DeleteInv(s, p, left);
      DeleteContent(s, p, left);
      if p in pageTable {
        RemoveNeverThrows(s, p);
        ReleaseFrame(p);
      }
      disk := disk[p := left];
      ok := true;
    }

    method ReleaseFrame(p: PageId)
      requires replacer.Valid() && p in pageTable && pageTable[p] < frames.Length && pageTable[p] in replacer.Abs().evictable
      modifies this`pageTable, this`freeFrames, frames, replacer
      ensures replacer.Valid() && pageTable == old(pageTable) - {p} && freeFrames == old(freeFrames) + [old(pageTable)[p]]
      ensures frames[..] == old(frames[..])[old(pageTable)[p] := EmptyFrame()]
      ensures replacer.Abs() == A.Forget(old(replacer.Abs()), old(pageTable)[p])
    {
      hide R.ArcReplacer.Valid, R.ArcReplacer.Abs, A.Forget, ZeroPage;
      var f := pageTable[p];
      var removed := replacer.Remove(f);
      assert removed;
      pageTable := pageTable - {p};
      frames[f] := EmptyFrame();
      freeFrames := freeFrames + [f];
    }

    /** The frame a miss uses: from the free list, else from the replacer. */
    method TakeFrame() returns (r: Option<FrameId>)
      requires replacer.Valid()
      modifies this`freeFrames, replacer
      ensures replacer.Valid() && r == Choice(old(Snapshot()))
      ensures A.WellFormed(old(replacer.Abs()))
      ensures r.Some? ==> Snapshot() == Take(old(Snapshot()))
      ensures r.None? ==> Snapshot() == old(Snapshot())
    {
      replacer.AbsWellFormed();
      hide A.WellFormed;
      if freeFrames != [] {
        r := Some(freeFrames[0]);
        freeFrames := freeFrames[1..];
      } else {
        r := replacer.Evict();
      }
    }

    /** The taken frame's old page is written back if dirty, and unmapped. */
    method EvictPage(f: FrameId)
      requires f < frames.Length
      modifies this`pageTable, this`disk, frames
      ensures
        var s, fr := WriteBack(old(Snapshot()), f), old(frames[f]);
        Snapshot() == s.(table := if fr.page.Some? then s.table - {fr.page.value} else s.table)
    {
      hide R.ArcReplacer.Abs;
      if frames[f].page.Some? {
        var was := frames[f].page.value;
        if frames[f].dirty {
          disk := disk[was := frames[f].data];
          frames[f] := frames[f].(dirty := false);
        }
        pageTable := pageTable - {was};
      }
      assert frames[..] == WriteBack(old(Snapshot()), f).frames;
    }

    /** The frame is reset, read, pinned and mapped. */
    method LoadPage(f: FrameId, p: PageId, t: AccessType)
      requires replacer.Valid() && f < frames.Length
      modifies this`pageTable, frames, replacer
      ensures replacer.Valid() && pageTable == old(pageTable)[p := f]
      ensures frames[..] == old(frames[..])[f := Frame(Some(p), 1, false, Get(disk, p))]
      ensures replacer.Abs() == Touch(old(replacer.Abs()), f, p, t)
    {
      hide R.ArcReplacer.Valid, R.ArcReplacer.Abs, Touch, ZeroPage, Get;
      frames[f] := EmptyFrame();
      frames[f] := frames[f].(data := Get(disk, p));
      frames[f] := frames[f].(pins := 1);
      frames[f] := frames[f].(dirty := false);
      frames[f] := frames[f].(page := Some(p));
      pageTable := pageTable[p := f];
      RecordPinned(f, p, t);
    }

    method LoadFrame(f: FrameId, p: PageId, t: AccessType)
      requires replacer.Valid() && f < frames.Length
      modifies this`pageTable, this`disk, frames, replacer
      ensures replacer.Valid() && Snapshot() == Install(WriteBack(old(Snapshot()), f), f, p, t)
    {
      hide R.ArcReplacer.Valid, R.ArcReplacer.Abs, Touch, ZeroPage, Get;
      ghost var s := Snapshot();
      EvictPage(f);
      LoadPage(f, p, t);
      assert frames[..] == Install(WriteBack(s, f), f, p, t).frames;
    }

    /** Fetch of a resident page. */
    method PinResident(p: PageId, t: AccessType) returns (f: FrameId)
      requires Valid() && p in pageTable
      modifies frames, replacer
      ensures Valid() && f == pageTable[p] && f < |old(Snapshot()).frames|
      ensures Snapshot() == Hit(old(Snapshot()), p, t) && SameContent(old(Snapshot()), Snapshot())
      ensures frames[f].page == Some(p) && frames[f].data == Logical(old(Snapshot()), p)
    {
      hide R.ArcReplacer.Valid, R.ArcReplacer.Abs, Inv, CleanOk, SameContent, Touch, Logical;
      ghost var s := Snapshot();
      TableBound(s, p);
      HitInv(s, p, t);
      HitContent(s, p, t);
      HitResult(s, p, t);
      f := pageTable[p];
      frames[f] := frames[f].(pins := frames[f].pins + 1);
      assert frames[..] == Hit(s, p, t).frames;
      RecordPinned(f, p, t);
    }

    /** Fetch of a page that is not resident. */
    method BringIn(p: PageId, t: AccessType) returns (r: Option<FrameId>)
      requires Valid() && p !in pageTable
      modifies this`pageTable, this`freeFrames, this`disk, frames, replacer
      ensures Valid() && A.WellFormed(old(replacer.Abs())) && SameContent(old(Snapshot()), Snapshot())
      ensures r == Choice(old(Snapshot()))
      ensures r.None? ==> Snapshot() == old(Snapshot())
      ensures r.Some? ==> r.value < |old(Snapshot()).frames| && Snapshot() == Miss(old(Snapshot()), p, t)
      ensures r.Some? ==> frames[r.value].page == Some(p) && frames[r.value].data == Logical(old(Snapshot()), p)
    {
      hide R.ArcReplacer.Valid, R.ArcReplacer.Abs, Inv, CleanOk, SameContent, Touch, Logical, A.WellFormed, Choice, Take, Install, WriteBack;
      ghost var s := Snapshot();
      r := TakeFrame();
      if r.None? {
        SameContentRefl(s);
      } else {
        MissInv(s, p, t);
        LoadFrame(r.value, p, t);
      }
    }

    /** The latched section shared by CheckedReadPage and CheckedWritePage; the caller then builds its guard. */
    method CheckedPage(p: PageId, t: AccessType) returns (r: Option<FrameId>)
      requires Valid()
      modifies this`pageTable, this`freeFrames, this`disk, frames, replacer
      ensures Valid() && A.WellFormed(old(replacer.Abs())) && SameContent(old(Snapshot()), Snapshot())
      ensures p in old(pageTable) ==>
        && r == Some(old(pageTable)[p]) && r.value < |old(Snapshot()).frames|
        && Snapshot() == Hit(old(Snapshot()), p, t)
      ensures p !in old(pageTable) ==> r == Choice(old(Snapshot()))
      ensures r.None? ==> Snapshot() == old(Snapshot())
      ensures p !in old(pageTable) && r.Some? ==>
        r.value < |old(Snapshot()).frames| && Snapshot() == Miss(old(Snapshot()), p, t)
      ensures r.None? <==>
        p !in old(pageTable) && forall f: FrameId :: 0 <= f < |old(frames[..])| ==> old(frames[..])[f].pins > 0
      ensures r.Some? ==> r.value < frames.Length && frames[r.value].page == Some(p)
      ensures r.Some? ==> frames[r.value].data == Logical(old(Snapshot()), p)
      ensures r.Some? ==> p in pageTable && pageTable[p] == r.value && r.value !in replacer.Abs().evictable
      ensures r.Some? ==>
        var was := old(frames[..])[r.value];
        if p in old(pageTable) then frames[r.value].pins == was.pins + 1 && frames[r.value].dirty == was.dirty
        else was.pins == 0 && frames[r.value].pins == 1 && !frames[r.value].dirty
    {
      hide R.ArcReplacer.Valid, R.ArcReplacer.Abs, Inv, CleanOk, SameContent, Logical, A.WellFormed, Choice, Miss, Hit;
      replacer.AbsWellFormed();
      ChoiceExists(Snapshot());
      ghost var s := Snapshot();
      TableBound(s, p);
      if p in pageTable {
        HitFrame(s, p, t);
        var f := PinResident(p, t);
        r := Some(f);
      } else {
        r := BringIn(p, t);
        if r.Some? {
          MissFrame(s, p, t);
        }
      }
      if r.Some? {
        PinnedNotEvictable(Snapshot(), r.value);
      }
    }

    /** The latched section of a guard's Drop. */
    method Unpin(f: FrameId)
      requires Valid() && f < frames.Length && frames[f].pins > 0
      modifies frames, replacer
      ensures Valid() && Snapshot() == Pool.Unpin(old(Snapshot()), f) && SameContent(old(Snapshot()), Snapshot())
    {
      hide R.ArcReplacer.Valid, R.ArcReplacer.Abs, Inv, CleanOk, SameContent;
      ghost var s := Snapshot();
      UnpinInv(s, f);
      UnpinContent(s, f);
      var pins := frames[f].pins;
      frames[f] := frames[f].(pins := pins - 1);
      if pins == 1 {
        var ok := replacer.SetEvictable(f, true);
      }
      assert frames[..] == Pool.Unpin(s, f).frames;
    }

    /** A write through a write guard. */
    method Store(p: PageId, f: FrameId, data: PageData)
      requires Valid() && p in pageTable && pageTable[p] == f && f < frames.Length
      modifies frames
      ensures Valid() && Snapshot() == Pool.Store(old(Snapshot()), f, data)
      ensures forall q :: Logical(Snapshot(), q) == if q == p then data else Logical(old(Snapshot()), q)
    {
      hide R.ArcReplacer.Valid, R.ArcReplacer.Abs, FreeOk, ArcOk, Agrees, TableOk, CleanOk, Logical;
      ghost var s := Snapshot();
      EditInv(s, None, f, s.frames[f].(data := data, dirty := true));
      StoreContent(s, p, f, data);
      frames[f] := frames[f].(data := data, dirty := true);
      assert frames[..] == s.frames[f := s.frames[f].(data := data, dirty := true)];
    }

    /** FlushPage and FlushPageUnsafe differ only in the page latch. */
    method FlushPage(p: PageId) returns (found: bool)
      requires Valid()
      modifies this`disk, frames
      ensures Valid() && found == (p in pageTable) && FlushedPages(old(Snapshot()), Snapshot(), {p})
      ensures SameContent(old(Snapshot()), Snapshot())
      ensures found ==> Get(disk, p) == Logical(old(Snapshot()), p)
    {
      hide R.ArcReplacer.Valid, R.ArcReplacer.Abs, Inv, CleanOk, SameContent, FlushedPages, Get, Logical;
      ghost var s := Snapshot();
      TableBound(s, p);
      if p in pageTable {
        FlushOneInv(s, p);
        FlushedOne(s, p);
        WriteOut(p);
      } else {
        SameContentRefl(s);
        FlushedAbsent(s, p);
      }
      found := p in pageTable;
    }

    method WriteOut(p: PageId)
      requires p in pageTable && pageTable[p] < frames.Length
      modifies this`disk, frames
      ensures Snapshot() == FlushOne(old(Snapshot()), p)
    {
      ghost var s := Snapshot();
      var f := pageTable[p];
      if frames[f].dirty {
        disk := disk[p := frames[f].data];
        frames[f] := frames[f].(dirty := false);
      }
      assert frames[..] == FlushOne(s, p).frames;
    }

    method FlushAllPages()
      requires Valid()
      modifies this`disk, frames
      ensures Valid() && FlushedPages(old(Snapshot()), Snapshot(), pageTable.Keys)
      ensures SameContent(old(Snapshot()), Snapshot())
      ensures forall p :: Get(disk, p) == Logical(old(Snapshot()), p)
      ensures forall f: FrameId :: f < frames.Length && frames[f].page.Some? ==> !frames[f].dirty
    {
      hide R.ArcReplacer.Valid, R.ArcReplacer.Abs, Inv, CleanOk, SameContent, FlushedPages, Get, Logical, FlushOne;
      ghost var s := Snapshot();
      FlushedNone(s);
      assert pageTable.Keys - pageTable.Keys == {};
      var todo := pageTable.Keys;
      while todo != {}
        modifies this`disk, frames
        invariant todo <= pageTable.Keys && replacer.Valid() && pageTable == s.table
        invariant FlushedPages(s, Snapshot(), pageTable.Keys - todo)
        decreases todo
      {
        var p :| p in todo;
        ghost var mid := Snapshot();
        FlushStep(s, mid, p, pageTable.Keys - todo);
        WriteOut(p);
        assert pageTable.Keys - (todo - {p}) == pageTable.Keys - todo + {p};
        todo := todo - {p};
      }
      assert pageTable.Keys - todo == pageTable.Keys;
      FlushedAll(s, Snapshot());
    }
  }

  function FlushOne(s: State, p: PageId): State
    requires p in s.table && s.table[p] < |s.frames|
  {
    if s.frames[s.table[p]].dirty then SetDirty(FlushWrite(s, p, s.table[p]), s.table[p], false) else s
  }

  lemma {:induction false} FlushStep(s: State, mid: State, p: PageId, done: set<PageId>)
    requires Inv(s, None) && FlushedPages(s, mid, done) && p in s.table && p !in done
    ensures mid.table == s.table && s.table[p] < |mid.frames| && FlushedPages(s, FlushOne(mid, p), done + {p})
  {
    FlushedOneMore(s, mid, FlushOne(mid, p), done, p);
    hide FlushedPages;
  }

  lemma {:induction false} FlushOneInv(s: State, p: PageId)
    requires Inv(s, None) && CleanOk(s) && p in s.table
    ensures s.table[p] < |s.frames| && Inv(FlushOne(s, p), None) && CleanOk(FlushOne(s, p))
    ensures SameContent(s, FlushOne(s, p)) && Get(FlushOne(s, p).disk, p) == Logical(s, p)
  {
    var f := s.table[p];
    assert s.frames[f].page == Some(p);
    if s.frames[f].dirty {
      var w := FlushWrite(s, p, f);
      EditInv(w, None, f, w.frames[f].(dirty := false));
      FlushWriteContent(s, p, f);
      ClearContent(w, p, f);
    }
    hide FreeOk, ArcOk, Agrees, ZeroPage;
  }

  lemma {:induction false} TableBound(s: State, p: PageId)
    requires Inv(s, None)
    ensures p in s.table ==> s.table[p] < |s.frames|
    ensures p in s.table && CanDelete(s, p) ==> s.table[p] in s.arc.evictable
  {
    if p in s.table && CanDelete(s, p) {
      RemoveNeverThrows(s, p);
    }
  }

  lemma {:induction false} FlushedOne(s: State, p: PageId)
    requires Inv(s, None) && p in s.table
    ensures s.table[p] < |s.frames| && FlushedPages(s, FlushOne(s, p), {p})
  {
    FlushedNone(s);
    FlushedOneMore(s, s, FlushOne(s, p), {}, p);
    assert {} + {p} == {p};
  }

  lemma {:induction false} FlushedAbsent(s: State, p: PageId)
    requires Inv(s, None) && p !in s.table
    ensures FlushedPages(s, s, {p})
  {
  }

  lemma {:induction false} SameContentRefl(s: State)
    ensures SameContent(s, s)
  {
  }

  lemma {:induction false} HitResult(s: State, p: PageId, t: AccessType)
    requires Inv(s, None) && p in s.table
    ensures
      var f := s.table[p];
      f < |s.frames| && Hit(s, p, t).frames[f].page == Some(p) && Hit(s, p, t).frames[f].data == Logical(s, p)
  {
    hide Touch, ArcOk, Agrees, FreeOk;
  }

  lemma {:induction false} MissInv(s: State, p: PageId, t: AccessType)
    requires Inv(s, None) && CleanOk(s) && p !in s.table && Choice(s).Some?
    ensures A.WellFormed(s.arc) && Choice(s).value < |s.frames|
    ensures Inv(Miss(s, p, t), None) && CleanOk(Miss(s, p, t)) && SameContent(s, Miss(s, p, t))
    ensures
      var fr := Miss(s, p, t).frames[Choice(s).value];
      fr.page == Some(p) && fr.data == Logical(s, p)
  {
    var f := Choice(s).value;
    TakeInv(s);
    TakeContent(s);
    hide A.WellFormed, A.Exclusive, Choice, Take, TableOk, FreeOk, Agrees, CleanOk, SameContent, Touch;
    var taken := Take(s);
    WriteBackInv(taken, f);
    WriteBackContent(taken, f);
    InstallInv(WriteBack(taken, f), f, p, t);
    InstallContent(WriteBack(taken, f), f, p, t);
    SameContentTrans(s, taken, WriteBack(taken, f));
    SameContentTrans(s, WriteBack(taken, f), Miss(s, p, t));
    MissData(taken, f, p, t);
    SameContentAt(s, taken, p);
  }

  lemma {:induction false} TakeContent(s: State)
    requires Inv(s, None) && CleanOk(s) && Choice(s).Some?
    ensures CleanOk(Take(s)) && SameContent(s, Take(s))
  {
    TakeInv(s);
    hide A.WellFormed, A.Exclusive, Choice, Take, TableOk, FreeOk, Agrees;
  }

  lemma {:induction false} SameContentTrans(a: State, b: State, c: State)
    requires SameContent(a, b) && SameContent(b, c)
    ensures SameContent(a, c)
  {
  }

  lemma {:induction false} SameContentAt(a: State, b: State, p: PageId)
    requires SameContent(a, b)
    ensures Logical(b, p) == Logical(a, p)
  {
  }

  lemma {:induction false} MissData(s: State, f: FrameId, p: PageId, t: AccessType)
    requires TableOk(s.frames, s.table) && f < |s.frames| && p !in s.table
    ensures
      var fr := Install(WriteBack(s, f), f, p, t).frames[f];
      fr.page == Some(p) && fr.data == Logical(s, p)
  {
    hide Touch;
  }

  lemma {:induction false} HitFrame(s: State, p: PageId, t: AccessType)
    requires p in s.table && s.table[p] < |s.frames|
    ensures
      var f, s' := s.table[p], Hit(s, p, t);
      && |s'.frames| == |s.frames| && s'.table == s.table
      && s'.frames[f].pins == s.frames[f].pins + 1 && s'.frames[f].dirty == s.frames[f].dirty
  {
    hide Touch;
  }

  lemma {:induction false} MissFrame(s: State, p: PageId, t: AccessType)
    requires Inv(s, None) && p !in s.table && Choice(s).Some?
    ensures A.WellFormed(s.arc) && Choice(s).value < |s.frames|
    ensures
      var f, s' := Choice(s).value, Miss(s, p, t);
      && |s'.frames| == |s.frames| && p in s'.table && s'.table[p] == f
      && s.frames[f].pins == 0 && s'.frames[f].pins == 1 && !s'.frames[f].dirty
  {
    TakeInv(s);
    TakeKeepsFrames(s);
    hide A.WellFormed, A.Exclusive, Choice, Take, TableOk, Agrees, Touch, Get;
  }

  lemma {:induction false} TakeKeepsFrames(s: State)
    requires A.WellFormed(s.arc)
    ensures Take(s).frames == s.frames && Take(s).table == s.table
  {
    hide A.WellFormed, A.Evict;
  }

  lemma {:induction false} PinnedNotEvictable(s: State, f: FrameId)
    requires Inv(s, None) && f < |s.frames| && s.frames[f].pins > 0
    ensures f !in s.arc.evictable
  {
    hide TableOk, FreeOk, ArcOk;
  }
}
