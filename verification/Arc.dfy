/**
 The ARC replacement policy on plain sequences: four lists, the page held by each alive frame,
 the set of evictable frames and the adaptive target. This is the simple form that the hash-map
 and list-iterator replacer of module ArcReplacing refines.
 */
module Arc {
  import opened Sequences

  type FrameId = nat
  type PageId = nat

  datatype AccessType = Unknown | Lookup | Scan | Index

  datatype State = State(
    capacity: nat,            // replacer_size_, c in the ARC paper
    target: nat,              // mru_target_size_, p in the ARC paper
    mru: seq<FrameId>,        // oldest access first
    mfu: seq<FrameId>,        // newest access first
    mruGhost: seq<PageId>,    // oldest eviction first
    mfuGhost: seq<PageId>,    // newest eviction first
    page: map<FrameId, PageId>,
    evictable: set<FrameId>)

  function Initial(capacity: nat): State {
    State(capacity, 0, [], [], [], [], map[], {})
  }

  ghost predicate WellFormed(a: State) {
    && Distinct(a.mru) && Distinct(a.mfu)
    && Distinct(a.mruGhost) && Distinct(a.mfuGhost)
    && (forall f :: f in a.mru ==> f !in a.mfu)
    && (forall p :: p in a.mruGhost ==> p !in a.mfuGhost)
    && (forall f :: f in a.page <==> f in a.mru || f in a.mfu)
    && a.evictable <= a.page.Keys
    && a.target <= a.capacity
  }

  predicate IsGhost(a: State, p: PageId) {
    p in a.mruGhost || p in a.mfuGhost
  }

  /**** Eviction ****/

  /** The first position of s holding a member of ev. */
  function FirstIn(s: seq<FrameId>, ev: set<FrameId>): (r: Option<nat>)
    ensures r.None? <==> forall f :: f in s ==> f !in ev
    ensures r.Some? ==> r.value < |s| && s[r.value] in ev && forall j :: 0 <= j < r.value ==> s[j] !in ev
  {
    if s == [] then None
    else if s[0] in ev then Some(0)
    else
      assert s == [s[0]] + s[1..];
      match FirstIn(s[1..], ev)
      case None => None
      case Some(i) => Some(i + 1)
  }

  /** The last position of s holding a member of ev. */
  function LastIn(s: seq<FrameId>, ev: set<FrameId>): (r: Option<nat>)
    ensures r.None? <==> forall f :: f in s ==> f !in ev
    ensures r.Some? ==> r.value < |s| && s[r.value] in ev && forall j :: r.value < j < |s| ==> s[j] !in ev
  {
    if s == [] then None
    else if s[|s| - 1] in ev then Some(|s| - 1)
    else
      assert s == s[..|s| - 1] + [s[|s| - 1]];
      LastIn(s[..|s| - 1], ev)
  }

  lemma {:induction false} FirstInUnique(s: seq<FrameId>, ev: set<FrameId>, i: nat)
    requires i < |s| && s[i] in ev && forall j :: 0 <= j < i ==> s[j] !in ev
    ensures FirstIn(s, ev) == Some(i)
  {
    assert s[i] in s;
  }

  lemma {:induction false} LastInUnique(s: seq<FrameId>, ev: set<FrameId>, i: nat)
    requires i < |s| && s[i] in ev && forall j :: i < j < |s| ==> s[j] !in ev
    ensures LastIn(s, ev) == Some(i)
  {
    assert s[i] in s;
  }

  /** Removes every trace of an alive frame. */
  function Forget(a: State, f: FrameId): State {
    a.(mru := Without(a.mru, f), mfu := Without(a.mfu, f), page := a.page - {f}, evictable := a.evictable - {f})
  }

  function DropGhost(a: State, p: PageId): State {
    a.(mruGhost := Without(a.mruGhost, p), mfuGhost := Without(a.mfuGhost, p))
  }

  /** Turns an alive frame of the mru list into a ghost page: newest at the back. */
  function BuryMru(a: State, f: FrameId): State
    requires f in a.page
  {
    var b := DropGhost(Forget(a, f), a.page[f]);
    b.(mruGhost := b.mruGhost + [a.page[f]])
  }

  /** Turns an alive frame of the mfu list into a ghost page: newest at the front. */
  function BuryMfu(a: State, f: FrameId): State
    requires f in a.page
  {
    var b := DropGhost(Forget(a, f), a.page[f]);
    b.(mfuGhost := [a.page[f]] + b.mfuGhost)
  }

  /** The oldest evictable frame of each side, if there is one. */
  function MruVictim(a: State): Option<FrameId> {
    match FirstIn(a.mru, a.evictable)
    case None => None
    case Some(i) => Some(a.mru[i])
  }

  function MfuVictim(a: State): Option<FrameId> {
    match LastIn(a.mfu, a.evictable)
    case None => None
    case Some(i) => Some(a.mfu[i])
  }

  predicate PrefersMru(a: State) {
    |a.mru| >= a.target
  }

  function Victim(a: State): (v: Option<FrameId>)
    ensures v.Some? ==> v.value in a.evictable && (v.value in a.mru || v.value in a.mfu)
    ensures v.None? <==> forall f :: f in a.evictable ==> f !in a.mru && f !in a.mfu
  {
    if PrefersMru(a)
    then if MruVictim(a).Some? then MruVictim(a) else MfuVictim(a)
    else if MfuVictim(a).Some? then MfuVictim(a) else MruVictim(a)
  }

  /** The state after Evict; unchanged when there is no victim. */
  function Evict(a: State): State
    requires WellFormed(a)
  {
    match Victim(a)
    case None => a
    case Some(f) => if f in a.mru then BuryMru(a, f) else BuryMfu(a, f)
  }

  /**** Accesses ****/

  /** A hit on an alive frame whose page matches. */
  function Touch(a: State, f: FrameId, t: AccessType): State {
    if t.Scan?
    then a.(mru := Without(a.mru, f) + [f], mfu := Without(a.mfu, f))
    else a.(mru := Without(a.mru, f), mfu := [f] + Without(a.mfu, f))
  }

  function Max(x: nat, y: nat): nat { if x < y then y else x }
  function Min(x: nat, y: nat): nat { if x < y then x else y }

  /** How far one ghost hit moves the target. */
  function Delta(other: nat, own: nat): nat {
    Max(1, other / Max(1, own))
  }

  function AdaptSizes(mruHit: bool, capacity: nat, target: nat, b1: nat, b2: nat): nat {
    if mruHit then Min(capacity, target + Delta(b2, b1))
    else
      var delta := Delta(b1, b2);
      if target > delta then target - delta else 0
  }

  /** The target after a hit on ghost page p. */
  function Adapt(a: State, p: PageId): nat {
    AdaptSizes(p in a.mruGhost, a.capacity, a.target, |a.mruGhost|, |a.mfuGhost|)
  }

  function LeftSize(a: State): nat { |a.mru| + |a.mruGhost| }
  function TotalSize(a: State): nat { |a.mru| + |a.mfu| + |a.mruGhost| + |a.mfuGhost| }

  /** Makes room in the ghost lists before a page unknown to all four lists comes in. */
  function Trim(a: State): State {
    if LeftSize(a) == a.capacity then
      if |a.mru| < a.capacity && a.mruGhost != [] then a.(mruGhost := a.mruGhost[1..]) else a
    else if LeftSize(a) < a.capacity then
      if TotalSize(a) >= a.capacity && TotalSize(a) == 2 * a.capacity && a.mfuGhost != []
      then a.(mfuGhost := a.mfuGhost[..|a.mfuGhost| - 1]) else a
    else a
  }

  function InsertMru(a: State, f: FrameId, p: PageId): State {
    a.(mru := a.mru + [f], page := a.page[f := p], evictable := a.evictable - {f})
  }

  function InsertMfu(a: State, f: FrameId, p: PageId): State {
    a.(mfu := [f] + a.mfu, page := a.page[f := p], evictable := a.evictable - {f})
  }

  /** A page comes into a frame that is not alive. */
  function Admit(a: State, f: FrameId, p: PageId, t: AccessType): State {
    if IsGhost(a, p) then
      var b := DropGhost(a.(target := Adapt(a, p)), p);
      if t.Scan? then InsertMru(b, f, p) else InsertMfu(b, f, p)
    else InsertMru(Trim(a), f, p)
  }

  /** The frame as the lists see it once an entry for another page has been thrown out. */
  function Settle(a: State, f: FrameId, p: PageId): State {
    if f in a.page && a.page[f] != p then Forget(a, f) else a
  }

  predicate IsHit(a: State, f: FrameId, p: PageId) {
    f in a.page && a.page[f] == p
  }

  function RecordAccess(a: State, f: FrameId, p: PageId, t: AccessType): State {
    if IsHit(a, f, p) then Touch(a, f, t) else Admit(Settle(a, f, p), f, p, t)
  }

  function SetEvictable(a: State, f: FrameId, on: bool): State {
    if f !in a.page then a
    else a.(evictable := if on then a.evictable + {f} else a.evictable - {f})
  }

  /**** Every operation keeps the lists well formed ****/

  lemma {:induction false} ForgetWellFormed(a: State, f: FrameId)
    requires WellFormed(a)
    ensures WellFormed(Forget(a, f)) && f !in Forget(a, f).mru && f !in Forget(a, f).mfu
  {
    WithoutDistinct(a.mru, f);
    WithoutDistinct(a.mfu, f);
  }

  lemma {:induction false} DropGhostWellFormed(a: State, p: PageId)
    requires WellFormed(a)
    ensures WellFormed(DropGhost(a, p)) && !IsGhost(DropGhost(a, p), p)
    ensures forall q :: q != p ==> (IsGhost(DropGhost(a, p), q) <==> IsGhost(a, q))
  {
    WithoutDistinct(a.mruGhost, p);
    WithoutDistinct(a.mfuGhost, p);
  }

  lemma {:induction false} TrimWellFormed(a: State)
    requires WellFormed(a)
    ensures WellFormed(Trim(a))
    ensures forall q :: IsGhost(Trim(a), q) ==> IsGhost(a, q)
  {
  }

  lemma {:induction false} EvictWellFormed(a: State)
    requires WellFormed(a)
    ensures WellFormed(Evict(a))
  {
    var v := Victim(a);
    if v.Some? {
      ForgetWellFormed(a, v.value);
      DropGhostWellFormed(Forget(a, v.value), a.page[v.value]);
    }
  }

  lemma {:induction false} TouchWellFormed(a: State, f: FrameId, t: AccessType)
    requires WellFormed(a) && f in a.page
    ensures WellFormed(Touch(a, f, t))
  {
    WithoutDistinct(a.mru, f);
    WithoutDistinct(a.mfu, f);
  }

  lemma {:induction false} AdaptBound(a: State, p: PageId)
    requires a.target <= a.capacity
    ensures Adapt(a, p) <= a.capacity
  {
  }

  lemma {:induction false} InsertWellFormed(a: State, f: FrameId, p: PageId)
    requires WellFormed(a) && f !in a.page
    ensures WellFormed(InsertMru(a, f, p)) && WellFormed(InsertMfu(a, f, p))
  {
  }

  lemma {:induction false} AdmitWellFormed(a: State, f: FrameId, p: PageId, t: AccessType)
    requires WellFormed(a) && f !in a.page
    ensures WellFormed(Admit(a, f, p, t))
  {
    if IsGhost(a, p) {
      AdaptBound(a, p);
      var b := a.(target := Adapt(a, p));
      DropGhostWellFormed(b, p);
      InsertWellFormed(DropGhost(b, p), f, p);
    } else {
      TrimWellFormed(a);
      InsertWellFormed(Trim(a), f, p);
    }
  }

  lemma {:induction false} RecordAccessWellFormed(a: State, f: FrameId, p: PageId, t: AccessType)
    requires WellFormed(a)
    ensures WellFormed(RecordAccess(a, f, p, t))
  {
    if IsHit(a, f, p) {
      TouchWellFormed(a, f, t);
    } else {
      ForgetWellFormed(a, f);
      AdmitWellFormed(Settle(a, f, p), f, p, t);
    }
  }

  /**** What the buffer pool relies on: the effect on pages, evictability and ghosts ****/

  /** Pages known to the replacer are unique among frames, and no page is both alive and a ghost. */
  ghost predicate Exclusive(a: State) {
    && (forall f, g :: f in a.page && g in a.page && f != g ==> a.page[f] != a.page[g])
    && (forall f :: f in a.page ==> !IsGhost(a, a.page[f]))
  }

  /** There is a victim exactly when some frame is evictable. */
  lemma {:induction false} VictimExists(a: State)
    requires WellFormed(a)
    ensures Victim(a).None? <==> a.evictable == {}
  {
    if a.evictable != {} {
      var f :| f in a.evictable;
      assert f in a.page;
    }
  }

  /** Evict takes exactly the victim out and makes its page a ghost. */
  lemma {:induction false} EvictEffect(a: State, f: FrameId)
    requires WellFormed(a) && Victim(a) == Some(f)
    ensures f in a.page && f in a.evictable
    ensures Evict(a).page == a.page - {f} && Evict(a).evictable == a.evictable - {f}
    ensures Evict(a).capacity == a.capacity
    ensures forall q :: IsGhost(Evict(a), q) <==> q == a.page[f] || IsGhost(a, q)
  {
    VictimAlive(a, f);
    hide WellFormed, Without, Victim, IsGhost;
    BuryGhosts(a, f);
  }

  lemma {:induction false} VictimAlive(a: State, f: FrameId)
    requires WellFormed(a) && Victim(a) == Some(f)
    ensures f in a.page && f in a.evictable
  {
    hide Victim;
  }

  lemma {:induction false} BuryGhosts(a: State, f: FrameId)
    requires WellFormed(a) && f in a.page
    ensures forall q :: IsGhost(BuryMru(a, f), q) <==> q == a.page[f] || IsGhost(a, q)
    ensures forall q :: IsGhost(BuryMfu(a, f), q) <==> q == a.page[f] || IsGhost(a, q)
  {
    ForgetWellFormed(a, f);
    DropGhostWellFormed(Forget(a, f), a.page[f]);
    hide WellFormed, Without;
  }

  lemma {:induction false} EvictExclusive(a: State)
    requires WellFormed(a) && Exclusive(a)
    ensures Exclusive(Evict(a))
  {
    if Victim(a).Some? {
      EvictEffect(a, Victim(a).value);
    }
  }

  /** An access binds the frame to the page, and keeps evictability only on a hit. */
  lemma {:induction false} RecordAccessEffect(a: State, f: FrameId, p: PageId, t: AccessType)
    ensures RecordAccess(a, f, p, t).page == a.page[f := p]
    ensures RecordAccess(a, f, p, t).evictable == if IsHit(a, f, p) then a.evictable else a.evictable - {f}
    ensures RecordAccess(a, f, p, t).capacity == a.capacity
  {
    if IsHit(a, f, p) {
      assert a.page[f := p] == a.page;
    } else {
      AdmitEffect(Settle(a, f, p), f, p, t);
      assert (a.page - {f})[f := p] == a.page[f := p];
    }
  }

  lemma {:induction false} AdmitEffect(a: State, f: FrameId, p: PageId, t: AccessType)
    ensures Admit(a, f, p, t).page == a.page[f := p]
    ensures Admit(a, f, p, t).evictable == a.evictable - {f}
    ensures Admit(a, f, p, t).capacity == a.capacity
  {
  }

  /** An access creates no ghost, and a page that comes in stops being one. */
  lemma {:induction false} RecordAccessGhosts(a: State, f: FrameId, p: PageId, t: AccessType)
    requires WellFormed(a)
    ensures forall q :: IsGhost(RecordAccess(a, f, p, t), q) ==> IsGhost(a, q)
    ensures !IsHit(a, f, p) ==> !IsGhost(RecordAccess(a, f, p, t), p)
  {
    if !IsHit(a, f, p) {
      ForgetWellFormed(a, f);
      var s := Settle(a, f, p);
      if IsGhost(s, p) {
        AdaptBound(s, p);
        DropGhostWellFormed(s.(target := Adapt(s, p)), p);
      } else {
        TrimWellFormed(s);
      }
    }
  }

  lemma {:induction false} RecordAccessExclusive(a: State, f: FrameId, p: PageId, t: AccessType)
    requires WellFormed(a) && Exclusive(a)
    requires forall g :: g in a.page && g != f ==> a.page[g] != p
    ensures Exclusive(RecordAccess(a, f, p, t))
  {
    RecordAccessEffect(a, f, p, t);
    RecordAccessGhosts(a, f, p, t);
  }
}
