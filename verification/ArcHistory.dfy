/** ARC over whole histories: recency of every victim, bounds on the lists, and how Scan breaks them. */
module ArcHistory {
  import opened Sequences
  import opened Arc

  datatype Op =
    | Access(f: FrameId, p: PageId, t: AccessType)
    | Mark(f: FrameId, on: bool)
    | Discard(f: FrameId)
    | Replace

  /** One replacer call. Discarding a frame that is not evictable changes nothing, alive (an exception) or not. */
  function Step(a: State, op: Op): (b: State)
    requires WellFormed(a)
    ensures WellFormed(b) && b.capacity == a.capacity
  {
    match op
    case Access(f, p, t) =>
      RecordAccessWellFormed(a, f, p, t);
      RecordAccessEffect(a, f, p, t);
      RecordAccess(a, f, p, t)
    case Mark(f, on) => SetEvictable(a, f, on)
    case Discard(f) =>
      ForgetWellFormed(a, f);
      if f in a.evictable then Forget(a, f) else a
    case Replace =>
      EvictWellFormed(a);
      Evict(a)
  }

  /** The state after a history of calls on a new replacer. */
  function Run(capacity: nat, ops: seq<Op>): (a: State)
    ensures WellFormed(a) && a.capacity == capacity
  {
    if ops == [] then Initial(capacity)
    else
      var a := Run(capacity, ops[..|ops| - 1]);
      Step(a, ops[|ops| - 1])
  }

  /**** Recency, read off the history alone ****/

  /** The time of the last access to a frame, counting calls from 1; 0 if it was never accessed. */
  function LastAccess(ops: seq<Op>, f: FrameId): (n: nat)
    ensures n <= |ops|
  {
    if ops == [] then 0
    else
      var op := ops[|ops| - 1];
      if op.Access? && op.f == f then |ops| else LastAccess(ops[..|ops| - 1], f)
  }

  /** The time at which a page was last evicted; 0 if it never was. */
  function LastEviction(capacity: nat, ops: seq<Op>, p: PageId): (n: nat)
    ensures n <= |ops|
  {
    if ops == [] then 0
    else
      var before := ops[..|ops| - 1];
      var a := Run(capacity, before);
      if ops[|ops| - 1].Replace? && Victim(a).Some? && a.page[Victim(a).value] == p then |ops|
      else LastEviction(capacity, before, p)
  }

  ghost predicate Ascending(s: seq<nat>, time: nat -> nat) {
    forall i, j :: 0 <= i < j < |s| ==> time(s[i]) < time(s[j])
  }

  ghost predicate Descending(s: seq<nat>, time: nat -> nat) {
    forall i, j :: 0 <= i < j < |s| ==> time(s[i]) > time(s[j])
  }

  /** The four lists are in recency order. */
  ghost predicate InOrder(a: State, access: FrameId -> nat, eviction: PageId -> nat) {
    && Ascending(a.mru, access) && Descending(a.mfu, access)
    && Ascending(a.mruGhost, eviction) && Descending(a.mfuGhost, eviction)
  }

  /** x becomes the newest: every other time is unchanged and none of s reaches the new time of x. */
  ghost predicate Renewed(s: seq<nat>, x: nat, time: nat -> nat, time': nat -> nat) {
    forall y :: y in s && y != x ==> time'(y) == time(y) && time(y) < time'(x)
  }

  lemma {:induction false} RenewAscending(s: seq<nat>, x: nat, time: nat -> nat, time': nat -> nat)
    requires Distinct(s) && Ascending(s, time) && Renewed(s, x, time, time')
    ensures Ascending(Without(s, x), time') && Ascending(Without(s, x) + [x], time')
  {
    var r := Without(s, x);
    forall i | 0 <= i < |r|
      ensures r[i] in s && r[i] != x
    {
      WithoutDistinct(s, x);
      assert r[i] in r;
    }
    AscendingWithout(s, x, time);
    forall i, j | 0 <= i < j < |r|
      ensures time'(r[i]) < time'(r[j])
    {
      assert time(r[i]) < time(r[j]);
    }
  }

  lemma {:induction false} AscendingWithout(s: seq<nat>, x: nat, time: nat -> nat)
    requires Ascending(s, time)
    ensures Ascending(Without(s, x), time)
  {
  }

  lemma {:induction false} RenewDescending(s: seq<nat>, x: nat, time: nat -> nat, time': nat -> nat)
    requires Distinct(s) && Descending(s, time) && Renewed(s, x, time, time')
    ensures Descending(Without(s, x), time') && Descending([x] + Without(s, x), time')
  {
    var r := Without(s, x);
    forall i | 0 <= i < |r|
      ensures r[i] in s && r[i] != x
    {
      WithoutDistinct(s, x);
      assert r[i] in r;
    }
    DescendingWithout(s, x, time);
    forall i, j | 0 <= i < j < |r|
      ensures time'(r[i]) > time'(r[j])
    {
      assert time(r[i]) > time(r[j]);
    }
  }

  lemma {:induction false} DescendingWithout(s: seq<nat>, x: nat, time: nat -> nat)
    requires Descending(s, time)
    ensures Descending(Without(s, x), time)
  {
  }

  /** Each access puts the frame at the newest end of its list. */
  lemma {:induction false} AccessInOrder(a: State, f: FrameId, p: PageId, t: AccessType,
                      access: FrameId -> nat, access': FrameId -> nat, eviction: PageId -> nat)
    requires WellFormed(a) && InOrder(a, access, eviction)
    requires forall g :: g != f ==> access'(g) == access(g)
    requires forall g :: access(g) < access'(f)
    ensures InOrder(RecordAccess(a, f, p, t), access', eviction)
  {
    RenewAscending(a.mru, f, access, access');
    RenewDescending(a.mfu, f, access, access');
    if !IsHit(a, f, p) {
      var s := Settle(a, f, p);
      assert s.mru == Without(a.mru, f) && s.mfu == Without(a.mfu, f);
      AdmitGhostOrder(s, f, p, t, eviction);
      AdmitLists(s, f, p, t);
    }
    hide Without, Trim, Adapt, DropGhost, Ascending, Descending;
  }

  lemma {:induction false} AdmitLists(a: State, f: FrameId, p: PageId, t: AccessType)
    ensures
      var b := Admit(a, f, p, t);
      || (b.mru == a.mru + [f] && b.mfu == a.mfu)
      || (b.mru == a.mru && b.mfu == [f] + a.mfu)
  {
  }

  lemma {:induction false} AdmitGhostOrder(a: State, f: FrameId, p: PageId, t: AccessType, eviction: PageId -> nat)
    requires Distinct(a.mruGhost) && Distinct(a.mfuGhost)
    requires Ascending(a.mruGhost, eviction) && Descending(a.mfuGhost, eviction)
    ensures
      var b := Admit(a, f, p, t);
      Ascending(b.mruGhost, eviction) && Descending(b.mfuGhost, eviction)
  {
  }

  lemma {:induction false} ForgetInOrder(a: State, f: FrameId, access: FrameId -> nat, eviction: PageId -> nat)
    requires InOrder(a, access, eviction)
    ensures InOrder(Forget(a, f), access, eviction)
  {
  }

  /** Each eviction puts the page at the newest end of its ghost list. */
  lemma {:induction false} EvictInOrder(a: State, access: FrameId -> nat, eviction: PageId -> nat, eviction': PageId -> nat)
    requires WellFormed(a) && InOrder(a, access, eviction) && Victim(a).Some?
    requires forall q :: q != a.page[Victim(a).value] ==> eviction'(q) == eviction(q)
    requires forall q :: eviction(q) < eviction'(a.page[Victim(a).value])
    ensures InOrder(Evict(a), access, eviction')
  {
    var f := Victim(a).value;
    var p := a.page[f];
    ForgetInOrder(a, f, access, eviction);
    RenewAscending(a.mruGhost, p, eviction, eviction');
    RenewDescending(a.mfuGhost, p, eviction, eviction');
  }

  /** In every history the mru lists are oldest first and the mfu lists newest first. */
  lemma {:induction false} HistoryInOrder(capacity: nat, ops: seq<Op>)
    ensures InOrder(Run(capacity, ops), f => LastAccess(ops, f), p => LastEviction(capacity, ops, p))
  {
    if ops == [] {
    } else {
      HistoryInOrder(capacity, ops[..|ops| - 1]);
      StepInOrder(capacity, ops, Run(capacity, ops[..|ops| - 1]),
        f => LastAccess(ops[..|ops| - 1], f), f => LastAccess(ops, f),
        p => LastEviction(capacity, ops[..|ops| - 1], p), p => LastEviction(capacity, ops, p));
    }
  }

  lemma {:induction false} StepInOrder(capacity: nat, ops: seq<Op>, a: State, access: FrameId -> nat, access': FrameId -> nat,
                    eviction: PageId -> nat, eviction': PageId -> nat)
    requires ops != [] && a == Run(capacity, ops[..|ops| - 1]) && InOrder(a, access, eviction)
    requires forall f :: access(f) == LastAccess(ops[..|ops| - 1], f) && access'(f) == LastAccess(ops, f)
    requires forall p :: eviction(p) == LastEviction(capacity, ops[..|ops| - 1], p)
    requires forall p :: eviction'(p) == LastEviction(capacity, ops, p)
    ensures InOrder(Step(a, ops[|ops| - 1]), access', eviction')
  {
    hide InOrder, Step, Victim;
    assert Times(a, ops[|ops| - 1], access, access', eviction, eviction');
    OrderKept(a, ops[|ops| - 1], access, access', eviction, eviction');
  }

  /** How a call moves the times: an access renews its frame's, an eviction the victim's page's. */
  ghost predicate Times(a: State, op: Op, access: FrameId -> nat, access': FrameId -> nat,
                        eviction: PageId -> nat, eviction': PageId -> nat)
  {
    && (forall f :: !(op.Access? && op.f == f) ==> access'(f) == access(f))
    && (op.Access? ==> forall f :: access(f) < access'(op.f))
    && (if op.Replace? && Victim(a).Some? && Victim(a).value in a.page then
          var p := a.page[Victim(a).value];
          (forall q :: q != p ==> eviction'(q) == eviction(q)) && forall q :: eviction(q) < eviction'(p)
        else forall q :: eviction'(q) == eviction(q))
  }

  lemma {:induction false} OrderKept(a: State, op: Op, access: FrameId -> nat, access': FrameId -> nat,
                  eviction: PageId -> nat, eviction': PageId -> nat)
    requires WellFormed(a) && InOrder(a, access, eviction) && Times(a, op, access, access', eviction, eviction')
    ensures InOrder(Step(a, op), access', eviction')
  {
    hide InOrder, WellFormed, RecordAccess, SetEvictable, Forget, Evict, Victim;
    match op {
      case Access(f, p, t) =>
        AccessInOrder(a, f, p, t, access, access', eviction);
        SameOrder(RecordAccess(a, f, p, t), access', access', eviction, eviction');
      case Mark(f, on) =>
        SameOrder(a, access, access', eviction, eviction');
        MarkInOrder(a, f, on, access', eviction');
      case Discard(f) =>
        ForgetInOrder(a, f, access, eviction);
        SameOrder(Step(a, op), access, access', eviction, eviction');
      case Replace =>
        if Victim(a).Some? {
          VictimAlive(a, Victim(a).value);
          EvictInOrder(a, access, eviction, eviction');
          SameOrder(Evict(a), access, access', eviction', eviction');
        } else {
          NoVictim(a);
          SameOrder(a, access, access', eviction, eviction');
        }
    }
  }

  lemma {:induction false} MarkInOrder(a: State, f: FrameId, on: bool, access: FrameId -> nat, eviction: PageId -> nat)
    requires InOrder(a, access, eviction)
    ensures InOrder(SetEvictable(a, f, on), access, eviction)
  {
  }

  lemma {:induction false} NoVictim(a: State)
    requires WellFormed(a) && Victim(a).None?
    ensures Evict(a) == a
  {
    hide Victim;
  }

  lemma {:induction false} SameOrder(a: State, access: FrameId -> nat, access': FrameId -> nat,
                  eviction: PageId -> nat, eviction': PageId -> nat)
    requires InOrder(a, access, eviction)
    requires forall f :: access'(f) == access(f)
    requires forall p :: eviction'(p) == eviction(p)
    ensures InOrder(a, access', eviction')
  {
  }

  /** f competes with the victim v: it is evictable and on the same side. */
  predicate Competes(a: State, v: FrameId, f: FrameId) {
    f in a.evictable && (f in a.mru <==> v in a.mru)
  }

  predicate HasEvictable(s: seq<FrameId>, ev: set<FrameId>) {
    exists f :: f in s && f in ev
  }

  /**
   After every history, Evict takes the least recently accessed evictable frame of the side that
   |mru| >= target picks, and of the other side only when the picked one has no evictable frame.
   */
  lemma {:induction false} VictimIsLeastRecent(capacity: nat, ops: seq<Op>, v: FrameId)
    requires Victim(Run(capacity, ops)) == Some(v)
    ensures
      var a := Run(capacity, ops);
      && v in a.evictable
      && (forall f :: Competes(a, v, f) && f != v ==> LastAccess(ops, v) < LastAccess(ops, f))
      && (v in a.mru <==> if |a.mru| >= a.target then HasEvictable(a.mru, a.evictable)
                          else !HasEvictable(a.mfu, a.evictable))
  {
    HistoryInOrder(capacity, ops);
    var a := Run(capacity, ops);
    assert v in a.mru || v in a.mfu;
    forall f | Competes(a, v, f) && f != v
      ensures LastAccess(ops, v) < LastAccess(ops, f)
    {
      assert f in a.page;
      if v in a.mru {
        VictimPosition(a, v, f);
      } else {
        VictimPosition(a, v, f);
      }
    }
  }

  /** The victim sits nearer the old end of its list than any competitor. */
  lemma {:induction false} VictimPosition(a: State, v: FrameId, f: FrameId)
    requires WellFormed(a) && Victim(a) == Some(v) && Competes(a, v, f) && f != v
    ensures v in a.mru ==> exists i, j :: 0 <= i < j < |a.mru| && a.mru[i] == v && a.mru[j] == f
    ensures v !in a.mru ==> exists i, j :: 0 <= i < j < |a.mfu| && a.mfu[i] == f && a.mfu[j] == v
  {
    if v in a.mru {
      var i, j := FirstIn(a.mru, a.evictable).value, IndexOf(a.mru, f);
      assert a.mru[i] == v && a.mru[j] == f;
    } else {
      var i, j := IndexOf(a.mfu, f), LastIn(a.mfu, a.evictable).value;
      assert a.mfu[i] == f && a.mfu[j] == v;
    }
  }

  /** Only the old end of a ghost list is ever pushed out by an access to another page. */
  lemma {:induction false} DiscardedGhostPosition(a: State, f: FrameId, p: PageId, t: AccessType, q: PageId)
    requires WellFormed(a) && q != p && IsGhost(a, q) && !IsGhost(RecordAccess(a, f, p, t), q)
    ensures q in a.mruGhost ==> q == a.mruGhost[0]
    ensures q in a.mfuGhost ==> q == a.mfuGhost[|a.mfuGhost| - 1]
  {
    var s := Settle(a, f, p);
    if IsGhost(s, p) {
      ForgetWellFormed(a, f);
      AdaptBound(s, p);
      DropGhostWellFormed(s.(target := Adapt(s, p)), p);
      assert false;
    }
  }

  /** A ghost that an access to another page pushes out is the oldest eviction of its list. */
  lemma {:induction false} DiscardedGhostIsOldest(capacity: nat, ops: seq<Op>, f: FrameId, p: PageId, t: AccessType, q: PageId, r: PageId)
    requires q != p && IsGhost(Run(capacity, ops), q)
    requires !IsGhost(RecordAccess(Run(capacity, ops), f, p, t), q)
    requires
      var a := Run(capacity, ops);
      r != q && r in if q in a.mruGhost then a.mruGhost else a.mfuGhost
    ensures LastEviction(capacity, ops, q) < LastEviction(capacity, ops, r)
  {
    var a := Run(capacity, ops);
    DiscardedGhostPosition(a, f, p, t, q);
    HistoryInOrder(capacity, ops);
    OldEndIsOldest(a, f => LastAccess(ops, f), e => LastEviction(capacity, ops, e), q, r);
    hide Run, RecordAccess;
  }

  lemma {:induction false} OldEndIsOldest(a: State, access: FrameId -> nat, eviction: PageId -> nat, q: PageId, r: PageId)
    requires InOrder(a, access, eviction) && IsGhost(a, q) && r != q
    requires q in a.mruGhost ==> q == a.mruGhost[0]
    requires q in a.mfuGhost ==> q == a.mfuGhost[|a.mfuGhost| - 1]
    requires r in if q in a.mruGhost then a.mruGhost else a.mfuGhost
    ensures eviction(q) < eviction(r)
  {
    if q in a.mruGhost {
      var j := IndexOf(a.mruGhost, r);
    } else {
      var i := IndexOf(a.mfuGhost, r);
    }
  }

  /**** Bounds on the lists ****/

  /** The bounds of the ARC paper. */
  predicate Bounded(a: State) {
    LeftSize(a) <= a.capacity && TotalSize(a) <= 2 * a.capacity
  }

  ghost predicate InRange(a: State) {
    forall f :: f in a.page ==> f < a.capacity
  }

  predicate Fits(op: Op, capacity: nat) {
    op.Access? ==> op.f < capacity
  }

  /** The access brings a frame or a ghost of the mfu side to an mru side that is already full. */
  predicate Demotes(a: State, f: FrameId, p: PageId, t: AccessType) {
    && t.Scan?
    && LeftSize(Settle(a, f, p)) == a.capacity
    && if IsHit(a, f, p) then f in a.mfu else p in a.mfuGhost
  }

  predicate DemotesOp(a: State, op: Op) {
    op.Access? && Demotes(a, op.f, op.p, op.t)
  }

  lemma {:induction false} AliveCount(a: State)
    requires WellFormed(a)
    ensures |a.mru| + |a.mfu| == |a.page.Keys|
  {
    ElemsSize(a.mru);
    ElemsSize(a.mfu);
    assert a.page.Keys == Elems(a.mru) + Elems(a.mfu);
    assert Elems(a.mru) !! Elems(a.mfu);
  }

  lemma {:induction false} SpareFrame(a: State, f: FrameId)
    requires WellFormed(a) && InRange(a) && f !in a.page && f < a.capacity
    ensures |a.mru| + |a.mfu| < a.capacity
  {
    AliveCount(a);
    BoundedSetSize(a.page.Keys + {f}, a.capacity);
  }

  lemma {:induction false} TouchSizes(a: State, f: FrameId, t: AccessType)
    requires WellFormed(a) && f in a.page
    ensures TotalSize(Touch(a, f, t)) == TotalSize(a)
    ensures LeftSize(Touch(a, f, t)) ==
      LeftSize(a) + (if t.Scan? && f in a.mfu then 1 else if !t.Scan? && f in a.mru then -1 else 0)
  {
    assert f in a.mru <==> f !in a.mfu;
  }

  lemma {:induction false} GhostHitSizes(a: State, f: FrameId, p: PageId, t: AccessType)
    requires WellFormed(a) && IsGhost(a, p)
    ensures TotalSize(Admit(a, f, p, t)) == TotalSize(a)
    ensures LeftSize(Admit(a, f, p, t)) ==
      LeftSize(a) + (if t.Scan? then 1 else 0) - (if p in a.mruGhost then 1 else 0)
  {
    assert p in a.mruGhost <==> p !in a.mfuGhost;
  }

  lemma {:induction false} MissSizes(a: State, f: FrameId, p: PageId, t: AccessType)
    requires WellFormed(a) && InRange(a) && Bounded(a) && !IsGhost(a, p) && f !in a.page && f < a.capacity
    ensures Bounded(Admit(a, f, p, t))
  {
    SpareFrame(a, f);
  }

  /** From a bounded state, an access keeps the bounds exactly when it is not a demoting Scan. */
  lemma {:induction false} AccessBounded(a: State, f: FrameId, p: PageId, t: AccessType)
    requires WellFormed(a) && InRange(a) && Bounded(a) && f < a.capacity
    ensures Bounded(RecordAccess(a, f, p, t)) <==> !Demotes(a, f, p, t)
  {
    if IsHit(a, f, p) {
      TouchSizes(a, f, t);
      RecordAccessEffect(a, f, p, t);
    } else {
      var s := Settle(a, f, p);
      ForgetWellFormed(a, f);
      if IsGhost(s, p) {
        GhostHitSizes(s, f, p, t);
        AdmitEffect(s, f, p, t);
      } else {
        MissSizes(s, f, p, t);
      }
    }
  }

  lemma {:induction false} EvictSizes(a: State)
    requires WellFormed(a)
    ensures LeftSize(Evict(a)) <= LeftSize(a) && TotalSize(Evict(a)) <= TotalSize(a)
  {
    if Victim(a).Some? {
      assert Victim(a).value in a.mru <==> Victim(a).value !in a.mfu;
    }
  }

  lemma {:induction false} StepBounded(a: State, op: Op)
    requires WellFormed(a) && InRange(a) && Bounded(a) && Fits(op, a.capacity)
    ensures Bounded(Step(a, op)) <==> !DemotesOp(a, op)
    ensures InRange(Step(a, op))
  {
    match op
    case Access(f, p, t) =>
      AccessBounded(a, f, p, t);
      RecordAccessEffect(a, f, p, t);
    case Mark(f, on) =>
    case Discard(f) =>
    case Replace =>
      EvictSizes(a);
      if Victim(a).Some? { EvictEffect(a, Victim(a).value); }
  }

  /** Every state of the history is bounded. */
  ghost predicate AlwaysBounded(capacity: nat, ops: seq<Op>) {
    forall k :: 0 <= k <= |ops| ==> Bounded(Run(capacity, ops[..k]))
  }

  ghost predicate NeverDemotes(capacity: nat, ops: seq<Op>) {
    forall k :: 0 <= k < |ops| ==> !DemotesOp(Run(capacity, ops[..k]), ops[k])
  }

  ghost predicate AllFit(capacity: nat, ops: seq<Op>) {
    forall k :: 0 <= k < |ops| ==> Fits(ops[k], capacity)
  }

  lemma {:induction false} RunStep(capacity: nat, ops: seq<Op>, k: nat)
    requires k < |ops|
    ensures Run(capacity, ops[..k + 1]) == Step(Run(capacity, ops[..k]), ops[k])
  {
    assert ops[..k + 1][..k] == ops[..k];
  }

  lemma {:induction false} BoundedUpTo(capacity: nat, ops: seq<Op>, k: nat)
    requires AllFit(capacity, ops) && k <= |ops|
    requires forall i :: 0 <= i < k ==> !DemotesOp(Run(capacity, ops[..i]), ops[i])
    ensures Bounded(Run(capacity, ops[..k])) && InRange(Run(capacity, ops[..k]))
  {
    if k == 0 {
      assert ops[..0] == [];
    } else {
      BoundedUpTo(capacity, ops, k - 1);
      RunStep(capacity, ops, k - 1);
      StepBounded(Run(capacity, ops[..k - 1]), ops[k - 1]);
    }
  }

  lemma {:induction false} InRangeUpTo(capacity: nat, ops: seq<Op>, k: nat)
    requires AllFit(capacity, ops) && k <= |ops| && AlwaysBounded(capacity, ops)
    ensures InRange(Run(capacity, ops[..k]))
  {
    if k == 0 {
      assert ops[..0] == [];
    } else {
      InRangeUpTo(capacity, ops, k - 1);
      RunStep(capacity, ops, k - 1);
      StepBounded(Run(capacity, ops[..k - 1]), ops[k - 1]);
    }
  }

  /** A history keeps |mru| + |mru ghosts| <= c and the total <= 2c throughout exactly when no call demotes. */
  lemma {:induction false} BoundedIffNoDemotion(capacity: nat, ops: seq<Op>)
    requires AllFit(capacity, ops)
    ensures AlwaysBounded(capacity, ops) <==> NeverDemotes(capacity, ops)
  {
    if NeverDemotes(capacity, ops) {
      forall k | 0 <= k <= |ops|
        ensures Bounded(Run(capacity, ops[..k]))
      {
        BoundedUpTo(capacity, ops, k);
      }
    }
    if AlwaysBounded(capacity, ops) {
      forall k | 0 <= k < |ops|
        ensures !DemotesOp(Run(capacity, ops[..k]), ops[k])
      {
        InRangeUpTo(capacity, ops, k);
        RunStep(capacity, ops, k);
        StepBounded(Run(capacity, ops[..k]), ops[k]);
        assert Bounded(Run(capacity, ops[..k + 1]));
      }
    }
  }

  /** Without Scan accesses the bounds always hold. */
  lemma {:induction false} NoScanBounded(capacity: nat, ops: seq<Op>)
    requires AllFit(capacity, ops)
    requires forall k :: 0 <= k < |ops| && ops[k].Access? ==> !ops[k].t.Scan?
    ensures AlwaysBounded(capacity, ops)
  {
    BoundedIffNoDemotion(capacity, ops);
  }

  /**** With one Scan the ghosts of a one-frame replacer grow without bound ****/

  const LEAK_START: seq<Op> :=
    [] + [Access(0, 0, Unknown), Access(0, 0, Unknown), Mark(0, true)]
    + [Replace, Access(0, 1, Unknown), Mark(0, true)]
    + [Replace, Access(0, 0, Unknown), Access(0, 0, Scan)]

  /** Rounds of misses, each on a page never seen before. */
  function LeakRun(start: seq<Op>, rounds: nat): seq<Op> {
    if rounds == 0 then start
    else LeakRun(start, rounds - 1) + [Mark(0, true), Replace, Access(0, rounds + 1, Unknown)]
  }

  lemma {:induction false} RunConcat(capacity: nat, ops: seq<Op>, op: Op)
    ensures Run(capacity, ops + [op]) == Step(Run(capacity, ops), op)
  {
    assert (ops + [op])[..|ops|] == ops;
  }

  lemma {:induction false} LeakUse()
    ensures Step(Step(Step(Initial(1), Access(0, 0, Unknown)), Access(0, 0, Unknown)), Mark(0, true))
      == State(1, 0, [], [0], [], [], map[0 := 0], {0})
  {
    var a := Step(Step(Initial(1), Access(0, 0, Unknown)), Access(0, 0, Unknown));
    assert a == State(1, 0, [], [0], [], [], map[0 := 0], {});
  }

  lemma {:induction false} LeakEvict()
    ensures
      var a := State(1, 0, [], [0], [], [], map[0 := 0], {0});
      Step(Step(Step(a, Replace), Access(0, 1, Unknown)), Mark(0, true))
        == State(1, 0, [0], [], [], [0], map[0 := 1], {0})
  {
    var a := State(1, 0, [], [0], [], [], map[0 := 0], {0});
    assert Victim(a) == Some(0);
    assert map[0 := 0] - {0} == map[];
    assert Step(a, Replace) == State(1, 0, [], [], [], [0], map[], {});
    LeakAdmit();
  }

  lemma {:induction false} LeakAdmit()
    ensures
      var a := State(1, 0, [], [], [], [0], map[], {});
      Step(Step(a, Access(0, 1, Unknown)), Mark(0, true)) == State(1, 0, [0], [], [], [0], map[0 := 1], {0})
  {
    var a := State(1, 0, [], [], [], [0], map[], {});
    assert Step(a, Access(0, 1, Unknown)) == State(1, 0, [0], [], [], [0], map[0 := 1], {});
  }

  lemma {:induction false} LeakScan()
    ensures
      var a := State(1, 0, [0], [], [], [0], map[0 := 1], {0});
      Step(Step(Step(a, Replace), Access(0, 0, Unknown)), Access(0, 0, Scan))
        == State(1, 0, [0], [], [1], [], map[0 := 0], {})
  {
    var a := State(1, 0, [0], [], [], [0], map[0 := 1], {0});
    assert Victim(a) == Some(0);
    assert map[0 := 1] - {0} == map[];
    assert Step(a, Replace) == State(1, 0, [], [], [1], [0], map[], {});
    assert Step(Step(a, Replace), Access(0, 0, Unknown)) == State(1, 0, [], [0], [1], [], map[0 := 0], {});
  }

  lemma {:induction false} RunRound(ops: seq<Op>, x: Op, y: Op, z: Op)
    ensures Run(1, ops + [x, y, z]) == Step(Step(Step(Run(1, ops), x), y), z)
  {
    hide Run, Step, WellFormed;
    RunConcat(1, ops, x);
    RunConcat(1, ops + [x], y);
    RunConcat(1, ops + [x] + [y], z);
    assert ops + [x, y, z] == ops + [x] + [y] + [z];
  }

  lemma {:induction false} LeakStartState()
    ensures Run(1, LEAK_START) == State(1, 0, [0], [], [1], [], map[0 := 0], {})
  {
    var first := [] + [Access(0, 0, Unknown), Access(0, 0, Unknown), Mark(0, true)];
    var second := first + [Replace, Access(0, 1, Unknown), Mark(0, true)];
    RunRound([], Access(0, 0, Unknown), Access(0, 0, Unknown), Mark(0, true));
    LeakUse();
    RunRound(first, Replace, Access(0, 1, Unknown), Mark(0, true));
    LeakEvict();
    RunRound(second, Replace, Access(0, 0, Unknown), Access(0, 0, Scan));
    LeakScan();
  }

  /** A miss while the mru side is past its bound discards no ghost. */
  lemma {:induction false} OverfullMissKeepsGhosts(a: State, f: FrameId, p: PageId, t: AccessType)
    requires WellFormed(a) && f !in a.page && !IsGhost(a, p) && LeftSize(a) > a.capacity
    ensures
      var b := RecordAccess(a, f, p, t);
      b.mruGhost == a.mruGhost && b.mfuGhost == a.mfuGhost && b.mru == a.mru + [f]
  {
  }

  ghost predicate Leaking(a: State, rounds: nat) {
    && WellFormed(a) && a.capacity == 1
    && a.mru == [0] && a.mfu == [] && 0 in a.page
    && |a.mruGhost| == rounds + 1 && a.mfuGhost == []
    && a.page[0] !in a.mruGhost && a.page[0] <= rounds + 1
    && (forall q :: q in a.mruGhost ==> q <= rounds + 1)
  }

  lemma {:induction false} LeakRound(a: State, rounds: nat)
    requires Leaking(a, rounds)
    ensures
      var b := Step(a, Mark(0, true));
      var c := Step(b, Replace);
      Leaking(Step(c, Access(0, rounds + 2, Unknown)), rounds + 1)
  {
    var b := Step(a, Mark(0, true));
    var c := Step(b, Replace);
    assert Victim(b) == Some(0);
    assert c.mruGhost == a.mruGhost + [a.page[0]] && c.mru == [] && c.mfu == [] && c.mfuGhost == [];
    OverfullMissKeepsGhosts(c, 0, rounds + 2, Unknown);
  }

  lemma {:induction false} LeakingStart()
    ensures Leaking(State(1, 0, [0], [], [1], [], map[0 := 0], {}), 0)
  {
  }

  lemma {:induction false} LeakExtend(ops: seq<Op>, ops': seq<Op>, rounds: nat)
    requires rounds > 0 && Leaking(Run(1, ops), rounds - 1)
    requires ops' == ops + [Mark(0, true), Replace, Access(0, rounds + 1, Unknown)]
    ensures Leaking(Run(1, ops'), rounds)
  {
    hide Leaking, Run, Step;
    LeakRound(Run(1, ops), rounds - 1);
    RunRound(ops, Mark(0, true), Replace, Access(0, rounds + 1, Unknown));
  }

  lemma {:induction false} LeakGrows(start: seq<Op>, rounds: nat)
    requires Leaking(Run(1, start), 0)
    ensures Leaking(Run(1, LeakRun(start, rounds)), rounds)
  {
    hide Leaking, Run;
    if rounds == 0 {
    } else {
      LeakGrows(start, rounds - 1);
      LeakExtend(LeakRun(start, rounds - 1), LeakRun(start, rounds), rounds);
    }
  }

  /** One Scan suffices: for every n there is a history of one frame that keeps more than n ghosts. */
  lemma {:induction false} ScanLeaks(rounds: nat)
    ensures |Run(1, LeakRun(LEAK_START, rounds)).mruGhost| == rounds + 1
  {
    LeakStartState();
    LeakingStart();
    LeakGrows(LEAK_START, rounds);
  }
}
