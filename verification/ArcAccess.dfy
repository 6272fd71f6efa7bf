/**
 What each replacer call does to the target, to the side of every frame and to the ghosts, case by case, in every
 history.
 */
module ArcAccess {
  import opened Sequences
  import opened Arc
  import H = ArcHistory

  /**** The target ****/

  /** The largest d with d times the own ghosts at most the other side's, or 1 if that is 0. */
  predicate StepBy(d: nat, own: nat, other: nat) {
    if own <= other then d * own <= other < (d + 1) * own else d == 1
  }

  lemma {:induction false} DeltaIsStep(other: nat, own: nat)
    requires own >= 1
    ensures StepBy(Delta(other, own), own, other) && Delta(other, own) >= 1
  {
    var q := other / own;
    Quotient(other, own);
    if q >= 1 {
      Monotone(1, q, own);
    }
  }

  lemma {:induction false} Quotient(n: nat, own: nat)
    requires own >= 1
    ensures (n / own) * own <= n < (n / own + 1) * own
  {
  }

  lemma {:induction false} Monotone(d: nat, e: nat, own: nat)
    requires d <= e
    ensures d * own <= e * own
  {
  }

  /** There is one such number. */
  lemma {:induction false} OneStep(d: nat, e: nat, own: nat, other: nat)
    requires own >= 1 && StepBy(d, own, other) && StepBy(e, own, other)
    ensures d == e
  {
    if d < e {
      Monotone(d + 1, e, own);
    } else if e < d {
      Monotone(e + 1, d, own);
    }
  }

  /** An access to an mru ghost raises the target by a step, up to the capacity. */
  ghost predicate Raised(a: State, b: State) {
    exists d: nat :: StepBy(d, |a.mruGhost|, |a.mfuGhost|) && b.target == if a.target + d <= a.capacity then a.target + d else a.capacity
  }

  /** An access to an mfu ghost lowers the target by a step, down to 0. */
  ghost predicate Lowered(a: State, b: State) {
    exists d: nat :: StepBy(d, |a.mfuGhost|, |a.mruGhost|) && b.target == if a.target >= d then a.target - d else 0
  }

  /** The page of an access that brings a ghost back. */
  predicate Revives(a: State, op: H.Op) {
    op.Access? && !IsHit(a, op.f, op.p) && IsGhost(a, op.p)
  }

  ghost predicate TargetMoved(a: State, op: H.Op, b: State) {
    if Revives(a, op) && op.p in a.mruGhost then Raised(a, b)
    else if Revives(a, op) then Lowered(a, b)
    else b.target == a.target
  }

  lemma {:induction false} AdaptMoves(a: State, p: PageId, b: State)
    requires WellFormed(a) && IsGhost(a, p) && b.target == Adapt(a, p)
    ensures if p in a.mruGhost then Raised(a, b) else Lowered(a, b)
  {
    if p in a.mruGhost {
      DeltaIsStep(|a.mfuGhost|, |a.mruGhost|);
    } else {
      DeltaIsStep(|a.mruGhost|, |a.mfuGhost|);
    }
    hide WellFormed, Delta, StepBy;
  }

  /** Every call moves the target exactly so. */
  lemma {:induction false} StepMovesTarget(a: State, op: H.Op)
    requires WellFormed(a)
    ensures TargetMoved(a, op, H.Step(a, op))
  {
    hide WellFormed, Adapt, Raised, Lowered, Victim;
    if Revives(a, op) {
      ForgetWellFormed(a, op.f);
      var s := Settle(a, op.f, op.p);
      assert Adapt(s, op.p) == Adapt(a, op.p) by {
        SettleGhosts(a, op.f, op.p);
      }
      assert RecordAccess(a, op.f, op.p, op.t).target == Adapt(a, op.p);
      AdaptMoves(a, op.p, H.Step(a, op));
    }
  }

  lemma {:induction false} SettleGhosts(a: State, f: FrameId, p: PageId)
    ensures
      var s := Settle(a, f, p);
      s.mruGhost == a.mruGhost && s.mfuGhost == a.mfuGhost && s.target == a.target && s.capacity == a.capacity && Adapt(s, p) == Adapt(a, p)
  {
  }

  /** In every history: the target goes up at accesses to mru ghosts, down at accesses to mfu ghosts, and no other call moves it. */
  lemma {:induction false} TargetHistory(capacity: nat, ops: seq<H.Op>, k: nat)
    requires k < |ops|
    ensures TargetMoved(H.Run(capacity, ops[..k]), ops[k], H.Run(capacity, ops[..k + 1]))
  {
    hide H.Run, H.Step, TargetMoved;
    H.RunStep(capacity, ops, k);
    StepMovesTarget(H.Run(capacity, ops[..k]), ops[k]);
  }

  /**** Sides ****/

  /** After an access the frame is on the mru side if it is a Scan or the page was unknown, else on the mfu side; no other frame changes sides. */
  ghost predicate SidesMoved(a: State, f: FrameId, p: PageId, t: AccessType, b: State) {
    && (f in b.mru <==> t.Scan? || (!IsHit(a, f, p) && !IsGhost(a, p))) && (f in b.mfu <==> f !in b.mru)
    && forall g :: g != f ==> (g in b.mru <==> g in a.mru) && (g in b.mfu <==> g in a.mfu)
  }

  lemma {:induction false} AccessSides(a: State, f: FrameId, p: PageId, t: AccessType)
    requires WellFormed(a)
    ensures SidesMoved(a, f, p, t, RecordAccess(a, f, p, t))
  {
    hide WellFormed, Touch, Admit, Settle, IsHit, IsGhost;
    AccessParts(a, f, p, t);
    if IsHit(a, f, p) {
      TouchSides(a, f, t);
    } else {
      AdmitSides(Settle(a, f, p), f, p, t);
      SettleSides(a, f, p);
    }
  }

  lemma {:induction false} AccessParts(a: State, f: FrameId, p: PageId, t: AccessType)
    requires WellFormed(a)
    ensures IsHit(a, f, p) ==> f in a.page && RecordAccess(a, f, p, t) == Touch(a, f, t)
    ensures !IsHit(a, f, p) ==> RecordAccess(a, f, p, t) == Admit(Settle(a, f, p), f, p, t)
    ensures !IsHit(a, f, p) ==> f !in Settle(a, f, p).mru && f !in Settle(a, f, p).mfu && (IsGhost(Settle(a, f, p), p) <==> IsGhost(a, p))
  {
    ForgetWellFormed(a, f);
    SettleGhosts(a, f, p);
    hide Touch, Admit, Without;
  }

  lemma {:induction false} TouchSides(a: State, f: FrameId, t: AccessType)
    requires WellFormed(a) && f in a.page
    ensures
      var b := Touch(a, f, t);
      && (f in b.mru <==> t.Scan?) && (f in b.mfu <==> !t.Scan?)
      && forall g :: g != f ==> (g in b.mru <==> g in a.mru) && (g in b.mfu <==> g in a.mfu)
  {
    WithoutDistinct(a.mru, f);
    WithoutDistinct(a.mfu, f);
  }

  lemma {:induction false} SettleSides(a: State, f: FrameId, p: PageId)
    requires WellFormed(a)
    ensures forall g :: g != f ==> (g in Settle(a, f, p).mru <==> g in a.mru) && (g in Settle(a, f, p).mfu <==> g in a.mfu)
  {
    WithoutDistinct(a.mru, f);
    WithoutDistinct(a.mfu, f);
  }

  lemma {:induction false} AdmitSides(a: State, f: FrameId, p: PageId, t: AccessType)
    requires f !in a.mru && f !in a.mfu
    ensures
      var b := Admit(a, f, p, t);
      && (f in b.mru <==> t.Scan? || !IsGhost(a, p)) && (f in b.mfu <==> f !in b.mru)
      && forall g :: g != f ==> (g in b.mru <==> g in a.mru) && (g in b.mfu <==> g in a.mfu)
  {
  }

  /** An evicted page becomes a ghost of the side that its frame was on, and no other ghost changes. */
  lemma {:induction false} EvictSides(a: State, v: FrameId)
    requires WellFormed(a) && Victim(a) == Some(v)
    ensures v in a.page
    ensures
      var b, p := Evict(a), a.page[v];
      && (p in b.mruGhost <==> v in a.mru) && (p in b.mfuGhost <==> v in a.mfu)
      && forall q :: q != p ==> (q in b.mruGhost <==> q in a.mruGhost) && (q in b.mfuGhost <==> q in a.mfuGhost)
  {
    VictimAlive(a, v);
    WithoutDistinct(a.mruGhost, a.page[v]);
    WithoutDistinct(a.mfuGhost, a.page[v]);
    assert v in a.mru <==> v !in a.mfu;
    hide Victim;
  }

  /**** Discarded ghosts ****/

  /**
   A miss in a bounded state discards no ghost while there is room for the page, the oldest mru ghost if the mru
   side is full, and else the oldest mfu ghost.
   */
  lemma {:induction false} MissDiscards(a: State, f: FrameId, p: PageId, t: AccessType)
    requires WellFormed(a) && H.InRange(a) && H.Bounded(a) && f < a.capacity && !IsHit(a, f, p) && !IsGhost(a, p)
    ensures
      var s, b := Settle(a, f, p), RecordAccess(a, f, p, t);
      if LeftSize(s) == a.capacity then
        a.mruGhost != [] && b.mruGhost == a.mruGhost[1..] && b.mfuGhost == a.mfuGhost
      else if TotalSize(s) == 2 * a.capacity then
        a.mfuGhost != [] && b.mruGhost == a.mruGhost && b.mfuGhost == a.mfuGhost[..|a.mfuGhost| - 1]
      else b.mruGhost == a.mruGhost && b.mfuGhost == a.mfuGhost
  {
    var s := Settle(a, f, p);
    ForgetWellFormed(a, f);
    SettleGhosts(a, f, p);
    assert H.InRange(s) && LeftSize(s) <= LeftSize(a);
    H.SpareFrame(s, f);
    hide WellFormed;
  }

  /** An access to a ghost takes that ghost alone, and a hit none. */
  lemma {:induction false} RevivedGhost(a: State, f: FrameId, p: PageId, t: AccessType)
    requires WellFormed(a)
    ensures
      var b := RecordAccess(a, f, p, t);
      && (IsHit(a, f, p) ==> b.mruGhost == a.mruGhost && b.mfuGhost == a.mfuGhost)
      && (!IsHit(a, f, p) && IsGhost(a, p) ==>
            forall q :: (q in b.mruGhost <==> q != p && q in a.mruGhost) && (q in b.mfuGhost <==> q != p && q in a.mfuGhost))
  {
    SettleGhosts(a, f, p);
    WithoutDistinct(a.mruGhost, p);
    WithoutDistinct(a.mfuGhost, p);
    hide Settle, Adapt;
  }
}
