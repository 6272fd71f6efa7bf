/** No deadlock in the undo-link store: locks are held by running operations only, and some operation can always go on. */
module UndoProgress {
  import opened Sequences
  import opened UndoLinks

  /**** Who holds what ****/

  ghost predicate MapHolder(st: State, u: ThreadId) {
    u in st.threads && HoldsMap(st.threads[u].pc)
  }

  ghost predicate MapHeld(st: State) {
    match st.mapLock
    case Exclusive(owner) => MapHolder(st, owner)
    case Shared(holders) => forall u :: u in holders ==> MapHolder(st, u)
  }

  ghost predicate NodeHolder(st: State, n: NodeId, u: ThreadId) {
    u in st.threads && HoldsNode(st.threads[u].pc) && st.threads[u].pc.node == n
  }

  ghost predicate NodesHeld(st: State) {
    forall n :: n in st.nodeLock ==> NodeHolder(st, n, st.nodeLock[n])
  }

  ghost predicate LatchHolder(st: State, p: PageId, u: ThreadId) {
    u in st.threads && HoldsLatch(st.threads[u]) && st.threads[u].op.rid.page == p
  }

  ghost predicate LatchHeld(st: State, p: PageId) {
    match Latch(st, p)
    case Exclusive(owner) => LatchHolder(st, p, owner)
    case Shared(holders) => forall u :: u in holders ==> LatchHolder(st, p, u)
  }

  ghost predicate LatchesHeld(st: State) {
    forall p :: LatchHeld(st, p)
  }

  /** No lock is left behind: its holders are in the middle of what they hold it for. */
  ghost predicate LocksHeld(st: State) {
    MapHeld(st) && NodesHeld(st) && LatchesHeld(st)
  }

  lemma {:induction false} InitHeld(st: State)
    requires Init(st)
    ensures LocksHeld(st)
  {
  }

  /**** Every step keeps it ****/

  /** How a step changes the map lock and what its thread holds of it. */
  lemma {:induction false} MapStep(st: State, step: Step)
    requires Enabled(st, step) && (step.t in st.threads ==> ThreadOk(st, step.t, st.threads[step.t]))
    ensures
      var st' := Apply(st, step);
      if st'.mapLock == st.mapLock then MapHolder(st, step.t) ==> MapHolder(st', step.t)
      else if MapHolder(st', step.t) then st'.mapLock == Exclusive(step.t) || (st.mapLock.Shared? && st'.mapLock == Shared(st.mapLock.holders + {step.t}))
      else st'.mapLock == Unshare(st.mapLock, step.t)
    ensures
      var st' := Apply(st, step);
      MapHolder(st, step.t) && !MapHolder(st', step.t) ==> st'.mapLock == Unshare(st.mapLock, step.t) && Owns(st.mapLock, step.t, Writes(st.threads[step.t].op))
  {
    hide Lookup, TupleAt, Latch, SetSlot, InNode, LinkCheck;
  }

  lemma {:induction false} OthersHold(st: State, step: Step, u: ThreadId)
    requires Enabled(st, step) && u != step.t && u in st.threads
    ensures u in Apply(st, step).threads && Apply(st, step).threads[u] == st.threads[u]
  {
    hide Enabled, Apply;
  }

  lemma {:induction false} MapKept(st: State, step: Step)
    requires Inv(st) && MapHeld(st) && Enabled(st, step)
    ensures MapHeld(Apply(st, step))
  {
    hide Inv, Enabled, Apply, ThreadOk, InfoOk;
    if step.t in st.threads {
      ThreadFacts(st, step.t);
    }
    MapStep(st, step);
    var st' := Apply(st, step);
    forall u | u != step.t && MapHolder(st, u)
      ensures MapHolder(st', u)
    {
      OthersHold(st, step, u);
    }
  }

  /** How a step changes the node locks. */
  lemma {:induction false} NodeStep(st: State, step: Step)
    requires Enabled(st, step) && NodesHeld(st)
    ensures
      var st' := Apply(st, step);
      forall n :: n in st'.nodeLock ==>
        if st'.nodeLock[n] == step.t then NodeHolder(st', n, step.t) else n in st.nodeLock && st.nodeLock[n] == st'.nodeLock[n]
  {
    hide Lookup, TupleAt, Latch, SetSlot, InNode, LinkCheck, Unshare;
  }

  lemma {:induction false} NodesKept(st: State, step: Step)
    requires NodesHeld(st) && Enabled(st, step)
    ensures NodesHeld(Apply(st, step))
  {
    hide Enabled, Apply;
    NodeStep(st, step);
    var st' := Apply(st, step);
    forall n | n in st'.nodeLock
      ensures NodeHolder(st', n, st'.nodeLock[n])
    {
      if st'.nodeLock[n] != step.t {
        assert NodeHolder(st, n, st.nodeLock[n]);
        OthersHold(st, step, st'.nodeLock[n]);
      }
    }
  }

  /** How a step changes the latch of page p. */
  lemma {:induction false} LatchStep(st: State, step: Step, p: PageId)
    requires Enabled(st, step)
    ensures
      var st', l, l' := Apply(st, step), Latch(st, p), Latch(Apply(st, step), p);
      || (l' == l && (LatchHolder(st, p, step.t) ==> LatchHolder(st', p, step.t)))
      || (LatchHolder(st', p, step.t) && (l' == Exclusive(step.t) || (l.Shared? && l' == Shared(l.holders + {step.t}))))
      || l' == Unshare(l, step.t)
  {
    hide Lookup, TupleAt, SetSlot, InNode, LinkCheck;
    if step.LatchExclusive? || step.LatchShared? || step.Unlatch? {
    } else {
      NoLatchStep(st, step);
      hide Enabled, Apply;
    }
  }

  lemma {:induction false} NoLatchStep(st: State, step: Step)
    requires Enabled(st, step) && !step.LatchExclusive? && !step.LatchShared? && !step.Unlatch?
    ensures
      var st' := Apply(st, step);
      st'.latches == st.latches && (step.t in st.threads && HoldsLatch(st.threads[step.t]) ==>
        step.t in st'.threads && HoldsLatch(st'.threads[step.t]) && st'.threads[step.t].op == st.threads[step.t].op)
  {
    hide Lookup, TupleAt, Latch, SetSlot, InNode, LinkCheck, Unshare;
  }

  lemma {:induction false} LatchKept(st: State, step: Step, p: PageId)
    requires Inv(st) && LatchHeld(st, p) && Enabled(st, step)
    ensures LatchHeld(Apply(st, step), p)
  {
    hide Inv, Enabled, Apply, Latch;
    LatchStep(st, step, p);
    var st' := Apply(st, step);
    forall u | u != step.t && LatchHolder(st, p, u)
      ensures LatchHolder(st', p, u)
    {
      OthersHold(st, step, u);
    }
  }

  lemma {:induction false} StepHeld(st: State, step: Step)
    requires Inv(st) && LocksHeld(st) && Enabled(st, step)
    ensures LocksHeld(Apply(st, step))
  {
    hide Inv, Enabled, Apply, MapHeld, NodesHeld, LatchHeld;
    MapKept(st, step);
    NodesKept(st, step);
    var st' := Apply(st, step);
    forall p
      ensures LatchHeld(st', p)
    {
      LatchKept(st, step, p);
    }
  }

  lemma {:induction false} RunHeld(states: seq<State>, steps: seq<Step>, k: nat)
    requires Run(states, steps) && k <= |steps| < |states|
    ensures LocksHeld(states[k]) && Inv(states[k])
  {
    hide Inv, Enabled, Apply, LocksHeld, Init;
    RunInv(states, steps, k);
    if k == 0 {
      InitHeld(states[0]);
    } else {
      RunHeld(states, steps, k - 1);
      StepHeld(states[k - 1], steps[k - 1]);
    }
  }

  /**** Someone can go on ****/

  /** Some step of an operation under way is possible. */
  ghost predicate CanGoOn(st: State) {
    exists step: Step :: Enabled(st, step) && !step.Start?
  }

  lemma {:induction false} NodeHolderGoesOn(st: State, u: ThreadId)
    requires Inv(st) && u in st.threads && HoldsNode(st.threads[u].pc)
    ensures CanGoOn(st)
  {
    hide Inv, LinkCheck, InNode;
    match st.threads[u].pc
    case BothLocked(_) => assert Enabled(st, UnlockMap(u));
    case NodeLocked(n) =>
      var op := st.threads[u].op;
      if !Writes(op) {
        assert Enabled(st, ReadLink(u));
      } else if LinkCheck(op, InNode(st, n, op.rid.slot)) {
        assert Enabled(st, PassCheck(u));
      } else {
        assert Enabled(st, FailCheck(u));
      }
    case Checked(_, _) => CheckedGoesOn(st, u);
  }

  lemma {:induction false} CheckedGoesOn(st: State, u: ThreadId)
    requires Inv(st) && u in st.threads && st.threads[u].pc.Checked?
    ensures CanGoOn(st)
  {
    hide Inv, Lookup, TupleAt, Latch, LinkCheck;
    ThreadFacts(st, u);
    assert CanWriteLink(st, u);
    assert Enabled(st, WriteLink(u));
  }

  lemma {:induction false} MapHolderGoesOn(st: State, u: ThreadId)
    requires Inv(st) && NodesHeld(st) && u in st.threads && HoldsMap(st.threads[u].pc)
    ensures CanGoOn(st)
  {
    hide Inv;
    var th := st.threads[u];
    match th.pc
    case MapLocked =>
      if th.op.rid.page in st.info {
        assert Enabled(st, FindNode(u));
      } else if Writes(th.op) {
        assert Enabled(st, FindMissing(u));
      } else {
        assert Enabled(st, FindNothing(u));
      }
    case Missing => assert Enabled(st, CreateNode(u));
    case AtNode(n) =>
      if n in st.nodeLock {
        assert NodeHolder(st, n, st.nodeLock[n]);
        NodeHolderGoesOn(st, st.nodeLock[n]);
      } else {
        assert Enabled(st, LockNode(u));
      }
    case BothLocked(_) => NodeHolderGoesOn(st, u);
  }

  /** An operation that wants the map: it is free, or its holder goes on. */
  lemma {:induction false} WantsMapGoesOn(st: State, u: ThreadId)
    requires Inv(st) && MapHeld(st) && NodesHeld(st) && u in st.threads
    requires st.threads[u].pc.Ready? || (st.threads[u].pc.Begin? && !Couples(st.threads[u].op))
    ensures CanGoOn(st)
  {
    hide Inv, NodesHeld;
    var th := st.threads[u];
    if st.mapLock.Exclusive? {
      MapHolderGoesOn(st, st.mapLock.owner);
    } else if !Writes(th.op) {
      assert Enabled(st, ShareMap(u));
    } else if st.mapLock.holders == {} {
      assert Enabled(st, LockMap(u));
    } else {
      var v :| v in st.mapLock.holders;
      assert MapHolder(st, v);
      MapHolderGoesOn(st, v);
    }
  }

  /** A thread that holds a page latch goes on, or someone else does. */
  lemma {:induction false} LatchHolderGoesOn(st: State, u: ThreadId)
    requires Inv(st) && MapHeld(st) && NodesHeld(st) && u in st.threads && HoldsLatch(st.threads[u])
    ensures CanGoOn(st)
  {
    hide Inv, MapHeld, NodesHeld, TupleAt;
    var th := st.threads[u];
    if HoldsNode(th.pc) {
      NodeHolderGoesOn(st, u);
    } else if HoldsMap(th.pc) {
      MapHolderGoesOn(st, u);
    } else {
      match th.pc
      case Ready => WantsMapGoesOn(st, u);
      case Leave(_) => assert Enabled(st, Unlatch(u));
      case Latched =>
        if th.op.GetBoth? {
          assert Enabled(st, ReadTuple(u));
        } else if th.op.admit(TupleAt(st, th.op.rid), th.op.link) {
          assert Enabled(st, WriteTuple(u));
        } else {
          assert Enabled(st, RefuseTuple(u));
        }
    }
  }

  lemma {:induction false} BeginGoesOn(st: State, u: ThreadId)
    requires Inv(st) && LocksHeld(st) && u in st.threads && st.threads[u].pc.Begin? && Couples(st.threads[u].op)
    ensures CanGoOn(st)
  {
    hide Inv, MapHeld, NodesHeld, Latch;
    var th := st.threads[u];
    var l := Latch(st, th.op.rid.page);
    assert LatchHeld(st, th.op.rid.page);
    if l.Exclusive? {
      LatchHolderGoesOn(st, l.owner);
    } else if th.op.GetBoth? {
      assert Enabled(st, LatchShared(u));
    } else if l.holders == {} {
      assert Enabled(st, LatchExclusive(u));
    } else {
      var v :| v in l.holders;
      assert LatchHolder(st, th.op.rid.page, v);
      LatchHolderGoesOn(st, v);
    }
  }

  /** Deadlock freedom: in every run, while some operation is unfinished, some operation can take a step. */
  lemma {:induction false} NeverStuck(states: seq<State>, steps: seq<Step>, k: nat, u: ThreadId)
    requires Run(states, steps) && k <= |steps| < |states| && u in states[k].threads && !states[k].threads[u].pc.Done?
    ensures CanGoOn(states[k])
  {
    hide Run, Inv, LocksHeld, CanGoOn;
    RunHeld(states, steps, k);
    var st := states[k];
    assert MapHeld(st) && NodesHeld(st) by {
      HeldParts(st);
    }
    var th := st.threads[u];
    if HoldsNode(th.pc) {
      NodeHolderGoesOn(st, u);
    } else if HoldsMap(th.pc) {
      MapHolderGoesOn(st, u);
    } else if HoldsLatch(th) {
      LatchHolderGoesOn(st, u);
    } else if th.pc.Begin? && Couples(th.op) {
      BeginGoesOn(st, u);
    } else {
      LatchedCouples(st, u);
      WantsMapGoesOn(st, u);
    }
  }

  lemma {:induction false} HeldParts(st: State)
    requires LocksHeld(st)
    ensures MapHeld(st) && NodesHeld(st)
  {
    hide MapHeld, NodesHeld, LatchesHeld;
  }

  lemma {:induction false} LatchedCouples(st: State, u: ThreadId)
    requires Inv(st) && u in st.threads
    ensures st.threads[u].pc.Latched? || st.threads[u].pc.Leave? ==> Couples(st.threads[u].op)
  {
    hide Inv;
    ThreadFacts(st, u);
  }

  /**** What an operation waits for ****/

  /** An update takes the page latch exactly when no operation holds it; a read when no update does. Reads hold it together. */
  lemma {:induction false} LatchWaits(st: State, u: ThreadId)
    requires Inv(st) && LocksHeld(st) && u in st.threads && st.threads[u].pc.Begin?
    ensures
      var op := st.threads[u].op;
      && (op.SetBoth? ==> (Enabled(st, LatchExclusive(u)) <==> forall v :: v in st.threads ==> !LatchHolder(st, op.rid.page, v)))
      && (op.GetBoth? ==> (Enabled(st, LatchShared(u)) <==>
            forall v :: v in st.threads && st.threads[v].op.SetBoth? ==> !LatchHolder(st, op.rid.page, v)))
  {
    hide Inv, MapHeld, NodesHeld, Latch;
    var p := st.threads[u].op.rid.page;
    assert LatchHeld(st, p);
    forall v | v in st.threads && LatchHolder(st, p, v)
      ensures Owns(Latch(st, p), v, st.threads[v].op.SetBoth?)
    {
      HolderOwns(st, v);
    }
  }

  lemma {:induction false} HolderOwns(st: State, v: ThreadId)
    requires Inv(st) && v in st.threads
    ensures HoldsLatch(st.threads[v]) ==> Owns(Latch(st, st.threads[v].op.rid.page), v, st.threads[v].op.SetBoth?)
    ensures HoldsMap(st.threads[v].pc) ==> Owns(st.mapLock, v, Writes(st.threads[v].op))
    ensures HoldsNode(st.threads[v].pc) ==> st.threads[v].pc.node in st.nodeLock && st.nodeLock[st.threads[v].pc.node] == v
  {
    hide Inv, InfoOk, Lookup, TupleAt, Latch, LinkCheck;
    ThreadFacts(st, v);
  }

  /** A writer takes the map's lock exactly when no operation holds it; a reader when no writer does. Readers hold it together. */
  lemma {:induction false} MapWaits(st: State, u: ThreadId)
    requires Inv(st) && MapHeld(st) && u in st.threads
    requires st.threads[u].pc.Ready? || (st.threads[u].pc.Begin? && !Couples(st.threads[u].op))
    ensures
      if Writes(st.threads[u].op) then Enabled(st, LockMap(u)) <==> forall v :: v in st.threads ==> !HoldsMap(st.threads[v].pc)
      else Enabled(st, ShareMap(u)) <==> forall v :: v in st.threads && Writes(st.threads[v].op) ==> !HoldsMap(st.threads[v].pc)
  {
    hide Inv, Latch;
    forall v | v in st.threads && HoldsMap(st.threads[v].pc)
      ensures Owns(st.mapLock, v, Writes(st.threads[v].op))
    {
      HolderOwns(st, v);
    }
    if st.mapLock.Shared? {
      assert forall v :: v in st.mapLock.holders ==> MapHolder(st, v);
    }
  }

  /** An operation takes a node's lock exactly when no operation holds it. */
  lemma {:induction false} NodeWaits(st: State, u: ThreadId)
    requires Inv(st) && NodesHeld(st) && u in st.threads && st.threads[u].pc.AtNode?
    ensures Enabled(st, LockNode(u)) <==> forall v :: v in st.threads ==> !NodeHolder(st, st.threads[u].pc.node, v)
  {
    hide Inv, Latch;
    forall v | v in st.threads && NodeHolder(st, st.threads[u].pc.node, v)
      ensures st.threads[u].pc.node in st.nodeLock
    {
      HolderOwns(st, v);
    }
  }
}
