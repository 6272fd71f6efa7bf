/**
 The two-level undo-link store: a map from pages to version nodes under one lock, each node a map from
 slots to links under its own, the node's lock taken before the map's is released. Any number of
 threads run the four operations on it and on the table pages, one small step at a time.
 */
module UndoLinks {
  import opened Sequences

  type PageId = nat
  type NodeId = nat
  type ThreadId = nat

  datatype Rid = Rid(page: PageId, slot: nat)

  datatype Link = Link(txn: nat, log: nat)

  /** A table page's tuple with its meta data. */
  datatype Versioned = Versioned(meta: nat, data: string)

  /** UpdateUndoLink, GetUndoLink, UpdateTupleAndUndoLink and GetTupleAndUndoLink; no check is a check that holds. */
  datatype Op =
    | SetLink(rid: Rid, link: Option<Link>, check: Option<Link> -> bool)
    | GetLink(rid: Rid)
    | SetBoth(rid: Rid, link: Option<Link>, tuple: Versioned, admit: (Versioned, Option<Link>) -> bool)
    | GetBoth(rid: Rid)

  datatype Result = Flag(b: bool) | Found(link: Option<Link>)

  /** Where a thread is, and so what it holds. */
  datatype Pc =
    | Begin
    | Latched
    | Ready
    | MapLocked
    | Missing
    | AtNode(node: NodeId)
    | BothLocked(node: NodeId)
    | NodeLocked(node: NodeId)
    | Checked(node: NodeId, cur: Option<Link>)
    | Leave(result: Result)
    | Done(result: Result)

  /** `seen` is the tuple that a coupled operation has read under the page latch. */
  datatype Thread = Thread(op: Op, pc: Pc, seen: Option<Versioned>)

  datatype Lock = Exclusive(owner: ThreadId) | Shared(holders: set<ThreadId>)

  /** Locks that nobody holds are Shared({}) or absent. */
  datatype State = State(
    info: map<PageId, NodeId>,
    nodes: map<NodeId, map<nat, Link>>,
    mapLock: Lock,
    nodeLock: map<NodeId, ThreadId>,
    latches: map<PageId, Lock>,
    tuples: map<Rid, Versioned>,
    threads: map<ThreadId, Thread>,
    next: NodeId)

  predicate Writes(op: Op) { op.SetLink? || op.SetBoth? }

  predicate Couples(op: Op) { op.SetBoth? || op.GetBoth? }

  function Latch(st: State, p: PageId): Lock {
    if p in st.latches then st.latches[p] else Shared({})
  }

  function TupleAt(st: State, rid: Rid): Versioned {
    if rid in st.tuples then st.tuples[rid] else Versioned(0, "")
  }

  /** The flat map: the link of a record. */
  function Lookup(st: State, rid: Rid): Option<Link> {
    if rid.page in st.info && st.info[rid.page] in st.nodes && rid.slot in st.nodes[st.info[rid.page]]
    then Some(st.nodes[st.info[rid.page]][rid.slot]) else None
  }

  /** The check of a plain link update; an update of tuple and link passes none on. */
  predicate LinkCheck(op: Op, cur: Option<Link>) {
    op.SetLink? ==> op.check(cur)
  }

  function At(st: State, t: ThreadId, pc: Pc): map<ThreadId, Thread>
    requires t in st.threads
  {
    st.threads[t := st.threads[t].(pc := pc)]
  }

  /** Where an operation goes with its result: the coupled ones still hold the page latch. */
  function Finish(op: Op, r: Result): Pc {
    if Couples(op) then Leave(r) else Done(r)
  }

  function Unshare(l: Lock, t: ThreadId): Lock {
    if l.Shared? then Shared(l.holders - {t}) else Shared({})
  }

  /**** Steps of one thread ****/

  datatype Step =
    | Start(t: ThreadId, op: Op)
    | LatchExclusive(t: ThreadId)
    | LatchShared(t: ThreadId)
    | WriteTuple(t: ThreadId)
    | RefuseTuple(t: ThreadId)
    | ReadTuple(t: ThreadId)
    | LockMap(t: ThreadId)
    | ShareMap(t: ThreadId)
    | FindNode(t: ThreadId)
    | FindMissing(t: ThreadId)
    | FindNothing(t: ThreadId)
    | CreateNode(t: ThreadId)
    | LockNode(t: ThreadId)
    | UnlockMap(t: ThreadId)
    | PassCheck(t: ThreadId)
    | FailCheck(t: ThreadId)
    | ReadLink(t: ThreadId)
    | WriteLink(t: ThreadId)
    | Unlatch(t: ThreadId)

  /** Only thread t moves, and it keeps its operation. */
  ghost predicate Moves(st: State, st': State, t: ThreadId) {
    && t in st'.threads && st'.threads == st.threads[t := st'.threads[t]]
    && (t in st.threads ==> st'.threads[t].op == st.threads[t].op)
  }

  function InNode(st: State, n: NodeId, slot: nat): Option<Link> {
    if n in st.nodes && slot in st.nodes[n] then Some(st.nodes[n][slot]) else None
  }

  function SetSlot(node: map<nat, Link>, slot: nat, link: Option<Link>): map<nat, Link> {
    if link.Some? then node[slot := link.value] else node - {slot}
  }

  predicate CanStart(st: State, t: ThreadId, op: Op) {
    t !in st.threads
  }

  function DoStart(st: State, t: ThreadId, op: Op): (st': State)
    requires CanStart(st, t, op)
    ensures Moves(st, st', t)
  {
    st.(threads := st.threads[t := Thread(op, Begin, None)])
  }

  predicate CanLatchExclusive(st: State, t: ThreadId) {
    t in st.threads &&
    var op, pc := st.threads[t].op, st.threads[t].pc;
    pc.Begin? && op.SetBoth? && Latch(st, op.rid.page) == Shared({})
  }

  function DoLatchExclusive(st: State, t: ThreadId): (st': State)
    requires CanLatchExclusive(st, t)
    ensures Moves(st, st', t)
  {
    st.(threads := At(st, t, Latched), latches := st.latches[st.threads[t].op.rid.page := Exclusive(t)])
  }

  predicate CanLatchShared(st: State, t: ThreadId) {
    t in st.threads &&
    var op, pc := st.threads[t].op, st.threads[t].pc;
    pc.Begin? && op.GetBoth? && Latch(st, op.rid.page).Shared?
  }

  function DoLatchShared(st: State, t: ThreadId): (st': State)
    requires CanLatchShared(st, t)
    ensures Moves(st, st', t)
  {
    var page := st.threads[t].op.rid.page;
    st.(threads := At(st, t, Latched), latches := st.latches[page := Shared(Latch(st, page).holders + {t})])
  }

  /** A coupled update's check is given the link it is about to store. */
  predicate CanWriteTuple(st: State, t: ThreadId) {
    t in st.threads &&
    var op, pc := st.threads[t].op, st.threads[t].pc;
    pc.Latched? && op.SetBoth? && op.admit(TupleAt(st, op.rid), op.link)
  }

  function DoWriteTuple(st: State, t: ThreadId): (st': State)
    requires CanWriteTuple(st, t)
    ensures Moves(st, st', t)
  {
    var op := st.threads[t].op;
    st.(threads := st.threads[t := Thread(op, Ready, Some(TupleAt(st, op.rid)))], tuples := st.tuples[op.rid := op.tuple])
  }

  predicate CanRefuseTuple(st: State, t: ThreadId) {
    t in st.threads &&
    var op, pc := st.threads[t].op, st.threads[t].pc;
    pc.Latched? && op.SetBoth? && !op.admit(TupleAt(st, op.rid), op.link)
  }

  function DoRefuseTuple(st: State, t: ThreadId): (st': State)
    requires CanRefuseTuple(st, t)
    ensures Moves(st, st', t)
  {
    st.(threads := st.threads[t := Thread(st.threads[t].op, Leave(Flag(false)), Some(TupleAt(st, st.threads[t].op.rid)))])
  }

  predicate CanReadTuple(st: State, t: ThreadId) {
    t in st.threads &&
    var op, pc := st.threads[t].op, st.threads[t].pc;
    pc.Latched? && op.GetBoth?
  }

  function DoReadTuple(st: State, t: ThreadId): (st': State)
    requires CanReadTuple(st, t)
    ensures Moves(st, st', t)
  {
    st.(threads := st.threads[t := Thread(st.threads[t].op, Ready, Some(TupleAt(st, st.threads[t].op.rid)))])
  }

  predicate CanLockMap(st: State, t: ThreadId) {
    t in st.threads &&
    var op, pc := st.threads[t].op, st.threads[t].pc;
    (pc.Ready? || (pc.Begin? && !Couples(op))) && Writes(op) && st.mapLock == Shared({})
  }

  function DoLockMap(st: State, t: ThreadId): (st': State)
    requires CanLockMap(st, t)
    ensures Moves(st, st', t)
  {
    st.(threads := At(st, t, MapLocked), mapLock := Exclusive(t))
  }

  predicate CanShareMap(st: State, t: ThreadId) {
    t in st.threads &&
    var op, pc := st.threads[t].op, st.threads[t].pc;
    (pc.Ready? || (pc.Begin? && !Couples(op))) && !Writes(op) && st.mapLock.Shared?
  }

  function DoShareMap(st: State, t: ThreadId): (st': State)
    requires CanShareMap(st, t)
    ensures Moves(st, st', t)
  {
    st.(threads := At(st, t, MapLocked), mapLock := Shared(st.mapLock.holders + {t}))
  }

  predicate CanFindNode(st: State, t: ThreadId) {
    t in st.threads &&
    var op, pc := st.threads[t].op, st.threads[t].pc;
    pc.MapLocked? && op.rid.page in st.info
  }

  function DoFindNode(st: State, t: ThreadId): (st': State)
    requires CanFindNode(st, t)
    ensures Moves(st, st', t)
  {
    st.(threads := At(st, t, AtNode(st.info[st.threads[t].op.rid.page])))
  }

  predicate CanFindMissing(st: State, t: ThreadId) {
    t in st.threads &&
    var op, pc := st.threads[t].op, st.threads[t].pc;
    pc.MapLocked? && op.rid.page !in st.info && Writes(op)
  }

  function DoFindMissing(st: State, t: ThreadId): (st': State)
    requires CanFindMissing(st, t)
    ensures Moves(st, st', t)
  {
    st.(threads := At(st, t, Missing))
  }

  /** A reader of a page without node is done. */
  predicate CanFindNothing(st: State, t: ThreadId) {
    t in st.threads &&
    var op, pc := st.threads[t].op, st.threads[t].pc;
    pc.MapLocked? && op.rid.page !in st.info && !Writes(op)
  }

  function DoFindNothing(st: State, t: ThreadId): (st': State)
    requires CanFindNothing(st, t)
    ensures Moves(st, st', t)
  {
    st.(threads := At(st, t, Finish(st.threads[t].op, Found(None))), mapLock := Unshare(st.mapLock, t))
  }

  predicate CanCreateNode(st: State, t: ThreadId) {
    t in st.threads &&
    var pc := st.threads[t].pc;
    pc.Missing?
  }

  function DoCreateNode(st: State, t: ThreadId): (st': State)
    requires CanCreateNode(st, t)
    ensures Moves(st, st', t)
  {
    st.(threads := At(st, t, AtNode(st.next)), info := st.info[st.threads[t].op.rid.page := st.next],
        nodes := st.nodes[st.next := map[]], next := st.next + 1)
  }

  predicate CanLockNode(st: State, t: ThreadId) {
    t in st.threads &&
    var pc := st.threads[t].pc;
    pc.AtNode? && pc.node !in st.nodeLock
  }

  function DoLockNode(st: State, t: ThreadId): (st': State)
    requires CanLockNode(st, t)
    ensures Moves(st, st', t)
  {
    st.(threads := At(st, t, BothLocked(st.threads[t].pc.node)), nodeLock := st.nodeLock[st.threads[t].pc.node := t])
  }

  predicate CanUnlockMap(st: State, t: ThreadId) {
    t in st.threads &&
    var pc := st.threads[t].pc;
    pc.BothLocked?
  }

  function DoUnlockMap(st: State, t: ThreadId): (st': State)
    requires CanUnlockMap(st, t)
    ensures Moves(st, st', t)
  {
    st.(threads := At(st, t, NodeLocked(st.threads[t].pc.node)), mapLock := Unshare(st.mapLock, t))
  }

  predicate CanPassCheck(st: State, t: ThreadId) {
    t in st.threads &&
    var op, pc := st.threads[t].op, st.threads[t].pc;
    pc.NodeLocked? && Writes(op) && LinkCheck(op, InNode(st, pc.node, op.rid.slot))
  }

  function DoPassCheck(st: State, t: ThreadId): (st': State)
    requires CanPassCheck(st, t)
    ensures Moves(st, st', t)
  {
    var n := st.threads[t].pc.node;
    st.(threads := At(st, t, Checked(n, InNode(st, n, st.threads[t].op.rid.slot))))
  }

  predicate CanFailCheck(st: State, t: ThreadId) {
    t in st.threads &&
    var op, pc := st.threads[t].op, st.threads[t].pc;
    pc.NodeLocked? && Writes(op) && !LinkCheck(op, InNode(st, pc.node, op.rid.slot))
  }

  function DoFailCheck(st: State, t: ThreadId): (st': State)
    requires CanFailCheck(st, t)
    ensures Moves(st, st', t)
  {
    st.(threads := At(st, t, Finish(st.threads[t].op, Flag(false))), nodeLock := st.nodeLock - {st.threads[t].pc.node})
  }

  predicate CanReadLink(st: State, t: ThreadId) {
    t in st.threads &&
    var op, pc := st.threads[t].op, st.threads[t].pc;
    pc.NodeLocked? && !Writes(op)
  }

  function DoReadLink(st: State, t: ThreadId): (st': State)
    requires CanReadLink(st, t)
    ensures Moves(st, st', t)
  {
    var op, n := st.threads[t].op, st.threads[t].pc.node;
    st.(threads := At(st, t, Finish(op, Found(InNode(st, n, op.rid.slot)))), nodeLock := st.nodeLock - {n})
  }

  predicate CanWriteLink(st: State, t: ThreadId) {
    t in st.threads &&
    var op, pc := st.threads[t].op, st.threads[t].pc;
    pc.Checked? && pc.node in st.nodes && Writes(op)
  }

  function DoWriteLink(st: State, t: ThreadId): (st': State)
    requires CanWriteLink(st, t)
    ensures Moves(st, st', t)
  {
    var op, n := st.threads[t].op, st.threads[t].pc.node;
    st.(nodes := st.nodes[n := SetSlot(st.nodes[n], op.rid.slot, op.link)],
        threads := At(st, t, Finish(op, Flag(true))), nodeLock := st.nodeLock - {n})
  }

  predicate CanUnlatch(st: State, t: ThreadId) {
    t in st.threads &&
    var pc := st.threads[t].pc;
    pc.Leave?
  }

  function DoUnlatch(st: State, t: ThreadId): (st': State)
    requires CanUnlatch(st, t)
    ensures Moves(st, st', t)
  {
    var page := st.threads[t].op.rid.page;
    st.(threads := At(st, t, Done(st.threads[t].pc.result)), latches := st.latches[page := Unshare(Latch(st, page), t)])
  }

  predicate Enabled(st: State, step: Step) {
    match step
    case Start(t, op) => CanStart(st, t, op)
    case LatchExclusive(t) => CanLatchExclusive(st, t)
    case LatchShared(t) => CanLatchShared(st, t)
    case WriteTuple(t) => CanWriteTuple(st, t)
    case RefuseTuple(t) => CanRefuseTuple(st, t)
    case ReadTuple(t) => CanReadTuple(st, t)
    case LockMap(t) => CanLockMap(st, t)
    case ShareMap(t) => CanShareMap(st, t)
    case FindNode(t) => CanFindNode(st, t)
    case FindMissing(t) => CanFindMissing(st, t)
    case FindNothing(t) => CanFindNothing(st, t)
    case CreateNode(t) => CanCreateNode(st, t)
    case LockNode(t) => CanLockNode(st, t)
    case UnlockMap(t) => CanUnlockMap(st, t)
    case PassCheck(t) => CanPassCheck(st, t)
    case FailCheck(t) => CanFailCheck(st, t)
    case ReadLink(t) => CanReadLink(st, t)
    case WriteLink(t) => CanWriteLink(st, t)
    case Unlatch(t) => CanUnlatch(st, t)
  }

  function Apply(st: State, step: Step): (st': State)
    requires Enabled(st, step)
    ensures Moves(st, st', step.t)
    ensures !step.CreateNode? ==> st'.info == st.info
  {
    match step
    case Start(t, op) => DoStart(st, t, op)
    case LatchExclusive(t) => DoLatchExclusive(st, t)
    case LatchShared(t) => DoLatchShared(st, t)
    case WriteTuple(t) => DoWriteTuple(st, t)
    case RefuseTuple(t) => DoRefuseTuple(st, t)
    case ReadTuple(t) => DoReadTuple(st, t)
    case LockMap(t) => DoLockMap(st, t)
    case ShareMap(t) => DoShareMap(st, t)
    case FindNode(t) => DoFindNode(st, t)
    case FindMissing(t) => DoFindMissing(st, t)
    case FindNothing(t) => DoFindNothing(st, t)
    case CreateNode(t) => DoCreateNode(st, t)
    case LockNode(t) => DoLockNode(st, t)
    case UnlockMap(t) => DoUnlockMap(st, t)
    case PassCheck(t) => DoPassCheck(st, t)
    case FailCheck(t) => DoFailCheck(st, t)
    case ReadLink(t) => DoReadLink(st, t)
    case WriteLink(t) => DoWriteLink(st, t)
    case Unlatch(t) => DoUnlatch(st, t)
  }

  /**** The invariant ****/

  predicate Owns(l: Lock, t: ThreadId, exclusive: bool) {
    if exclusive then l == Exclusive(t) else l.Shared? && t in l.holders
  }

  predicate HoldsMap(pc: Pc) {
    pc.MapLocked? || pc.Missing? || pc.AtNode? || pc.BothLocked?
  }

  predicate HasNode(pc: Pc) {
    pc.AtNode? || pc.BothLocked? || pc.NodeLocked? || pc.Checked?
  }

  predicate HoldsNode(pc: Pc) {
    pc.BothLocked? || pc.NodeLocked? || pc.Checked?
  }

  predicate HoldsLatch(th: Thread) {
    Couples(th.op) && !th.pc.Begin? && !th.pc.Done?
  }

  /** Between the tuple step and the result of a coupled operation. */
  predicate MidWay(pc: Pc) {
    pc.Ready? || HoldsMap(pc) || HasNode(pc)
  }

  /** What a thread's place says about the store. */
  predicate ThreadOk(st: State, t: ThreadId, th: Thread) {
    && (HoldsMap(th.pc) ==> Owns(st.mapLock, t, Writes(th.op)))
    && (th.pc.Missing? ==> th.op.rid.page !in st.info && Writes(th.op))
    && (HasNode(th.pc) ==> th.op.rid.page in st.info && st.info[th.op.rid.page] == th.pc.node)
    && (HoldsNode(th.pc) ==> th.pc.node in st.nodeLock && st.nodeLock[th.pc.node] == t)
    && (th.pc.Checked? ==> th.pc.cur == Lookup(st, th.op.rid) && LinkCheck(th.op, th.pc.cur) && Writes(th.op))
    && (HoldsLatch(th) ==> Owns(Latch(st, th.op.rid.page), t, th.op.SetBoth?))
    && (th.op.GetBoth? && MidWay(th.pc) ==> th.seen == Some(TupleAt(st, th.op.rid)))
    && (th.op.SetBoth? && MidWay(th.pc) ==>
          TupleAt(st, th.op.rid) == th.op.tuple && th.seen.Some? && th.op.admit(th.seen.value, th.op.link))
    && (th.pc.Latched? || th.pc.Leave? ==> Couples(th.op))
  }

  /** Pages have nodes of their own. */
  ghost predicate InfoOk(info: map<PageId, NodeId>, nodes: map<NodeId, map<nat, Link>>, next: NodeId) {
    && (forall p :: p in info ==> info[p] in nodes && info[p] < next)
    && (forall p, q :: p in info && q in info && p != q ==> info[p] != info[q])
  }

  ghost predicate Inv(st: State) {
    InfoOk(st.info, st.nodes, st.next) && forall t :: t in st.threads ==> ThreadOk(st, t, st.threads[t])
  }

  ghost predicate Init(st: State) {
    st.info == map[] && st.nodeLock == map[] && st.mapLock == Shared({}) && st.latches == map[] && st.threads == map[]
  }

  lemma {:induction false} InitInv(st: State)
    requires Init(st)
    ensures Inv(st)
  {
  }

  /**** What a step leaves alone ****/

  /** Threads other than t keep the locks they own. */
  ghost predicate LockKept(l: Lock, l': Lock, t: ThreadId) {
    forall u, exclusive :: u != t && Owns(l, u, exclusive) ==> Owns(l', u, exclusive)
  }

  ghost predicate LatchesKept(st: State, st': State, t: ThreadId) {
    forall p :: LockKept(Latch(st, p), Latch(st', p), t)
  }

  ghost predicate NodeLocksKept(l: map<NodeId, ThreadId>, l': map<NodeId, ThreadId>, t: ThreadId) {
    forall n :: n in l && l[n] != t ==> n in l' && l'[n] == l[n]
  }

  /** Pages keep their nodes; only the owner of the map adds one. */
  ghost predicate InfoKept(st: State, st': State, t: ThreadId) {
    && (forall p :: p in st.info ==> p in st'.info && st'.info[p] == st.info[p])
    && (st'.info.Keys == st.info.Keys || st.mapLock == Exclusive(t))
  }

  /** Links change only in nodes that t has locked. */
  ghost predicate LinksKept(st: State, st': State, t: ThreadId) {
    forall rid :: Lookup(st', rid) == Lookup(st, rid)
      || (rid.page in st.info && st.info[rid.page] in st.nodeLock && st.nodeLock[st.info[rid.page]] == t)
  }

  /** Tuples change only on pages that t has latched exclusively. */
  ghost predicate TuplesKept(st: State, st': State, t: ThreadId) {
    forall rid :: TupleAt(st', rid) == TupleAt(st, rid) || Latch(st, rid.page) == Exclusive(t)
  }

  ghost predicate Undisturbed(st: State, st': State, t: ThreadId) {
    && LockKept(st.mapLock, st'.mapLock, t) && LatchesKept(st, st', t) && NodeLocksKept(st.nodeLock, st'.nodeLock, t)
    && InfoKept(st, st', t) && LinksKept(st, st', t) && TuplesKept(st, st', t)
  }

  /** An undisturbed thread's facts persist. */
  lemma {:induction false} ThreadKept(st: State, st': State, t: ThreadId, u: ThreadId, th: Thread)
    requires Undisturbed(st, st', t) && u != t && ThreadOk(st, u, th)
    ensures ThreadOk(st', u, th)
  {
    hide Lookup, TupleAt, Latch;
    assert LockKept(Latch(st, th.op.rid.page), Latch(st', th.op.rid.page), t);
  }

  lemma {:induction false} OthersKept(st: State, st': State, t: ThreadId, th: Thread)
    requires Inv(st) && Undisturbed(st, st', t) && st'.threads == st.threads[t := th]
    requires ThreadOk(st', t, th) && InfoOk(st'.info, st'.nodes, st'.next)
    ensures Inv(st')
  {
    hide ThreadOk, Undisturbed, InfoOk;
    forall u | u in st'.threads
      ensures ThreadOk(st', u, st'.threads[u])
    {
      if u != t {
        ThreadKept(st, st', t, u, st.threads[u]);
      }
    }
  }

  lemma {:induction false} ThreadFacts(st: State, t: ThreadId)
    requires Inv(st) && t in st.threads
    ensures ThreadOk(st, t, st.threads[t]) && InfoOk(st.info, st.nodes, st.next)
  {
    hide ThreadOk, InfoOk;
  }

  /** Steps that change neither the store nor the tuples. */
  lemma {:induction false} SameData(st: State, st': State, t: ThreadId)
    requires st'.info == st.info && st'.nodes == st.nodes && st'.tuples == st.tuples
    ensures InfoKept(st, st', t) && LinksKept(st, st', t) && TuplesKept(st, st', t)
  {
  }

  lemma {:induction false} SameLatches(st: State, st': State, t: ThreadId)
    requires st'.latches == st.latches
    ensures LatchesKept(st, st', t)
  {
  }

  /** A new node is empty, so the flat map stays as it is. */
  lemma {:induction false} CreateLookup(st: State, t: ThreadId)
    requires InfoOk(st.info, st.nodes, st.next) && CanCreateNode(st, t) && ThreadOk(st, t, st.threads[t])
    ensures forall rid :: Lookup(DoCreateNode(st, t), rid) == Lookup(st, rid)
  {
  }

  /** The flat map changes at the written record alone. */
  lemma {:induction false} WriteLookup(st: State, t: ThreadId)
    requires InfoOk(st.info, st.nodes, st.next) && CanWriteLink(st, t) && ThreadOk(st, t, st.threads[t])
    ensures forall rid ::
      Lookup(DoWriteLink(st, t), rid) == if rid == st.threads[t].op.rid then st.threads[t].op.link else Lookup(st, rid)
  {
  }

  lemma {:induction false} StartInv(st: State, t: ThreadId, op: Op)
    requires Inv(st) && CanStart(st, t, op)
    ensures Inv(DoStart(st, t, op))
  {
    var st' := DoStart(st, t, op);
    assert InfoOk(st'.info, st'.nodes, st'.next);
    hide Inv;
    SameData(st, st', t);
    SameLatches(st, st', t);
    hide InfoKept, LinksKept, TuplesKept, LatchesKept, InfoOk;
    OthersKept(st, st', t, st'.threads[t]);
  }

  lemma {:induction false} LatchExclusiveInv(st: State, t: ThreadId)
    requires Inv(st) && CanLatchExclusive(st, t)
    ensures Inv(DoLatchExclusive(st, t))
  {
    hide Inv;
    var st' := DoLatchExclusive(st, t);
    ThreadFacts(st, t);
    SameData(st, st', t);
    hide InfoKept, LinksKept, TuplesKept, InfoOk;
    OthersKept(st, st', t, st'.threads[t]);
  }

  lemma {:induction false} LatchSharedInv(st: State, t: ThreadId)
    requires Inv(st) && CanLatchShared(st, t)
    ensures Inv(DoLatchShared(st, t))
  {
    hide Inv;
    var st' := DoLatchShared(st, t);
    ThreadFacts(st, t);
    SameData(st, st', t);
    hide InfoKept, LinksKept, TuplesKept, InfoOk;
    OthersKept(st, st', t, st'.threads[t]);
  }

  lemma {:induction false} WriteTupleInv(st: State, t: ThreadId)
    requires Inv(st) && CanWriteTuple(st, t)
    ensures Inv(DoWriteTuple(st, t))
  {
    hide Inv;
    var st' := DoWriteTuple(st, t);
    ThreadFacts(st, t);
    SameLatches(st, st', t);
    hide LatchesKept, InfoOk;
    OthersKept(st, st', t, st'.threads[t]);
  }

  lemma {:induction false} RefuseTupleInv(st: State, t: ThreadId)
    requires Inv(st) && CanRefuseTuple(st, t)
    ensures Inv(DoRefuseTuple(st, t))
  {
    hide Inv;
    var st' := DoRefuseTuple(st, t);
    ThreadFacts(st, t);
    SameData(st, st', t);
    SameLatches(st, st', t);
    hide InfoKept, LinksKept, TuplesKept, InfoOk, LatchesKept;
    OthersKept(st, st', t, st'.threads[t]);
  }

  lemma {:induction false} ReadTupleInv(st: State, t: ThreadId)
    requires Inv(st) && CanReadTuple(st, t)
    ensures Inv(DoReadTuple(st, t))
  {
    hide Inv;
    var st' := DoReadTuple(st, t);
    ThreadFacts(st, t);
    SameData(st, st', t);
    SameLatches(st, st', t);
    hide InfoKept, LinksKept, TuplesKept, InfoOk, LatchesKept;
    OthersKept(st, st', t, st'.threads[t]);
  }

  lemma {:induction false} LockMapInv(st: State, t: ThreadId)
    requires Inv(st) && CanLockMap(st, t)
    ensures Inv(DoLockMap(st, t))
  {
    hide Inv;
    var st' := DoLockMap(st, t);
    ThreadFacts(st, t);
    SameData(st, st', t);
    SameLatches(st, st', t);
    hide InfoKept, LinksKept, TuplesKept, InfoOk, LatchesKept;
    OthersKept(st, st', t, st'.threads[t]);
  }

  lemma {:induction false} ShareMapInv(st: State, t: ThreadId)
    requires Inv(st) && CanShareMap(st, t)
    ensures Inv(DoShareMap(st, t))
  {
    hide Inv;
    var st' := DoShareMap(st, t);
    ThreadFacts(st, t);
    SameData(st, st', t);
    SameLatches(st, st', t);
    hide InfoKept, LinksKept, TuplesKept, InfoOk, LatchesKept;
    OthersKept(st, st', t, st'.threads[t]);
  }

  lemma {:induction false} FindNodeInv(st: State, t: ThreadId)
    requires Inv(st) && CanFindNode(st, t)
    ensures Inv(DoFindNode(st, t))
  {
    hide Inv;
    var st' := DoFindNode(st, t);
    ThreadFacts(st, t);
    SameData(st, st', t);
    SameLatches(st, st', t);
    hide InfoKept, LinksKept, TuplesKept, InfoOk, LatchesKept;
    OthersKept(st, st', t, st'.threads[t]);
  }

  lemma {:induction false} FindMissingInv(st: State, t: ThreadId)
    requires Inv(st) && CanFindMissing(st, t)
    ensures Inv(DoFindMissing(st, t))
  {
    hide Inv;
    var st' := DoFindMissing(st, t);
    ThreadFacts(st, t);
    SameData(st, st', t);
    SameLatches(st, st', t);
    hide InfoKept, LinksKept, TuplesKept, InfoOk, LatchesKept;
    OthersKept(st, st', t, st'.threads[t]);
  }

  lemma {:induction false} FindNothingInv(st: State, t: ThreadId)
    requires Inv(st) && CanFindNothing(st, t)
    ensures Inv(DoFindNothing(st, t))
  {
    hide Inv;
    var st' := DoFindNothing(st, t);
    ThreadFacts(st, t);
    SameData(st, st', t);
    SameLatches(st, st', t);
    hide InfoKept, LinksKept, TuplesKept, InfoOk, LatchesKept;
    OthersKept(st, st', t, st'.threads[t]);
  }

  lemma {:induction false} CreateNodeInv(st: State, t: ThreadId)
    requires Inv(st) && CanCreateNode(st, t)
    ensures Inv(DoCreateNode(st, t))
  {
    hide Inv;
    var st' := DoCreateNode(st, t);
    ThreadFacts(st, t);
    SameLatches(st, st', t);
    CreateLookup(st, t);
    hide LatchesKept;
    OthersKept(st, st', t, st'.threads[t]);
  }

  lemma {:induction false} LockNodeInv(st: State, t: ThreadId)
    requires Inv(st) && CanLockNode(st, t)
    ensures Inv(DoLockNode(st, t))
  {
    hide Inv;
    var st' := DoLockNode(st, t);
    ThreadFacts(st, t);
    SameData(st, st', t);
    SameLatches(st, st', t);
    hide InfoKept, LinksKept, TuplesKept, InfoOk, LatchesKept;
    OthersKept(st, st', t, st'.threads[t]);
  }

  lemma {:induction false} UnlockMapInv(st: State, t: ThreadId)
    requires Inv(st) && CanUnlockMap(st, t)
    ensures Inv(DoUnlockMap(st, t))
  {
    hide Inv;
    var st' := DoUnlockMap(st, t);
    ThreadFacts(st, t);
    SameData(st, st', t);
    SameLatches(st, st', t);
    hide InfoKept, LinksKept, TuplesKept, InfoOk, LatchesKept;
    OthersKept(st, st', t, st'.threads[t]);
  }

  lemma {:induction false} PassCheckInv(st: State, t: ThreadId)
    requires Inv(st) && CanPassCheck(st, t)
    ensures Inv(DoPassCheck(st, t))
  {
    hide Inv;
    var st' := DoPassCheck(st, t);
    ThreadFacts(st, t);
    SameData(st, st', t);
    SameLatches(st, st', t);
    hide InfoKept, LinksKept, TuplesKept, InfoOk, LatchesKept;
    OthersKept(st, st', t, st'.threads[t]);
  }

  lemma {:induction false} FailCheckInv(st: State, t: ThreadId)
    requires Inv(st) && CanFailCheck(st, t)
    ensures Inv(DoFailCheck(st, t))
  {
    hide Inv;
    var st' := DoFailCheck(st, t);
    ThreadFacts(st, t);
    SameData(st, st', t);
    SameLatches(st, st', t);
    hide InfoKept, LinksKept, TuplesKept, InfoOk, LatchesKept;
    OthersKept(st, st', t, st'.threads[t]);
  }

  lemma {:induction false} ReadLinkInv(st: State, t: ThreadId)
    requires Inv(st) && CanReadLink(st, t)
    ensures Inv(DoReadLink(st, t))
  {
    hide Inv;
    var st' := DoReadLink(st, t);
    ThreadFacts(st, t);
    SameData(st, st', t);
    SameLatches(st, st', t);
    hide InfoKept, LinksKept, TuplesKept, InfoOk, LatchesKept;
    OthersKept(st, st', t, st'.threads[t]);
  }

  lemma {:induction false} WriteLinkInv(st: State, t: ThreadId)
    requires Inv(st) && CanWriteLink(st, t)
    ensures Inv(DoWriteLink(st, t))
  {
    hide Inv;
    var st' := DoWriteLink(st, t);
    ThreadFacts(st, t);
    SameLatches(st, st', t);
    WriteLookup(st, t);
    hide LatchesKept, Lookup;
    OthersKept(st, st', t, st'.threads[t]);
  }

  lemma {:induction false} UnlatchInv(st: State, t: ThreadId)
    requires Inv(st) && CanUnlatch(st, t)
    ensures Inv(DoUnlatch(st, t))
  {
    hide Inv;
    var st' := DoUnlatch(st, t);
    ThreadFacts(st, t);
    SameData(st, st', t);
    hide InfoKept, LinksKept, TuplesKept, InfoOk;
    OthersKept(st, st', t, st'.threads[t]);
  }

  /** Every step keeps the invariant. */
  lemma {:induction false} StepInv(st: State, step: Step)
    requires Inv(st) && Enabled(st, step)
    ensures Inv(Apply(st, step))
  {
    hide Inv, Moves, CanStart, DoStart;
    hide CanLatchExclusive, CanLatchShared, CanWriteTuple, CanRefuseTuple, CanReadTuple, CanLockMap;
    hide DoLatchExclusive, DoLatchShared, DoWriteTuple, DoRefuseTuple, DoReadTuple, DoLockMap;
    hide CanShareMap, CanFindNode, CanFindMissing, CanFindNothing, CanCreateNode, CanLockNode;
    hide DoShareMap, DoFindNode, DoFindMissing, DoFindNothing, DoCreateNode, DoLockNode;
    hide CanUnlockMap, CanPassCheck, CanFailCheck, CanReadLink, CanWriteLink, CanUnlatch;
    hide DoUnlockMap, DoPassCheck, DoFailCheck, DoReadLink, DoWriteLink, DoUnlatch;
    match step
    case Start(t, op) => StartInv(st, t, op);
    case LatchExclusive(t) => LatchExclusiveInv(st, t);
    case LatchShared(t) => LatchSharedInv(st, t);
    case WriteTuple(t) => WriteTupleInv(st, t);
    case RefuseTuple(t) => RefuseTupleInv(st, t);
    case ReadTuple(t) => ReadTupleInv(st, t);
    case LockMap(t) => LockMapInv(st, t);
    case ShareMap(t) => ShareMapInv(st, t);
    case FindNode(t) => FindNodeInv(st, t);
    case FindMissing(t) => FindMissingInv(st, t);
    case FindNothing(t) => FindNothingInv(st, t);
    case CreateNode(t) => CreateNodeInv(st, t);
    case LockNode(t) => LockNodeInv(st, t);
    case UnlockMap(t) => UnlockMapInv(st, t);
    case PassCheck(t) => PassCheckInv(st, t);
    case FailCheck(t) => FailCheckInv(st, t);
    case ReadLink(t) => ReadLinkInv(st, t);
    case WriteLink(t) => WriteLinkInv(st, t);
    case Unlatch(t) => UnlatchInv(st, t);
  }

  /**** Linearization ****/

  /** The steps at which an operation takes effect on the flat map and its result is fixed. */
  predicate TakesEffect(step: Step) {
    step.WriteLink? || step.ReadLink? || step.FailCheck? || step.FindNothing? || step.RefuseTuple?
  }

  /** What an operation does to the flat map if it runs all at once: a check-and-set, or a look. `seen` is the tuple it read. */
  predicate Atomic(st: State, st': State, op: Op, r: Result, seen: Option<Versioned>) {
    match op
    case SetLink(rid, link, check) => r == Flag(check(Lookup(st, rid))) && (r.b ==> Lookup(st', rid) == link)
    case GetLink(rid) => r == Found(Lookup(st, rid))
    case SetBoth(rid, link, tuple, admit) =>
      && seen.Some? && r == Flag(admit(seen.value, link))
      && (if r.b then Lookup(st', rid) == link && TupleAt(st', rid) == tuple
          else seen.value == TupleAt(st, rid) && Lookup(st', rid) == Lookup(st, rid) && TupleAt(st', rid) == TupleAt(st, rid))
    case GetBoth(rid) => r == Found(Lookup(st, rid)) && seen == Some(TupleAt(st, rid))
  }

  function ResultOf(pc: Pc): Option<Result> {
    if pc.Leave? || pc.Done? then Some(pc.result) else None
  }

  /** Everything but the record of a successful set keeps its link. */
  ghost predicate OthersSame(st: State, st': State, op: Op, r: Result) {
    forall rid :: Lookup(st', rid) == Lookup(st, rid) || (rid == op.rid && Writes(op) && r == Flag(true))
  }

  /** The result step.t has after a step, and what the step does to the flat map on the way. */
  ghost predicate Effect(st: State, st': State, t: ThreadId) {
    t in st.threads && t in st'.threads &&
    var op, r := st.threads[t].op, ResultOf(st'.threads[t].pc);
    r.Some? && Atomic(st, st', op, r.value, st'.threads[t].seen) && OthersSame(st, st', op, r.value)
  }

  ghost predicate Silent(st: State, st': State, t: ThreadId) {
    && (forall rid :: Lookup(st', rid) == Lookup(st, rid))
    && (t in st'.threads ==> ResultOf(st'.threads[t].pc) == if t in st.threads then ResultOf(st.threads[t].pc) else None)
  }

  lemma {:induction false} WriteEffect(st: State, t: ThreadId)
    requires Inv(st) && CanWriteLink(st, t)
    ensures Effect(st, DoWriteLink(st, t), t)
  {
    hide Inv;
    ThreadFacts(st, t);
    WriteLookup(st, t);
    hide Lookup, InfoOk;
  }

  lemma {:induction false} ReadEffect(st: State, t: ThreadId)
    requires Inv(st) && CanReadLink(st, t)
    ensures Effect(st, DoReadLink(st, t), t)
  {
    hide Inv;
    ThreadFacts(st, t);
  }

  lemma {:induction false} FailEffect(st: State, t: ThreadId)
    requires Inv(st) && CanFailCheck(st, t)
    ensures Effect(st, DoFailCheck(st, t), t)
  {
    hide Inv;
    ThreadFacts(st, t);
  }

  lemma {:induction false} NothingEffect(st: State, t: ThreadId)
    requires Inv(st) && CanFindNothing(st, t)
    ensures Effect(st, DoFindNothing(st, t), t)
  {
    hide Inv;
    ThreadFacts(st, t);
  }

  lemma {:induction false} RefuseEffect(st: State, t: ThreadId)
    requires Inv(st) && CanRefuseTuple(st, t)
    ensures Effect(st, DoRefuseTuple(st, t), t)
  {
    hide Inv;
  }

  /** At its effective step an operation does on the flat map exactly what it would do alone, and gets that result. */
  lemma {:induction false} EffectIsAtomic(st: State, step: Step)
    requires Inv(st) && Enabled(st, step) && TakesEffect(step)
    ensures Effect(st, Apply(st, step), step.t)
  {
    hide Inv, Effect;
    hide DoLatchExclusive, DoLatchShared, DoWriteTuple, DoRefuseTuple, DoReadTuple, DoLockMap;
    hide DoShareMap, DoFindNode, DoFindMissing, DoFindNothing, DoCreateNode, DoLockNode;
    hide DoUnlockMap, DoPassCheck, DoFailCheck, DoReadLink, DoWriteLink, DoUnlatch;
    match step
    case WriteLink(t) => WriteEffect(st, t);
    case ReadLink(t) => ReadEffect(st, t);
    case FailCheck(t) => FailEffect(st, t);
    case FindNothing(t) => NothingEffect(st, t);
    case RefuseTuple(t) => RefuseEffect(st, t);
  }

  lemma {:induction false} SilentMove(st: State, st': State, t: ThreadId)
    requires st'.info == st.info && st'.nodes == st.nodes
    requires t in st'.threads && ResultOf(st'.threads[t].pc) == if t in st.threads then ResultOf(st.threads[t].pc) else None
    ensures Silent(st, st', t)
  {
  }

  lemma {:induction false} SilentCreate(st: State, t: ThreadId)
    requires Inv(st) && CanCreateNode(st, t)
    ensures Silent(st, DoCreateNode(st, t), t)
  {
    hide Inv;
    ThreadFacts(st, t);
    CreateLookup(st, t);
    hide Lookup, InfoOk;
  }

  /** Any other step leaves the flat map alone and gives nobody a result. */
  lemma {:induction false} SilentStep(st: State, step: Step)
    requires Inv(st) && Enabled(st, step) && !TakesEffect(step)
    ensures Silent(st, Apply(st, step), step.t)
  {
    hide Inv, Silent;
    match step
    case CreateNode(t) => SilentCreate(st, t);
    case Start(t, op) => SilentMove(st, DoStart(st, t, op), t);
    case LatchExclusive(t) => SilentMove(st, DoLatchExclusive(st, t), t);
    case LatchShared(t) => SilentMove(st, DoLatchShared(st, t), t);
    case WriteTuple(t) => SilentMove(st, DoWriteTuple(st, t), t);
    case ReadTuple(t) => SilentMove(st, DoReadTuple(st, t), t);
    case LockMap(t) => SilentMove(st, DoLockMap(st, t), t);
    case ShareMap(t) => SilentMove(st, DoShareMap(st, t), t);
    case FindNode(t) => SilentMove(st, DoFindNode(st, t), t);
    case FindMissing(t) => SilentMove(st, DoFindMissing(st, t), t);
    case LockNode(t) => SilentMove(st, DoLockNode(st, t), t);
    case UnlockMap(t) => SilentMove(st, DoUnlockMap(st, t), t);
    case PassCheck(t) => SilentMove(st, DoPassCheck(st, t), t);
    case Unlatch(t) => SilentMove(st, DoUnlatch(st, t), t);
  }

  /** Each page's node is created once and never replaced. */
  lemma {:induction false} NodesStay(st: State, step: Step)
    requires Inv(st) && Enabled(st, step)
    ensures forall p :: p in st.info ==> p in Apply(st, step).info && Apply(st, step).info[p] == st.info[p]
  {
    if step.CreateNode? {
      ThreadFacts(st, step.t);
    } else {
      hide Apply;
    }
    hide Inv;
  }

  ghost predicate Run(states: seq<State>, steps: seq<Step>) {
    && |states| == |steps| + 1 && Init(states[0])
    && forall i :: 0 <= i < |steps| ==> Enabled(states[i], steps[i]) && states[i + 1] == Apply(states[i], steps[i])
  }

  lemma {:induction false} RunInv(states: seq<State>, steps: seq<Step>, k: nat)
    requires Run(states, steps) && k <= |steps|
    ensures Inv(states[k])
  {
    if k == 0 {
      InitInv(states[0]);
    } else {
      RunInv(states, steps, k - 1);
      hide Inv, Enabled, Apply, Init;
      StepInv(states[k - 1], steps[k - 1]);
    }
  }

  lemma {:induction false} RunStep(states: seq<State>, steps: seq<Step>, k: nat)
    requires Run(states, steps) && k <= |steps|
    ensures |states| == |steps| + 1
    ensures k == 0 ==> states[k].threads == map[]
    ensures k > 0 ==> Inv(states[k - 1]) && Enabled(states[k - 1], steps[k - 1]) && states[k] == Apply(states[k - 1], steps[k - 1])
  {
    if k > 0 {
      RunInv(states, steps, k - 1);
    }
    hide Inv, Enabled, Apply;
  }

  /** Step j of the run is where thread t's operation took effect, with result r. */
  ghost predicate EffectAt(states: seq<State>, steps: seq<Step>, j: nat, t: ThreadId, th: Thread, r: Result) {
    && j < |steps| < |states| && steps[j].t == t && TakesEffect(steps[j]) && t in states[j].threads && states[j].threads[t].op == th.op
    && Atomic(states[j], states[j + 1], th.op, r, th.seen) && OthersSame(states[j], states[j + 1], th.op, r)
  }

  /**
   Linearizability: an operation with a result took effect at one step of its own, before that moment,
   where it did on the flat map what it would do alone. All other steps leave the flat map alone.
   */
  lemma {:induction false} ResultWasAtomic(states: seq<State>, steps: seq<Step>, k: nat, t: ThreadId)
    requires Run(states, steps) && k <= |steps| < |states| && t in states[k].threads && ResultOf(states[k].threads[t].pc).Some?
    ensures exists j :: 0 <= j < k && EffectAt(states, steps, j, t, states[k].threads[t], ResultOf(states[k].threads[t].pc).value)
  {
    hide Run, Inv, Enabled, Apply, Atomic, OthersSame, Lookup;
    RunStep(states, steps, k);
    if k > 0 {
      var st, step := states[k - 1], steps[k - 1];
      if step.t == t && TakesEffect(step) {
        EffectIsAtomic(st, step);
        assert EffectAt(states, steps, k - 1, t, states[k].threads[t], ResultOf(states[k].threads[t].pc).value);
      } else {
        EarlierResult(st, step, t);
        SeenStays(st, step, t);
        ResultWasAtomic(states, steps, k - 1, t);
        var j :| 0 <= j < k - 1 && EffectAt(states, steps, j, t, st.threads[t], ResultOf(st.threads[t].pc).value);
        assert EffectAt(states, steps, j, t, states[k].threads[t], ResultOf(states[k].threads[t].pc).value);
      }
    }
  }

  lemma {:induction false} EarlierResult(st: State, step: Step, t: ThreadId)
    requires Inv(st) && Enabled(st, step) && !(step.t == t && TakesEffect(step))
    requires t in Apply(st, step).threads && ResultOf(Apply(st, step).threads[t].pc).Some?
    ensures t in st.threads && st.threads[t].op == Apply(st, step).threads[t].op
    ensures ResultOf(st.threads[t].pc) == ResultOf(Apply(st, step).threads[t].pc)
  {
    hide Inv, Enabled, Apply, Lookup;
    if step.t == t {
      SilentStep(st, step);
    }
  }

  /**** Tuples with their links ****/

  /** No plain link update is under way: all link writers go through the coupled update. */
  predicate Coupled(st: State) {
    forall t :: t in st.threads ==> !st.threads[t].op.SetLink?
  }

  /** Some coupled update has written its tuple but not yet its link. */
  ghost predicate HalfWritten(st: State, rid: Rid) {
    exists t :: t in st.threads && st.threads[t].op.SetBoth? && st.threads[t].op.rid == rid && MidWay(st.threads[t].pc)
  }

  /** A coupled reader's tuple is still the page's, and no coupled update of the record is half done. */
  lemma {:induction false} ReaderExcludesWriters(st: State, t: ThreadId)
    requires Inv(st) && t in st.threads && st.threads[t].op.GetBoth? && MidWay(st.threads[t].pc)
    ensures st.threads[t].seen == Some(TupleAt(st, st.threads[t].op.rid)) && !HalfWritten(st, st.threads[t].op.rid)
  {
    hide Inv;
    ThreadFacts(st, t);
    var rid := st.threads[t].op.rid;
    forall u | u in st.threads && st.threads[u].op.SetBoth? && st.threads[u].op.rid == rid
      ensures !MidWay(st.threads[u].pc)
    {
      ThreadFacts(st, u);
    }
  }

  /** The pair of tuple and link that a coupled read returns is current, as a whole, at its effective step. */
  lemma {:induction false} PairIsCurrent(st: State, step: Step)
    requires Inv(st) && Enabled(st, step) && TakesEffect(step) && step.t in st.threads && st.threads[step.t].op.GetBoth?
    ensures
      var th := st.threads[step.t];
      && th.seen == Some(TupleAt(st, th.op.rid)) && !HalfWritten(st, th.op.rid)
      && ResultOf(Apply(st, step).threads[step.t].pc) == Some(Found(Lookup(st, th.op.rid)))
  {
    EffectIsAtomic(st, step);
    ReaderExcludesWriters(st, step.t);
    hide Inv, Apply, Lookup, TupleAt, HalfWritten;
  }

  /** Step j of the run is a moment at which record rid had tuple v and link l together. */
  ghost predicate CurrentAt(states: seq<State>, j: nat, rid: Rid, v: Versioned, l: Option<Link>) {
    j < |states| && TupleAt(states[j], rid) == v && Lookup(states[j], rid) == l && !HalfWritten(states[j], rid)
  }

  /** A step other than those that read the tuple keeps what its thread has seen. */
  lemma {:induction false} SeenStays(st: State, step: Step, t: ThreadId)
    requires Enabled(st, step) && t in st.threads && ResultOf(Apply(st, step).threads[t].pc).Some? && step != RefuseTuple(t)
    ensures Apply(st, step).threads[t].seen == st.threads[t].seen && Apply(st, step).threads[t].op == st.threads[t].op
  {
  }

  /** Every tuple and link that a finished coupled read gives were current together at one instant before. */
  lemma {:induction false} TripleWasCurrent(states: seq<State>, steps: seq<Step>, k: nat, t: ThreadId)
    requires Run(states, steps) && k <= |steps| < |states| && t in states[k].threads && states[k].threads[t].op.GetBoth?
    requires ResultOf(states[k].threads[t].pc).Some?
    ensures
      var th, r := states[k].threads[t], ResultOf(states[k].threads[t].pc).value;
      th.seen.Some? && r.Found? && exists j :: 0 <= j < k && CurrentAt(states, j, th.op.rid, th.seen.value, r.link)
  {
    hide Run, Inv, Enabled, Apply, Lookup, TupleAt, HalfWritten;
    RunStep(states, steps, k);
    if k > 0 {
      var st, step := states[k - 1], steps[k - 1];
      if step.t == t && TakesEffect(step) {
        EffectIsAtomic(st, step);
        PairIsCurrent(st, step);
        var th := states[k].threads[t];
        assert CurrentAt(states, k - 1, th.op.rid, th.seen.value, ResultOf(th.pc).value.link);
      } else {
        EarlierResult(st, step, t);
        SeenStays(st, step, t);
        TripleWasCurrent(states, steps, k - 1, t);
      }
    }
  }

  /** The plain map of pairs: a record's tuple and link as the last complete coupled update left them. */
  datatype Pair = Pair(tuple: Versioned, link: Option<Link>)

  function PairAt(st: State, rid: Rid): Pair {
    Pair(TupleAt(st, rid), Lookup(st, rid))
  }

  lemma {:induction false} TupleStep(st: State, step: Step, rid: Rid)
    requires Enabled(st, step)
    ensures TupleAt(Apply(st, step), rid) == TupleAt(st, rid)
      || (step.WriteTuple? && st.threads[step.t].op.rid == rid && st.threads[step.t].op.SetBoth?)
    ensures step.WriteTuple? ==> MidWay(Apply(st, step).threads[step.t].pc)
  {
    hide Lookup, Latch, SetSlot, Unshare, InNode, LinkCheck;
  }

  /** While no coupled update of the record is half done, a step leaves its pair alone or begins such an update. */
  lemma {:induction false} PairsChangeWhole(st: State, step: Step, rid: Rid)
    requires Inv(st) && Enabled(st, step) && Coupled(st) && !HalfWritten(st, rid)
    ensures HalfWritten(Apply(st, step), rid) || PairAt(Apply(st, step), rid) == PairAt(st, rid)
  {
    TupleStep(st, step, rid);
    var st' := Apply(st, step);
    if TakesEffect(step) {
      EffectIsAtomic(st, step);
      assert step.WriteLink? && st.threads[step.t].op.rid == rid ==> st.threads[step.t].pc.Checked?;
      WriterIsMidWay(st, step, rid);
    } else {
      SilentStep(st, step);
    }
    hide Inv, Apply, Lookup, TupleAt, Atomic;
    if step.WriteTuple? && st.threads[step.t].op.rid == rid {
      assert HalfWritten(st', rid);
    }
  }

  lemma {:induction false} WriterIsMidWay(st: State, step: Step, rid: Rid)
    requires Enabled(st, step) && Coupled(st) && !HalfWritten(st, rid) && TakesEffect(step)
    ensures step.t in st.threads
    ensures !(st.threads[step.t].op.rid == rid && step.WriteLink?)
    ensures step.WriteLink? || ResultOf(Apply(st, step).threads[step.t].pc) != Some(Flag(true))
  {
  }

  /** When a half-written record becomes whole, it is the coupled update's own tuple and link. */
  lemma {:induction false} PairBecomesWhole(st: State, step: Step, rid: Rid)
    requires Inv(st) && Enabled(st, step) && HalfWritten(st, rid) && !HalfWritten(Apply(st, step), rid)
    ensures step.WriteLink? && st.threads[step.t].op.SetBoth? && st.threads[step.t].op.rid == rid
    ensures PairAt(Apply(st, step), rid) == Pair(st.threads[step.t].op.tuple, st.threads[step.t].op.link)
  {
    var u :| u in st.threads && st.threads[u].op.SetBoth? && st.threads[u].op.rid == rid && MidWay(st.threads[u].pc);
    HalfWriterMoves(st, step, u);
    EffectIsAtomic(st, step);
    hide Inv, Apply, Lookup, TupleAt;
  }

  lemma {:induction false} HalfWriterMoves(st: State, step: Step, u: ThreadId)
    requires Inv(st) && Enabled(st, step) && u in st.threads && st.threads[u].op.SetBoth? && MidWay(st.threads[u].pc)
    requires !HalfWritten(Apply(st, step), st.threads[u].op.rid)
    ensures step == WriteLink(u) && ResultOf(Apply(st, step).threads[u].pc) == Some(Flag(true))
  {
    hide Inv, Enabled, Apply, MidWay;
    var st' := Apply(st, step);
    assert !(u in st'.threads && st'.threads[u].op.SetBoth? && MidWay(st'.threads[u].pc));
    if step.t == u {
      MidWayUntilWrite(st, step);
    }
  }

  /** A coupled update that has written its tuple stays half done until it writes its link. */
  lemma {:induction false} MidWayUntilWrite(st: State, step: Step)
    requires Enabled(st, step) && step.t in st.threads && st.threads[step.t].op.SetBoth? && MidWay(st.threads[step.t].pc)
    ensures
      var pc := Apply(st, step).threads[step.t].pc;
      if step.WriteLink? then ResultOf(pc) == Some(Flag(true)) else MidWay(pc)
  {
    hide Lookup, TupleAt, Latch, SetSlot, Unshare, InNode, Owns;
  }
}
