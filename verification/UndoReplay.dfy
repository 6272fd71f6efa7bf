/**
 Linearizability of the undo-link store, tuples included: every run is a sequential run of the effects of
 its operations, in the order in which they took effect, on a plain map from records to pairs.
 */
module UndoReplay {
  import opened Sequences
  import opened UndoLinks

  /**** The plain map ****/

  /** What an operation makes of its record's pair, its result, and the tuple that a coupled one read. */
  datatype Outcome = Outcome(pair: Pair, result: Result, seen: Option<Versioned>)

  function Sequential(op: Op, pair: Pair): Outcome {
    match op
    case SetLink(_, link, check) =>
      if check(pair.link) then Outcome(pair.(link := link), Flag(true), None) else Outcome(pair, Flag(false), None)
    case GetLink(_) => Outcome(pair, Found(pair.link), None)
    case SetBoth(_, link, tuple, admit) =>
      if admit(pair.tuple, link) then Outcome(Pair(tuple, link), Flag(true), Some(pair.tuple))
      else Outcome(pair, Flag(false), Some(pair.tuple))
    case GetBoth(_) => Outcome(pair, Found(pair.link), Some(pair.tuple))
  }

  /** The tuple that thread u has overwritten at rid without having written the link. */
  function Overwritten(st: State, u: ThreadId, rid: Rid): Option<Versioned> {
    if u in st.threads && st.threads[u].op.SetBoth? && st.threads[u].op.rid == rid && MidWay(st.threads[u].pc)
    then st.threads[u].seen else None
  }

  /** A record's tuple, a coupled update under way counting as not begun. */
  function AbstractTuple(st: State, rid: Rid): Versioned {
    var l := Latch(st, rid.page);
    if l.Exclusive? && Overwritten(st, l.owner, rid).Some? then Overwritten(st, l.owner, rid).value else TupleAt(st, rid)
  }

  function Abstract(st: State, rid: Rid): Pair {
    Pair(AbstractTuple(st, rid), Lookup(st, rid))
  }

  /** With no coupled update of the record under way, it is the pair that is stored. */
  lemma {:induction false} AbstractIsStored(st: State, rid: Rid)
    requires !HalfWritten(st, rid)
    ensures Abstract(st, rid) == PairAt(st, rid)
  {
  }

  /**** One step ****/

  /** Steps that touch neither latches nor tuples, and do not end a half-done update. */
  predicate Plain(st: State, step: Step) {
    && !step.LatchExclusive? && !step.LatchShared? && !step.Unlatch? && !step.WriteTuple?
    && !(step.WriteLink? && step.t in st.threads && st.threads[step.t].op.SetBoth?)
  }

  lemma {:induction false} PlainKeeps(st: State, step: Step)
    requires Enabled(st, step) && Plain(st, step)
    ensures Apply(st, step).latches == st.latches && Apply(st, step).tuples == st.tuples
  {
    hide Lookup, TupleAt, Latch, SetSlot, Unshare, InNode, LinkCheck;
  }

  lemma {:induction false} PlainOverwrites(st: State, step: Step, rid: Rid)
    requires Enabled(st, step) && Plain(st, step)
    ensures Overwritten(Apply(st, step), step.t, rid) == Overwritten(st, step.t, rid)
  {
    hide Lookup, TupleAt, Latch, SetSlot, Unshare, InNode, Owns;
  }

  lemma {:induction false} OthersOverwrite(st: State, step: Step, u: ThreadId, rid: Rid)
    requires Enabled(st, step) && u != step.t
    ensures Overwritten(Apply(st, step), u, rid) == Overwritten(st, u, rid)
  {
    hide Enabled, Apply;
  }

  lemma {:induction false} PlainTuple(st: State, step: Step, rid: Rid)
    requires Enabled(st, step) && Plain(st, step)
    ensures AbstractTuple(Apply(st, step), rid) == AbstractTuple(st, rid)
  {
    hide Enabled, Apply, Overwritten, Plain;
    PlainKeeps(st, step);
    PlainOverwrites(st, step, rid);
    var l := Latch(st, rid.page);
    if l.Exclusive? && l.owner != step.t {
      OthersOverwrite(st, step, l.owner, rid);
    }
  }

  /** Taking or leaving a latch: its owner has nothing overwritten before or after. */
  lemma {:induction false} LatchTuple(st: State, step: Step, rid: Rid)
    requires Inv(st) && Enabled(st, step) && (step.LatchExclusive? || step.LatchShared? || step.Unlatch?)
    ensures AbstractTuple(Apply(st, step), rid) == AbstractTuple(st, rid)
  {
    hide Inv;
    ThreadFacts(st, step.t);
    hide InfoOk, Lookup;
    LatchPage(st, step, rid);
    var l, l' := Latch(st, rid.page), Latch(Apply(st, step), rid.page);
    hide Latch, Enabled, Apply;
    if l.Exclusive? && l.owner != step.t {
      OthersOverwrite(st, step, l.owner, rid);
    }
  }

  lemma {:induction false} LatchPage(st: State, step: Step, rid: Rid)
    requires Enabled(st, step) && (step.LatchExclusive? || step.LatchShared? || step.Unlatch?)
    requires ThreadOk(st, step.t, st.threads[step.t])
    ensures
      var l, l' := Latch(st, rid.page), Latch(Apply(st, step), rid.page);
      && (l' == l || ((l.Shared? || l.owner == step.t) && (l'.Shared? || l'.owner == step.t)))
      && Apply(st, step).tuples == st.tuples
      && !MidWay(st.threads[step.t].pc) && !MidWay(Apply(st, step).threads[step.t].pc)
  {
    hide Lookup, TupleAt;
  }

  lemma {:induction false} WriteTupleTuple(st: State, t: ThreadId, rid: Rid)
    requires Inv(st) && CanWriteTuple(st, t)
    ensures AbstractTuple(DoWriteTuple(st, t), rid) == AbstractTuple(st, rid)
  {
    hide Inv;
    ThreadFacts(st, t);
    hide InfoOk, Lookup;
  }

  /** A step without effect leaves the plain map alone. */
  lemma {:induction false} SilentAbstract(st: State, step: Step, rid: Rid)
    requires Inv(st) && Enabled(st, step) && !TakesEffect(step)
    ensures Abstract(Apply(st, step), rid) == Abstract(st, rid)
  {
    SilentStep(st, step);
    hide Inv, AbstractTuple, Lookup;
    if step.WriteTuple? {
      WriteTupleTuple(st, step.t, rid);
    } else {
      hide Enabled, Apply;
      if step.LatchExclusive? || step.LatchShared? || step.Unlatch? {
        LatchTuple(st, step, rid);
      } else {
        PlainTuple(st, step, rid);
      }
    }
  }

  /** The coupled update's effective step puts its tuple in the plain map, in place of the one it was admitted on. */
  lemma {:induction false} WriteLinkTuple(st: State, t: ThreadId, rid: Rid)
    requires Inv(st) && CanWriteLink(st, t) && st.threads[t].op.SetBoth?
    ensures
      var op, st' := st.threads[t].op, DoWriteLink(st, t);
      && AbstractTuple(st', rid) == (if rid == op.rid then op.tuple else AbstractTuple(st, rid))
      && st'.threads[t].seen == Some(AbstractTuple(st, op.rid)) && op.admit(AbstractTuple(st, op.rid), op.link)
  {
    hide Inv;
    ThreadFacts(st, t);
    hide InfoOk, Lookup, SetSlot;
  }

  /** The plain map has the tuple that an operation without a half-done update of its own reads. */
  lemma {:induction false} ReadTuplesAbstract(st: State, step: Step)
    requires Inv(st) && Enabled(st, step) && TakesEffect(step) && Couples(st.threads[step.t].op)
    requires Plain(st, step)
    ensures AbstractTuple(st, st.threads[step.t].op.rid) == TupleAt(st, st.threads[step.t].op.rid)
    ensures Apply(st, step).threads[step.t].seen == Some(TupleAt(st, st.threads[step.t].op.rid))
  {
    hide Inv, InfoOk, Lookup, SetSlot, TupleAt, InNode;
    ThreadFacts(st, step.t);
  }

  lemma {:induction false} OnlyWritesSucceed(st: State, step: Step)
    requires Enabled(st, step) && TakesEffect(step)
    ensures step.t in st.threads && step.t in Apply(st, step).threads
    ensures !step.WriteLink? ==> ResultOf(Apply(st, step).threads[step.t].pc) != Some(Flag(true))
    ensures step.WriteLink? ==> ResultOf(Apply(st, step).threads[step.t].pc) == Some(Flag(true))
  {
  }

  lemma {:induction false} EffectTuple(st: State, step: Step, rid: Rid)
    requires Inv(st) && Enabled(st, step) && TakesEffect(step) && step.t in st.threads
    ensures
      var op, st' := st.threads[step.t].op, Apply(st, step);
      && AbstractTuple(st', rid) == (if rid == op.rid && step.WriteLink? && op.SetBoth? then op.tuple else AbstractTuple(st, rid))
      && (Couples(op) ==> step.t in st'.threads && st'.threads[step.t].seen == Some(AbstractTuple(st, op.rid)))
  {
    hide Inv, AbstractTuple;
    if step.WriteLink? && st.threads[step.t].op.SetBoth? {
      WriteLinkTuple(st, step.t, rid);
    } else {
      hide Enabled, Apply;
      PlainTuple(st, step, rid);
      if Couples(st.threads[step.t].op) {
        ReadTuplesAbstract(st, step);
      }
    }
  }

  /** The tuple that a coupled operation read. */
  function SeenBy(th: Thread): Option<Versioned> {
    if Couples(th.op) then th.seen else None
  }

  /**
   At its effective step an operation does on the plain map what it does when it runs alone, to its record
   and to no other, and gets that result.
   */
  lemma {:induction false} EffectIsSequential(st: State, step: Step, rid: Rid)
    requires Inv(st) && Enabled(st, step) && TakesEffect(step)
    ensures step.t in st.threads && step.t in Apply(st, step).threads
    ensures
      var op, st' := st.threads[step.t].op, Apply(st, step);
      var out := Sequential(op, Abstract(st, op.rid));
      && Abstract(st', rid) == (if rid == op.rid then out.pair else Abstract(st, rid))
      && ResultOf(st'.threads[step.t].pc) == Some(out.result) && SeenBy(st'.threads[step.t]) == out.seen
  {
    hide Inv, AbstractTuple, Enabled, Apply, Lookup, TupleAt;
    OnlyWritesSucceed(st, step);
    EffectIsAtomic(st, step);
    EffectTuple(st, step, rid);
  }

  /**** Whole runs ****/

  /** An operation of thread t that took effect, with its result and the tuple it read. */
  datatype Event = Event(t: ThreadId, op: Op, result: Option<Result>, seen: Option<Versioned>)

  function EventOf(t: ThreadId, th: Thread): Event {
    Event(t, th.op, ResultOf(th.pc), SeenBy(th))
  }

  /** The effects among the first k steps, in order. */
  ghost function Events(states: seq<State>, steps: seq<Step>, k: nat): seq<Event>
    requires k <= |steps| < |states|
  {
    if k == 0 then []
    else if TakesEffect(steps[k - 1]) && steps[k - 1].t in states[k].threads
    then Events(states, steps, k - 1) + [EventOf(steps[k - 1].t, states[k].threads[steps[k - 1].t])]
    else Events(states, steps, k - 1)
  }

  /** The plain map after running the events one after the other, from the pairs stored in st. */
  function After(events: seq<Event>, st: State, rid: Rid): Pair {
    if events == [] then PairAt(st, rid)
    else
      var e, pair := events[|events| - 1], After(events[..|events| - 1], st, rid);
      if e.op.rid == rid then Sequential(e.op, pair).pair else pair
  }

  /** The result and the tuple of event i are those of a sequential run of the events before it. */
  predicate LegalAt(events: seq<Event>, st: State, i: nat) {
    i < |events| &&
    var out := Sequential(events[i].op, After(events[..i], st, events[i].op.rid));
    events[i].result == Some(out.result) && events[i].seen == out.seen
  }

  /** Run one after the other from the pairs stored in start, the events end in the plain map of now, and each is legal. */
  ghost predicate Replays(events: seq<Event>, start: State, now: State) {
    && (forall rid :: Abstract(now, rid) == After(events, start, rid))
    && (forall i :: 0 <= i < |events| ==> LegalAt(events, start, i))
  }

  lemma {:induction false} AfterOne(events: seq<Event>, e: Event, st: State, rid: Rid)
    ensures After(events + [e], st, rid) ==
      (if e.op.rid == rid then Sequential(e.op, After(events, st, rid)).pair else After(events, st, rid))
  {
    assert (events + [e])[..|events|] == events;
  }

  lemma {:induction false} LegalOne(events: seq<Event>, e: Event, st: State)
    requires forall i :: 0 <= i < |events| ==> LegalAt(events, st, i)
    requires
      var out := Sequential(e.op, After(events, st, e.op.rid));
      e.result == Some(out.result) && e.seen == out.seen
    ensures forall i :: 0 <= i < |events + [e]| ==> LegalAt(events + [e], st, i)
  {
    hide Sequential, After;
    var all := events + [e];
    forall i | 0 <= i < |all|
      ensures LegalAt(all, st, i)
    {
      if i < |events| {
        assert LegalAt(events, st, i);
        assert all[..i] == events[..i];
      } else {
        assert all[..i] == events;
      }
    }
  }

  lemma {:induction false} StartsStored(states: seq<State>, steps: seq<Step>, rid: Rid)
    requires Run(states, steps)
    ensures Abstract(states[0], rid) == PairAt(states[0], rid)
  {
    hide Lookup, TupleAt;
  }

  /** One more step of the run. */
  lemma {:induction false} ReplayStep(states: seq<State>, steps: seq<Step>, k: nat)
    requires Run(states, steps) && 0 < k <= |steps| < |states|
    requires Replays(Events(states, steps, k - 1), states[0], states[k - 1])
    ensures Replays(Events(states, steps, k), states[0], states[k])
  {
    var st, step, before, start := states[k - 1], steps[k - 1], Events(states, steps, k - 1), states[0];
    assert Events(states, steps, k) ==
      if TakesEffect(step) && step.t in states[k].threads then before + [EventOf(step.t, states[k].threads[step.t])] else before;
    hide Run, Events, Inv, Enabled, Apply, Abstract, After, LegalAt, Sequential;
    RunStep(states, steps, k);
    if TakesEffect(step) {
      EffectIsSequential(st, step, st.threads[step.t].op.rid);
      var e := EventOf(step.t, states[k].threads[step.t]);
      LegalOne(before, e, start);
      forall rid
        ensures Abstract(states[k], rid) == After(before + [e], start, rid)
      {
        EffectIsSequential(st, step, rid);
        AfterOne(before, e, start, rid);
      }
    } else {
      forall rid
        ensures Abstract(states[k], rid) == After(before, start, rid)
      {
        SilentAbstract(st, step, rid);
      }
    }
  }

  /**
   Replay: after any k steps of any run the plain map is the fold of the effects so far, in order, and each
   of them has the result, and read the tuple, that it has when they run one after the other.
   */
  lemma {:induction false} RunIsReplay(states: seq<State>, steps: seq<Step>, k: nat)
    requires Run(states, steps) && k <= |steps| < |states|
    ensures Replays(Events(states, steps, k), states[0], states[k])
  {
    if k == 0 {
      hide Run, Abstract, PairAt;
      forall rid
        ensures Abstract(states[0], rid) == After([], states[0], rid)
      {
        StartsStored(states, steps, rid);
      }
    } else {
      hide Run, Replays, Events;
      RunIsReplay(states, steps, k - 1);
      ReplayStep(states, steps, k);
    }
  }

  /** A thread with a result keeps it, and takes no effect again. */
  lemma {:induction false} ResultStays(st: State, step: Step, t: ThreadId)
    requires Enabled(st, step) && t in st.threads && ResultOf(st.threads[t].pc).Some?
    ensures t in Apply(st, step).threads && EventOf(t, Apply(st, step).threads[t]) == EventOf(t, st.threads[t])
    ensures TakesEffect(step) ==> step.t != t
  {
    hide Lookup, TupleAt, Latch, SetSlot, Unshare, InNode, LinkCheck;
  }

  /** The events so far are those of the threads that have a result, each of them once. */
  ghost predicate OncePerThread(events: seq<Event>, st: State) {
    && (forall i :: 0 <= i < |events| ==>
          events[i].t in st.threads && events[i].result.Some? && events[i] == EventOf(events[i].t, st.threads[events[i].t]))
    && (forall i, j :: 0 <= i < j < |events| ==> events[i].t != events[j].t)
    && (forall t :: t in st.threads && ResultOf(st.threads[t].pc).Some? ==>
          exists i :: 0 <= i < |events| && events[i].t == t)
  }

  lemma {:induction false} OnceKept(events: seq<Event>, st: State, step: Step)
    requires OncePerThread(events, st) && Inv(st) && Enabled(st, step)
    ensures
      var st' := Apply(st, step);
      OncePerThread(if TakesEffect(step) && step.t in st'.threads then events + [EventOf(step.t, st'.threads[step.t])] else events, st')
  {
    var st' := Apply(st, step);
    hide Enabled, Apply, Inv;
    forall i | 0 <= i < |events|
      ensures events[i].t in st'.threads && events[i] == EventOf(events[i].t, st'.threads[events[i].t])
      ensures TakesEffect(step) ==> step.t != events[i].t
    {
      ResultStays(st, step, events[i].t);
    }
    if TakesEffect(step) {
      EffectIsSequential(st, step, st'.threads[step.t].op.rid);
      OnceAdded(events, st, st', step.t);
    } else {
      forall t | t in st'.threads && ResultOf(st'.threads[t].pc).Some?
        ensures exists i :: 0 <= i < |events| && events[i].t == t
      {
        EarlierResult(st, step, t);
      }
    }
  }

  lemma {:induction false} OnceAdded(events: seq<Event>, st: State, st': State, t: ThreadId)
    requires OncePerThread(events, st) && Moves(st, st', t) && ResultOf(st'.threads[t].pc).Some?
    requires forall i :: 0 <= i < |events| ==>
      events[i].t in st'.threads && events[i] == EventOf(events[i].t, st'.threads[events[i].t]) && events[i].t != t
    ensures OncePerThread(events + [EventOf(t, st'.threads[t])], st')
  {
    var all := events + [EventOf(t, st'.threads[t])];
    forall u | u in st'.threads && ResultOf(st'.threads[u].pc).Some?
      ensures exists i :: 0 <= i < |all| && all[i].t == u
    {
      if u == t {
        assert all[|events|].t == t;
      } else {
        assert u in st.threads && ResultOf(st.threads[u].pc).Some?;
        var i :| 0 <= i < |events| && events[i].t == u;
        assert all[i].t == u;
      }
    }
  }

  /** Every operation with a result took effect exactly once, with that result, and no other operation has taken effect. */
  lemma {:induction false} EffectsOnce(states: seq<State>, steps: seq<Step>, k: nat)
    requires Run(states, steps) && k <= |steps| < |states|
    ensures OncePerThread(Events(states, steps, k), states[k])
  {
    RunStep(states, steps, k);
    if k > 0 {
      var st, step, before := states[k - 1], steps[k - 1], Events(states, steps, k - 1);
      hide Run, Inv, Enabled, Apply;
      EffectsOnce(states, steps, k - 1);
      hide Events;
      OnceKept(before, st, step);
    }
  }

  lemma {:induction false} EventsPrefix(states: seq<State>, steps: seq<Step>, i: nat, k: nat)
    requires i <= k <= |steps| < |states|
    ensures |Events(states, steps, i)| <= |Events(states, steps, k)|
    ensures Events(states, steps, i) == Events(states, steps, k)[..|Events(states, steps, i)|]
    decreases k
  {
    if i < k {
      EventsPrefix(states, steps, i, k - 1);
    }
  }

  /** The order of the effects respects real time: an operation that had its result before another began comes before it. */
  lemma {:induction false} RealTimeOrder(states: seq<State>, steps: seq<Step>, i: nat, k: nat, a: nat, b: nat)
    requires Run(states, steps) && i <= k <= |steps| < |states| && a < |Events(states, steps, k)| && b < |Events(states, steps, k)|
    requires
      var t, u := Events(states, steps, k)[a].t, Events(states, steps, k)[b].t;
      t in states[i].threads && ResultOf(states[i].threads[t].pc).Some? && u !in states[i].threads
    ensures a < b
  {
    var early, all := Events(states, steps, i), Events(states, steps, k);
    EffectsOnce(states, steps, i);
    EffectsOnce(states, steps, k);
    EventsPrefix(states, steps, i, k);
    hide Run, Events;
    var c :| 0 <= c < |early| && early[c].t == all[a].t;
    assert forall j :: 0 <= j < |early| ==> all[j] == early[j] && all[j].t in states[i].threads;
  }
}
