/**
 Concurrent inserts and counts on one sketch: every counter increment and every counter read is a step
 of its own, and the steps of different calls interleave freely.
 */
module CountMinConcurrent {
  import opened Sequences
  import opened CountMin

  /** An Insert that has counted its item in rows 0 .. done - 1. */
  datatype InsertCall = InsertCall(item: Key, done: nat)

  /**
   A Count that has read rows 0 .. row - 1; `atLeast` is how many inserts of its item had completed when
   it began.
   */
  datatype CountCall = CountCall(item: Key, row: nat, min: nat, atLeast: nat)

  datatype State = State(cells: seq<nat>, inserts: seq<InsertCall>, counts: seq<CountCall>)

  datatype Step =
    | BeginInsert(item: Key)
    | Bump(i: nat)
    | BeginCount(item: Key)
    | Look(q: nat)

  /** The increments of insert `op` that cell c has seen. */
  predicate Seen(s: Shape, op: InsertCall, c: nat)
    requires s.Ok()
  {
    s.RowOf(c) < op.done && s.Hits(c, op.item)
  }

  function Tally(s: Shape, inserts: seq<InsertCall>, c: nat): (n: nat)
    requires s.Ok()
    ensures n <= |inserts|
  {
    if inserts == [] then 0
    else Tally(s, inserts[..|inserts| - 1], c) + if Seen(s, inserts[|inserts| - 1], c) then 1 else 0
  }

  /** Inserts of x that have counted it in every row. */
  function Completed(s: Shape, inserts: seq<InsertCall>, x: Key): (n: nat)
    ensures n <= |inserts|
  {
    if inserts == [] then 0
    else
      var last := inserts[|inserts| - 1];
      Completed(s, inserts[..|inserts| - 1], x) + if last.item == x && last.done >= s.depth then 1 else 0
  }

  ghost predicate Enabled(s: Shape, st: State, step: Step) {
    s.Ok() && |st.cells| == s.Size() &&
    match step
    case BeginInsert(_) => true
    case Bump(i) => i < |st.inserts| && st.inserts[i].done < s.depth
    case BeginCount(_) => true
    case Look(q) => q < |st.counts| && st.counts[q].row < s.depth
  }

  ghost function Apply(s: Shape, st: State, step: Step): State
    requires Enabled(s, st, step)
  {
    match step
    case BeginInsert(x) => st.(inserts := st.inserts + [InsertCall(x, 0)])
    case Bump(i) => DoBump(s, st, i)
    case BeginCount(x) => st.(counts := st.counts + [CountCall(x, 0, COUNTER_RANGE - 1, Completed(s, st.inserts, x))])
    case Look(q) => DoLook(s, st, q)
  }

  ghost function DoBump(s: Shape, st: State, i: nat): State
    requires Enabled(s, st, Bump(i))
  {
    var op := st.inserts[i];
    RowOfIndex(s, op.done, op.item);
    var c := s.Index(op.done, op.item);
    st.(cells := st.cells[c := Wrap(st.cells[c] + 1)], inserts := st.inserts[i := op.(done := op.done + 1)])
  }

  ghost function DoLook(s: Shape, st: State, q: nat): State
    requires Enabled(s, st, Look(q))
  {
    var call := st.counts[q];
    RowOfIndex(s, call.row, call.item);
    var v := st.cells[s.Index(call.row, call.item)];
    st.(counts := st.counts[q := call.(row := call.row + 1, min := if v < call.min then v else call.min)])
  }

  ghost predicate Init(s: Shape, st: State) {
    s.Ok() && |st.cells| == s.Size() && (forall c :: 0 <= c < |st.cells| ==> st.cells[c] == 0) && st.inserts == [] && st.counts == []
  }

  /**** The counters ****/

  /** Each counter holds, up to wrap-around, the increments made to it so far. */
  ghost predicate CellsOk(s: Shape, cells: seq<nat>, inserts: seq<InsertCall>) {
    s.Ok() && |cells| == s.Size() && forall c :: 0 <= c < |cells| ==> cells[c] == Wrap(Tally(s, inserts, c))
  }

  /** A running Count lies between the inserts of its item completed when it began and all inserts begun by now. */
  ghost predicate CountOk(s: Shape, inserts: seq<InsertCall>, call: CountCall) {
    && call.atLeast <= Completed(s, inserts, call.item)
    && (call.row == 0 ==> call.min == COUNTER_RANGE - 1)
    && (call.row > 0 && |inserts| < COUNTER_RANGE ==> call.atLeast <= call.min <= |inserts|)
  }

  ghost predicate Inv(s: Shape, st: State) {
    CellsOk(s, st.cells, st.inserts) && forall q :: 0 <= q < |st.counts| ==> CountOk(s, st.inserts, st.counts[q])
  }

  lemma {:induction false} TallyAppend(s: Shape, inserts: seq<InsertCall>, op: InsertCall, c: nat)
    requires s.Ok()
    ensures Tally(s, inserts + [op], c) == Tally(s, inserts, c) + if Seen(s, op, c) then 1 else 0
  {
    assert (inserts + [op])[..|inserts|] == inserts;
  }

  lemma {:induction false} TallyUpdate(s: Shape, inserts: seq<InsertCall>, i: nat, op: InsertCall, c: nat)
    requires s.Ok() && i < |inserts|
    ensures Tally(s, inserts[i := op], c) + (if Seen(s, inserts[i], c) then 1 else 0)
         == Tally(s, inserts, c) + (if Seen(s, op, c) then 1 else 0)
  {
    hide Seen;
    var last := |inserts| - 1;
    if i == last {
      assert inserts[i := op][..last] == inserts[..last];
    } else {
      TallyUpdate(s, inserts[..last], i, op, c);
      assert inserts[i := op][..last] == inserts[..last][i := op];
    }
  }

  /** One increment changes the tally of exactly its own cell. */
  lemma {:induction false} BumpTally(s: Shape, inserts: seq<InsertCall>, i: nat, c: nat)
    requires s.Ok() && i < |inserts|
    ensures
      var op := inserts[i];
      Tally(s, inserts[i := op.(done := op.done + 1)], c) == Tally(s, inserts, c) + if c == s.Index(op.done, op.item) then 1 else 0
  {
    var op := inserts[i];
    RowOfIndex(s, op.done, op.item);
    TallyUpdate(s, inserts, i, op.(done := op.done + 1), c);
    hide Tally, Shape.Index, Shape.RowOf;
  }

  lemma {:induction false} BumpCellAt(s: Shape, cells: seq<nat>, inserts: seq<InsertCall>, i: nat, at: nat, c: nat)
    requires CellsOk(s, cells, inserts) && i < |inserts| && at < |cells| && c < |cells|
    requires at == s.Index(inserts[i].done, inserts[i].item)
    ensures
      var op := inserts[i];
      (if c == at then Wrap(cells[c] + 1) else cells[c]) == Wrap(Tally(s, inserts[i := op.(done := op.done + 1)], c))
  {
    hide Tally, Shape.Index, Shape.RowOf, Shape.Size, Wrap;
    BumpTally(s, inserts, i, c);
    ModAdd(Tally(s, inserts, c), 1);
  }

  lemma {:induction false} BumpCells(s: Shape, st: State, i: nat)
    requires CellsOk(s, st.cells, st.inserts) && Enabled(s, st, Bump(i))
    ensures CellsOk(s, DoBump(s, st, i).cells, DoBump(s, st, i).inserts)
  {
    hide Tally, Shape.Index, Shape.RowOf, Shape.Size, Wrap;
    var op := st.inserts[i];
    RowOfIndex(s, op.done, op.item);
    var at := s.Index(op.done, op.item);
    var cells, inserts := st.cells[at := Wrap(st.cells[at] + 1)], st.inserts[i := op.(done := op.done + 1)];
    forall c | 0 <= c < |cells|
      ensures cells[c] == Wrap(Tally(s, inserts, c))
    {
      BumpCellAt(s, st.cells, st.inserts, i, at, c);
    }
  }

  lemma {:induction false} CompletedAppend(s: Shape, inserts: seq<InsertCall>, op: InsertCall, x: Key)
    ensures Completed(s, inserts + [op], x) >= Completed(s, inserts, x)
  {
    assert (inserts + [op])[..|inserts|] == inserts;
  }

  lemma {:induction false} CompletedGrows(s: Shape, inserts: seq<InsertCall>, i: nat, x: Key)
    requires i < |inserts|
    ensures Completed(s, inserts[i := inserts[i].(done := inserts[i].done + 1)], x) >= Completed(s, inserts, x)
  {
    var last, op := |inserts| - 1, inserts[i].(done := inserts[i].done + 1);
    if i == last {
      assert inserts[i := op][..last] == inserts[..last];
    } else {
      CompletedGrows(s, inserts[..last], i, x);
      assert inserts[i := op][..last] == inserts[..last][i := op];
    }
  }

  /** A completed insert of x is in x's cell of every row. */
  lemma {:induction false} CompletedSeen(s: Shape, inserts: seq<InsertCall>, row: nat, x: Key)
    requires s.Ok() && row < s.depth
    ensures Completed(s, inserts, x) <= Tally(s, inserts, s.Index(row, x))
  {
    RowOfIndex(s, row, x);
    hide Shape.Index, Shape.RowOf;
    if inserts != [] {
      CompletedSeen(s, inserts[..|inserts| - 1], row, x);
    }
  }

  /** Reading one more row keeps a Count within its bounds. */
  lemma {:induction false} LookBounds(s: Shape, st: State, q: nat)
    requires Inv(s, st) && Enabled(s, st, Look(q))
    ensures CountOk(s, st.inserts, DoLook(s, st, q).counts[q])
  {
    var call := st.counts[q];
    RowOfIndex(s, call.row, call.item);
    CompletedSeen(s, st.inserts, call.row, call.item);
    hide Tally, Completed, Shape.Index, Shape.RowOf, Shape.Size, Wrap;
  }

  /** Every step keeps the invariant. */
  lemma {:induction false} StepInv(s: Shape, st: State, step: Step)
    requires Inv(s, st) && Enabled(s, st, step)
    ensures Inv(s, Apply(s, st, step))
  {
    match step
    case BeginInsert(x) => BeginInsertInv(s, st, x);
    case Bump(i) => BumpInv(s, st, i);
    case BeginCount(x) =>
    case Look(q) => LookBounds(s, st, q);
    hide Tally, Completed, Shape.Index, Shape.RowOf, Shape.Size, Wrap;
  }

  lemma {:induction false} BumpInv(s: Shape, st: State, i: nat)
    requires Inv(s, st) && Enabled(s, st, Bump(i))
    ensures Inv(s, DoBump(s, st, i))
  {
    BumpCells(s, st, i);
    hide Tally, Completed, Shape.Index, Shape.RowOf, Shape.Size, Wrap, CellsOk;
    var st' := DoBump(s, st, i);
    forall q | 0 <= q < |st'.counts|
      ensures CountOk(s, st'.inserts, st'.counts[q])
    {
      CompletedGrows(s, st.inserts, i, st.counts[q].item);
    }
  }

  lemma {:induction false} BeginInsertInv(s: Shape, st: State, x: Key)
    requires Inv(s, st) && Enabled(s, st, BeginInsert(x))
    ensures Inv(s, Apply(s, st, BeginInsert(x)))
  {
    hide Tally, Completed, Shape.Index, Shape.RowOf, Shape.Size, Wrap;
    var op := InsertCall(x, 0);
    forall c | 0 <= c < |st.cells|
      ensures st.cells[c] == Wrap(Tally(s, st.inserts + [op], c))
    {
      TallyAppend(s, st.inserts, op, c);
    }
    forall q | 0 <= q < |st.counts|
      ensures CountOk(s, st.inserts + [op], st.counts[q])
    {
      CompletedAppend(s, st.inserts, op, st.counts[q].item);
    }
  }

  /**** Whole runs ****/

  ghost predicate Run(s: Shape, states: seq<State>, steps: seq<Step>) {
    && |states| == |steps| + 1 && Init(s, states[0])
    && forall i :: 0 <= i < |steps| ==> Enabled(s, states[i], steps[i]) && states[i + 1] == Apply(s, states[i], steps[i])
  }

  lemma {:induction false} RunInv(s: Shape, states: seq<State>, steps: seq<Step>, k: nat)
    requires Run(s, states, steps) && k <= |steps|
    ensures Inv(s, states[k])
  {
    if k == 0 {
    } else {
      RunInv(s, states, steps, k - 1);
      hide Inv, Enabled, Apply, Init;
      StepInv(s, states[k - 1], steps[k - 1]);
    }
  }

  predicate AllDone(s: Shape, inserts: seq<InsertCall>) {
    forall i :: 0 <= i < |inserts| ==> inserts[i].done >= s.depth
  }

  function Items(inserts: seq<InsertCall>): seq<Key> {
    seq(|inserts|, i requires 0 <= i < |inserts| => inserts[i].item)
  }

  lemma {:induction false} DoneTally(s: Shape, inserts: seq<InsertCall>, c: nat)
    requires s.Ok() && AllDone(s, inserts) && c < s.Size()
    ensures Tally(s, inserts, c) == Cell(s, Items(inserts), c)
  {
    RowInRange(s, c);
    hide Shape.Index, Shape.RowOf, Shape.Size;
    if inserts != [] {
      var most := inserts[..|inserts| - 1];
      DoneTally(s, most, c);
      assert Items(inserts)[..|inserts| - 1] == Items(most);
    }
  }

  /**
   Whatever the interleaving, once all inserts are done the counters are those of inserting the same
   keys one after the other, in any order.
   */
  lemma {:induction false} AnyInterleavingIsSequential(s: Shape, states: seq<State>, steps: seq<Step>, k: nat, order: seq<Key>)
    requires Run(s, states, steps) && k <= |steps| && AllDone(s, states[k].inserts)
    requires multiset(order) == multiset(Items(states[k].inserts))
    ensures Counts(s, states[k].cells, order)
  {
    RunInv(s, states, steps, k);
    hide Run, Tally, Cell, Wrap, Shape.Index, Shape.RowOf, Shape.Size, AllDone;
    var st := states[k];
    forall c | 0 <= c < |st.cells|
      ensures st.cells[c] == Wrap(Cell(s, order, c))
    {
      DoneTally(s, st.inserts, c);
      CellOrder(s, order, Items(st.inserts), c);
    }
  }

  /** A Count that has read all its rows lies between the inserts of its item completed before it and all inserts begun by its end. */
  lemma {:induction false} ConcurrentCount(s: Shape, states: seq<State>, steps: seq<Step>, k: nat, q: nat)
    requires Run(s, states, steps) && k <= |steps| && q < |states[k].counts|
    requires states[k].counts[q].row == s.depth && |states[k].inserts| < COUNTER_RANGE
    ensures states[k].counts[q].atLeast <= states[k].counts[q].min <= |states[k].inserts|
  {
    RunInv(s, states, steps, k);
    hide Tally, Completed, Apply, Enabled, CellsOk;
    assert CountOk(s, states[k].inserts, states[k].counts[q]);
  }

  /**** What a Count reads ****/

  /** Step j of the run is the read of row `row` by Count q, which finds v. */
  ghost predicate ReadAt(s: Shape, states: seq<State>, steps: seq<Step>, j: nat, q: nat, row: nat, v: nat) {
    && j < |steps| < |states| && steps[j] == Look(q) && q < |states[j].counts| && states[j].counts[q].row == row && s.Ok()
    && s.Index(row, states[j].counts[q].item) < |states[j].cells| && v == states[j].cells[s.Index(row, states[j].counts[q].item)]
  }

  /** Before state k the Count read the row, and found no less than n. */
  ghost predicate ReadAbove(s: Shape, states: seq<State>, steps: seq<Step>, k: nat, q: nat, row: nat, n: nat) {
    exists j: nat, v: nat :: j < k && ReadAt(s, states, steps, j, q, row, v) && n <= v
  }

  /** Before state k the Count read n in one of these rows. */
  ghost predicate ReadValue(s: Shape, states: seq<State>, steps: seq<Step>, k: nat, q: nat, rows: nat, n: nat) {
    exists j: nat, row: nat :: j < k && row < rows && ReadAt(s, states, steps, j, q, row, n)
  }

  /** A running Count is above nothing that it has read, and has read its own value. */
  ghost predicate LeastRead(s: Shape, states: seq<State>, steps: seq<Step>, k: nat, q: nat) {
    k < |states| && q < |states[k].counts| &&
    var call := states[k].counts[q];
    && (call.row == 0 ==> call.min == COUNTER_RANGE - 1)
    && (forall row: nat :: row < call.row ==> ReadAbove(s, states, steps, k, q, row, call.min))
    && (call.row > 0 ==> ReadValue(s, states, steps, k, q, call.row, call.min))
  }

  lemma {:induction false} CellInRange(s: Shape, st: State, c: nat)
    requires CellsOk(s, st.cells, st.inserts) && c < |st.cells|
    ensures st.cells[c] < COUNTER_RANGE
  {
    hide Tally, Shape.Size;
  }

  lemma {:induction false} OtherCall(s: Shape, st: State, step: Step, q: nat)
    requires Enabled(s, st, step) && step != Look(q) && q < |Apply(s, st, step).counts|
    ensures q < |st.counts| ==> Apply(s, st, step).counts[q] == st.counts[q]
    ensures q >= |st.counts| ==> Apply(s, st, step).counts[q].row == 0 && Apply(s, st, step).counts[q].min == COUNTER_RANGE - 1
  {
    hide Shape.Index, Shape.RowOf, Shape.Size, Completed;
  }

  lemma {:induction false} LookOne(s: Shape, st: State, q: nat)
    requires Enabled(s, st, Look(q))
    ensures |Apply(s, st, Look(q)).counts| == |st.counts|
    ensures
      var call, call' := st.counts[q], Apply(s, st, Look(q)).counts[q];
      var c := s.Index(call.row, call.item);
      && c < |st.cells| && call'.row == call.row + 1 && call'.item == call.item
      && call'.min <= call.min && call'.min <= st.cells[c] && (call'.min == call.min || call'.min == st.cells[c])
  {
    RowOfIndex(s, st.counts[q].row, st.counts[q].item);
    hide Shape.Index, Shape.RowOf;
  }

  /**
   Every Count, whatever runs beside it: its result is above no counter that it read, one for each row, and is
   one of them.
   */
  lemma {:induction false} CountIsLeastRead(s: Shape, states: seq<State>, steps: seq<Step>, k: nat, q: nat)
    requires Run(s, states, steps) && k <= |steps| < |states| && q < |states[k].counts|
    ensures LeastRead(s, states, steps, k, q)
    decreases k, 1
  {
    hide Enabled, Apply, Shape.Index, Inv;
    if k > 0 {
      var st, step := states[k - 1], steps[k - 1];
      RunInv(s, states, steps, k - 1);
      if step == Look(q) {
        LookReads(s, states, steps, k, q);
      } else {
        OtherCall(s, st, step, q);
        if q < |st.counts| {
          CountIsLeastRead(s, states, steps, k - 1, q);
          ReadsStay(s, states, steps, k - 1, q);
        }
      }
    }
  }

  lemma {:induction false} ReadsStay(s: Shape, states: seq<State>, steps: seq<Step>, k: nat, q: nat)
    requires LeastRead(s, states, steps, k, q) && k + 1 < |states| && q < |states[k + 1].counts| && states[k + 1].counts[q] == states[k].counts[q]
    ensures LeastRead(s, states, steps, k + 1, q)
  {
    hide ReadAt;
    var call, next := states[k].counts[q], k + 1;
    forall row: nat | row < call.row
      ensures ReadAbove(s, states, steps, next, q, row, call.min)
    {
      assert ReadAbove(s, states, steps, k, q, row, call.min);
    }
  }

  lemma {:induction false} LookReads(s: Shape, states: seq<State>, steps: seq<Step>, k: nat, q: nat)
    requires Run(s, states, steps) && 0 < k <= |steps| < |states| && steps[k - 1] == Look(q) && Inv(s, states[k - 1])
    ensures LeastRead(s, states, steps, k, q)
    decreases k, 0
  {
    hide Apply, Shape.Index, Shape.RowOf, Shape.Size, Tally, CountOk, Init;
    var st := states[k - 1];
    LookOne(s, st, q);
    var call, call' := st.counts[q], states[k].counts[q];
    var v := st.cells[s.Index(call.row, call.item)];
    CellInRange(s, st, s.Index(call.row, call.item));
    CountIsLeastRead(s, states, steps, k - 1, q);
    assert ReadAt(s, states, steps, k - 1, q, call.row, v);
    hide ReadAt;
    forall row: nat | row < call'.row
      ensures ReadAbove(s, states, steps, k, q, row, call'.min)
    {
      if row < call.row {
        assert ReadAbove(s, states, steps, k - 1, q, row, call.min);
      }
    }
    if call'.min != v {
      assert ReadValue(s, states, steps, k - 1, q, call.row, call.min);
    }
  }

  /** While no counter wraps, counters only grow. */
  ghost predicate Grown(cells: seq<nat>, cells': seq<nat>) {
    |cells| == |cells'| && forall c :: 0 <= c < |cells| ==> cells[c] <= cells'[c]
  }

  lemma {:induction false} LeastGrows(s: Shape, cells: seq<nat>, cells': seq<nat>, x: Key, rows: nat)
    requires s.Ok() && Grown(cells, cells')
    ensures LeastCounter(s, cells, x, rows) <= LeastCounter(s, cells', x, rows)
  {
    hide Shape.Index;
    if rows > 0 {
      LeastGrows(s, cells, cells', x, rows - 1);
    }
  }

  lemma {:induction false} StepGrows(s: Shape, st: State, step: Step)
    requires Inv(s, st) && Enabled(s, st, step) && |Apply(s, st, step).inserts| < COUNTER_RANGE
    ensures Grown(st.cells, Apply(s, st, step).cells) && |st.inserts| <= |Apply(s, st, step).inserts|
    ensures !step.Bump? ==> Apply(s, st, step).cells == st.cells
  {
    hide Shape.Index, Shape.RowOf, Shape.Size, Completed, CountOk;
    if step.Bump? {
      BumpGrows(s, st, step.i);
    }
  }

  lemma {:induction false} BumpGrows(s: Shape, st: State, i: nat)
    requires CellsOk(s, st.cells, st.inserts) && Enabled(s, st, Bump(i)) && |st.inserts| < COUNTER_RANGE
    ensures Grown(st.cells, DoBump(s, st, i).cells)
  {
    var op := st.inserts[i];
    RowOfIndex(s, op.done, op.item);
    var c := s.Index(op.done, op.item);
    var inserts := st.inserts[i := op.(done := op.done + 1)];
    BumpTally(s, st.inserts, i, c);
    assert Tally(s, inserts, c) <= |inserts|;
    hide Tally, Shape.Index, Shape.RowOf, Shape.Size;
  }

  lemma {:induction false} RunGrows(s: Shape, states: seq<State>, steps: seq<Step>, i: nat, k: nat)
    requires Run(s, states, steps) && i <= k <= |steps| < |states| && |states[k].inserts| < COUNTER_RANGE
    ensures s.Ok() && Grown(states[i].cells, states[k].cells) && |states[i].inserts| <= |states[k].inserts|
    decreases k - i
  {
    hide Enabled, Apply, Inv;
    RunInv(s, states, steps, k);
    InvShape(s, states[k]);
    if i < k {
      RunInv(s, states, steps, k - 1);
      StepInserts(s, states[k - 1], steps[k - 1]);
      RunGrows(s, states, steps, i, k - 1);
      StepGrows(s, states[k - 1], steps[k - 1]);
    }
  }

  lemma {:induction false} InvShape(s: Shape, st: State)
    requires Inv(s, st)
    ensures s.Ok() && |st.cells| == s.Size()
  {
  }

  lemma {:induction false} StepInserts(s: Shape, st: State, step: Step)
    requires Enabled(s, st, step)
    ensures |st.inserts| <= |Apply(s, st, step).inserts|
  {
    hide Shape.Index, Shape.RowOf, Shape.Size, Completed;
  }

  /** Count q has not read anything yet. */
  predicate NotBegun(st: State, q: nat) {
    q < |st.counts| ==> st.counts[q].row == 0 && st.counts[q].min == COUNTER_RANGE - 1
  }

  /** The rows read so far: the Count lies between their least counters at state i and now. */
  ghost predicate Between(s: Shape, st: State, now: State, q: nat) {
    s.Ok() && q < |now.counts| &&
    var call := now.counts[q];
    && call.row <= s.depth
    && LeastCounter(s, st.cells, call.item, call.row) <= call.min <= LeastCounter(s, now.cells, call.item, call.row)
  }

  lemma {:induction false} BetweenStart(s: Shape, st: State, now: State, q: nat)
    requires s.Ok() && q < |now.counts| && NotBegun(now, q)
    ensures Between(s, st, now, q)
  {
    hide Shape.Index;
  }

  lemma {:induction false} BetweenLook(s: Shape, st: State, now: State, q: nat)
    requires Between(s, st, now, q) && Enabled(s, now, Look(q)) && Grown(st.cells, now.cells)
    ensures Between(s, st, Apply(s, now, Look(q)), q)
  {
    LookOne(s, now, q);
    LookKeepsCells(s, now, q);
    hide Shape.Index, Enabled, Apply;
    var call := now.counts[q];
    var c := s.Index(call.row, call.item);
    LeastNext(s, st.cells, call.item, call.row);
    LeastNext(s, now.cells, call.item, call.row);
  }

  lemma {:induction false} LookKeepsCells(s: Shape, st: State, q: nat)
    requires Enabled(s, st, Look(q))
    ensures Apply(s, st, Look(q)).cells == st.cells && st.counts[q].row < s.depth
  {
  }

  lemma {:induction false} LeastNext(s: Shape, cells: seq<nat>, x: Key, rows: nat)
    requires s.Ok() && s.Index(rows, x) < |cells|
    ensures
      var best, v := LeastCounter(s, cells, x, rows), cells[s.Index(rows, x)];
      LeastCounter(s, cells, x, rows + 1) == if v <= best then v else best
  {
    hide Shape.Index;
  }

  lemma {:induction false} BetweenOther(s: Shape, st: State, now: State, step: Step, q: nat)
    requires Between(s, st, now, q) && Inv(s, now) && Enabled(s, now, step) && step != Look(q) && |Apply(s, now, step).inserts| < COUNTER_RANGE
    ensures Between(s, st, Apply(s, now, step), q)
  {
    hide Enabled, Apply, Inv, LeastCounter;
    CallsStay(s, now, step);
    OtherCall(s, now, step, q);
    StepGrows(s, now, step);
    var call := now.counts[q];
    LeastGrows(s, now.cells, Apply(s, now, step).cells, call.item, call.row);
  }

  lemma {:induction false} CallsStay(s: Shape, st: State, step: Step)
    requires Enabled(s, st, step)
    ensures |st.counts| <= |Apply(s, st, step).counts|
  {
    hide Shape.Index, Shape.RowOf, Shape.Size, Completed;
  }

  lemma {:induction false} BetweenUntil(s: Shape, states: seq<State>, steps: seq<Step>, i: nat, k: nat, q: nat)
    requires Run(s, states, steps) && i <= k <= |steps| < |states| && q < |states[k].counts|
    requires NotBegun(states[i], q) && |states[k].inserts| < COUNTER_RANGE
    ensures Between(s, states[i], states[k], q)
    decreases k - i
  {
    hide Enabled, Apply, Inv, Between, NotBegun, Grown, Init;
    RunGrows(s, states, steps, i, k);
    if i == k {
      BetweenStart(s, states[i], states[k], q);
    } else {
      var now, step := states[k - 1], steps[k - 1];
      RunInv(s, states, steps, k - 1);
      StepInserts(s, now, step);
      if step == Look(q) {
        RunGrows(s, states, steps, i, k - 1);
        LookRunning(s, now, q);
        BetweenUntil(s, states, steps, i, k - 1, q);
        BetweenLook(s, states[i], now, q);
      } else if q < |now.counts| {
        BetweenUntil(s, states, steps, i, k - 1, q);
        BetweenOther(s, states[i], now, step, q);
      } else {
        OtherCall(s, now, step, q);
        FreshCall(states[k], q);
        BetweenStart(s, states[i], states[k], q);
      }
    }
  }

  lemma {:induction false} LookRunning(s: Shape, st: State, q: nat)
    requires Enabled(s, st, Look(q))
    ensures q < |st.counts|
  {
  }

  lemma {:induction false} FreshCall(st: State, q: nat)
    requires q < |st.counts| && st.counts[q].row == 0 && st.counts[q].min == COUNTER_RANGE - 1
    ensures NotBegun(st, q)
  {
  }

  /**
   Below 2^32 inserts, a finished Count lies between the estimate of its item at any state before its first read
   and the estimate at its end, whatever increments come in between.
   */
  lemma {:induction false} CountBetween(s: Shape, states: seq<State>, steps: seq<Step>, i: nat, k: nat, q: nat)
    requires Run(s, states, steps) && i <= k <= |steps| < |states| && q < |states[k].counts| && states[k].counts[q].row == s.depth
    requires (q < |states[i].counts| ==> states[i].counts[q].row == 0) && |states[k].inserts| < COUNTER_RANGE
    ensures s.Ok()
    ensures
      var call := states[k].counts[q];
      Estimate(s, states[i].cells, call.item) <= call.min <= Estimate(s, states[k].cells, call.item)
  {
    hide Enabled, Apply, LeastCounter;
    if q < |states[i].counts| {
      CountIsLeastRead(s, states, steps, i, q);
    }
    BetweenUntil(s, states, steps, i, k, q);
  }

  /** With no increment since before its first read, a finished Count is the estimate of its item. */
  lemma {:induction false} CountAlone(s: Shape, states: seq<State>, steps: seq<Step>, i: nat, k: nat, q: nat)
    requires Run(s, states, steps) && i <= k <= |steps| < |states| && q < |states[k].counts| && states[k].counts[q].row == s.depth
    requires (q < |states[i].counts| ==> states[i].counts[q].row == 0) && |states[k].inserts| < COUNTER_RANGE
    requires forall j :: i <= j < k ==> !steps[j].Bump?
    ensures s.Ok() && states[k].counts[q].min == Estimate(s, states[k].cells, states[k].counts[q].item)
  {
    hide Enabled, Apply, LeastCounter;
    CellsStay(s, states, steps, i, k);
    CountBetween(s, states, steps, i, k, q);
  }

  lemma {:induction false} CellsStay(s: Shape, states: seq<State>, steps: seq<Step>, i: nat, k: nat)
    requires Run(s, states, steps) && i <= k <= |steps| < |states| && |states[k].inserts| < COUNTER_RANGE
    requires forall j :: i <= j < k ==> !steps[j].Bump?
    ensures states[i].cells == states[k].cells
    decreases k - i
  {
    hide Enabled, Apply, Inv;
    if i < k {
      RunInv(s, states, steps, k - 1);
      StepInserts(s, states[k - 1], steps[k - 1]);
      StepGrows(s, states[k - 1], steps[k - 1]);
      CellsStay(s, states, steps, i, k - 1);
    }
  }

  /**** Row sums ****/

  /** Inserts that have counted their item in this row. */
  function Past(inserts: seq<InsertCall>, row: nat): nat {
    if inserts == [] then 0 else Past(inserts[..|inserts| - 1], row) + if inserts[|inserts| - 1].done > row then 1 else 0
  }

  /** The tallies of the first n cells of a row. */
  function RowTally(s: Shape, inserts: seq<InsertCall>, row: nat, n: nat): nat
    requires s.Ok()
  {
    if n == 0 then 0 else RowTally(s, inserts, row, n - 1) + Tally(s, inserts, row * s.width + n - 1)
  }

  lemma {:induction false} RowTallyAppend(s: Shape, inserts: seq<InsertCall>, op: InsertCall, row: nat, n: nat)
    requires s.Ok() && n <= s.width
    ensures RowTally(s, inserts + [op], row, n) ==
      RowTally(s, inserts, row, n) + if op.done > row && s.hash(row, op.item) % s.width < n then 1 else 0
  {
    if n != 0 {
      RowTallyAppend(s, inserts, op, row, n - 1);
      var c := row * s.width + n - 1;
      TallyAppend(s, inserts, op, c);
      Divide(row, n - 1, s.width);
      assert s.RowOf(c) == row;
      assert Seen(s, op, c) <==> op.done > row && s.hash(row, op.item) % s.width == n - 1;
    }
  }

  /** The tallies of a row add up to the inserts that are past it: a finished run's rows each sum to the number of inserts. */
  lemma {:induction false} RowSum(s: Shape, inserts: seq<InsertCall>, row: nat)
    requires s.Ok()
    ensures RowTally(s, inserts, row, s.width) == Past(inserts, row)
  {
    if inserts == [] {
      NoTally(s, row, s.width);
    } else {
      var last, most := inserts[|inserts| - 1], inserts[..|inserts| - 1];
      RowSum(s, most, row);
      RowTallyAppend(s, most, last, row, s.width);
      assert most + [last] == inserts;
    }
  }

  lemma {:induction false} NoTally(s: Shape, row: nat, n: nat)
    requires s.Ok()
    ensures RowTally(s, [], row, n) == 0
  {
    if n != 0 {
      NoTally(s, row, n - 1);
    }
  }

  lemma {:induction false} DonePast(s: Shape, inserts: seq<InsertCall>, row: nat)
    requires AllDone(s, inserts) && row < s.depth
    ensures Past(inserts, row) == |inserts|
  {
    if inserts != [] {
      DonePast(s, inserts[..|inserts| - 1], row);
    }
  }

  /** Sum of the first n counters of a row. */
  function RowCells(s: Shape, cells: seq<nat>, row: nat, n: nat): nat
    requires s.Ok()
  {
    if n == 0 || row * s.width + n > |cells| then 0 else RowCells(s, cells, row, n - 1) + cells[row * s.width + n - 1]
  }

  lemma {:induction false} RowCellsTally(s: Shape, st: State, row: nat, n: nat)
    requires CellsOk(s, st.cells, st.inserts) && |st.inserts| < COUNTER_RANGE && n <= s.width && row < s.depth
    ensures RowCells(s, st.cells, row, n) == RowTally(s, st.inserts, row, n)
  {
    if n != 0 {
      RowCellsTally(s, st, row, n - 1);
      MultiplyMonotone(row + 1, s.depth, s.width);
      assert (row + 1) * s.width == row * s.width + s.width;
      hide Tally, Wrap;
    }
  }

  /** In a finished run of fewer than 2^32 inserts, every row of counters sums to the number of inserts. */
  lemma {:induction false} RowsSumToInserts(s: Shape, states: seq<State>, steps: seq<Step>, k: nat, row: nat)
    requires Run(s, states, steps) && k <= |steps| && AllDone(s, states[k].inserts) && row < s.depth
    requires |states[k].inserts| < COUNTER_RANGE
    ensures s.Ok() && RowCells(s, states[k].cells, row, s.width) == |states[k].inserts|
  {
    RunInv(s, states, steps, k);
    RowCellsTally(s, states[k], row, s.width);
    RowSum(s, states[k].inserts, row);
    DonePast(s, states[k].inserts, row);
    hide Run, RowCells, RowTally;
  }
}
