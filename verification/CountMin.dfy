/**
 The count-min sketch: a flat row-major matrix of 32-bit counters, one hash per row. Keys are natural
 numbers and the hashes arbitrary; a counter is related to the stream of inserts it stands for.
 */
module CountMin {
  import opened Sequences

  type Key = nat

  const COUNTER_RANGE: nat := 0x1_0000_0000

  /** What a counter makes of a number. */
  function Wrap(n: nat): (r: nat)
    ensures r < COUNTER_RANGE && (n < COUNTER_RANGE ==> r == n)
  {
    n % COUNTER_RANGE
  }

  /** Dimensions and hashes; a hash is reduced to a column. */
  datatype Shape = Shape(width: nat, depth: nat, hash: (nat, Key) -> nat) {
    predicate Ok() { width > 0 && depth > 0 }

    function Size(): nat { depth * width }

    function RowOf(c: nat): nat
      requires Ok()
    {
      c / width
    }

    /** The cell that row `row` counts x in. */
    function Index(row: nat, x: Key): nat
      requires Ok()
    {
      row * width + hash(row, x) % width
    }

    /** Cell c is the one that its own row counts x in. */
    predicate Hits(c: nat, x: Key)
      requires Ok()
    {
      Index(RowOf(c), x) == c
    }
  }

  lemma {:induction false} RowOfIndex(s: Shape, row: nat, x: Key)
    requires s.Ok()
    ensures s.RowOf(s.Index(row, x)) == row
    ensures row < s.depth ==> s.Index(row, x) < s.Size()
  {
    var col := s.hash(row, x) % s.width;
    Divide(row, col, s.width);
    if row < s.depth {
      assert (row + 1) * s.width <= s.depth * s.width by {
        MultiplyMonotone(row + 1, s.depth, s.width);
      }
      assert (row + 1) * s.width == row * s.width + s.width;
    }
  }

  lemma {:induction false} MultiplyMonotone(a: nat, b: nat, w: nat)
    requires a <= b
    ensures a * w <= b * w
  {
  }

  lemma {:induction false} Divide(row: nat, col: nat, width: nat)
    requires col < width
    ensures (row * width + col) / width == row
  {
    var q := (row * width + col) / width;
    var m := (row * width + col) % width;
    assert row * width + col == q * width + m;
    if q < row {
      assert (q + 1) * width <= row * width by {
        MultiplyMonotone(q + 1, row, width);
      }
    } else if q > row {
      assert (row + 1) * width <= q * width by {
        MultiplyMonotone(row + 1, q, width);
      }
    }
  }

  /** How many of the stream's keys cell c counts. */
  function Cell(s: Shape, stream: seq<Key>, c: nat): (n: nat)
    requires s.Ok()
    ensures n <= |stream|
  {
    if stream == [] then 0
    else Cell(s, stream[..|stream| - 1], c) + if s.Hits(c, stream[|stream| - 1]) then 1 else 0
  }

  lemma {:induction false} CellAppend(s: Shape, a: seq<Key>, b: seq<Key>, c: nat)
    requires s.Ok()
    ensures Cell(s, a + b, c) == Cell(s, a, c) + Cell(s, b, c)
  {
    if b == [] {
      assert a + b == a;
    } else {
      var most := b[..|b| - 1];
      CellAppend(s, a, most, c);
      assert (a + b)[..|a + b| - 1] == a + most;
    }
  }

  lemma {:induction false} CellOne(s: Shape, stream: seq<Key>, x: Key, c: nat)
    requires s.Ok()
    ensures Cell(s, stream + [x], c) == Cell(s, stream, c) + if s.Hits(c, x) then 1 else 0
  {
    assert (stream + [x])[..|stream|] == stream;
  }

  function Occurrences(stream: seq<Key>, x: Key): nat {
    if stream == [] then 0 else Occurrences(stream[..|stream| - 1], x) + if stream[|stream| - 1] == x then 1 else 0
  }

  /** The cell of any row of x counts at least the occurrences of x. */
  lemma {:induction false} CellAtLeast(s: Shape, stream: seq<Key>, row: nat, x: Key)
    requires s.Ok()
    ensures Occurrences(stream, x) <= Cell(s, stream, s.Index(row, x))
  {
    RowOfIndex(s, row, x);
    hide Shape.Index, Shape.RowOf;
    if stream != [] {
      CellAtLeast(s, stream[..|stream| - 1], row, x);
    }
  }

  /** Counters that stand for a stream, up to the counters' wrap-around. */
  ghost predicate Counts(s: Shape, cells: seq<nat>, stream: seq<Key>) {
    s.Ok() && |cells| == s.Size() && forall c :: 0 <= c < |cells| ==> cells[c] == Wrap(Cell(s, stream, c))
  }

  /** The least of the counters of x in the first `rows` rows. */
  function LeastCounter(s: Shape, cells: seq<nat>, x: Key, rows: nat): nat
    requires s.Ok()
  {
    if rows == 0 then COUNTER_RANGE - 1
    else
      var best := LeastCounter(s, cells, x, rows - 1);
      var c := s.Index(rows - 1, x);
      if c < |cells| && cells[c] <= best then cells[c] else best
  }

  /** What the counters say of x. */
  function Estimate(s: Shape, cells: seq<nat>, x: Key): nat
    requires s.Ok()
  {
    LeastCounter(s, cells, x, s.depth)
  }

  /** No counter of x is below its estimate, and one of them is the estimate. */
  lemma {:induction false} LeastIsReached(s: Shape, cells: seq<nat>, stream: seq<Key>, x: Key, rows: nat)
    requires Counts(s, cells, stream) && rows <= s.depth
    ensures LeastCounter(s, cells, x, rows) < COUNTER_RANGE
    ensures forall row :: 0 <= row < rows ==> LeastCounter(s, cells, x, rows) <= Wrap(Cell(s, stream, s.Index(row, x)))
    ensures rows > 0 ==>
      exists row :: 0 <= row < rows && LeastCounter(s, cells, x, rows) == Wrap(Cell(s, stream, s.Index(row, x)))
  {
    hide Shape.Index, Shape.Size, Shape.RowOf, Wrap, Cell, Shape.Hits;
    if rows > 0 {
      LeastIsReached(s, cells, stream, x, rows - 1);
      RowOfIndex(s, rows - 1, x);
      var c := s.Index(rows - 1, x);
      assert cells[c] == Wrap(Cell(s, stream, c));
    }
  }

  /** The estimate lies between the occurrences and the length of the stream, while no counter wraps. */
  lemma {:induction false} EstimateBounds(s: Shape, cells: seq<nat>, stream: seq<Key>, x: Key)
    requires Counts(s, cells, stream)
    ensures exists row :: 0 <= row < s.depth && Estimate(s, cells, x) == Wrap(Cell(s, stream, s.Index(row, x)))
    ensures forall row :: 0 <= row < s.depth ==> Estimate(s, cells, x) <= Wrap(Cell(s, stream, s.Index(row, x)))
    ensures |stream| < COUNTER_RANGE ==> Occurrences(stream, x) <= Estimate(s, cells, x) <= |stream|
  {
    LeastIsReached(s, cells, stream, x, s.depth);
    hide LeastCounter, Shape.Index, Cell;
    var row :| 0 <= row < s.depth && Estimate(s, cells, x) == Wrap(Cell(s, stream, s.Index(row, x)));
    CellAtLeast(s, stream, row, x);
  }

  /** Equal counters for every order of the same keys. */
  lemma {:induction false} CellOrder(s: Shape, a: seq<Key>, b: seq<Key>, c: nat)
    requires s.Ok() && multiset(a) == multiset(b)
    ensures Cell(s, a, c) == Cell(s, b, c)
    decreases |a|
  {
    assert |multiset(a)| == |a| && |multiset(b)| == |b|;
    if a != [] {
      var last := |a| - 1;
      var x := a[last];
      assert x in multiset(b);
      var i: nat :| i < |b| && b[i] == x;
      RemoveKey(a, last);
      RemoveKey(b, i);
      CellRemove(s, a, last, c);
      CellRemove(s, b, i, c);
      hide Cell;
      CellOrder(s, a[..last] + a[last + 1..], b[..i] + b[i + 1..], c);
    }
  }

  lemma {:induction false} RemoveKey(a: seq<Key>, i: nat)
    requires i < |a|
    ensures multiset(a[..i] + a[i + 1..]) == multiset(a) - multiset{a[i]}
  {
    assert a == a[..i] + [a[i]] + a[i + 1..];
  }

  lemma {:induction false} CellRemove(s: Shape, a: seq<Key>, i: nat, c: nat)
    requires s.Ok() && i < |a|
    ensures Cell(s, a, c) == Cell(s, a[..i] + a[i + 1..], c) + if s.Hits(c, a[i]) then 1 else 0
  {
    var l, r := a[..i], a[i + 1..];
    assert a == (l + [a[i]]) + r;
    CellAppend(s, l + [a[i]], r, c);
    CellOne(s, l, a[i], c);
    CellAppend(s, l, r, c);
    hide Cell;
  }

  /** Adding up the counters of two streams gives the counters of the two streams together. */
  lemma {:induction false} MergeCell(s: Shape, a: seq<Key>, b: seq<Key>, c: nat)
    requires s.Ok()
    ensures Wrap(Wrap(Cell(s, a, c)) + Wrap(Cell(s, b, c))) == Wrap(Cell(s, a + b, c))
  {
    CellAppend(s, a, b, c);
    ModAdd(Cell(s, a, c), Cell(s, b, c));
  }

  lemma {:induction false} ModAdd(a: nat, b: nat)
    ensures Wrap(Wrap(a) + Wrap(b)) == Wrap(a + b) && Wrap(Wrap(a) + b) == Wrap(a + b)
  {
  }

  /**** Top-k ****/

  datatype Entry = Entry(key: Key, count: nat)

  function InsertEntry(e: Entry, entries: seq<Entry>): seq<Entry> {
    if entries == [] || entries[0].count <= e.count then [e] + entries else [entries[0]] + InsertEntry(e, entries[1..])
  }

  /** The stable sort by descending count. */
  function SortEntries(entries: seq<Entry>): seq<Entry> {
    if entries == [] then [] else InsertEntry(entries[0], SortEntries(entries[1..]))
  }

  ghost predicate Descending(entries: seq<Entry>) {
    forall i, j :: 0 <= i < j < |entries| ==> entries[i].count >= entries[j].count
  }

  /** The entries of one count, in order. */
  function WithCount(entries: seq<Entry>, n: nat): seq<Entry> {
    if entries == [] then []
    else if entries[0].count == n then [entries[0]] + WithCount(entries[1..], n)
    else WithCount(entries[1..], n)
  }

  lemma {:induction false} InsertElems(e: Entry, entries: seq<Entry>)
    ensures multiset(InsertEntry(e, entries)) == multiset(entries) + multiset{e}
  {
    if entries == [] || entries[0].count <= e.count {
    } else {
      InsertElems(e, entries[1..]);
      assert entries == [entries[0]] + entries[1..];
    }
  }

  lemma {:induction false} InsertDescends(e: Entry, entries: seq<Entry>)
    requires Descending(entries)
    ensures Descending(InsertEntry(e, entries))
  {
    if entries == [] || entries[0].count <= e.count {
    } else {
      InsertDescends(e, entries[1..]);
      var rest := InsertEntry(e, entries[1..]);
      InsertElems(e, entries[1..]);
      hide InsertEntry;
      forall j | 0 <= j < |rest|
        ensures rest[j].count <= entries[0].count
      {
        assert rest[j] in multiset(rest);
        assert rest[j] == e || rest[j] in entries[1..];
      }
    }
  }

  /** Sorting keeps ties in order: the entries of each count form the same sequence as before. */
  lemma {:induction false} InsertStable(e: Entry, entries: seq<Entry>, n: nat)
    requires Descending(entries)
    ensures WithCount(InsertEntry(e, entries), n) == if e.count == n then [e] + WithCount(entries, n) else WithCount(entries, n)
  {
    if entries == [] || entries[0].count <= e.count {
      assert ([e] + entries)[1..] == entries;
    } else {
      InsertStable(e, entries[1..], n);
      var rest := InsertEntry(e, entries[1..]);
      assert ([entries[0]] + rest)[1..] == rest;
    }
  }

  lemma {:induction false} SortIsStable(entries: seq<Entry>)
    ensures Descending(SortEntries(entries)) && multiset(SortEntries(entries)) == multiset(entries)
    ensures forall n :: WithCount(SortEntries(entries), n) == WithCount(entries, n)
  {
    if entries != [] {
      SortIsStable(entries[1..]);
      var rest := SortEntries(entries[1..]);
      InsertDescends(entries[0], rest);
      InsertElems(entries[0], rest);
      assert entries == [entries[0]] + entries[1..];
      forall n
        ensures WithCount(SortEntries(entries), n) == WithCount(entries, n)
      {
        InsertStable(entries[0], rest, n);
      }
    }
  }

  /** A prefix of the stable sort holds no entry that counts less than one left out. */
  ghost predicate TopSelection(all: seq<Entry>, top: seq<Entry>, n: nat) {
    && |top| == (if n <= |all| then n else |all|) && Descending(top)
    && exists rest :: IsSorting(all, top, rest)
  }

  /** `top` then `rest` is the stable sort of `all`. */
  ghost predicate IsSorting(all: seq<Entry>, top: seq<Entry>, rest: seq<Entry>) {
    && top + rest == SortEntries(all)
    && (forall i, j :: 0 <= i < |top| && 0 <= j < |rest| ==> top[i].count >= rest[j].count)
  }

  lemma {:induction false} PrefixIsTop(all: seq<Entry>, n: nat)
    ensures |SortEntries(all)| == |all|
    ensures TopSelection(all, if n < |all| then SortEntries(all)[..n] else SortEntries(all), n)
  {
    SortIsStable(all);
    var sorted := SortEntries(all);
    hide SortEntries;
    assert |multiset(sorted)| == |sorted| && |multiset(all)| == |all|;
    SplitDescends(sorted, if n < |all| then n else |all|);
    assert sorted[..|sorted|] == sorted;
  }

  lemma {:induction false} SplitDescends(sorted: seq<Entry>, m: nat)
    requires Descending(sorted) && m <= |sorted|
    ensures Descending(sorted[..m])
    ensures forall all :: SortEntries(all) == sorted ==> IsSorting(all, sorted[..m], sorted[m..])
  {
    hide SortEntries;
    assert sorted[..m] + sorted[m..] == sorted;
  }

  /**** The sketch ****/

  class CountMinSketch {
    const shape: Shape
    const cells: array<nat>
    var topKInitialized: bool
    var initialK: nat
    /** What has been inserted or merged in since the last Clear. */
    ghost var stream: seq<Key>

    ghost predicate Valid()
      reads this, cells
    {
      Counts(shape, cells[..], stream) && (!topKInitialized ==> initialK == 0)
    }

    constructor (s: Shape)
      requires s.Ok()
      ensures Valid() && shape == s && stream == [] && !topKInitialized && initialK == 0 && fresh(cells)
    {
      shape := s;
      cells := new nat[s.Size()](_ => 0);
      topKInitialized, initialK, stream := false, 0, [];
    }

    method Insert(x: Key)
      requires Valid()
      modifies cells, this`stream
      ensures Valid() && stream == old(stream) + [x]
    {
      ghost var was := cells[..];
      BumpNothing(shape, was, stream, x);
      hide Bumped, Shape.Index, Counts, Wrap, Shape.Size, Shape.RowOf;
      for row := 0 to shape.depth
        invariant Bumped(shape, was, cells[..], row, x)
        modifies cells
      {
        BumpRow(shape, was, cells[..], row, x);
        var c := shape.Index(row, x);
        ghost var next := cells[..][c := Wrap(cells[c] + 1)];
        cells[c] := Wrap(cells[c] + 1);
        assert cells[..] == next;
      }
      InsertedCells(shape, was, cells[..], stream, x);
      stream := stream + [x];
    }

    method Count(x: Key) returns (n: nat)
      requires Valid()
      ensures n == Estimate(shape, cells[..], x)
      ensures |stream| < COUNTER_RANGE ==> Occurrences(stream, x) <= n <= |stream|
      ensures exists row :: 0 <= row < shape.depth && n == Wrap(Cell(shape, stream, shape.Index(row, x)))
      ensures forall row :: 0 <= row < shape.depth ==> n <= Wrap(Cell(shape, stream, shape.Index(row, x)))
    {
      EstimateBounds(shape, cells[..], stream, x);
      hide Shape.Index, Shape.Size, Shape.RowOf, Wrap, Cell, Shape.Hits;
      n := COUNTER_RANGE - 1;
      for row := 0 to shape.depth
        invariant n == LeastCounter(shape, cells[..], x, row)
      {
        RowOfIndex(shape, row, x);
        var v := cells[shape.Index(row, x)];
        if v <= n {
          n := v;
        }
      }
    }

    method Clear()
      requires Valid()
      modifies this, cells
      ensures Valid() && stream == [] && !topKInitialized && initialK == 0
    {
      for c := 0 to cells.Length
        invariant forall i :: 0 <= i < c ==> cells[i] == 0
        modifies cells
      {
        cells[c] := 0;
      }
      topKInitialized, initialK, stream := false, 0, [];
    }

    /** Merging the sketches of two streams; refused when the dimensions differ. */
    method Merge(other: CountMinSketch) returns (ok: bool)
      requires Valid() && other.Valid() && other != this && other.cells != cells
      requires forall row, x :: other.shape.hash(row, x) == shape.hash(row, x)
      modifies this, cells
      ensures ok <==> other.shape.width == shape.width && other.shape.depth == shape.depth
      ensures Valid() && stream == if ok then old(stream) + other.stream else old(stream)
      ensures topKInitialized == (old(topKInitialized) || (ok && other.topKInitialized))
      ensures initialK == if !old(topKInitialized) && ok && other.topKInitialized then other.initialK else old(initialK)
    {
      if other.shape.width != shape.width || other.shape.depth != shape.depth {
        return false;
      }
      ghost var was := cells[..];
      for c := 0 to cells.Length
        invariant forall i :: 0 <= i < cells.Length ==>
          cells[i] == if i < c then Wrap(was[i] + other.cells[i]) else was[i]
        modifies cells
      {
        cells[c] := Wrap(cells[c] + other.cells[c]);
      }
      MergedCells(shape, other.shape, was, other.cells[..], cells[..], stream, other.stream);
      stream := stream + other.stream;
      if !topKInitialized && other.topKInitialized {
        topKInitialized := true;
        initialK := other.initialK;
      }
      ok := true;
    }

    /** Each candidate with its estimate. */
    method Estimates(candidates: seq<Key>) returns (entries: seq<Entry>)
      requires Valid()
      ensures |entries| == |candidates|
      ensures forall i :: 0 <= i < |entries| ==>
        entries[i] == Entry(candidates[i], Estimate(shape, cells[..], candidates[i]))
      ensures |stream| < COUNTER_RANGE ==>
        forall i :: 0 <= i < |entries| ==> Occurrences(stream, candidates[i]) <= entries[i].count <= |stream|
    {
      hide Estimate;
      entries := [];
      for i := 0 to |candidates|
        invariant |entries| == i
        invariant forall j :: 0 <= j < i ==>
          entries[j] == Entry(candidates[j], Estimate(shape, cells[..], candidates[j]))
        invariant |stream| < COUNTER_RANGE ==>
          forall j :: 0 <= j < i ==> Occurrences(stream, candidates[j]) <= entries[j].count <= |stream|
      {
        var n := Count(candidates[i]);
        entries := entries + [Entry(candidates[i], n)];
      }
    }

    /**
     The candidates with the highest estimates, ties in candidate order; at most k of them, at most the
     first k asked for since Clear or taken over by Merge, and never one that counts less than one left out.
     */
    method TopK(k: nat, candidates: seq<Key>) returns (top: seq<Entry>, ghost all: seq<Entry>)
      requires Valid()
      modifies this`topKInitialized, this`initialK
      ensures Valid() && topKInitialized && initialK == if old(topKInitialized) then old(initialK) else k
      ensures |all| == |candidates|
      ensures forall i :: 0 <= i < |all| ==> all[i] == Entry(candidates[i], Estimate(shape, cells[..], candidates[i]))
      ensures TopSelection(all, top, if k <= initialK then k else initialK)
      ensures |stream| < COUNTER_RANGE ==>
        forall i :: 0 <= i < |all| ==> Occurrences(stream, candidates[i]) <= all[i].count <= |stream|
    {
      if !topKInitialized {
        topKInitialized := true;
        initialK := k;
      }
      var capped := if k <= initialK then k else initialK;
      var counts := Estimates(candidates);
      all := counts;
      PrefixIsTop(counts, capped);
      top := SortEntries(counts);
      if capped < |top| {
        top := top[..capped];
      }
    }
  }

  /** The first `rows` rows have counted x once more. */
  ghost predicate Bumped(s: Shape, was: seq<nat>, now: seq<nat>, rows: nat, x: Key) {
    && s.Ok() && |now| == |was| == s.Size()
    && forall c :: 0 <= c < |was| ==>
         now[c] == if s.RowOf(c) < rows && s.Hits(c, x) then Wrap(was[c] + 1) else was[c]
  }

  lemma {:induction false} BumpNothing(s: Shape, cells: seq<nat>, stream: seq<Key>, x: Key)
    requires Counts(s, cells, stream)
    ensures s.Ok() && Bumped(s, cells, cells, 0, x)
  {
  }

  lemma {:induction false} BumpRow(s: Shape, was: seq<nat>, now: seq<nat>, row: nat, x: Key)
    requires Bumped(s, was, now, row, x) && row < s.depth
    ensures s.Index(row, x) < |now|
    ensures Bumped(s, was, now[s.Index(row, x) := Wrap(now[s.Index(row, x)] + 1)], row + 1, x)
  {
    RowOfIndex(s, row, x);
    hide Shape.Index, Shape.Size, Shape.RowOf, Wrap;
    var c := s.Index(row, x);
    var next := now[c := Wrap(now[c] + 1)];
    forall i | 0 <= i < |was|
      ensures next[i] == if s.RowOf(i) < row + 1 && s.Hits(i, x) then Wrap(was[i] + 1) else was[i]
    {
      if s.RowOf(i) == row {
        assert s.Hits(i, x) <==> i == c;
      }
    }
  }

  lemma {:induction false} InsertedCells(s: Shape, was: seq<nat>, now: seq<nat>, stream: seq<Key>, x: Key)
    requires Counts(s, was, stream) && Bumped(s, was, now, s.depth, x)
    ensures Counts(s, now, stream + [x])
  {
    hide Shape.Index, Shape.Size, Shape.RowOf, Wrap, Cell, Shape.Hits;
    forall c | 0 <= c < |now|
      ensures now[c] == Wrap(Cell(s, stream + [x], c))
    {
      CellOne(s, stream, x, c);
      RowInRange(s, c);
      ModAdd(Cell(s, stream, c), 1);
    }
  }

  lemma {:induction false} RowInRange(s: Shape, c: nat)
    requires s.Ok() && c < s.Size()
    ensures s.RowOf(c) < s.depth
  {
    assert c / s.width * s.width <= c;
    if c / s.width >= s.depth {
      MultiplyMonotone(s.depth, c / s.width, s.width);
    }
  }

  lemma {:induction false} SameCells(s: Shape, t: Shape, stream: seq<Key>, c: nat)
    requires s.Ok() && t.Ok() && s.width == t.width && s.depth == t.depth
    requires forall row, x :: t.hash(row, x) == s.hash(row, x)
    ensures Cell(s, stream, c) == Cell(t, stream, c)
  {
    if stream != [] {
      SameCells(s, t, stream[..|stream| - 1], c);
    }
  }

  lemma {:induction false} MergedCells(s: Shape, t: Shape, was: seq<nat>, other: seq<nat>, now: seq<nat>, a: seq<Key>, b: seq<Key>)
    requires Counts(s, was, a) && Counts(t, other, b) && s.width == t.width && s.depth == t.depth && |now| == |was|
    requires forall row, x :: t.hash(row, x) == s.hash(row, x)
    requires forall c :: 0 <= c < |was| ==> now[c] == Wrap(was[c] + other[c])
    ensures Counts(s, now, a + b)
  {
    assert s.Size() == t.Size();
    hide Shape.Index, Shape.Size, Shape.RowOf, Wrap, Cell, Shape.Hits;
    forall c | 0 <= c < |now|
      ensures now[c] == Wrap(Cell(s, a + b, c))
    {
      SameCells(s, t, b, c);
      MergeCell(s, a, b, c);
    }
  }
}
