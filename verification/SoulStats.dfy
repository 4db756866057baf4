/** One-pass statistics of an uploaded file (apps/cards/soul.py, `RollingWindow` and `derive_soul_package`). */
module SoulStats {
  import opened Bytes
  import opened Sets
  import opened Wrappers

  const EDGE_SIGNATURE_BYTES: nat := 64
  const TRAIT_SAMPLE_BYTES: nat := 256 * 1024
  const HEADER_BYTES: nat := 512

  function Take(s: seq<Byte>, n: nat): seq<Byte> { if |s| <= n then s else s[..n] }

  function Flatten(chunks: seq<seq<Byte>>): seq<Byte> {
    if chunks == [] then [] else Flatten(chunks[..|chunks| - 1]) + chunks[|chunks| - 1]
  }

  class RollingWindow {
    const limit: nat
    var buffer: seq<Byte>

    ghost predicate Valid() reads this { |buffer| <= limit }

    constructor (limit: nat)
      ensures Valid() && this.limit == limit && buffer == []
    {
      this.limit, buffer := limit, [];
    }

    method Feed(payload: seq<Byte>)
      requires Valid()
      modifies this
      ensures Valid() && buffer == Last(old(buffer) + payload, limit)
    {
      if payload == [] {
        assert buffer + payload == buffer;
        return;
      }
      buffer := buffer + payload;
      if |buffer| > limit {
        buffer := buffer[|buffer| - limit..];
      }
    }
  }

  /** Feeding a window piece by piece is feeding it at once. */
  lemma {:induction false} LastOfLast(s: seq<Byte>, t: seq<Byte>, n: nat)
    ensures Last(Last(s, n) + t, n) == Last(s + t, n)
  {}

  // ----- What the statistics mean ------------------------------------------

  predicate Printable(b: Byte) { b == 9 || b == 10 || b == 13 || 32 <= b <= 126 }

  /** The positions that satisfy a predicate on bytes. */
  function Where(s: seq<Byte>, p: Byte -> bool): set<nat> { set i: nat | i < |s| && p(s[i]) }

  predicate RepeatsAt(s: seq<Byte>, i: nat) { 0 < i < |s| && s[i] == s[i - 1] }

  /** The positions whose byte equals the one before. */
  function Repeats(s: seq<Byte>): set<nat> { set i: nat | i < |s| && RepeatsAt(s, i) }

  /** The positions where a run of equal bytes starts. */
  function RunStarts(s: seq<Byte>): set<nat> { set i: nat | i < |s| && !RepeatsAt(s, i) }

  /** The `n` bytes from `i` are all equal. */
  ghost predicate Constant(s: seq<Byte>, i: nat, n: nat) {
    i + n <= |s| && forall j :: i <= j < i + n ==> s[j] == s[i]
  }

  /** `n` is the length of a longest run of equal bytes. */
  ghost predicate LongestRun(s: seq<Byte>, n: nat) {
    (exists i: nat :: Constant(s, i, n)) && forall i: nat, m: nat :: Constant(s, i, m) ==> m <= n
  }

  ghost predicate IsHistogram(h: seq<nat>, s: seq<Byte>) {
    |h| == 256 && forall b: Byte :: h[b as int] == multiset(s)[b]
  }

  datatype Stats = Stats(histogram: seq<nat>, printable: nat, repeated: nat, total: nat, maxRun: nat,
                         first: seq<Byte>, last: seq<Byte>, sample: seq<Byte>)

  ghost predicate Describes(st: Stats, s: seq<Byte>) {
    && IsHistogram(st.histogram, s)
    && st.printable == |Where(s, Printable)| && st.repeated == |Repeats(s)| && st.total == |s|
    && LongestRun(s, st.maxRun)
    && st.first == Take(s, EDGE_SIGNATURE_BYTES) && st.last == Last(s, EDGE_SIGNATURE_BYTES)
    && st.sample == Take(s, TRAIT_SAMPLE_BYTES)
  }

  // ----- The loop ----------------------------------------------------------

  function Max(a: nat, b: nat): nat { if a < b then b else a }

  function Previous(s: seq<Byte>): Option<Byte> { if s == [] then None else Some(s[|s| - 1]) }

  /** `run` is the length of the last run, and `best` covers the runs before it. */
  ghost predicate RunState(s: seq<Byte>, run: nat, best: nat) {
    && run <= |s| && Constant(s, |s| - run, run) && (s != [] ==> run > 0)
    && (0 < run < |s| ==> s[|s| - run - 1] != s[|s| - 1])
    && LongestRun(s, Max(best, run))
  }

  lemma {:induction false} ConstantInPrefix(s: seq<Byte>, x: Byte, i: nat, n: nat)
    requires i + n <= |s|
    ensures Constant(s + [x], i, n) <==> Constant(s, i, n)
  {
    if n > 0 {
      assert forall j :: i <= j < i + n ==> (s + [x])[j] == s[j];
    }
  }

  lemma {:induction false} EndsInLastRun(t: seq<Byte>, run: nat, i: nat, m: nat)
    requires Constant(t, i, m) && i + m == |t|
    requires run <= |t| && (0 < run < |t| ==> t[|t| - run - 1] != t[|t| - 1])
    ensures run > 0 ==> m <= run
  {
    assert forall j :: i <= j < |t| ==> t[j] == t[i];
  }

  /** One more byte: it lengthens the last run or closes it. */
  lemma {:induction false} RunStep(s: seq<Byte>, x: Byte, run: nat, best: nat)
    requires RunState(s, run, best)
    ensures Previous(s) == Some(x) ==> RunState(s + [x], run + 1, best)
    ensures Previous(s) != Some(x) ==> RunState(s + [x], 1, if s == [] then best else Max(best, run))
  {
    var t := s + [x];
    var joined := Previous(s) == Some(x);
    var run' := if joined then run + 1 else 1;
    assert Constant(t, |t| - run', run');
    var longest := Max(best, run);
    var longest' := Max(longest, run');
    forall i: nat, m: nat | Constant(t, i, m) ensures m <= longest' {
      if i + m <= |s| {
        ConstantInPrefix(s, x, i, m);
      } else {
        EndsInLastRun(t, run', i, m);
      }
    }
    if longest' == longest {
      var i: nat :| Constant(s, i, longest);
      ConstantInPrefix(s, x, i, longest);
    }
    assert LongestRun(t, longest');
  }

  lemma {:induction false} PrintableStep(s: seq<Byte>, x: Byte)
    ensures |Where(s + [x], Printable)| == |Where(s, Printable)| + if Printable(x) then 1 else 0
  {
    var t := s + [x];
    forall i: nat ensures i in Where(t, Printable) <==> i in Where(s, Printable) || (i == |s| && Printable(x)) {
      if i < |s| { assert t[i] == s[i]; }
    }
    assert Where(t, Printable) == Where(s, Printable) + if Printable(x) then {|s|} else {};
  }

  lemma {:induction false} RepeatStep(s: seq<Byte>, x: Byte)
    ensures |Repeats(s + [x])| == |Repeats(s)| + if Previous(s) == Some(x) then 1 else 0
  {
    var t := s + [x];
    var joined := Previous(s) == Some(x);
    forall i: nat ensures i in Repeats(t) <==> i in Repeats(s) || (i == |s| && joined) {
      assert i < |s| ==> RepeatsAt(t, i) == RepeatsAt(s, i);
    }
    assert Repeats(t) == Repeats(s) + if joined then {|s|} else {};
  }

  lemma {:induction false} HistogramStep(h: seq<nat>, s: seq<Byte>, x: Byte)
    requires IsHistogram(h, s)
    ensures IsHistogram(h[x as int := h[x as int] + 1], s + [x])
  {}

  datatype Counters = Counters(printable: nat, repeated: nat, total: nat, run: nat, best: nat, prev: Option<Byte>)

  /** What one byte does to the counters. */
  function Count(c: Counters, raw: Byte): Counters {
    var joined := c.prev == Some(raw);
    Counters(if Printable(raw) then c.printable + 1 else c.printable,
             if joined then c.repeated + 1 else c.repeated, c.total + 1,
             if joined then c.run + 1 else 1,
             if joined || c.prev == None then c.best else Max(c.best, c.run), Some(raw))
  }

  function Counted(s: seq<Byte>): Counters {
    if s == [] then Counters(0, 0, 0, 0, 0, None) else Count(Counted(s[..|s| - 1]), s[|s| - 1])
  }

  lemma {:induction false} CountedStep(s: seq<Byte>, x: Byte)
    ensures Counted(s + [x]) == Count(Counted(s), x)
  {
    assert (s + [x])[..|s|] == s;
  }

  ghost predicate CountersFor(c: Counters, s: seq<Byte>) {
    && c.printable == |Where(s, Printable)| && c.repeated == |Repeats(s)| && c.total == |s|
    && c.prev == Previous(s) && RunState(s, c.run, c.best)
  }

  lemma {:induction false} CountKeeps(c: Counters, s: seq<Byte>, x: Byte)
    requires CountersFor(c, s)
    ensures CountersFor(Count(c, x), s + [x])
  {
    PrintableStep(s, x);
    RepeatStep(s, x);
    RunStep(s, x, c.run, c.best);
  }

  /** The counters mean what their names say. */
  lemma {:induction false} CountersMean(s: seq<Byte>)
    ensures CountersFor(Counted(s), s)
  {
    if s == [] {
      assert Constant(s, 0, 0);
      assert Where(s, Printable) == {} && Repeats(s) == {};
    } else {
      var n := |s| - 1;
      CountersMean(s[..n]);
      assert s == s[..n] + [s[n]];
      CountKeeps(Counted(s[..n]), s[..n], s[n]);
    }
  }

  lemma {:induction false} NextByte(s: seq<Byte>, chunk: seq<Byte>, j: nat)
    requires j < |chunk|
    ensures s + chunk[..j + 1] == s + chunk[..j] + [chunk[j]]
  {}

  method Bump(histogram: array<nat>, raw: Byte, ghost s: seq<Byte>)
    requires IsHistogram(histogram[..], s)
    modifies histogram
    ensures IsHistogram(histogram[..], s + [raw])
  {
    ghost var before := histogram[..];
    HistogramStep(before, s, raw);
    histogram[raw as int] := histogram[raw as int] + 1;
    assert histogram[..] == before[raw as int := before[raw as int] + 1];
  }

  /** The scalar counters on one byte. */
  method CountByte(c: Counters, raw: Byte) returns (c': Counters)
    ensures c' == Count(c, raw)
  {
    var Counters(printable, repeated, total, run, best, prev) := c;
    total := total + 1;
    if Printable(raw) { printable := printable + 1; }
    if prev == None {
      run := 1;
    } else if prev == Some(raw) {
      repeated := repeated + 1;
      run := run + 1;
    } else {
      best := Max(best, run);
      run := 1;
    }
    c' := Counters(printable, repeated, total, run, best, Some(raw));
  }

  /** The loop over the bytes of one chunk, after the bytes `s`. */
  method CountBytes(chunk: seq<Byte>, histogram: array<nat>, c: Counters, ghost s: seq<Byte>) returns (c': Counters)
    requires IsHistogram(histogram[..], s) && c == Counted(s)
    modifies histogram
    ensures IsHistogram(histogram[..], s + chunk) && c' == Counted(s + chunk)
  {
    c' := c;
    ghost var seen := s;
    assert s + chunk[..0] == s;
    for j := 0 to |chunk|
      invariant seen == s + chunk[..j]
      invariant IsHistogram(histogram[..], seen) && c' == Counted(seen)
    {
      NextByte(s, chunk, j);
      CountedStep(seen, chunk[j]);
      Bump(histogram, chunk[j], seen);
      c' := CountByte(c', chunk[j]);
      seen := seen + [chunk[j]];
    }
    assert s + chunk[..|chunk|] == s + chunk;
  }

  /** The chunk whose start becomes the header. */
  function FirstNonEmpty(chunks: seq<seq<Byte>>): seq<Byte> {
    if chunks == [] then [] else if chunks[0] != [] then chunks[0] else FirstNonEmpty(chunks[1..])
  }

  lemma {:induction false} FirstNonEmptyStep(chunks: seq<seq<Byte>>, c: seq<Byte>)
    ensures FirstNonEmpty(chunks + [c]) == if FirstNonEmpty(chunks) == [] then c else FirstNonEmpty(chunks)
  {
    if chunks != [] && chunks[0] == [] {
      assert (chunks + [c])[1..] == chunks[1..] + [c];
      FirstNonEmptyStep(chunks[1..], c);
    }
  }

  lemma {:induction false} TakeStep(s: seq<Byte>, c: seq<Byte>, n: nat)
    ensures Take(s + c, n) == if |Take(s, n)| < n then Take(s, n) + Take(c, n - |Take(s, n)|) else Take(s, n)
  {}

  /** What is kept of the chunks: their first and last bytes. */
  ghost predicate Edges(chunks: seq<seq<Byte>>, first: seq<Byte>, last: seq<Byte>, sample: seq<Byte>,
                        header: seq<Byte>) {
    && first == Take(Flatten(chunks), EDGE_SIGNATURE_BYTES) && last == Last(Flatten(chunks), EDGE_SIGNATURE_BYTES)
    && sample == Take(Flatten(chunks), TRAIT_SAMPLE_BYTES) && header == Take(FirstNonEmpty(chunks), HEADER_BYTES)
  }

  lemma {:induction false} FlattenStep(chunks: seq<seq<Byte>>, c: seq<Byte>)
    ensures Flatten(chunks + [c]) == Flatten(chunks) + c
  {
    assert (chunks + [c])[..|chunks|] == chunks;
  }

  lemma {:induction false} EdgesStep(chunks: seq<seq<Byte>>, c: seq<Byte>, first: seq<Byte>, last: seq<Byte>,
                                     sample: seq<Byte>, header: seq<Byte>)
    requires Edges(chunks, first, last, sample, header)
    ensures Edges(chunks + [c],
                  if |first| < EDGE_SIGNATURE_BYTES then first + Take(c, EDGE_SIGNATURE_BYTES - |first|) else first,
                  Last(last + c, EDGE_SIGNATURE_BYTES),
                  if |sample| < TRAIT_SAMPLE_BYTES then sample + Take(c, TRAIT_SAMPLE_BYTES - |sample|) else sample,
                  if header == [] then Take(c, HEADER_BYTES) else header)
  {
    FlattenStep(chunks, c);
    TakeStep(Flatten(chunks), c, EDGE_SIGNATURE_BYTES);
    TakeStep(Flatten(chunks), c, TRAIT_SAMPLE_BYTES);
    LastOfLast(Flatten(chunks), c, EDGE_SIGNATURE_BYTES);
    FirstNonEmptyStep(chunks, c);
  }

  lemma {:induction false} EmptyChunk(chunks: seq<seq<Byte>>)
    ensures Flatten(chunks + [[]]) == Flatten(chunks) && FirstNonEmpty(chunks + [[]]) == FirstNonEmpty(chunks)
  {
    FlattenStep(chunks, []);
    assert Flatten(chunks) + [] == Flatten(chunks);
    FirstNonEmptyStep(chunks, []);
  }

  /** The byte loop of `derive_soul_package`, for a file delivered in any chunks. */
  method ByteStatistics(chunks: seq<seq<Byte>>) returns (st: Stats, header: seq<Byte>)
    ensures Describes(st, Flatten(chunks))
    ensures header == Take(FirstNonEmpty(chunks), HEADER_BYTES)
  {
    var histogram := new nat[256](_ => 0);
    var c := Counters(0, 0, 0, 0, 0, None);
    var first: seq<Byte>, sample: seq<Byte> := [], [];
    var trailing := new RollingWindow(EDGE_SIGNATURE_BYTES);
    header := [];
    ghost var fed: seq<seq<Byte>> := [];
    for k := 0 to |chunks|
      invariant fed == chunks[..k]
      invariant trailing.Valid() && trailing.limit == EDGE_SIGNATURE_BYTES && fresh(histogram) && fresh(trailing)
      invariant IsHistogram(histogram[..], Flatten(fed)) && c == Counted(Flatten(fed))
      invariant Edges(fed, first, trailing.buffer, sample, header)
    {
      var chunk := chunks[k];
      ghost var before := fed;
      assert chunks[..k + 1] == chunks[..k] + [chunk];
      fed := fed + [chunk];
      if chunk == [] {
        EmptyChunk(before);
        continue;
      }
      EdgesStep(before, chunk, first, trailing.buffer, sample, header);
      FlattenStep(before, chunk);
      if header == [] { header := Take(chunk, HEADER_BYTES); }
      if |first| < EDGE_SIGNATURE_BYTES { first := first + Take(chunk, EDGE_SIGNATURE_BYTES - |first|); }
      trailing.Feed(chunk);
      if |sample| < TRAIT_SAMPLE_BYTES { sample := sample + Take(chunk, TRAIT_SAMPLE_BYTES - |sample|); }
      c := CountBytes(chunk, histogram, c, Flatten(before));
    }
    assert chunks[..|chunks|] == chunks;
    CountersMean(Flatten(chunks));
    st := Stats(histogram[..], c.printable, c.repeated, c.total, Max(c.best, c.run), first, trailing.buffer, sample);
  }

  // ----- What follows ------------------------------------------------------

  /** The histogram entries, over the byte values below `n` that satisfy `p`, added up. */
  function SumWhere(h: seq<nat>, p: Byte -> bool, n: nat): nat
    requires n <= |h| <= 256
  {
    if n == 0 then 0 else SumWhere(h, p, n - 1) + if p((n - 1) as Byte) then h[n - 1] else 0
  }

  lemma {:induction false} PositionsOf(s: seq<Byte>, b: Byte)
    ensures |set i: nat | i < |s| && s[i] == b| == multiset(s)[b]
  {
    var positions := set i: nat | i < |s| && s[i] == b;
    if s == [] {
      assert positions == {};
    } else {
      var n := |s| - 1;
      PositionsOf(s[..n], b);
      assert s == s[..n] + [s[n]];
      assert positions == (set i: nat | i < |s[..n]| && s[..n][i] == b) + if s[n] == b then {n} else {};
    }
  }

  function WhereBelow(s: seq<Byte>, p: Byte -> bool, n: nat): set<nat> {
    set i: nat | i < |s| && p(s[i]) && s[i] as int < n
  }

  lemma {:induction false} BelowStep(s: seq<Byte>, p: Byte -> bool, n: nat)
    requires 0 < n <= 256
    ensures |WhereBelow(s, p, n)| ==
            |WhereBelow(s, p, n - 1)| + if p((n - 1) as Byte) then multiset(s)[(n - 1) as Byte] else 0
  {
    var b := (n - 1) as Byte;
    PositionsOf(s, b);
    var at := set i: nat | i < |s| && s[i] == b;
    assert WhereBelow(s, p, n) == WhereBelow(s, p, n - 1) + if p(b) then at else {};
    assert WhereBelow(s, p, n - 1) !! at;
  }

  /**
   The histogram agrees with the other counters: the entries of the bytes that
   satisfy a predicate add up to the number of positions holding such a byte.
   */
  lemma {:induction false} HistogramSums(h: seq<nat>, s: seq<Byte>, p: Byte -> bool, n: nat)
    requires IsHistogram(h, s) && n <= 256
    ensures SumWhere(h, p, n) == |WhereBelow(s, p, n)|
  {
    if n == 0 {
      assert WhereBelow(s, p, 0) == {};
    } else {
      HistogramSums(h, s, p, n - 1);
      BelowStep(s, p, n);
      assert h[n - 1] == multiset(s)[(n - 1) as Byte];
    }
  }

  function AnyByte(b: Byte): bool { true }

  predicate Between(lo: nat, i: nat, hi: nat) { lo <= i < hi }

  function Range(lo: nat, hi: nat): set<nat> { set i: nat | i < hi && Between(lo, i, hi) }

  lemma {:induction false} RangeCount(lo: nat, hi: nat)
    requires lo <= hi
    ensures |Range(lo, hi)| == hi - lo
  {
    if lo == hi {
      assert Range(lo, hi) == {};
    } else {
      RangeCount(lo, hi - 1);
      assert Range(lo, hi) == Range(lo, hi - 1) + {hi - 1};
    }
  }

  /** Histogram entries sum to the total, and those of printable bytes to the printable count. */
  lemma {:induction false} CountersAgree(st: Stats, s: seq<Byte>)
    requires Describes(st, s)
    ensures SumWhere(st.histogram, AnyByte, 256) == st.total
    ensures SumWhere(st.histogram, Printable, 256) == st.printable
  {
    HistogramSums(st.histogram, s, AnyByte, 256);
    HistogramSums(st.histogram, s, Printable, 256);
    assert WhereBelow(s, AnyByte, 256) == Range(0, |s|);
    RangeCount(0, |s|);
    assert WhereBelow(s, Printable, 256) == Where(s, Printable);
  }

  /** A run of `n` bytes repeats a byte `n - 1` times. */
  lemma {:induction false} RunRepeats(s: seq<Byte>, i: nat, n: nat)
    requires Constant(s, i, n) && n > 0
    ensures n <= |Repeats(s)| + 1
  {
    RangeCount(i + 1, i + n);
    forall k | k in Range(i + 1, i + n) ensures k in Repeats(s) { assert s[k] == s[i] == s[k - 1]; }
    SubsetSize(Range(i + 1, i + n), Repeats(s));
  }

  /** Every byte starts a run or repeats the one before it. */
  lemma {:induction false} RepeatsAndRuns(st: Stats, s: seq<Byte>)
    requires Describes(st, s)
    ensures st.repeated + |RunStarts(s)| == st.total
    ensures st.maxRun <= st.repeated + 1
  {
    assert Repeats(s) + RunStarts(s) == Range(0, |s|) && Repeats(s) !! RunStarts(s);
    RangeCount(0, |s|);
    var i: nat :| Constant(s, i, st.maxRun);
    if st.maxRun > 0 { RunRepeats(s, i, st.maxRun); }
  }

  /** The statistics of the same bytes cut differently are the same. */
  lemma {:induction false} ChunkingDoesNotMatter(st: Stats, chunks: seq<seq<Byte>>, st': Stats, chunks': seq<seq<Byte>>)
    requires Describes(st, Flatten(chunks)) && Describes(st', Flatten(chunks'))
    requires Flatten(chunks) == Flatten(chunks')
    ensures st == st'
  {
    var s := Flatten(chunks);
    forall i | 0 <= i < 256 ensures st.histogram[i] == st'.histogram[i] {
      assert st.histogram[i] == multiset(s)[i];
    }
    assert st.histogram == st'.histogram;
  }

  lemma {:induction false} FirstStartsFile(chunks: seq<seq<Byte>>)
    ensures FirstNonEmpty(chunks) <= Flatten(chunks)
    ensures FirstNonEmpty(chunks) == [] ==> Flatten(chunks) == []
  {
    if chunks != [] {
      var n := |chunks| - 1;
      FirstStartsFile(chunks[..n]);
      assert chunks == chunks[..n] + [chunks[n]];
      FirstNonEmptyStep(chunks[..n], chunks[n]);
    }
  }

  /** But the header depends on it: it starts the file exactly when the first chunk suffices or is all there is. */
  lemma {:induction false} HeaderStartsFile(chunks: seq<seq<Byte>>)
    ensures Take(FirstNonEmpty(chunks), HEADER_BYTES) == Take(Flatten(chunks), HEADER_BYTES) <==>
            |FirstNonEmpty(chunks)| >= HEADER_BYTES || FirstNonEmpty(chunks) == Flatten(chunks)
  {
    FirstStartsFile(chunks);
  }
}
