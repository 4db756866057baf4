/**
 The tail of the scan log: each run ingests what was appended since the stored
 offset (apps/cards/scanner.py, `ingest_service_scans`).
 */
module ScanIngest {
  import opened Wrappers
  import opened PyText

  /** What the offset file holds. */
  datatype OffsetFile = Unreadable | BareNumber(n: int) | Garbage | Record(inode: Option<int>, offset: Option<int>)

  /** `_read_ingest_offset_state` */
  function ReadOffsetState(f: OffsetFile): (Option<int>, int) {
    match f
    case Unreadable => (None, 0)
    case Garbage => (None, 0)
    case BareNumber(n) => (None, n)
    case Record(inode, offset) => (inode, if offset.Some? then offset.value else 0)
  }

  /** Where a run starts reading a file of the given inode and size. */
  function StartOffset(f: OffsetFile, inode: int, size: nat): (start: nat)
    ensures start <= size
  {
    var (lastInode, lastOffset) := ReadOffsetState(f);
    var offset := if lastInode.Some? && lastInode.value != inode then 0 else lastOffset;
    if offset < 0 || offset > size then 0 else offset
  }

  /** One recorded attempt, and the file it came from. */
  datatype Attempt = Attempt(inode: int, payload: string)

  /** Parsing and recording one stripped line: the attempt's payload, or None for a line that yields none. */
  type Recorder = string -> Option<string>

  /** The end of the line that starts at `pos`, its newline included. */
  function LineEnd(s: string, pos: nat): (end: nat)
    requires pos < |s|
    ensures pos < end <= |s|
    ensures '\n' !in s[pos..end - 1]
    ensures end < |s| ==> s[end - 1] == '\n'
  {
    var i := IndexOf(s[pos..], '\n');
    assert s[pos..][..i] == s[pos..pos + i];
    if i == |s[pos..]| then
      assert forall c :: c in s[pos..|s| - 1] ==> c in s[pos..];
      |s|
    else pos + i + 1
  }

  function RecordAttempt(record: Recorder, stripped: string): Option<string> { record(stripped) }

  function LineAttempts(record: Recorder, line: string): seq<string> {
    var stripped := Strip(line);
    if stripped == "" then []
    else match RecordAttempt(record, stripped) case None => [] case Some(p) => [p]
  }

  /** The payloads of the well-formed lines of a text, in order. */
  function Recorded(record: Recorder, s: string): seq<string>
    decreases |s|
  {
    if s == "" then []
    else var end := LineEnd(s, 0); LineAttempts(record, s[..end]) + Recorded(record, s[end..])
  }

  function Tagged(inode: int, payloads: seq<string>): seq<Attempt> {
    seq(|payloads|, i requires 0 <= i < |payloads| => Attempt(inode, payloads[i]))
  }

  datatype LogFile = LogFile(inode: int, content: string)

  /** `seen` is what the lines from `start` to `pos` yield. */
  predicate Progress(record: Recorder, s: string, start: nat, pos: nat, seen: seq<string>)
    requires start <= pos <= |s|
  {
    seen + Recorded(record, s[pos..]) == Recorded(record, s[start..])
  }

  lemma {:induction false} LineStep(record: Recorder, s: string, start: nat, pos: nat, seen: seq<string>)
    requires start <= pos < |s| && Progress(record, s, start, pos, seen)
    ensures Progress(record, s, start, LineEnd(s, pos), seen + LineAttempts(record, s[pos..LineEnd(s, pos)]))
  {
    var end := LineEnd(s, pos);
    var here := LineAttempts(record, s[pos..end]);
    assert Recorded(record, s[pos..]) == here + Recorded(record, s[end..]) by {
      assert LineEnd(s[pos..], 0) == end - pos by { assert s[pos..][0..] == s[pos..]; }
      assert s[pos..][..end - pos] == s[pos..end] && s[pos..][end - pos..] == s[end..];
    }
    assert (seen + here) + Recorded(record, s[end..]) == seen + (here + Recorded(record, s[end..]));
  }

  lemma {:induction false} TaggedStep(inode: int, seen: seq<string>, p: string)
    ensures Tagged(inode, seen + [p]) == Tagged(inode, seen) + [Attempt(inode, p)]
  {}

  class IngestState {
    var offsetFile: OffsetFile
    var attempts: seq<Attempt>

    constructor ()
      ensures offsetFile == Unreadable && attempts == []
    {
      offsetFile, attempts := Unreadable, [];
    }

    /** `ingest_service_scans` on the current log file, if there is one. */
    method IngestServiceScans(log: Option<LogFile>, record: Recorder) returns (processed: nat)
      modifies this
      ensures log.None? ==> processed == 0 && unchanged(this)
      ensures log.Some? ==>
                var f := log.value;
                var fresh' := Recorded(record, f.content[StartOffset(old(offsetFile), f.inode, |f.content|)..]);
                && attempts == old(attempts) + Tagged(f.inode, fresh')
                && processed == |fresh'|
                && offsetFile == Record(Some(f.inode), Some(|f.content|))
    {
      if log.None? { return 0; }
      var f := log.value;
      processed := 0;
      var pos := StartOffset(offsetFile, f.inode, |f.content|);
      ghost var start := pos;
      ghost var seen: seq<string> := [];
      while pos < |f.content|
        invariant start <= pos <= |f.content|
        invariant Progress(record, f.content, start, pos, seen)
        invariant attempts == old(attempts) + Tagged(f.inode, seen) && processed == |seen|
        invariant offsetFile == old(offsetFile)
      {
        var end := LineEnd(f.content, pos);
        LineStep(record, f.content, start, pos, seen);
        var stripped := Strip(f.content[pos..end]);
        pos := end;
        if stripped == "" {
          assert seen + [] == seen;
          continue;
        }
        var payload := RecordAttempt(record, stripped);
        if payload.None? {
          assert seen + [] == seen;
          continue;
        }
        TaggedStep(f.inode, seen, payload.value);
        attempts := attempts + [Attempt(f.inode, payload.value)];
        processed := processed + 1;
        seen := seen + [payload.value];
      }
      assert seen + [] == seen;
      offsetFile := Record(Some(f.inode), Some(pos));
    }
  }

  // ----- Runs of appends, ingests and rotations ----------------------------

  datatype Op = AppendLine(line: string) | Ingest | Rotate(inode: int)

  /**
   The log files by inode, the one in use, the offset file and the attempts.
   `done` is history: up to where each file has been ingested.
   */
  datatype World = World(files: map<int, string>, current: Option<int>, offsetFile: OffsetFile, attempts: seq<Attempt>,
                         done: map<int, nat>)

  const EMPTY: World := World(map[], None, Unreadable, [], map[])

  /** Appends are whole lines, and rotation moves on to an inode never used before. */
  predicate Enabled(w: World, op: Op) {
    match op
    case AppendLine(line) => '\n' !in line && w.current.Some? && w.current.value in w.files
    case Ingest => true
    case Rotate(inode) => inode !in w.files
  }

  /** What the ingest method does, on the whole world. */
  function IngestOn(w: World, record: Recorder): World {
    if w.current.None? || w.current.value !in w.files then w
    else
      var inode := w.current.value;
      var content := w.files[inode];
      var start := StartOffset(w.offsetFile, inode, |content|);
      w.(attempts := w.attempts + Tagged(inode, Recorded(record, content[start..])),
         offsetFile := Record(Some(inode), Some(|content|)), done := w.done[inode := |content|])
  }

  function Apply(w: World, op: Op, record: Recorder): World
    requires Enabled(w, op)
  {
    match op
    case AppendLine(line) => w.(files := w.files[w.current.value := w.files[w.current.value] + line + "\n"])
    case Ingest => IngestOn(w, record)
    case Rotate(inode) => w.(files := w.files[inode := ""], current := Some(inode))
  }

  function AttemptsOf(attempts: seq<Attempt>, inode: int): seq<string> {
    if attempts == [] then []
    else
      AttemptsOf(attempts[..|attempts| - 1], inode) +
      if attempts[|attempts| - 1].inode == inode then [attempts[|attempts| - 1].payload] else []
  }

  function Done(w: World, inode: int): nat { if inode in w.done then w.done[inode] else 0 }

  /** Exactly the well-formed lines of the first `done` characters have been recorded, and those are whole lines. */
  ghost predicate FileExact(content: string, done: nat, attempts: seq<string>, record: Recorder) {
    && done <= |content| && AtLineStart(content, '\n') && AtLineStart(content[..done], '\n')
    && attempts == Recorded(record, content[..done])
  }

  /**
   From every file, exactly the well-formed lines before its ingested offset have
   been recorded, in order; that offset is at a line start; and the offset file
   names the file ingested last.
   */
  ghost predicate ExactlyOnce(w: World, record: Recorder) {
    && (forall i :: i in w.files ==> FileExact(w.files[i], Done(w, i), AttemptsOf(w.attempts, i), record))
    && (forall i :: i !in w.files ==> i !in w.done && AttemptsOf(w.attempts, i) == [])
    && (w.current.Some? ==> w.current.value in w.files)
    && (w.offsetFile == Unreadable || (w.offsetFile.Record? && w.offsetFile.inode.Some? && w.offsetFile.offset.Some? &&
         w.offsetFile.inode.value in w.done && w.offsetFile.offset.value == w.done[w.offsetFile.inode.value]))
    && (forall i :: i in w.done && w.current == Some(i) ==> w.offsetFile == Record(Some(i), Some(w.done[i])))
  }

  lemma {:induction false} FirstLineEnd(a: string, b: string)
    requires a != "" && AtLineStart(a, '\n')
    ensures LineEnd(a + b, 0) == LineEnd(a, 0)
  {
    var end := LineEnd(a, 0);
    assert a[end - 1] == '\n';
    var x := a[..end - 1];
    assert '\n' !in x by { assert x == a[0..end - 1]; }
    assert (a + b)[0..] == x + ['\n'] + (a + b)[end..];
    IndexOfConcat(x, '\n', (a + b)[end..]);
  }

  /** Recording what comes after a finished line adds to what came before. */
  lemma {:induction false} RecordedConcat(record: Recorder, a: string, b: string)
    requires AtLineStart(a, '\n')
    ensures Recorded(record, a + b) == Recorded(record, a) + Recorded(record, b)
    decreases |a|
  {
    if a == "" {
      assert a + b == b;
    } else {
      var end := LineEnd(a, 0);
      FirstLineEnd(a, b);
      assert (a + b)[..end] == a[..end] && (a + b)[end..] == a[end..] + b;
      RecordedConcat(record, a[end..], b);
    }
  }

  lemma {:induction false} AttemptsConcat(a: seq<Attempt>, b: seq<Attempt>, inode: int)
    ensures AttemptsOf(a + b, inode) == AttemptsOf(a, inode) + AttemptsOf(b, inode)
    decreases |b|
  {
    if b == [] {
      assert a + b == a;
    } else {
      assert (a + b)[..|a + b| - 1] == a + b[..|b| - 1];
      AttemptsConcat(a, b[..|b| - 1], inode);
    }
  }

  lemma {:induction false} AttemptsOfTagged(inode: int, payloads: seq<string>, i: int)
    ensures AttemptsOf(Tagged(inode, payloads), i) == if i == inode then payloads else []
  {
    if payloads != [] {
      var n := |payloads| - 1;
      assert Tagged(inode, payloads)[..n] == Tagged(inode, payloads[..n]);
      AttemptsOfTagged(inode, payloads[..n], i);
    }
  }

  lemma {:induction false} IngestStartsWhereItStopped(w: World, record: Recorder)
    requires ExactlyOnce(w, record) && w.current.Some?
    ensures StartOffset(w.offsetFile, w.current.value, |w.files[w.current.value]|) == Done(w, w.current.value)
  {}

  lemma {:induction false} AttemptsGrow(attempts: seq<Attempt>, inode: int, added: seq<string>, i: int)
    ensures AttemptsOf(attempts + Tagged(inode, added), i) ==
            AttemptsOf(attempts, i) + if i == inode then added else []
  {
    AttemptsConcat(attempts, Tagged(inode, added), i);
    AttemptsOfTagged(inode, added, i);
  }

  /** Recording the rest of a file makes all of it recorded. */
  lemma {:induction false} RestRecorded(content: string, done: nat, attempts: seq<string>, record: Recorder)
    requires FileExact(content, done, attempts, record)
    ensures FileExact(content, |content|, attempts + Recorded(record, content[done..]), record)
  {
    RecordedConcat(record, content[..done], content[done..]);
    assert content[..done] + content[done..] == content == content[..|content|];
  }

  lemma {:induction false} IngestKeeps(w: World, record: Recorder)
    requires ExactlyOnce(w, record)
    ensures ExactlyOnce(IngestOn(w, record), record)
  {
    if w.current.Some? {
      var inode := w.current.value;
      var content := w.files[inode];
      IngestStartsWhereItStopped(w, record);
      var w' := IngestOn(w, record);
      var added := Recorded(record, content[Done(w, inode)..]);
      RestRecorded(content, Done(w, inode), AttemptsOf(w.attempts, inode), record);
      forall i ensures AttemptsOf(w'.attempts, i) == AttemptsOf(w.attempts, i) + if i == inode then added else [] {
        AttemptsGrow(w.attempts, inode, added, i);
      }
      forall i | i != inode
        ensures AttemptsOf(w'.attempts, i) == AttemptsOf(w.attempts, i) && Done(w', i) == Done(w, i)
      {}
    }
  }

  lemma {:induction false} ApplyKeeps(w: World, op: Op, record: Recorder)
    requires ExactlyOnce(w, record) && Enabled(w, op)
    ensures ExactlyOnce(Apply(w, op, record), record)
  {
    match op
    case AppendLine(line) =>
      var inode := w.current.value;
      var w' := Apply(w, op, record);
      assert w'.files[inode][..Done(w, inode)] == w.files[inode][..Done(w, inode)];
    case Ingest => IngestKeeps(w, record);
    case Rotate(inode) =>
  }

  /** The worlds of a run, each op being possible where it happens. */
  predicate IsRun(worlds: seq<World>, ops: seq<Op>, record: Recorder) {
    && |worlds| == |ops| + 1 && worlds[0] == EMPTY
    && forall i :: 0 <= i < |ops| ==> Enabled(worlds[i], ops[i]) && worlds[i + 1] == Apply(worlds[i], ops[i], record)
  }

  /**
   Exactly-once ingest over every sequence of appends, ingest runs and rotations
   to fresh inodes: nothing before the offset is skipped and nothing repeated.
   */
  lemma {:induction false} RunIsExactlyOnce(worlds: seq<World>, ops: seq<Op>, record: Recorder, n: nat)
    requires IsRun(worlds, ops, record) && n <= |ops|
    ensures ExactlyOnce(worlds[n], record)
  {
    if n > 0 {
      RunIsExactlyOnce(worlds, ops, record, n - 1);
      ApplyKeeps(worlds[n - 1], ops[n - 1], record);
    }
  }

  /** A run that an exception ends after recording `k` attempts: the offset is not stored. */
  function IngestAborted(w: World, record: Recorder, k: nat): World
    requires w.current.Some? && w.current.value in w.files
    requires k <= |Recorded(record, w.files[w.current.value][StartOffset(w.offsetFile, w.current.value,
                                                                           |w.files[w.current.value]|)..])|
  {
    var inode := w.current.value;
    var start := StartOffset(w.offsetFile, inode, |w.files[inode]|);
    w.(attempts := w.attempts + Tagged(inode, Recorded(record, w.files[inode][start..])[..k]))
  }

  /**
   An aborted run followed by a completed one repeats just the attempts the first
   had recorded, so ingest stays exactly-once if and only if there were none.
   */
  lemma {:induction false} AbortedRunRepeats(w: World, record: Recorder, k: nat)
    requires ExactlyOnce(w, record) && w.current.Some?
    requires k <= |Recorded(record, w.files[w.current.value][Done(w, w.current.value)..])|
    ensures StartOffset(w.offsetFile, w.current.value, |w.files[w.current.value]|) == Done(w, w.current.value)
    ensures var inode := w.current.value;
            var added := Recorded(record, w.files[inode][Done(w, inode)..]);
            AttemptsOf(IngestOn(IngestAborted(w, record, k), record).attempts, inode) ==
            AttemptsOf(w.attempts, inode) + added[..k] + added
    ensures ExactlyOnce(IngestOn(IngestAborted(w, record, k), record), record) <==> k == 0
  {
    IngestStartsWhereItStopped(w, record);
    var inode := w.current.value;
    var content := w.files[inode];
    var added := Recorded(record, content[Done(w, inode)..]);
    var w1 := IngestAborted(w, record, k);
    AttemptsConcat(w.attempts, Tagged(inode, added[..k]), inode);
    AttemptsConcat(w1.attempts, Tagged(inode, added), inode);
    AttemptsOfTagged(inode, added[..k], inode);
    AttemptsOfTagged(inode, added, inode);
    IngestKeeps(w, record);
    if k == 0 {
      assert w1.attempts == w.attempts;
    }
    var once := AttemptsOf(IngestOn(w, record).attempts, inode);
    AttemptsConcat(w.attempts, Tagged(inode, added), inode);
  }
}
