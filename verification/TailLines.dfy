/** Reading the last lines of a file backwards in chunks (scripts/ap_client_activity.py, `_tail_lines`). */
module TailLines {
  import opened Bytes
  import opened PyText

  const LF: Byte := 10
  const CR: Byte := 13

  /** `bytes.splitlines` */
  function ByteLines(data: seq<Byte>): seq<seq<Byte>> { SplitLines(data, {LF, CR}, LF, CR) }

  function Decoded(lines: seq<seq<Byte>>, decode: seq<Byte> -> string): seq<string> {
    seq(|lines|, i requires 0 <= i < |lines| => decode(lines[i]))
  }

  /** `all` ends in every line of `back` but its first. */
  predicate Later<T(==)>(all: seq<T>, back: seq<T>) {
    |all| >= |back| >= 1 && Last(all, |back| - 1) == back[1..]
  }

  lemma {:induction false} LaterKeeps<T>(first: T, b: seq<T>, back: seq<T>)
    requires Later(b, back)
    ensures Later([first] + b, back)
    ensures Later([first] + b[1..], back)
  {
    var n := |back| - 1;
    assert ([first] + b)[|b| + 1 - n..] == b[|b| - n..];
    assert ([first] + b[1..])[|b| - n..] == b[|b| - n..];
  }

  /**
   Bytes put in front may change the first line, by completing it or by taking its
   line feed into a CR LF pair, but no line after it.
   */
  lemma {:induction false} LaterLinesStay(front: seq<Byte>, back: seq<Byte>)
    requires back != []
    ensures Later(ByteLines(front + back), ByteLines(back))
    decreases |front|
  {
    var all := front + back;
    SplitNonEmpty(back, {LF, CR}, LF, CR);
    if front == [] {
      assert all == back;
    } else if all[0] !in {LF, CR} {
      assert all[1..] == front[1..] + back;
      LaterLinesStay(front[1..], back);
      var rest := ByteLines(all[1..]);
      LaterKeeps([all[0]] + rest[0], rest, ByteLines(back));
    } else {
      var width := BreakWidth(all, LF, CR);
      if width > |front| {
        assert all[width..] == back[1..];
        assert ByteLines(all) == ByteLines(back);
      } else {
        assert all[width..] == front[width..] + back;
        LaterLinesStay(front[width..], back);
        LaterKeeps([], ByteLines(all[width..]), ByteLines(back));
      }
    }
  }

  lemma {:induction false} LastOfLater<T>(all: seq<T>, lines: seq<T>, n: nat)
    requires Later(all, lines) && n < |lines|
    ensures Last(all, n) == Last(lines, n)
  {
    forall i | 0 <= i < n ensures Last(all, n)[i] == Last(lines, n)[i] {
      var k := |lines| - 1 - n + i;
      assert Last(all, n)[i] == Last(all, |lines| - 1)[k] && Last(lines, n)[i] == lines[1..][k];
    }
  }

  /** More than `n` lines in a suffix: the last `n` of the whole are among them. */
  lemma {:induction false} SuffixSuffices(data: seq<Byte>, position: nat, n: nat)
    requires position <= |data| && |ByteLines(data[position..])| > n
    ensures Last(ByteLines(data), n) == Last(ByteLines(data[position..]), n)
  {
    var back := data[position..];
    assert data == data[..position] + back;
    LaterLinesStay(data[..position], back);
    LastOfLater(ByteLines(data), ByteLines(back), n);
  }

  /** Chunked reading from the end returns what splitting the whole file would. */
  method Tail(data: seq<Byte>, limit: int, chunkSize: nat, decode: seq<Byte> -> string) returns (tail: seq<string>)
    requires chunkSize > 0
    ensures tail == if limit <= 0 then [] else Decoded(Last(ByteLines(data), limit), decode)
  {
    if limit <= 0 { return []; }
    var position := |data|;
    var buffer: seq<Byte> := [];
    var lines: seq<seq<Byte>> := [];
    while position > 0 && |lines| <= limit
      invariant 0 <= position <= |data|
      invariant buffer == data[position..] && lines == ByteLines(buffer)
    {
      var readSize := if chunkSize < position then chunkSize else position;
      position := position - readSize;
      assert data[position..] == data[position..position + readSize] + data[position + readSize..];
      buffer := data[position..position + readSize] + buffer;
      lines := ByteLines(buffer);
    }
    if position > 0 {
      SuffixSuffices(data, position, limit);
    } else {
      assert data[0..] == data;
    }
    tail := Decoded(Last(lines, limit), decode);
  }
}
