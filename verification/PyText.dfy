/** The few Python text operations the parsers rely on. */
module PyText {

  /** `str.isspace` for one character. */
  predicate IsSpace(c: char) {
    var n := c as int;
    9 <= n <= 13 || 28 <= n <= 32 || n in {0x85, 0xA0, 0x1680, 0x2028, 0x2029, 0x202F, 0x205F, 0x3000} ||
    0x2000 <= n <= 0x200A
  }

  function LStrip(s: string): string {
    if s != "" && IsSpace(s[0]) then LStrip(s[1..]) else s
  }

  function RStrip(s: string): string {
    if s != "" && IsSpace(s[|s| - 1]) then RStrip(s[..|s| - 1]) else s
  }

  function Strip(s: string): string { RStrip(LStrip(s)) }

  /** No white space at either end. */
  predicate Trimmed(s: string) { s == "" || (!IsSpace(s[0]) && !IsSpace(s[|s| - 1])) }

  lemma {:induction false} TrimmedIsStripped(s: string)
    requires Trimmed(s)
    ensures Strip(s) == s && LStrip(s) == s
  {}

  lemma {:induction false} LStripFacts(s: string)
    ensures |LStrip(s)| <= |s|
    ensures LStrip(s) != "" ==> !IsSpace(LStrip(s)[0]) && s[|s| - 1] == LStrip(s)[|LStrip(s)| - 1]
  {
    if s != "" && IsSpace(s[0]) { LStripFacts(s[1..]); }
  }

  lemma {:induction false} RStripFacts(s: string)
    ensures RStrip(s) <= s && (RStrip(s) != "" ==> !IsSpace(RStrip(s)[|RStrip(s)| - 1]))
  {
    if s != "" && IsSpace(s[|s| - 1]) { RStripFacts(s[..|s| - 1]); }
  }

  /** Stripping never lengthens, leaves no white space at the ends, and is the identity exactly when there was none. */
  lemma {:induction false} StripFacts(s: string)
    ensures |Strip(s)| <= |s| && Trimmed(Strip(s))
    ensures Strip(s) == s <==> Trimmed(s)
  {
    LStripFacts(s);
    RStripFacts(LStrip(s));
    if Trimmed(s) { TrimmedIsStripped(s); }
  }

  lemma {:induction false} LStripTrailing(s: string, c: char)
    requires IsSpace(c)
    ensures LStrip(s + [c]) == if LStrip(s) == "" then "" else LStrip(s) + [c]
  {
    if s != "" && IsSpace(s[0]) {
      assert (s + [c])[1..] == s[1..] + [c];
      LStripTrailing(s[1..], c);
    } else if s == "" {
      assert s + [c] == [c] && [c][1..] == "";
    }
  }

  lemma {:induction false} StripTrailing(s: string, c: char)
    requires IsSpace(c)
    ensures Strip(s + [c]) == Strip(s)
  {
    LStripTrailing(s, c);
    assert LStrip(s) != "" ==> (LStrip(s) + [c])[..|LStrip(s)|] == LStrip(s);
  }

  /** The position of the first `c`, or the length when there is none. */
  function IndexOf(s: string, c: char): (i: nat)
    ensures i <= |s| && c !in s[..i] && (i < |s| ==> s[i] == c)
  {
    if s == "" || s[0] == c then 0
    else
      assert forall j :: 0 <= j < |s[1..]| ==> s[1..][j] == s[j + 1];
      var i := 1 + IndexOf(s[1..], c);
      assert s[..i] == [s[0]] + s[1..][..i - 1];
      i
  }

  lemma {:induction false} IndexOfConcat(a: string, c: char, b: string)
    requires c !in a
    ensures IndexOf(a + [c] + b, c) == |a|
  {
    var s := a + [c] + b;
    var i := IndexOf(s, c);
    assert forall j :: 0 <= j < |a| ==> s[j] in a;
    assert s[|a|] == c && forall j :: 0 <= j < i ==> s[j] in s[..i];
  }

  /** `str` of a number. */
  function Decimal(n: nat): string {
    var digit := ['0' + (n % 10) as char];
    if n < 10 then digit else Decimal(n / 10) + digit
  }

  /** `str.split` with a one-character separator. */
  function Split(s: string, c: char): (parts: seq<string>)
    ensures parts != []
    decreases |s|
  {
    var i := IndexOf(s, c);
    if i == |s| then [s] else [s[..i]] + Split(s[i + 1..], c)
  }

  lemma {:induction false} SplitNone(s: string, c: char)
    requires c !in s
    ensures Split(s, c) == [s]
  {
    assert forall j :: 0 <= j < |s| ==> s[j] in s;
  }

  lemma {:induction false} SplitFirst(a: string, c: char, b: string)
    requires c !in a
    ensures Split(a + [c] + b, c) == [a] + Split(b, c)
  {
    var s := a + [c] + b;
    IndexOfConcat(a, c, b);
    assert s[..|a|] == a && s[|a| + 1..] == b;
  }

  /** `str.join` */
  function Join(parts: seq<string>, c: char): string {
    if parts == [] then "" else if |parts| == 1 then parts[0] else parts[0] + [c] + Join(parts[1..], c)
  }

  /** Splitting what was joined gives the parts back. */
  lemma {:induction false} SplitJoin(parts: seq<string>, c: char)
    requires parts != [] && forall i :: 0 <= i < |parts| ==> c !in parts[i]
    ensures Split(Join(parts, c), c) == parts
  {
    var s := Join(parts, c);
    if |parts| == 1 {
      SplitNone(s, c);
    } else {
      SplitJoin(parts[1..], c);
      SplitFirst(parts[0], c, Join(parts[1..], c));
    }
  }

  /** Joining what was split gives the text back, and no part contains the separator. */
  lemma {:induction false} JoinSplit(s: string, c: char)
    ensures Join(Split(s, c), c) == s
    ensures forall i :: 0 <= i < |Split(s, c)| ==> c !in Split(s, c)[i]
    decreases |s|
  {
    var i := IndexOf(s, c);
    if i == |s| {
      assert s[..i] == s;
    } else {
      JoinSplit(s[i + 1..], c);
      assert s == s[..i] + [c] + s[i + 1..];
      assert Split(s, c)[1..] == Split(s[i + 1..], c);
    }
  }

  lemma {:induction false} Regroup(first: string, mid: string, rest: string, end: string)
    ensures (first + mid + rest) + mid + end == first + mid + (rest + mid + end)
  {}

  lemma {:induction false} ConcatAssociates<T>(a: seq<T>, b: seq<T>, c: seq<T>)
    ensures (a + b) + c == a + (b + c)
  {}

  lemma {:induction false} CutAtFirst(a: string, c: char) returns (first: string, rest: string)
    requires c in a
    ensures a == first + [c] + rest && c !in first
  {
    var i := IndexOf(a, c);
    assert i < |a| by { assert a[..|a|] == a; }
    first, rest := a[..i], a[i + 1..];
  }

  /** Splitting at one separator first makes no difference. */
  lemma {:induction false} SplitConcat(a: string, c: char, b: string)
    ensures Split(a + [c] + b, c) == Split(a, c) + Split(b, c)
    decreases |a|
  {
    if c !in a {
      SplitFirst(a, c, b);
      SplitNone(a, c);
    } else {
      var first, rest := CutAtFirst(a, c);
      SplitFirst(first, c, rest);
      SplitFirst(first, c, rest + [c] + b);
      Regroup(first, [c], rest, b);
      SplitConcat(rest, c, b);
      ConcatAssociates([first], Split(rest, c), Split(b, c));
    }
  }

  function BreakWidth<T(==)>(s: seq<T>, lf: T, cr: T): (n: nat)
    requires s != []
    ensures 1 <= n <= |s|
  {
    if s[0] == cr && |s| > 1 && s[1] == lf then 2 else 1
  }

  /** `splitlines`: the elements of `breaks` end a line, and `cr` with `lf` counts as one break. */
  function SplitLines<T(==)>(s: seq<T>, breaks: set<T>, lf: T, cr: T): seq<seq<T>>
    decreases |s|
  {
    if s == [] then []
    else if s[0] in breaks then [[]] + SplitLines(s[BreakWidth(s, lf, cr)..], breaks, lf, cr)
    else
      var rest := SplitLines(s[1..], breaks, lf, cr);
      if rest == [] then [[s[0]]] else [[s[0]] + rest[0]] + rest[1..]
  }

  /** Each line followed by `lf`. */
  function JoinLines<T>(lines: seq<seq<T>>, lf: T): seq<T> {
    if lines == [] then [] else lines[0] + [lf] + JoinLines(lines[1..], lf)
  }

  predicate NoBreaks<T(==)>(line: seq<T>, breaks: set<T>) { forall i :: 0 <= i < |line| ==> line[i] !in breaks }

  lemma {:induction false} SplitFirstLine<T>(line: seq<T>, rest: seq<T>, breaks: set<T>, lf: T, cr: T)
    requires NoBreaks(line, breaks) && lf in breaks && lf != cr
    ensures SplitLines(line + [lf] + rest, breaks, lf, cr) == [line] + SplitLines(rest, breaks, lf, cr)
    decreases |line|
  {
    var s := line + [lf] + rest;
    if line == [] {
      assert s[BreakWidth(s, lf, cr)..] == rest;
    } else {
      assert forall i :: 0 <= i < |line| - 1 ==> line[1..][i] == line[i + 1];
      assert s[0] == line[0] && s[1..] == line[1..] + [lf] + rest;
      SplitFirstLine(line[1..], rest, breaks, lf, cr);
      assert [line[0]] + line[1..] == line;
    }
  }

  /** Splitting joined lines gives them back. */
  lemma {:induction false} SplitJoined<T>(lines: seq<seq<T>>, breaks: set<T>, lf: T, cr: T)
    requires lf in breaks && lf != cr && forall i :: 0 <= i < |lines| ==> NoBreaks(lines[i], breaks)
    ensures SplitLines(JoinLines(lines, lf), breaks, lf, cr) == lines
  {
    if lines != [] {
      SplitJoined(lines[1..], breaks, lf, cr);
      SplitFirstLine(lines[0], JoinLines(lines[1..], lf), breaks, lf, cr);
    }
  }

  /** The text is empty or its last line is finished. */
  predicate AtLineStart<T(==)>(s: seq<T>, lf: T) { s == [] || s[|s| - 1] == lf }

  lemma {:induction false} SplitNonEmpty<T>(s: seq<T>, breaks: set<T>, lf: T, cr: T)
    ensures SplitLines(s, breaks, lf, cr) == [] <==> s == []
  {}

  lemma {:induction false} RestOfBoth<T>(a: seq<T>, b: seq<T>)
    requires a != []
    ensures (a + b)[0] == a[0] && (a + b)[1..] == a[1..] + b
  {
    assert (a + b)[1..] == a[1..] + b;
  }

  /** Past a finished line, splitting starts afresh. */
  lemma {:induction false} SplitAfterLine<T>(s: seq<T>, more: seq<T>, breaks: set<T>, lf: T, cr: T)
    requires AtLineStart(s, lf) && lf in breaks && lf != cr
    ensures SplitLines(s + more, breaks, lf, cr) == SplitLines(s, breaks, lf, cr) + SplitLines(more, breaks, lf, cr)
    decreases |s|
  {
    if s == [] {
      assert s + more == more;
    } else if s[0] in breaks {
      var skip := BreakWidth(s, lf, cr);
      assert BreakWidth(s + more, lf, cr) == skip && (s + more)[skip..] == s[skip..] + more;
      SplitAfterLine(s[skip..], more, breaks, lf, cr);
    } else {
      assert (s + more)[1..] == s[1..] + more;
      SplitAfterLine(s[1..], more, breaks, lf, cr);
      SplitNonEmpty(s[1..], breaks, lf, cr);
      RestOfBoth(SplitLines(s[1..], breaks, lf, cr), SplitLines(more, breaks, lf, cr));
    }
  }

  // ----- Line breaks -------------------------------------------------------

  /** Where text files opened in text mode end a line. */
  const FILE_BREAKS: set<char> := {'\n', '\r'}

  /** Where `str.splitlines` ends a line. */
  const STR_BREAKS: set<char> :=
    {'\n', '\r', 11 as char, 12 as char, 28 as char, 29 as char, 30 as char, 0x85 as char, 0x2028 as char,
     0x2029 as char}

  function FileLines(text: string): seq<string> { SplitLines(text, FILE_BREAKS, '\n', '\r') }

  function StrLines(text: string): seq<string> { SplitLines(text, STR_BREAKS, '\n', '\r') }
}
