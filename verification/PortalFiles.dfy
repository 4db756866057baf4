/**
 The allowlist file of the access-point portal and the effect of its file and
 firewall steps, each of which may fail (scripts/ap_portal_server.py).
 */
module PortalFiles {
  import opened Sets
  import opened Wrappers
  import opened PyText

  type Mac = string

  /** The consent record of one submission. */
  datatype Consent = Consent(mac: Mac, email: string, acceptedAt: string, ipAddress: string, userAgent: string)

  // ----- MAC addresses -----------------------------------------------------

  predicate IsLowerHex(c: char) { '0' <= c <= '9' || 'a' <= c <= 'f' }

  predicate IsHex(c: char) { IsLowerHex(c) || 'A' <= c <= 'F' }

  /** `MAC_RE.fullmatch` */
  predicate IsMac(s: string) {
    |s| == 17 && forall i :: 0 <= i < 17 ==> if i % 3 == 2 then s[i] == ':' else IsHex(s[i])
  }

  function LowerChar(c: char): char { if 'A' <= c <= 'Z' then (c as int + 32) as char else c }

  function Lower(s: string): string { seq(|s|, i requires 0 <= i < |s| => LowerChar(s[i])) }

  /** `_normalize_mac` */
  function NormalizeMac(s: string): Mac { Lower(Strip(s)) }

  /** A MAC in the form in which every part of the portal keeps it. */
  predicate IsNormalMac(s: string) {
    |s| == 17 && forall i :: 0 <= i < 17 ==> if i % 3 == 2 then s[i] == ':' else IsLowerHex(s[i])
  }

  predicate AllNormal(macs: set<Mac>) { forall m :: m in macs ==> IsNormalMac(m) }

  lemma {:induction false} NormalMacIsFixed(m: string)
    requires IsNormalMac(m)
    ensures IsMac(m) && NormalizeMac(m) == m && Trimmed(m) && '#' !in m && '\n' !in m && '\r' !in m
    ensures forall i :: 0 <= i < |m| ==> !IsSpace(m[i])
  {
    forall i | 0 <= i < 17 ensures !IsSpace(m[i]) && m[i] != '#' && LowerChar(m[i]) == m[i] {}
    assert LStrip(m) == m && RStrip(m) == m;
  }

  lemma {:induction false} MacNormalizes(s: string)
    requires IsMac(s)
    ensures IsNormalMac(NormalizeMac(s))
  {
    forall i | 0 <= i < 17 ensures !IsSpace(s[i]) {}
    assert LStrip(s) == s && RStrip(s) == s;
  }

  // ----- The allowlist file ------------------------------------------------

  function FirstToken(s: string): string {
    if s == "" || IsSpace(s[0]) then "" else [s[0]] + FirstToken(s[1..])
  }

  /** The MAC a line of the allowlist contributes. */
  function LineMac(raw: string): Option<Mac> {
    var line := Strip(raw[..IndexOf(raw, '#')]);
    var token := FirstToken(line);
    if line != "" && IsMac(token) then Some(NormalizeMac(token)) else None
  }

  function LinesMacs(lines: seq<string>): (macs: set<Mac>)
    ensures AllNormal(macs)
  {
    if lines == [] then {}
    else
      var rest := LinesMacs(lines[..|lines| - 1]);
      match LineMac(lines[|lines| - 1])
      case None => rest
      case Some(m) =>
        MacNormalizes(FirstToken(Strip(lines[|lines| - 1][..IndexOf(lines[|lines| - 1], '#')])));
        rest + {m}
  }

  /** The allowlist a file stands for; a missing file stands for the empty one. */
  function ParseAllowlist(file: Option<string>): (macs: set<Mac>)
    ensures AllNormal(macs)
  {
    if file.None? then {} else LinesMacs(FileLines(file.value))
  }

  /** `_read_mac_allowlist` */
  method ReadMacAllowlist(file: Option<string>) returns (macs: set<Mac>)
    ensures macs == ParseAllowlist(file)
  {
    if file.None? { return {}; }
    macs := {};
    var lines := FileLines(file.value);
    for i := 0 to |lines|
      invariant macs == LinesMacs(lines[..i])
    {
      assert lines[..i + 1][..i] == lines[..i];
      var line := Strip(lines[i][..IndexOf(lines[i], '#')]);
      if line == "" { continue; }
      var token := FirstToken(line);
      if IsMac(token) { macs := macs + {NormalizeMac(token)}; }
    }
    assert lines[..|lines|] == lines;
  }

  // ----- Rendering ---------------------------------------------------------

  /** The order in which Python sorts strings. */
  predicate LexLeq(a: string, b: string) {
    a == "" || (b != "" && (a[0] < b[0] || (a[0] == b[0] && LexLeq(a[1..], b[1..]))))
  }

  lemma {:induction false} LexTotal(a: string, b: string)
    ensures LexLeq(a, b) || LexLeq(b, a)
    ensures LexLeq(a, b) && LexLeq(b, a) ==> a == b
  {
    if a != "" && b != "" {
      LexTotal(a[1..], b[1..]);
      if a[1..] == b[1..] && a[0] == b[0] { assert a == [a[0]] + a[1..] && b == [b[0]] + b[1..]; }
    }
  }

  lemma {:induction false} LexTransitive(a: string, b: string, c: string)
    requires LexLeq(a, b) && LexLeq(b, c)
    ensures LexLeq(a, c)
  {
    if a != "" && a[0] == b[0] && b[0] == c[0] { LexTransitive(a[1..], b[1..], c[1..]); }
  }

  ghost predicate IsLeast(m: Mac, macs: set<Mac>) { m in macs && forall x :: x in macs ==> LexLeq(m, x) }

  method LeastOf(macs: set<Mac>) returns (least: Mac)
    requires macs != {}
    ensures IsLeast(least, macs)
  {
    least :| least in macs;
    var rest := macs - {least};
    LexTotal(least, least);
    while rest != {}
      invariant rest <= macs && least in macs
      invariant forall x :: x in macs - rest ==> LexLeq(least, x)
    {
      var m :| m in rest;
      LexTotal(m, least);
      LexTotal(m, m);
      if LexLeq(m, least) {
        forall x | x in macs - rest ensures LexLeq(m, x) { LexTransitive(m, least, x); }
        least := m;
      }
      rest := rest - {m};
    }
  }

  lemma {:induction false} ElementsAppend(lines: seq<Mac>, m: Mac)
    ensures Elements(lines + [m]) == Elements(lines) + {m}
  {}

  ghost predicate Ordered(lines: seq<Mac>) { forall i, j :: 0 <= i < j < |lines| ==> LexLeq(lines[i], lines[j]) }

  lemma {:induction false} OrderedAppend(lines: seq<Mac>, m: Mac)
    requires Ordered(lines) && forall x :: x in lines ==> LexLeq(x, m)
    ensures Ordered(lines + [m])
  {
    forall i, j | 0 <= i < j < |lines + [m]| ensures LexLeq((lines + [m])[i], (lines + [m])[j]) {
      assert (lines + [m])[i] == lines[i] && lines[i] in lines;
    }
  }

  /** `sorted(macs)`: each MAC once, in order. */
  ghost predicate IsSortedListing(lines: seq<Mac>, macs: set<Mac>) {
    Elements(lines) == macs && |lines| == |macs| && Ordered(lines)
  }

  method Sorted(macs: set<Mac>) returns (lines: seq<Mac>)
    ensures IsSortedListing(lines, macs)
  {
    lines := [];
    var rest := macs;
    while rest != {}
      invariant rest <= macs && Elements(lines) == macs - rest && |lines| + |rest| == |macs|
      invariant Ordered(lines) && forall x, m :: x in lines && m in rest ==> LexLeq(x, m)
    {
      var m := LeastOf(rest);
      ElementsAppend(lines, m);
      OrderedAppend(lines, m);
      forall x, y | x in lines + [m] && y in rest - {m} ensures LexLeq(x, y) {}
      lines := lines + [m];
      rest := rest - {m};
    }
  }

  /** Is `text` what the portal writes for `macs`? */
  ghost predicate IsRendering(text: string, macs: set<Mac>) {
    exists lines :: IsSortedListing(lines, macs) && text == JoinLines(lines, '\n')
  }

  lemma {:induction false} TokenOfUnspaced(s: string)
    requires forall i :: 0 <= i < |s| ==> !IsSpace(s[i])
    ensures FirstToken(s) == s && Strip(s) == s
  {
    if s != "" { TokenOfUnspaced(s[1..]); }
  }

  lemma {:induction false} LineOfMac(m: Mac)
    requires IsNormalMac(m)
    ensures LineMac(m) == Some(m)
  {
    NormalMacIsFixed(m);
    assert m[..IndexOf(m, '#')] == m;
    TokenOfUnspaced(m);
  }

  lemma {:induction false} LinesOfMacs(lines: seq<Mac>)
    requires forall m :: m in lines ==> IsNormalMac(m)
    ensures LinesMacs(lines) == Elements(lines)
  {
    if lines != [] {
      var n := |lines| - 1;
      LinesOfMacs(lines[..n]);
      LineOfMac(lines[n]);
      ElementsAppend(lines[..n], lines[n]);
      assert lines == lines[..n] + [lines[n]];
    }
  }

  /** Reading back what was written for a set of normal MACs gives the set. */
  lemma {:induction false} AllowlistRoundTrip(text: string, macs: set<Mac>)
    requires AllNormal(macs) && IsRendering(text, macs)
    ensures ParseAllowlist(Some(text)) == macs
  {
    var lines :| IsSortedListing(lines, macs) && text == JoinLines(lines, '\n');
    forall i | 0 <= i < |lines| ensures NoBreaks(lines[i], FILE_BREAKS) {
      assert lines[i] in macs;
      NormalMacIsFixed(lines[i]);
    }
    SplitJoined(lines, FILE_BREAKS, '\n', '\r');
    LinesOfMacs(lines);
  }

  // ----- Steps that may fail -----------------------------------------------

  /** `nft -f` applies a whole ruleset or nothing. */
  predicate SyncStep(before: set<Mac>, after: set<Mac>, macs: set<Mac>, ok: bool) {
    after == if ok then macs else before
  }

  /** Rewriting a file: a failure may leave it alone or cut off anywhere. */
  predicate WriteStep(before: Option<string>, after: Option<string>, text: string, ok: bool) {
    if ok then after == Some(text) else after == before || (after.Some? && after.value <= text)
  }

  function Content(file: Option<string>): string { if file.Some? then file.value else "" }

  /** Appending to a file: a failure may leave any part of the line behind. */
  predicate AppendStep(before: Option<string>, after: Option<string>, line: string, ok: bool) {
    if ok then after == Some(Content(before) + line)
    else after == before || (after.Some? && Content(before) <= after.value <= Content(before) + line)
  }

  /** Cutting a log back to a recorded size, or removing it. */
  predicate TruncateStep(before: Option<string>, after: Option<string>, position: Option<nat>, ok: bool) {
    if !ok then after == before
    else if position.None? then after == None
    else before.Some? && position.value <= |before.value| && after == Some(before.value[..position.value])
  }

  function LogSize(log: Option<string>): Option<nat> { if log.None? then None else Some(|log.value|) }

  /** Truncating to the size noted before some appends undoes them, whatever they left behind. */
  lemma {:induction false} TruncateUndoesAppends(before: Option<string>, grown: Option<string>, after: Option<string>)
    requires Content(before) <= Content(grown) && (before.Some? ==> grown.Some?)
    requires TruncateStep(grown, after, LogSize(before), true)
    ensures after == before
  {
    if before.Some? { assert grown.value[..|before.value|] == before.value; }
  }

  /** Putting the allowlist back: rewrite it, or remove it when there was none. */
  ghost predicate RestoreStep(before: Option<string>, after: Option<string>, macs: set<Mac>, existed: bool, ok: bool) {
    if existed then exists text :: IsRendering(text, macs) && WriteStep(before, after, text, ok)
    else after == if ok then None else before
  }
}
