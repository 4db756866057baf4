/**
 Unpadded base64url (sections 3.2 and 5 of RFC 4648) as the token code uses it:
 the padded encoder with its padding stripped, and Python's lenient decoder
 (apps/apis/models.py, `_urlsafe_b64` and `_urlsafe_decode`).
 */
module Base64Url {
  import opened Bytes
  import opened Wrappers

  type Sextet = x: int | 0 <= x < 64

  function Digit(v: Sextet): char {
    if v < 26 then (65 + v) as char
    else if v < 52 then (97 + v - 26) as char
    else if v < 62 then (48 + v - 52) as char
    else if v == 62 then '-' else '_'
  }

  /** The value of a character; '+' and '/' are accepted beside '-' and '_'. */
  function Undigit(c: char): Option<Sextet> {
    if 'A' <= c <= 'Z' then Some(c as int - 65)
    else if 'a' <= c <= 'z' then Some(c as int - 97 + 26)
    else if '0' <= c <= '9' then Some(c as int - 48 + 52)
    else if c == '-' || c == '+' then Some(62)
    else if c == '_' || c == '/' then Some(63)
    else None
  }

  /** `base64.urlsafe_b64encode` */
  function EncodePadded(b: seq<Byte>): string {
    if b == [] then ""
    else if |b| == 1 then [Digit(b[0] / 4), Digit(b[0] % 4 * 16), '=', '=']
    else if |b| == 2 then [Digit(b[0] / 4), Digit(b[0] % 4 * 16 + b[1] / 16), Digit(b[1] % 16 * 4), '=']
    else
      [Digit(b[0] / 4), Digit(b[0] % 4 * 16 + b[1] / 16), Digit(b[1] % 16 * 4 + b[2] / 64), Digit(b[2] % 64)]
      + EncodePadded(b[3..])
  }

  function StripEquals(s: string): string {
    if s != "" && s[|s| - 1] == '=' then StripEquals(s[..|s| - 1]) else s
  }

  /** `_urlsafe_b64` */
  function Encode(b: seq<Byte>): string { StripEquals(EncodePadded(b)) }

  function AppendTo(b: Byte, rest: Option<seq<Byte>>): Option<seq<Byte>> {
    match rest case None => None case Some(r) => Some([b] + r)
  }

  /**
   `binascii.a2b_base64` without strict mode: foreign characters are skipped, a
   complete run of padding ends the input, and an unfinished quartet is an error.
   */
  function Scan(s: string, quad: nat, left: nat, pads: nat): Option<seq<Byte>>
    requires quad < 4 && left < 64 && (quad == 2 ==> left < 16) && (quad == 3 ==> left < 4)
    decreases |s|
  {
    if s == "" then if quad == 0 then Some([]) else None
    else if s[0] == '=' then
      if quad >= 2 && quad + pads + 1 >= 4 then Some([])
      else Scan(s[1..], quad, left, if quad >= 2 then pads + 1 else pads)
    else
      match Undigit(s[0])
      case None => Scan(s[1..], quad, left, pads)
      case Some(v) =>
        if quad == 0 then Scan(s[1..], 1, v, 0)
        else if quad == 1 then AppendTo(left * 4 + v / 16, Scan(s[1..], 2, v % 16, 0))
        else if quad == 2 then AppendTo(left * 16 + v / 4, Scan(s[1..], 3, v % 4, 0))
        else AppendTo(left * 64 + v, Scan(s[1..], 0, 0, 0))
  }

  function Equals(n: nat): string { seq(n, _ => '=') }

  /** `_urlsafe_decode`; None stands for the ValueError of a malformed text. */
  function Decode(s: string): Option<seq<Byte>> {
    if exists i :: 0 <= i < |s| && s[i] as int >= 128 then None
    else Scan(s + Equals((4 - |s| % 4) % 4), 0, 0, 0)
  }

  lemma {:induction false} DigitRoundTrip(v: Sextet)
    ensures Undigit(Digit(v)) == Some(v) && Digit(v) != '=' && Digit(v) != '.' && Digit(v) as int < 128
  {}

  lemma {:induction false} ScanDigit(v: Sextet, rest: string, quad: nat, left: nat, pads: nat)
    requires quad < 4 && left < 64 && (quad == 2 ==> left < 16) && (quad == 3 ==> left < 4)
    ensures Scan([Digit(v)] + rest, quad, left, pads) ==
            if quad == 0 then Scan(rest, 1, v, 0)
            else if quad == 1 then AppendTo(left * 4 + v / 16, Scan(rest, 2, v % 16, 0))
            else if quad == 2 then AppendTo(left * 16 + v / 4, Scan(rest, 3, v % 4, 0))
            else AppendTo(left * 64 + v, Scan(rest, 0, 0, 0))
  {
    DigitRoundTrip(v);
    assert ([Digit(v)] + rest)[1..] == rest;
  }

  /** Four sextets hold three bytes. */
  lemma {:induction false} GroupBits(b0: Byte, b1: Byte, b2: Byte)
    ensures var v0, v1, v2, v3 := b0 / 4, b0 % 4 * 16 + b1 / 16, b1 % 16 * 4 + b2 / 64, b2 % 64;
            v0 * 4 + v1 / 16 == b0 && v1 % 16 * 16 + v2 / 4 == b1 && v2 % 4 * 64 + v3 == b2
  {}

  lemma {:induction false} ScanFour(v0: Sextet, v1: Sextet, v2: Sextet, v3: Sextet, rest: string)
    ensures Scan([Digit(v0), Digit(v1), Digit(v2), Digit(v3)] + rest, 0, 0, 0) ==
            AppendTo(v0 * 4 + v1 / 16, AppendTo(v1 % 16 * 16 + v2 / 4, AppendTo(v2 % 4 * 64 + v3, Scan(rest, 0, 0, 0))))
  {
    assert [Digit(v0), Digit(v1), Digit(v2), Digit(v3)] + rest
        == [Digit(v0)] + ([Digit(v1)] + ([Digit(v2)] + ([Digit(v3)] + rest)));
    ScanDigit(v0, [Digit(v1)] + ([Digit(v2)] + ([Digit(v3)] + rest)), 0, 0, 0);
    ScanDigit(v1, [Digit(v2)] + ([Digit(v3)] + rest), 1, v0, 0);
    ScanDigit(v2, [Digit(v3)] + rest, 2, v1 % 16, 0);
    ScanDigit(v3, rest, 3, v2 % 4, 0);
  }

  lemma {:induction false} ScanGroup(b0: Byte, b1: Byte, b2: Byte, rest: string)
    ensures Scan([Digit(b0 / 4), Digit(b0 % 4 * 16 + b1 / 16), Digit(b1 % 16 * 4 + b2 / 64), Digit(b2 % 64)] + rest,
                 0, 0, 0)
            == AppendTo(b0, AppendTo(b1, AppendTo(b2, Scan(rest, 0, 0, 0))))
  {
    ScanFour(b0 / 4, b0 % 4 * 16 + b1 / 16, b1 % 16 * 4 + b2 / 64, b2 % 64, rest);
    GroupBits(b0, b1, b2);
  }

  lemma {:induction false} ScanTail1(b0: Byte)
    ensures Scan([Digit(b0 / 4), Digit(b0 % 4 * 16), '=', '='], 0, 0, 0) == Some([b0])
  {
    var v0, v1 := b0 / 4, b0 % 4 * 16;
    assert [Digit(v0), Digit(v1), '=', '='] == [Digit(v0)] + ([Digit(v1)] + "==");
    ScanDigit(v0, [Digit(v1)] + "==", 0, 0, 0);
    ScanDigit(v1, "==", 1, v0, 0);
    assert "=="[1..] == "=";
    assert Scan("=", 2, v1 % 16, 1) == Some([]);
    assert Scan("==", 2, v1 % 16, 0) == Some([]);
    assert v0 * 4 + v1 / 16 == b0 && [b0] + [] == [b0];
  }

  lemma {:induction false} ScanTail2(b0: Byte, b1: Byte)
    ensures Scan([Digit(b0 / 4), Digit(b0 % 4 * 16 + b1 / 16), Digit(b1 % 16 * 4), '='], 0, 0, 0) == Some([b0, b1])
  {
    var v0, v1, v2 := b0 / 4, b0 % 4 * 16 + b1 / 16, b1 % 16 * 4;
    assert [Digit(v0), Digit(v1), Digit(v2), '='] == [Digit(v0)] + ([Digit(v1)] + ([Digit(v2)] + "="));
    ScanDigit(v0, [Digit(v1)] + ([Digit(v2)] + "="), 0, 0, 0);
    ScanDigit(v1, [Digit(v2)] + "=", 1, v0, 0);
    ScanDigit(v2, "=", 2, v1 % 16, 0);
    assert Scan("=", 3, v2 % 4, 0) == Some([]);
    assert [b0] + ([b1] + []) == [b0, b1];
    assert v0 * 4 + v1 / 16 == b0 && v1 % 16 * 16 + v2 / 4 == b1;
  }

  lemma {:induction false} PaddedRoundTrip(b: seq<Byte>)
    ensures Scan(EncodePadded(b), 0, 0, 0) == Some(b)
    decreases |b|
  {
    if |b| == 1 {
      ScanTail1(b[0]);
      assert b == [b[0]];
    } else if |b| == 2 {
      ScanTail2(b[0], b[1]);
      assert b == [b[0], b[1]];
    } else if |b| >= 3 {
      PaddedRoundTrip(b[3..]);
      ScanGroup(b[0], b[1], b[2], EncodePadded(b[3..]));
      assert b == [b[0]] + ([b[1]] + ([b[2]] + b[3..]));
    }
  }

  /** Only characters of the base64url alphabet. */
  predicate AllDigits(s: string) {
    forall i :: 0 <= i < |s| ==> Undigit(s[i]).Some? && s[i] !in {'=', '.', '+', '/'}
  }

  predicate IsUnpadded(padded: string, s: string) {
    && padded == s + Equals((4 - |s| % 4) % 4) && |padded| % 4 == 0
    && AllDigits(s)
  }

  lemma {:induction false} AllDigitsConcat(a: string, b: string)
    requires AllDigits(a) && AllDigits(b)
    ensures AllDigits(a + b)
  {}

  function Digits(vs: seq<Sextet>): string { seq(|vs|, i requires 0 <= i < |vs| => Digit(vs[i])) }

  lemma {:induction false} Tail(vs: seq<Sextet>, n: nat)
    requires vs != []
    ensures StripEquals(Digits(vs) + Equals(n)) == Digits(vs)
    ensures AllDigits(Digits(vs))
    decreases n
  {
    forall i | 0 <= i < |vs| ensures Undigit(Digits(vs)[i]).Some? && Digits(vs)[i] !in {'=', '.', '+', '/'} {
      DigitRoundTrip(vs[i]);
    }
    if n == 0 {
      assert Digits(vs) + Equals(0) == Digits(vs);
    } else {
      Tail(vs, n - 1);
      assert (Digits(vs) + Equals(n))[..|vs| + n - 1] == Digits(vs) + Equals(n - 1);
    }
  }

  lemma {:induction false} StripConcat(a: string, s: string)
    requires a != "" && a[|a| - 1] != '='
    ensures StripEquals(a + s) == a + StripEquals(s)
    decreases |s|
  {
    if s == "" {
      assert a + s == a;
    } else if s[|s| - 1] == '=' {
      assert (a + s)[..|a + s| - 1] == a + s[..|s| - 1];
      StripConcat(a, s[..|s| - 1]);
    }
  }

  /** Four more characters in front do not change the padding. */
  lemma {:induction false} PrependGroup(digits: string, padded: string, s: string)
    requires |digits| == 4 && AllDigits(digits) && IsUnpadded(padded, s)
    ensures IsUnpadded(digits + padded, digits + s)
  {
    AllDigitsConcat(digits, s);
    assert (4 - |digits + s| % 4) % 4 == (4 - |s| % 4) % 4;
    assert digits + padded == digits + s + Equals((4 - |s| % 4) % 4);
  }

  lemma {:induction false} GroupUnpadded(group: seq<Sextet>, padded: string, s: string)
    requires |group| == 4 && IsUnpadded(padded, s) && s == StripEquals(padded)
    ensures StripEquals(Digits(group) + padded) == Digits(group) + s
    ensures IsUnpadded(Digits(group) + padded, Digits(group) + s)
  {
    Tail(group, 0);
    StripConcat(Digits(group), padded);
    PrependGroup(Digits(group), padded, s);
  }

  lemma {:induction false} TailUnpadded(vs: seq<Sextet>, n: nat)
    requires 2 <= |vs| <= 3 && n == 4 - |vs|
    ensures StripEquals(Digits(vs) + Equals(n)) == Digits(vs)
    ensures IsUnpadded(Digits(vs) + Equals(n), Digits(vs))
  {
    Tail(vs, n);
  }

  lemma {:induction false} DigitsOf(v0: Sextet, v1: Sextet, v2: Sextet, v3: Sextet)
    ensures Digits([v0, v1]) == [Digit(v0), Digit(v1)]
    ensures Digits([v0, v1, v2]) == [Digit(v0), Digit(v1), Digit(v2)]
    ensures Digits([v0, v1, v2, v3]) == [Digit(v0), Digit(v1), Digit(v2), Digit(v3)]
  {}

  /** A last group of one or two bytes is padded to four characters. */
  lemma {:induction false} ShortUnpadded(v0: Sextet, v1: Sextet, v2: Sextet)
    ensures var s := [Digit(v0), Digit(v1), '=', '=']; IsUnpadded(s, StripEquals(s))
    ensures var s := [Digit(v0), Digit(v1), Digit(v2), '=']; IsUnpadded(s, StripEquals(s))
  {
    DigitsOf(v0, v1, v2, 0);
    TailUnpadded([v0, v1], 2);
    TailUnpadded([v0, v1, v2], 1);
    assert [Digit(v0), Digit(v1), '=', '='] == Digits([v0, v1]) + Equals(2);
    assert [Digit(v0), Digit(v1), Digit(v2), '='] == Digits([v0, v1, v2]) + Equals(1);
  }

  lemma {:induction false} LongUnpadded(v0: Sextet, v1: Sextet, v2: Sextet, v3: Sextet, padded: string)
    requires IsUnpadded(padded, StripEquals(padded))
    ensures var s := [Digit(v0), Digit(v1), Digit(v2), Digit(v3)] + padded; IsUnpadded(s, StripEquals(s))
  {
    DigitsOf(v0, v1, v2, v3);
    GroupUnpadded([v0, v1, v2, v3], padded, StripEquals(padded));
  }

  lemma {:induction false} ShortBytesUnpadded(b: seq<Byte>)
    requires 1 <= |b| <= 2
    ensures IsUnpadded(EncodePadded(b), Encode(b))
  {
    if |b| == 1 {
      ShortUnpadded(b[0] / 4, b[0] % 4 * 16, 0);
    } else {
      ShortUnpadded(b[0] / 4, b[0] % 4 * 16 + b[1] / 16, b[1] % 16 * 4);
    }
  }

  /** Stripping removes just the padding, which the length determines. */
  lemma {:induction false} Unpadded(b: seq<Byte>)
    ensures IsUnpadded(EncodePadded(b), Encode(b))
    decreases |b|
  {
    if |b| > 2 {
      Unpadded(b[3..]);
      LongUnpadded(b[0] / 4, b[0] % 4 * 16 + b[1] / 16, b[1] % 16 * 4 + b[2] / 64, b[2] % 64, EncodePadded(b[3..]));
    } else if b != [] {
      ShortBytesUnpadded(b);
    }
  }

  /** Decoding inverts encoding, for every byte string. */
  lemma {:induction false} RoundTrip(b: seq<Byte>)
    ensures Decode(Encode(b)) == Some(b)
  {
    Unpadded(b);
    PaddedRoundTrip(b);
    var s := Encode(b);
    forall i | 0 <= i < |s| ensures s[i] as int < 128 {
      assert Undigit(s[i]).Some?;
    }
  }
}
