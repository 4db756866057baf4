/**
 Building an Agent Card (apps/cards/agent_card.py, `build_agent_card_sector_payloads`).
 SHA-256 and the screening expressions are given; of them only `HexDigest` and
 `Permissive` are used.
 */
module AgentCardBuild {
  import opened Wrappers
  import opened PyText
  import opened AgentCard

  /** `sha` gives the upper-case hexadecimal digest of a text. */
  datatype Tools = Tools(sha: string -> string, screen: Screen)

  /** The identity sources, `""` where there is none. */
  datatype IdentitySources = IdentitySources(intent: string, bundle: string, interfaceSpec: string, card: string)

  /** The sources in the order of the identity slots. */
  function Ordered(sources: IdentitySources): (r: seq<string>)
    ensures |r| == 4
  {
    [sources.intent, sources.bundle, sources.interfaceSpec, sources.card]
  }

  predicate Hex(s: string) { forall i :: 0 <= i < |s| ==> '0' <= s[i] <= '9' || 'A' <= s[i] <= 'F' }

  ghost predicate HexDigest(sha: string -> string) { forall v: string :: |sha(v)| == 64 && Hex(sha(v)) }

  predicate Passes(sc: Screen, value: string) { !sc.credential(value) && !sc.script(value) && !sc.url(value) }

  /** No screening expression matches a hexadecimal number or one of the fixed field values. */
  ghost predicate Permissive(sc: Screen) {
    forall v: string :: Hex(v) || v in {"SHA8", "RDRSIG", "SOUL", "EMPTY"} ==> Passes(sc, v)
  }

  // ----- The records -------------------------------------------------------

  function CompactDigest(value: string, n: nat, sha: string -> string): string {
    if |sha(value)| <= n then sha(value) else sha(value)[..n]
  }

  function TwoDigits(n: nat): string
    requires n < 100
  {
    ['0' + (n / 10) as char, '0' + (n % 10) as char]
  }

  datatype Pair = Pair(key: string, value: string)

  function Fragment(p: Pair): string { p.key + "=" + p.value }

  function Fragments(pairs: seq<Pair>): seq<string> {
    if pairs == [] then [] else [Fragment(pairs[0])] + Fragments(pairs[1..])
  }

  function Headed(code: string, body: string): string { "AC1|" + code + "|" + body }

  /** `AC1|code|KEY=value|...` */
  function RecordText(code: string, pairs: seq<Pair>): string { Headed(code, Join(Fragments(pairs), '|')) }

  const MANIFEST_PAIRS: seq<Pair> := [Pair("S", "4"), Pair("X", "10"), Pair("ALG", "SHA8"), Pair("POL", "RDRSIG")]

  function IdentityPairs(source: string, sha: string -> string): seq<Pair> {
    if source == "" then [Pair("VOID", "1")]
    else
      [Pair("NS", "SOUL"), Pair("ID", CompactDigest("id:" + source, 8, sha)),
       Pair("H", CompactDigest("hash:" + source, 12, sha))]
  }

  function IdentityRecord(slot: nat, source: string, sha: string -> string): string
    requires slot < 10
  {
    RecordText("I" + ['0' + slot as char], IdentityPairs(source, sha))
  }

  function EmptyPairs(slot: nat, source: string, sha: string -> string): seq<Pair> {
    var digestSource := if source != "" then source else "empty-extension-" + Decimal(slot);
    [Pair("T", "EMPTY"), Pair("H", CompactDigest(digestSource, 6, sha))]
  }

  function EmptyRecord(slot: nat, source: string, sha: string -> string): string
    requires slot < 100
  {
    RecordText("F" + TwoDigits(slot), EmptyPairs(slot, source, sha))
  }

  function Sigil(slug: string): string { "[AGENT.SKILL:" + slug + "]" }

  function SkillPairs(slug: string, sha: string -> string): seq<Pair> {
    [Pair("SIG", Sigil(slug)), Pair("H", CompactDigest("skill:" + slug, 6, sha))]
  }

  function SkillRecord(slot: nat, slug: string, sha: string -> string): string
    requires slot < 100
  {
    RecordText("K" + TwoDigits(slot), SkillPairs(slug, sha))
  }

  // ----- How a record parses ------------------------------------------------

  lemma {:induction false} RecordParts(code: string, body: string)
    requires '|' !in code
    ensures Split(Headed(code, body), '|') == ["AC1", code] + Split(body, '|')
  {
    var rest := code + "|" + body;
    assert Headed(code, body) == "AC1" + ['|'] + rest && rest == code + ['|'] + body;
    SplitFirst("AC1", '|', rest);
    SplitFirst(code, '|', body);
  }

  lemma {:induction false} RTrimKeeps(s: string)
    requires s == "" || s[|s| - 1] != ' '
    ensures RTrim(s) == s
  {}

  /** A short printable record parses by its slot and its fields. */
  lemma {:induction false} RecordParses(sector: int, code: string, body: string, sc: Screen)
    requires '|' !in code && Printable(Headed(code, body)) && |body| + |code| <= 43
    requires body != "" && body[|body| - 1] != ' ' && SectorForSlot(code) == Some(sector)
    ensures var r := Parsed(sector, Text(Headed(code, body)), sc);
            match Fields(Split(body, '|'), map[], sc)
            case Err(reason) => r == Err(SectorError(sector, reason))
            case Ok(fields) => r == Ok(Record(sector, code, fields, Headed(code, body)))
  {
    var text := Headed(code, body);
    assert TrimAndValidate(Text(text)) == Ok(text) by {
      assert text[|text| - 1] == body[|body| - 1];
      RTrimKeeps(text);
    }
    assert ParseRaw(sector, text, sc) == match Fields(Split(body, '|'), map[], sc)
                                         case Err(reason) => Err(reason)
                                         case Ok(fields) => Ok(Record(sector, code, fields, text))
    by {
      RecordParts(code, body);
      assert Split(text, '|')[2..] == Split(body, '|');
    }
  }

  lemma {:induction false} SlotCodes(slot: nat)
    ensures 1 <= slot <= 4 ==> SectorForSlot("I" + ['0' + slot as char]) == Some(slot + 1)
    ensures 1 <= slot <= 10 ==>
              SectorForSlot("K" + TwoDigits(slot)) == SectorForSlot("F" + TwoDigits(slot)) == Some(slot + 5)
  {
    if 1 <= slot <= 4 {
      var digit := ['0' + slot as char];
      assert ("I" + digit)[1..] == digit && digit[..0] == "" && Value("") == 0;
      assert Value(digit) == slot;
    }
    if 1 <= slot <= 10 {
      var digits := TwoDigits(slot);
      assert ("K" + digits)[1..] == digits && ("F" + digits)[1..] == digits;
      assert digits[..1] == [digits[0]] && digits[..1][..0] == "" && Value("") == 0;
      assert Value(digits[..1]) == slot / 10;
      assert Value(digits) == slot;
    }
  }

  /** A pair whose fragment parses to itself. */
  predicate Plain(p: Pair, sc: Screen) {
    && p.key != "" && (forall i :: 0 <= i < |p.key| ==> KeyChar(p.key[i]))
    && Printable(p.value) && '|' !in p.value && p.value != "" && p.value[|p.value| - 1] != ' '
    && Passes(sc, p.value)
  }

  lemma {:induction false} PlainFragment(p: Pair, sc: Screen)
    requires Plain(p, sc)
    ensures var f := Fragment(p);
            && Field(f, sc) == Ok((p.key, p.value)) && '|' !in f && Printable(f)
            && |f| == |p.key| + 1 + |p.value| && f[|f| - 1] != ' '
  {
    var f := p.key + ['='] + p.value;
    assert f == Fragment(p);
    IndexOfConcat(p.key, '=', p.value);
    assert f[..|p.key|] == p.key && f[|p.key| + 1..] == p.value;
  }

  function Width(pairs: seq<Pair>): nat {
    if pairs == [] then 0 else |pairs[0].key| + 2 + |pairs[0].value| + Width(pairs[1..])
  }

  function With(fields: map<string, string>, pairs: seq<Pair>): map<string, string>
    decreases |pairs|
  {
    if pairs == [] then fields else With(fields[pairs[0].key := pairs[0].value], pairs[1..])
  }

  /** What a body has to be for its record to be read back. */
  predicate BodyText(body: string, parts: seq<string>) {
    body != "" && Printable(body) && body[|body| - 1] != ' ' && Split(body, '|') == parts
  }

  lemma {:induction false} BodyStep(first: string, rest: string, parts: seq<string>)
    requires Printable(first) && '|' !in first && BodyText(rest, parts)
    ensures BodyText(first + ['|'] + rest, [first] + parts)
  {
    SplitFirst(first, '|', rest);
    var body := first + ['|'] + rest;
    assert body[|body| - 1] == rest[|rest| - 1];
  }

  lemma {:induction false} PlainBody(pairs: seq<Pair>, sc: Screen)
    requires pairs != [] && forall i :: 0 <= i < |pairs| ==> Plain(pairs[i], sc)
    ensures |Join(Fragments(pairs), '|')| == Width(pairs) - 1
    ensures BodyText(Join(Fragments(pairs), '|'), Fragments(pairs))
  {
    var first := Fragment(pairs[0]);
    PlainFragment(pairs[0], sc);
    if |pairs| == 1 {
      SplitNone(first, '|');
      assert Fragments(pairs) == [first];
    } else {
      PlainBody(pairs[1..], sc);
      assert Fragments(pairs)[1..] == Fragments(pairs[1..]);
      BodyStep(first, Join(Fragments(pairs[1..]), '|'), Fragments(pairs[1..]));
    }
  }

  lemma {:induction false} PlainFields(pairs: seq<Pair>, fields: map<string, string>, sc: Screen)
    requires forall i :: 0 <= i < |pairs| ==> Plain(pairs[i], sc)
    ensures Fields(Fragments(pairs), fields, sc) == Ok(With(fields, pairs))
  {
    if pairs != [] {
      PlainFragment(pairs[0], sc);
      assert Fragments(pairs)[1..] == Fragments(pairs[1..]);
      PlainFields(pairs[1..], fields[pairs[0].key := pairs[0].value], sc);
    }
  }

  lemma {:induction false} HeadedPrintable(code: string, body: string)
    requires Printable(code)
    ensures Printable(Headed(code, body)) <==> Printable(body)
    ensures |Headed(code, body)| == |code| + |body| + 5
  {
    var text := Headed(code, body);
    var n := |code| + 5;
    assert forall i :: 0 <= i < |body| ==> text[n + i] == body[i];
    if Printable(body) {
      forall i | 0 <= i < |text| ensures 32 <= text[i] as int <= 126 {
        if i >= n { assert text[i] == body[i - n]; } else if 4 <= i < n - 1 { assert text[i] == code[i - 4]; }
      }
    }
  }

  /** A record of plain pairs is accepted, with just those fields. */
  lemma {:induction false} PlainRecord(sector: int, code: string, pairs: seq<Pair>, sc: Screen)
    requires pairs != [] && forall i :: 0 <= i < |pairs| ==> Plain(pairs[i], sc)
    requires '|' !in code && Printable(code) && |code| + Width(pairs) <= 44 && SectorForSlot(code) == Some(sector)
    ensures var text := RecordText(code, pairs);
            && Parsed(sector, Text(text), sc) == Ok(Record(sector, code, With(map[], pairs), text))
            && Printable(text) && |text| <= 48
  {
    PlainBody(pairs, sc);
    PlainFields(pairs, map[], sc);
    HeadedPrintable(code, Join(Fragments(pairs), '|'));
    RecordParses(sector, code, Join(Fragments(pairs), '|'), sc);
  }

  /** A digest is hexadecimal, so it passes the screen and contains neither bar nor blank. */
  lemma {:induction false} DigestIsPlain(key: string, value: string, n: nat, tools: Tools)
    requires HexDigest(tools.sha) && Permissive(tools.screen) && 0 < n < 64 && key in {"ID", "H"}
    ensures Plain(Pair(key, CompactDigest(value, n, tools.sha)), tools.screen)
    ensures |CompactDigest(value, n, tools.sha)| == n
  {}

  lemma {:induction false} FixedIsPlain(sc: Screen)
    requires Permissive(sc)
    ensures Plain(Pair("NS", "SOUL"), sc) && Plain(Pair("VOID", "1"), sc) && Plain(Pair("T", "EMPTY"), sc)
    ensures forall i :: 0 <= i < 4 ==> Plain(MANIFEST_PAIRS[i], sc)
  {
    assert Hex("4") && Hex("10") && Hex("1");
  }

  lemma {:induction false} ManifestParses(tools: Tools)
    requires Permissive(tools.screen)
    ensures var text := RecordText("M", MANIFEST_PAIRS);
            && Parsed(1, Text(text), tools.screen).Ok? && Printable(text) && |text| <= 48
            && Parsed(1, Text(text), tools.screen).value.raw == text
  {
    FixedIsPlain(tools.screen);
    assert Width(MANIFEST_PAIRS) == 29 by {
      assert MANIFEST_PAIRS[1..] == [Pair("X", "10"), Pair("ALG", "SHA8"), Pair("POL", "RDRSIG")];
      assert MANIFEST_PAIRS[1..][1..] == [Pair("ALG", "SHA8"), Pair("POL", "RDRSIG")];
      assert MANIFEST_PAIRS[1..][1..][1..] == [Pair("POL", "RDRSIG")];
    }
    PlainRecord(1, "M", MANIFEST_PAIRS, tools.screen);
  }

  lemma {:induction false} WidthTwo(a: Pair, b: Pair)
    ensures Width([a, b]) == |a.key| + |a.value| + |b.key| + |b.value| + 4
  {
    assert [a, b][1..] == [b] && [b][1..] == [];
    assert Width([b]) == |b.key| + 2 + |b.value|;
  }

  lemma {:induction false} WidthThree(a: Pair, b: Pair, c: Pair)
    ensures Width([a, b, c]) == |a.key| + |a.value| + |b.key| + |b.value| + |c.key| + |c.value| + 6
  {
    assert [a, b, c][1..] == [b, c];
    WidthTwo(b, c);
  }

  lemma {:induction false} WithHas(fields: map<string, string>, pairs: seq<Pair>)
    ensures forall k :: k in fields ==> k in With(fields, pairs)
    ensures forall i :: 0 <= i < |pairs| ==> pairs[i].key in With(fields, pairs)
    decreases |pairs|
  {
    if pairs != [] {
      WithHas(fields[pairs[0].key := pairs[0].value], pairs[1..]);
      assert forall i :: 0 < i < |pairs| ==> pairs[i] == pairs[1..][i - 1];
    }
  }

  lemma {:induction false} EmptyParses(slot: nat, source: string, tools: Tools)
    requires HexDigest(tools.sha) && Permissive(tools.screen) && 1 <= slot <= 10
    ensures var text := EmptyRecord(slot, source, tools.sha);
            && Parsed(slot + 5, Text(text), tools.screen).Ok? && Printable(text) && |text| <= 48
            && Parsed(slot + 5, Text(text), tools.screen).value.slotCode == "F" + TwoDigits(slot)
            && Parsed(slot + 5, Text(text), tools.screen).value.raw == text
  {
    var pairs := EmptyPairs(slot, source, tools.sha);
    DigestIsPlain("H", if source != "" then source else "empty-extension-" + Decimal(slot), 6, tools);
    FixedIsPlain(tools.screen);
    WidthTwo(pairs[0], pairs[1]);
    SlotCodes(slot);
    PlainRecord(slot + 5, "F" + TwoDigits(slot), pairs, tools.screen);
  }

  lemma {:induction false} IdentityIsPlain(source: string, tools: Tools)
    requires HexDigest(tools.sha) && Permissive(tools.screen)
    ensures var pairs := IdentityPairs(source, tools.sha);
            Width(pairs) <= 40 && forall i :: 0 <= i < |pairs| ==> Plain(pairs[i], tools.screen)
  {
    FixedIsPlain(tools.screen);
    if source != "" {
      DigestIsPlain("ID", "id:" + source, 8, tools);
      DigestIsPlain("H", "hash:" + source, 12, tools);
      var pairs := IdentityPairs(source, tools.sha);
      WidthThree(pairs[0], pairs[1], pairs[2]);
    }
  }

  lemma {:induction false} IdentityParses(slot: nat, source: string, tools: Tools)
    requires HexDigest(tools.sha) && Permissive(tools.screen) && 1 <= slot <= 4
    ensures var text := IdentityRecord(slot, source, tools.sha);
            && Parsed(slot + 1, Text(text), tools.screen).Ok? && Printable(text) && |text| <= 48
            && IdentityComplete(Parsed(slot + 1, Text(text), tools.screen).value)
            && Parsed(slot + 1, Text(text), tools.screen).value.raw == text
  {
    var pairs := IdentityPairs(source, tools.sha);
    SlotCodes(slot);
    IdentityIsPlain(source, tools);
    PlainRecord(slot + 1, "I" + ['0' + slot as char], pairs, tools.screen);
    WithHas(map[], pairs);
    if source == "" {
      assert pairs[1..] == [] && With(map[], pairs) == map["VOID" := "1"];
    } else {
      assert pairs[0].key == "NS" && pairs[1].key == "ID" && pairs[2].key == "H";
    }
  }

  // ----- Which skills fit ---------------------------------------------------

  /** The record of a slug is accepted. */
  predicate Fits(slug: string, tools: Tools) { Parsed(6, Text(SkillRecord(1, slug, tools.sha)), tools.screen).Ok? }

  lemma {:induction false} SkillBody(slug: string, tools: Tools) returns (body: string)
    requires HexDigest(tools.sha) && Permissive(tools.screen)
    ensures body == Join(Fragments(SkillPairs(slug, tools.sha)), '|')
    ensures body != "" && body[|body| - 1] != ' '
    ensures Split(body, '|') == Split(Fragment(Pair("SIG", Sigil(slug))), '|') +
                                [Fragment(Pair("H", CompactDigest("skill:" + slug, 6, tools.sha)))]
  {
    var pairs := SkillPairs(slug, tools.sha);
    var sig, h := Fragment(pairs[0]), Fragment(pairs[1]);
    DigestIsPlain("H", "skill:" + slug, 6, tools);
    PlainFragment(pairs[1], tools.screen);
    assert Fragments(pairs) == [sig, h] by {
      assert pairs[1..] == [pairs[1]] && pairs[1..][1..] == [];
      assert Fragments(pairs[1..]) == [h];
    }
    assert [sig, h][1..] == [h];
    body := sig + ['|'] + h;
    SplitConcat(sig, '|', h);
    SplitNone(h, '|');
  }

  lemma {:induction false} SkillParse(slot: nat, body: string, sc: Screen)
    requires 1 <= slot <= 10 && body != "" && body[|body| - 1] != ' '
    ensures var code := "K" + TwoDigits(slot);
            var r := Parsed(slot + 5, Text(Headed(code, body)), sc);
            && (r.Ok? <==> Printable(body) && |body| <= 40 && Fields(Split(body, '|'), map[], sc).Ok?)
            && (r.Ok? ==> r.value.slotCode == code && r.value.raw == Headed(code, body) &&
                          Printable(r.value.raw) && |r.value.raw| <= 48 &&
                          Fields(Split(body, '|'), map[], sc) == Ok(r.value.fields))
  {
    var code := "K" + TwoDigits(slot);
    SlotCodes(slot);
    HeadedPrintable(code, body);
    if Printable(body) && |body| <= 40 {
      RecordParses(slot + 5, code, body, sc);
    }
  }

  /** Whether a slug fits, and with which fields, does not depend on the slot. */
  lemma {:induction false} FitsInAnySlot(slot: nat, slug: string, tools: Tools)
    requires HexDigest(tools.sha) && Permissive(tools.screen) && 1 <= slot <= 10
    ensures var text := SkillRecord(slot, slug, tools.sha);
            && (Parsed(slot + 5, Text(text), tools.screen).Ok? <==> Fits(slug, tools))
            && (Fits(slug, tools) ==> var r := Parsed(slot + 5, Text(text), tools.screen).value;
                  && r.slotCode == "K" + TwoDigits(slot) && r.raw == text && Printable(text) && |text| <= 48
                  && Fields(Split(Join(Fragments(SkillPairs(slug, tools.sha)), '|'), '|'), map[], tools.screen) ==
                     Ok(r.fields))
  {
    var body := SkillBody(slug, tools);
    SkillParse(1, body, tools.screen);
    SkillParse(slot, body, tools.screen);
  }

  /** The sigil can be read back from the record, which is so exactly when the slug has no bar. */
  predicate ReadsBack(record: Record, slug: string) {
    "SIG" in record.fields && (record.fields["SIG"] == Sigil(slug) <==> '|' !in slug)
  }

  ghost predicate NoBars(fields: map<string, string>) { forall k :: k in fields ==> '|' !in fields[k] }

  lemma {:induction false} FieldNoBar(fragment: string, sc: Screen)
    requires '|' !in fragment && Field(fragment, sc).Ok?
    ensures '|' !in Field(fragment, sc).value.1
  {
    var i := IndexOf(fragment, '=');
    assert forall c :: c in fragment[i + 1..] ==> c in fragment;
  }

  lemma {:induction false} FieldsKeep(fragments: seq<string>, fields: map<string, string>, sc: Screen)
    requires forall i :: 0 <= i < |fragments| ==> '|' !in fragments[i]
    requires Fields(fragments, fields, sc).Ok? && NoBars(fields)
    ensures var result := Fields(fragments, fields, sc).value;
            NoBars(result) && forall k :: k in fields ==> k in result
    decreases |fragments|
  {
    if fragments != [] {
      FieldNoBar(fragments[0], sc);
      var (key, value) := Field(fragments[0], sc).value;
      FieldsKeep(fragments[1..], fields[key := value], sc);
    }
  }

  /** A fragment that starts with the key and an equals sign gives that key. */
  lemma {:induction false} FieldKey(fragment: string, key: string, sc: Screen)
    requires '=' !in key && key + ['='] <= fragment && Field(fragment, sc).Ok?
    ensures Field(fragment, sc).value == (key, fragment[|key| + 1..])
  {
    var rest := fragment[|key| + 1..];
    assert fragment == key + ['='] + rest;
    IndexOfConcat(key, '=', rest);
    assert fragment[..|key|] == key;
  }

  lemma {:induction false} PlainSigil(slug: string)
    requires '|' !in slug
    ensures var sig := Fragment(Pair("SIG", Sigil(slug))); Split(sig, '|') == [sig] && sig[4..] == Sigil(slug)
  {
    var sig := Fragment(Pair("SIG", Sigil(slug)));
    var head, tail := "SIG=[AGENT.SKILL:", "]";
    assert sig == head + slug + tail;
    assert '|' !in head + slug;
    SplitNone(sig, '|');
  }

  lemma {:induction false} FirstPart(s: string)
    ensures Split(s, '|')[0] == s[..IndexOf(s, '|')]
  {
    assert s[..|s|] == s;
  }

  lemma {:induction false} SigilHead(slug: string)
    ensures var sig := Fragment(Pair("SIG", Sigil(slug)));
            IndexOf(sig, '|') >= 4 && "SIG" + ['='] <= sig[..IndexOf(sig, '|')]
  {
    var sig := Fragment(Pair("SIG", Sigil(slug)));
    var i := IndexOf(sig, '|');
    assert sig[0] == 'S' && sig[1] == 'I' && sig[2] == 'G' && sig[3] == '=';
    assert i < |sig| ==> sig[i] == '|';
    assert sig[..i][..4] == "SIG" + ['='];
  }

  /** The fragments of a skill record: the first names the sigil. */
  lemma {:induction false} SkillFragments(slug: string, tools: Tools) returns (fragments: seq<string>)
    requires HexDigest(tools.sha) && Permissive(tools.screen)
    ensures fragments == Split(Join(Fragments(SkillPairs(slug, tools.sha)), '|'), '|') != []
    ensures "SIG" + ['='] <= fragments[0] && forall i :: 0 <= i < |fragments| ==> '|' !in fragments[i]
    ensures '|' !in slug ==> fragments == [Fragment(Pair("SIG", Sigil(slug))),
                                           Fragment(Pair("H", CompactDigest("skill:" + slug, 6, tools.sha)))]
  {
    var body := SkillBody(slug, tools);
    fragments := Split(body, '|');
    JoinSplit(body, '|');
    FirstPart(Fragment(Pair("SIG", Sigil(slug))));
    SigilHead(slug);
    if '|' !in slug { PlainSigil(slug); }
  }

  lemma {:induction false} FieldsHead(fragments: seq<string>, key: string, sc: Screen)
    returns (first: string, rest: seq<string>)
    requires fragments != [] && '=' !in key && key + ['='] <= fragments[0] && '|' !in fragments[0]
    requires Fields(fragments, map[], sc).Ok?
    ensures first == fragments[0][|key| + 1..] && '|' !in first && rest == fragments[1..]
    ensures Fields(fragments, map[], sc) == Fields(rest, map[key := first], sc)
  {
    FieldKey(fragments[0], key, sc);
    first, rest := fragments[0][|key| + 1..], fragments[1..];
    assert forall c :: c in first ==> c in fragments[0];
  }

  lemma {:induction false} OneField(fragments: seq<string>, key: string, value: string, fields: map<string, string>,
                                    sc: Screen)
    requires |fragments| == 1 && Field(fragments[0], sc) == Ok((key, value))
    ensures Fields(fragments, fields, sc) == Ok(fields[key := value])
  {}

  lemma {:induction false} SigilReadsBack(slug: string, tools: Tools, fields: map<string, string>)
    requires HexDigest(tools.sha) && Permissive(tools.screen)
    requires Fields(Split(Join(Fragments(SkillPairs(slug, tools.sha)), '|'), '|'), map[], tools.screen) == Ok(fields)
    ensures "SIG" in fields && (fields["SIG"] == Sigil(slug) <==> '|' !in slug)
  {
    var fragments := SkillFragments(slug, tools);
    var first, rest := FieldsHead(fragments, "SIG", tools.screen);
    FieldsKeep(rest, map["SIG" := first], tools.screen);
    if '|' in slug {
      assert Sigil(slug)[13..13 + |slug|] == slug;
    } else {
      PlainSigil(slug);
      var h := CompactDigest("skill:" + slug, 6, tools.sha);
      DigestIsPlain("H", "skill:" + slug, 6, tools);
      PlainFragment(Pair("H", h), tools.screen);
      OneField(rest, "H", h, map["SIG" := first], tools.screen);
    }
  }

  // A slug with a bar, and the two pieces of its sigil.
  const BARRED_SLUG: string := "a|B=c"
  const BARRED_HEAD: string := "[AGENT.SKILL:a"
  const BARRED_TAIL: string := "c]"

  lemma {:induction false} JoinTwo(a: Pair, b: Pair)
    ensures Join(Fragments([a, b]), '|') == Fragment(a) + ['|'] + Fragment(b)
  {
    assert [a, b][1..] == [b] && [b][1..] == [];
    assert Fragments([b]) == [Fragment(b)];
    assert Fragments([a, b]) == [Fragment(a), Fragment(b)];
    assert [Fragment(a), Fragment(b)][1..] == [Fragment(b)];
  }

  lemma {:induction false} BarredSigil()
    ensures Fragment(Pair("SIG", Sigil(BARRED_SLUG))) ==
            Fragment(Pair("SIG", BARRED_HEAD)) + ['|'] + Fragment(Pair("B", BARRED_TAIL))
  {}

  /** The record of the slug with a bar is also that of three plain pairs. */
  lemma {:induction false} BarredRecord(sha: string -> string)
    ensures SkillRecord(1, BARRED_SLUG, sha) ==
            RecordText("K" + TwoDigits(1), [Pair("SIG", BARRED_HEAD), Pair("B", BARRED_TAIL)] +
                                           [SkillPairs(BARRED_SLUG, sha)[1]])
  {
    var h := SkillPairs(BARRED_SLUG, sha)[1];
    var two := [Pair("B", BARRED_TAIL), h];
    var three := [Pair("SIG", BARRED_HEAD), Pair("B", BARRED_TAIL)] + [h];
    JoinTwo(Pair("SIG", Sigil(BARRED_SLUG)), h);
    JoinTwo(Pair("B", BARRED_TAIL), h);
    assert three[1..] == two && Fragments(three)[1..] == Fragments(two);
    BarredSigil();
  }

  lemma {:induction false} BarredHeadIsPlain(sc: Screen)
    requires Passes(sc, BARRED_HEAD)
    ensures Plain(Pair("SIG", BARRED_HEAD), sc) && |BARRED_HEAD| == 14
  {}

  lemma {:induction false} BarredTailIsPlain(sc: Screen)
    requires Passes(sc, BARRED_TAIL)
    ensures Plain(Pair("B", BARRED_TAIL), sc) && |BARRED_TAIL| == 2
  {}

  lemma {:induction false} BarredPairs(tools: Tools) returns (pairs: seq<Pair>)
    requires HexDigest(tools.sha) && Permissive(tools.screen)
    requires Passes(tools.screen, BARRED_HEAD) && Passes(tools.screen, BARRED_TAIL)
    ensures pairs == [Pair("SIG", BARRED_HEAD), Pair("B", BARRED_TAIL)] + [SkillPairs(BARRED_SLUG, tools.sha)[1]]
    ensures Width(pairs) == 33 && forall i :: 0 <= i < |pairs| ==> Plain(pairs[i], tools.screen)
  {
    pairs := [Pair("SIG", BARRED_HEAD), Pair("B", BARRED_TAIL)] + [SkillPairs(BARRED_SLUG, tools.sha)[1]];
    BarredHeadIsPlain(tools.screen);
    BarredTailIsPlain(tools.screen);
    DigestIsPlain("H", "skill:" + BARRED_SLUG, 6, tools);
    WidthThree(pairs[0], pairs[1], pairs[2]);
  }

  /** Such a slug is accepted by a screen that passes its pieces, and its sigil is not read back. */
  lemma {:induction false} BarredSlugFits(tools: Tools)
    requires HexDigest(tools.sha) && Permissive(tools.screen)
    requires Passes(tools.screen, BARRED_HEAD) && Passes(tools.screen, BARRED_TAIL)
    ensures Fits(BARRED_SLUG, tools)
    ensures var fields := Parsed(6, Text(SkillRecord(1, BARRED_SLUG, tools.sha)), tools.screen).value.fields;
            "SIG" in fields && fields["SIG"] != Sigil(BARRED_SLUG)
  {
    var pairs := BarredPairs(tools);
    SlotCodes(1);
    BarredRecord(tools.sha);
    PlainRecord(6, "K" + TwoDigits(1), pairs, tools.screen);
    FitsInAnySlot(1, BARRED_SLUG, tools);
    SigilReadsBack(BARRED_SLUG, tools, With(map[], pairs));
    assert BARRED_SLUG[1] == '|';
  }

  // ----- Which skills are placed ---------------------------------------------

  datatype Note = Overflow | DoesNotFit(slug: string)

  /** The slugs placed so far, those omitted, and the notes. */
  datatype Choice = Choice(placed: seq<string>, omitted: seq<string>, notes: seq<Note>)

  const SLOTS: nat := 10

  /** What the loop does with one stripped slug. */
  function Add(c: Choice, slug: string, tools: Tools): Choice {
    if slug == "" then c
    else if |c.placed| >= SLOTS then
      c.(omitted := c.omitted + [slug], notes := if Overflow in c.notes then c.notes else c.notes + [Overflow])
    else if Fits(slug, tools) then c.(placed := c.placed + [slug])
    else c.(omitted := c.omitted + [slug], notes := c.notes + [DoesNotFit(slug)])
  }

  function Choose(slugs: seq<string>, tools: Tools): Choice {
    if slugs == [] then Choice([], [], [])
    else Add(Choose(slugs[..|slugs| - 1], tools), Strip(slugs[|slugs| - 1]), tools)
  }

  /** The stripped slugs that are not blank. */
  function NonBlank(slugs: seq<string>): seq<string> {
    if slugs == [] then []
    else
      NonBlank(slugs[..|slugs| - 1]) +
      if Strip(slugs[|slugs| - 1]) == "" then [] else [Strip(slugs[|slugs| - 1])]
  }

  function Fitting(slugs: seq<string>, tools: Tools): seq<string> {
    if slugs == [] then []
    else
      Fitting(slugs[..|slugs| - 1], tools) +
      if Fits(slugs[|slugs| - 1], tools) then [slugs[|slugs| - 1]] else []
  }

  function FirstTen(s: seq<string>): seq<string> { if |s| <= SLOTS then s else s[..SLOTS] }

  /** All slugs but the first ten that fit. */
  function Others(slugs: seq<string>, tools: Tools): seq<string> {
    if slugs == [] then []
    else
      var n := |slugs| - 1;
      Others(slugs[..n], tools) +
      if Fits(slugs[n], tools) && |Fitting(slugs[..n], tools)| < SLOTS then [] else [slugs[n]]
  }

  lemma {:induction false} FittingFit(slugs: seq<string>, tools: Tools)
    ensures forall s :: s in Fitting(slugs, tools) ==> Fits(s, tools)
  {
    if slugs != [] { FittingFit(slugs[..|slugs| - 1], tools); }
  }

  lemma {:induction false} NextSlug(named: seq<string>, slug: string, tools: Tools)
    ensures Fitting(named + [slug], tools) == Fitting(named, tools) + if Fits(slug, tools) then [slug] else []
    ensures Others(named + [slug], tools) ==
            Others(named, tools) + if Fits(slug, tools) && |Fitting(named, tools)| < SLOTS then [] else [slug]
  {
    assert (named + [slug])[..|named|] == named;
  }

  /** What a choice means for the non-blank slugs seen. */
  ghost predicate Places(c: Choice, named: seq<string>, tools: Tools) {
    c.placed == FirstTen(Fitting(named, tools)) && c.omitted == Others(named, tools)
  }

  ghost predicate Notes(c: Choice, named: seq<string>, tools: Tools) {
    && (Overflow in c.notes <==> named != [] && |Fitting(named[..|named| - 1], tools)| >= SLOTS)
    && forall s :: DoesNotFit(s) in c.notes ==> s in c.omitted && !Fits(s, tools)
  }

  lemma {:induction false} AddPlaces(c: Choice, named: seq<string>, slug: string, tools: Tools)
    requires Places(c, named, tools) && slug != ""
    ensures Places(Add(c, slug, tools), named + [slug], tools)
  {
    NextSlug(named, slug, tools);
  }

  lemma {:induction false} AddNotes(c: Choice, named: seq<string>, slug: string, tools: Tools)
    requires Places(c, named, tools) && Notes(c, named, tools) && slug != ""
    ensures Notes(Add(c, slug, tools), named + [slug], tools)
  {
    assert (named + [slug])[..|named + [slug]| - 1] == named;
    assert named != [] ==> |Fitting(named[..|named| - 1], tools)| <= |Fitting(named, tools)|;
    var c' := Add(c, slug, tools);
    if |c.placed| < SLOTS { assert Overflow !in c.notes; }
    assert forall s :: DoesNotFit(s) in c'.notes ==> DoesNotFit(s) in c.notes || s == slug;
  }

  /**
   The placed skills are the first ten that fit, the omitted ones every other
   non-blank slug in order, and the overflow note says that a non-blank slug came
   after ten that fit.
   */
  lemma {:induction false} ChoiceMeans(slugs: seq<string>, tools: Tools)
    ensures Places(Choose(slugs, tools), NonBlank(slugs), tools)
    ensures Notes(Choose(slugs, tools), NonBlank(slugs), tools)
  {
    if slugs != [] {
      var n := |slugs| - 1;
      ChoiceMeans(slugs[..n], tools);
      var before, named, slug := Choose(slugs[..n], tools), NonBlank(slugs[..n]), Strip(slugs[n]);
      if slug == "" {
        assert NonBlank(slugs) == named + [] == named;
      } else {
        AddPlaces(before, named, slug, tools);
        AddNotes(before, named, slug, tools);
      }
    }
  }

  // ----- The builder ----------------------------------------------------------

  /** The record of a sector when `placed` are the skills. */
  function RecordAt(sector: int, sources: IdentitySources, placed: seq<string>, tools: Tools): string
    requires 1 <= sector < 16
  {
    if sector == 1 then RecordText("M", MANIFEST_PAIRS)
    else if sector < 6 then
      IdentityRecord(sector - 1, Ordered(sources)[sector - 2], tools.sha)
    else if sector - 6 < |placed| then SkillRecord(sector - 5, placed[sector - 6], tools.sha)
    else EmptyRecord(sector - 5, sources.card, tools.sha)
  }

  /** The records of the sectors below `n`. */
  function Records(n: nat, sources: IdentitySources, placed: seq<string>, tools: Tools): map<int, string>
    requires n <= 16
  {
    if n <= 1 then map[]
    else Records(n - 1, sources, placed, tools)[n - 1 := RecordAt(n - 1, sources, placed, tools)]
  }

  lemma {:induction false} RecordsHold(n: nat, sector: int, sources: IdentitySources, placed: seq<string>, tools: Tools)
    requires n <= 16
    ensures var records := Records(n, sources, placed, tools);
            && (sector in records <==> 1 <= sector < n)
            && (1 <= sector < n ==> records[sector] == RecordAt(sector, sources, placed, tools))
  {
    if n > 1 {
      var before, text := Records(n - 1, sources, placed, tools), RecordAt(n - 1, sources, placed, tools);
      assert Records(n, sources, placed, tools) == before[n - 1 := text];
      if sector != n - 1 { RecordsHold(n - 1, sector, sources, placed, tools); }
    }
  }

  lemma {:induction false} RecordsKeys(sources: IdentitySources, placed: seq<string>, tools: Tools)
    ensures Records(16, sources, placed, tools).Keys == APPLICATION_SECTORS
  {
    var keys := Records(16, sources, placed, tools).Keys;
    forall s ensures s in keys <==> s in APPLICATION_SECTORS { RecordsHold(16, s, sources, placed, tools); }
  }

  lemma {:induction false} RecordsBefore(n: nat, sources: IdentitySources, placed: seq<string>, slug: string,
                                         tools: Tools)
    requires n <= 6 + |placed| && n <= 16
    ensures Records(n, sources, placed + [slug], tools) == Records(n, sources, placed, tools)
  {
    if n > 1 {
      RecordsBefore(n - 1, sources, placed, slug, tools);
      assert RecordAt(n - 1, sources, placed + [slug], tools) == RecordAt(n - 1, sources, placed, tools);
    }
  }

  /** The records before the empty extensions. */
  function PlacedRecords(sources: IdentitySources, placed: seq<string>, tools: Tools): map<int, string>
    requires |placed| <= SLOTS
  {
    Records(6 + |placed|, sources, placed, tools)
  }

  lemma {:induction false} RecordsWithMore(sources: IdentitySources, placed: seq<string>, slug: string, tools: Tools)
    requires |placed| < SLOTS
    ensures PlacedRecords(sources, placed + [slug], tools) ==
            PlacedRecords(sources, placed, tools)[6 + |placed| := SkillRecord(1 + |placed|, slug, tools.sha)]
  {
    RecordsBefore(6 + |placed|, sources, placed, slug, tools);
  }

  /** The slot of an extension sector when `placed` skills are placed. */
  function ExtensionCode(sector: int, placed: nat): string
    requires 6 <= sector < 16
  {
    (if sector - 6 < placed then "K" else "F") + TwoDigits(sector - 5)
  }

  /** What the parser makes of the record of a sector. */
  predicate AsBuilt(record: Record, sector: int, placed: seq<string>) {
    && (2 <= sector < 6 ==> IdentityComplete(record))
    && (6 <= sector < 16 ==> record.slotCode == ExtensionCode(sector, |placed|))
    && (6 <= sector < 6 + |placed| ==> ReadsBack(record, placed[sector - 6]))
  }

  /** Each of the fifteen records is accepted in its sector, printable and at most 48 long. */
  lemma {:induction false} RecordsParse(sector: int, sources: IdentitySources, placed: seq<string>, tools: Tools)
    requires HexDigest(tools.sha) && Permissive(tools.screen) && 1 <= sector < 16
    requires |placed| <= SLOTS && forall s :: s in placed ==> Fits(s, tools)
    ensures var text := RecordAt(sector, sources, placed, tools);
            var r := Parsed(sector, Text(text), tools.screen);
            && Printable(text) && |text| <= SLOT_PAYLOAD_BYTES
            && r.Ok? && r.value.raw == text && AsBuilt(r.value, sector, placed)
  {
    if sector == 1 {
      ManifestParses(tools);
    } else if sector < 6 {
      IdentityParses(sector - 1, Ordered(sources)[sector - 2], tools);
    } else if sector - 6 < |placed| {
      var slug := placed[sector - 6];
      assert slug in placed;
      FitsInAnySlot(sector - 5, slug, tools);
      var record := Parsed(sector, Text(SkillRecord(sector - 5, slug, tools.sha)), tools.screen).value;
      SigilReadsBack(slug, tools, record.fields);
    } else {
      EmptyParses(sector - 5, sources.card, tools);
    }
  }

  predicate OfSlot(record: Record, kind: char) { record.slotCode != "" && record.slotCode[0] == kind }

  lemma {:induction false} KindsFirst(records: seq<Record>, n: nat)
    requires n <= |records|
    requires forall i :: 0 <= i < |records| ==> OfSlot(records[i], if i < n then 'K' else 'F')
    ensures OfKind(records, 'K') == records[..n]
  {
    if records != [] {
      var m := if n > 0 then n - 1 else 0;
      KindsFirst(records[1..], m);
      if n > 0 { assert records[..n] == [records[0]] + records[1..][..m]; }
    }
  }

  /** The outcome of a built sector: its own text, read as intended. */
  predicate BuiltRecord(r: Result<Record, Error>, sector: int, text: string, placed: seq<string>) {
    r.Ok? && AsBuilt(r.value, sector, placed) && r.value.raw == text
  }

  lemma {:induction false} OutcomeBuilt(sector: int, records: map<int, string>, results: Results,
                                        sources: IdentitySources, placed: seq<string>, tools: Tools)
    requires HexDigest(tools.sha) && Permissive(tools.screen) && 1 <= sector < 16
    requires |placed| <= SLOTS && forall s :: s in placed ==> Fits(s, tools)
    requires records == Records(16, sources, placed, tools) && results == Outcomes(Image(records), tools.screen)
    ensures sector in records && sector in results && BuiltRecord(results[sector], sector, records[sector], placed)
    ensures Printable(records[sector]) && |records[sector]| <= SLOT_PAYLOAD_BYTES
  {
    RecordsHold(16, sector, sources, placed, tools);
    RecordsParse(sector, sources, placed, tools);
  }

  predicate AllFit(records: map<int, string>) {
    forall s :: s in records ==> Printable(records[s]) && |records[s]| <= SLOT_PAYLOAD_BYTES
  }

  /** The outcomes of a built card's sectors, and what their records hold. */
  lemma {:induction false} BuiltOutcomes(sources: IdentitySources, placed: seq<string>, tools: Tools)
    returns (records: map<int, string>, results: Results)
    requires HexDigest(tools.sha) && Permissive(tools.screen)
    requires |placed| <= SLOTS && forall s :: s in placed ==> Fits(s, tools)
    ensures records == Records(16, sources, placed, tools) && records.Keys == APPLICATION_SECTORS && AllFit(records)
    ensures results == Outcomes(Image(records), tools.screen) && Complete(results)
    ensures forall s :: 1 <= s < 16 ==> BuiltRecord(results[s], s, records[s], placed)
  {
    records := Records(16, sources, placed, tools);
    results := Outcomes(Image(records), tools.screen);
    RecordsKeys(sources, placed, tools);
    forall s: int | 1 <= s < 16
      ensures s in records && s in results && BuiltRecord(results[s], s, records[s], placed)
      ensures Printable(records[s]) && |records[s]| <= SLOT_PAYLOAD_BYTES
    {
      OutcomeBuilt(s, records, results, sources, placed, tools);
    }
  }

  /** The capabilities are the placed skills, in order, each read back if its slug allows it. */
  predicate HoldsSkills(m: Manifest, placed: seq<string>) {
    && |m.capability| == |placed| <= SLOTS
    && forall i :: 0 <= i < |placed| ==>
         m.capability[i].slotCode == ExtensionCode(i + 6, |placed|) && ReadsBack(m.capability[i], placed[i])
  }

  lemma {:induction false} RecordsAssemble(records: seq<Record>, placed: seq<string>)
    requires |records| == 15 && |placed| <= SLOTS && forall i :: 0 <= i < 15 ==> AsBuilt(records[i], i + 1, placed)
    ensures var r := Assemble(records); r.Ok? && HoldsSkills(r.value, placed)
  {
    var identity, extensions := records[1..5], records[5..];
    forall i | 0 <= i < 4 ensures IdentityComplete(identity[i]) { assert AsBuilt(records[1 + i], 1 + i + 1, placed); }
    NoneIncomplete(identity);
    forall i | 0 <= i < 10 ensures AsBuilt(extensions[i], i + 6, placed) { assert extensions[i] == records[i + 5]; }
    KindsFirst(extensions, |placed|);
  }

  lemma {:induction false} BuiltAssembles(results: Results, placed: seq<string>)
    requires Complete(results) && |placed| <= SLOTS
    requires forall s :: 1 <= s < 16 ==> results[s].Ok? && AsBuilt(results[s].value, s, placed)
    ensures var records := Collected(results, 1);
            && records.Ok? && |records.value| == 15
            && var r := Assemble(records.value); r.Ok? && HoldsSkills(r.value, placed)
  {
    CollectedRecords(results, 1);
    var records := Collected(results, 1).value;
    forall i | 0 <= i < 15 ensures AsBuilt(records[i], i + 1, placed) { assert results[1 + i] == Ok(records[i]); }
    RecordsAssemble(records, placed);
  }

  /** A built card is accepted, and its capabilities are the placed skills in order. */
  lemma {:induction false} CardParses(sources: IdentitySources, placed: seq<string>, tools: Tools)
    requires HexDigest(tools.sha) && Permissive(tools.screen)
    requires |placed| <= SLOTS && forall s :: s in placed ==> Fits(s, tools)
    ensures var r := ParseAgentCard(Image(Records(16, sources, placed, tools)), tools.screen);
            r.Ok? && HoldsSkills(r.value, placed)
  {
    var records, results := BuiltOutcomes(sources, placed, tools);
    BuiltAssembles(results, placed);
    ParsesByOutcomes(Image(records), tools.screen, results);
  }

  /** A complete card of records that fit, whose three images all parse to the same manifest. */
  ghost predicate IsCard(records: map<int, string>, padded: map<int, string>, manifest: Manifest, sc: Screen) {
    && records.Keys == padded.Keys == APPLICATION_SECTORS
    && (forall s :: s in records ==> PadRecord(records[s]) == Some(padded[s]) && |padded[s]| == SLOT_PAYLOAD_BYTES)
    && ParseAgentCard(Image(records), sc) == Ok(manifest)
    && ParseAgentCard(Image(padded), sc) == Ok(manifest)
    && ParseAgentCard(ByteImage(records), sc) == Ok(manifest)
  }

  lemma {:induction false} FitsPadded(record: string)
    requires Printable(record) && |record| <= SLOT_PAYLOAD_BYTES
    ensures Ascii(record) && PadRecord(record) == Some(Ljust(record)) && |Ljust(record)| == SLOT_PAYLOAD_BYTES
  {}

  function Padded(records: map<int, string>): map<int, string> { map s | s in records :: Ljust(records[s]) }

  lemma {:induction false} PaddedFit(records: map<int, string>)
    requires AllFit(records)
    ensures Padded(records).Keys == records.Keys && Image(Padded(records)) == PaddedImage(records)
    ensures forall s :: s in records ==>
              Ascii(records[s]) && PadRecord(records[s]) == Some(Padded(records)[s]) &&
              |Padded(records)[s]| == SLOT_PAYLOAD_BYTES
  {
    forall s | s in records
      ensures Ascii(records[s]) && PadRecord(records[s]) == Some(Ljust(records[s]))
      ensures |Ljust(records[s])| == SLOT_PAYLOAD_BYTES
    {
      FitsPadded(records[s]);
    }
  }

  lemma {:induction false} ImagesAgree(records: map<int, string>, sc: Screen)
    requires records.Keys == APPLICATION_SECTORS && AllFit(records) && ParseAgentCard(Image(records), sc).Ok?
    ensures IsCard(records, Padded(records), ParseAgentCard(Image(records), sc).value, sc)
  {
    PaddedFit(records);
    PaddedImageParsesTheSame(records, sc);
  }

  lemma {:induction false} BuiltIsCard(sources: IdentitySources, placed: seq<string>, tools: Tools)
    requires HexDigest(tools.sha) && Permissive(tools.screen)
    requires |placed| <= SLOTS && forall s :: s in placed ==> Fits(s, tools)
    ensures var records := Records(16, sources, placed, tools);
            var r := ParseAgentCard(Image(records), tools.screen);
            r.Ok? && HoldsSkills(r.value, placed) && IsCard(records, Padded(records), r.value, tools.screen)
  {
    CardParses(sources, placed, tools);
    var records, results := BuiltOutcomes(sources, placed, tools);
    ImagesAgree(records, tools.screen);
  }

  datatype BuildResult = BuildResult(sectorRecords: map<int, string>, paddedRecords: map<int, string>,
                                     manifest: Manifest,
                                     notes: seq<Note>, omittedSigils: seq<string>)

  function Sigils(slugs: seq<string>): seq<string> { seq(|slugs|, i requires 0 <= i < |slugs| => Sigil(slugs[i])) }

  lemma {:induction false} AcceptedIfFits(slot: nat, slug: string, tools: Tools)
    requires HexDigest(tools.sha) && Permissive(tools.screen) && 1 <= slot <= SLOTS
    ensures Parsed(slot + 5, Text(SkillRecord(slot, slug, tools.sha)), tools.screen).Ok? <==> Fits(slug, tools)
  {
    FitsInAnySlot(slot, slug, tools);
  }

  /** Is the parser content with a skill's record? */
  method TrySkill(slot: nat, slug: string, tools: Tools) returns (record: string, fits: bool)
    requires HexDigest(tools.sha) && Permissive(tools.screen) && 1 <= slot <= SLOTS
    ensures record == SkillRecord(slot, slug, tools.sha) && (fits <==> Fits(slug, tools))
  {
    record := SkillRecord(slot, slug, tools.sha);
    AcceptedIfFits(slot, slug, tools);
    var parsed := ParseRecord(slot + 5, Text(record), tools.screen);
    fits := parsed.Ok?;
  }

  /** One pass of the loop over the skills, for a slug that is not blank. */
  method PlaceSkill(records: map<int, string>, c: Choice, slug: string, tools: Tools)
    returns (records': map<int, string>, c': Choice)
    requires HexDigest(tools.sha) && Permissive(tools.screen) && slug != "" && |c.placed| <= SLOTS
    ensures c' == Add(c, slug, tools)
    ensures records' == if |c'.placed| > |c.placed|
                        then records[|c.placed| + 6 := SkillRecord(|c.placed| + 1, slug, tools.sha)] else records
  {
    records', c' := records, c;
    var extensionIndex := |c.placed| + 1;
    if extensionIndex > SLOTS {
      c' := c.(omitted := c.omitted + [slug], notes := if Overflow in c.notes then c.notes else c.notes + [Overflow]);
      return;
    }
    var record, fits := TrySkill(extensionIndex, slug, tools);
    if fits {
      records', c' := records[extensionIndex + 5 := record], c.(placed := c.placed + [slug]);
    } else {
      c' := c.(omitted := c.omitted + [slug], notes := c.notes + [DoesNotFit(slug)]);
    }
  }

  /** Omitting a slug leaves the records as they are; placing it adds one. */
  lemma {:induction false} AddRecord(c: Choice, slug: string, sources: IdentitySources, tools: Tools)
    returns (c': Choice)
    requires slug != "" && |c.placed| <= SLOTS
    ensures c' == Add(c, slug, tools) && |c'.placed| <= SLOTS
    ensures var records := PlacedRecords(sources, c.placed, tools);
            PlacedRecords(sources, c'.placed, tools) ==
            if |c'.placed| > |c.placed| then records[|c.placed| + 6 := SkillRecord(|c.placed| + 1, slug, tools.sha)]
            else records
  {
    c' := Add(c, slug, tools);
    if c'.placed != c.placed {
      assert c'.placed == c.placed + [slug] && |c'.placed| == |c.placed| + 1;
      RecordsWithMore(sources, c.placed, slug, tools);
    }
  }

  lemma {:induction false} ChooseNext(skillSlugs: seq<string>, i: nat, tools: Tools)
    requires i < |skillSlugs|
    ensures Choose(skillSlugs[..i + 1], tools) == Add(Choose(skillSlugs[..i], tools), Strip(skillSlugs[i]), tools)
  {
    assert skillSlugs[..i + 1][..i] == skillSlugs[..i];
  }

  /** What the loop body does with the next slug. */
  method PlaceNext(records: map<int, string>, c: Choice, skillSlugs: seq<string>, i: nat,
                   ghost sources: IdentitySources, tools: Tools)
    returns (records': map<int, string>, c': Choice)
    requires HexDigest(tools.sha) && Permissive(tools.screen) && i < |skillSlugs|
    requires c == Choose(skillSlugs[..i], tools) && |c.placed| <= SLOTS
    requires records == PlacedRecords(sources, c.placed, tools)
    ensures c' == Choose(skillSlugs[..i + 1], tools) && |c'.placed| <= SLOTS
    ensures records' == PlacedRecords(sources, c'.placed, tools)
  {
    var slug := Strip(skillSlugs[i]);
    ChooseNext(skillSlugs, i, tools);
    if slug == "" { return records, c; }
    ghost var next := AddRecord(c, slug, sources, tools);
    records', c' := PlaceSkill(records, c, slug, tools);
  }

  /** The loop over the skills; the records of sectors 1 to 5 are there before it. */
  method PlaceSkills(sources: IdentitySources, skillSlugs: seq<string>, tools: Tools)
    returns (records: map<int, string>, c: Choice)
    requires HexDigest(tools.sha) && Permissive(tools.screen)
    ensures c == Choose(skillSlugs, tools) && |c.placed| <= SLOTS
    ensures records == PlacedRecords(sources, c.placed, tools)
  {
    records, c := Records(6, sources, [], tools), Choice([], [], []);
    for i := 0 to |skillSlugs|
      invariant c == Choose(skillSlugs[..i], tools) && |c.placed| <= SLOTS
      invariant records == PlacedRecords(sources, c.placed, tools)
    {
      records, c := PlaceNext(records, c, skillSlugs, i, sources, tools);
    }
    assert skillSlugs[..|skillSlugs|] == skillSlugs;
  }

  /** The loop that fills the remaining extension sectors. */
  method FillEmpty(records: map<int, string>, sources: IdentitySources, ghost placed: seq<string>, used: nat,
                   tools: Tools)
    returns (filled: map<int, string>)
    requires used == |placed| <= SLOTS && records == Records(6 + used, sources, placed, tools)
    ensures filled == Records(16, sources, placed, tools)
  {
    filled := records;
    var extensionIndex := used + 1;
    while extensionIndex <= SLOTS
      invariant used + 1 <= extensionIndex <= SLOTS + 1
      invariant filled == Records(extensionIndex + 5, sources, placed, tools)
    {
      filled := filled[extensionIndex + 5 := EmptyRecord(extensionIndex, sources.card, tools.sha)];
      extensionIndex := extensionIndex + 1;
    }
  }

  lemma {:induction false} PlacedFit(slugs: seq<string>, tools: Tools)
    ensures forall s :: s in Choose(slugs, tools).placed ==> Fits(s, tools)
  {
    ChoiceMeans(slugs, tools);
    FittingFit(NonBlank(slugs), tools);
  }

  /** `build_agent_card_sector_payloads` */
  method BuildAgentCardSectorPayloads(sources: IdentitySources, skillSlugs: seq<string>, tools: Tools)
    returns (r: Result<BuildResult, Error>)
    requires HexDigest(tools.sha) && Permissive(tools.screen)
    ensures r.Ok?
    ensures var c, b := Choose(skillSlugs, tools), r.value;
            && b.sectorRecords == Records(16, sources, c.placed, tools)
            && IsCard(b.sectorRecords, b.paddedRecords, b.manifest, tools.screen) && HoldsSkills(b.manifest, c.placed)
            && b.notes == c.notes && b.omittedSigils == Sigils(c.omitted)
  {
    var records, c := PlaceSkills(sources, skillSlugs, tools);
    records := FillEmpty(records, sources, c.placed, |c.placed|, tools);
    PlacedFit(skillSlugs, tools);
    BuiltIsCard(sources, c.placed, tools);
    var manifest := ParseAgentCard(Image(records), tools.screen);
    r := match manifest
         case Err(e) => Err(e)
         case Ok(m) => Ok(BuildResult(records, Padded(records), m, c.notes, Sigils(c.omitted)));
  }
}
