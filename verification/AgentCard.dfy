/**
 Parsing an Agent Card (apps/cards/agent_card.py): fifteen sector records of at most
 48 printable bytes. The three regular expressions that screen field values are given.
 */
module AgentCard {
  import opened Wrappers
  import opened PyText

  const SLOT_PAYLOAD_BYTES: nat := 48

  datatype Payload = Text(text: string) | Bytes(bytes: seq<int>)

  datatype Reason = TooLong | NonAscii | NonPrintable | Blank | NotARecord | WrongSlot(code: string)
    | InvalidField(fragment: string) | InvalidKey(key: string) | CredentialLike | ScriptLike | UnrestrictedUrl

  datatype Error = SectorError(sector: int, reason: Reason) | Missing(sectors: set<int>) | Unexpected(sectors: set<int>)
    | Incomplete(slotCode: string)

  /** `CREDENTIAL_RE`, `SCRIPTLIKE_RE` and `UNRESTRICTED_URL_RE`: does the value contain a match? */
  datatype Screen = Screen(credential: string -> bool, script: string -> bool, url: string -> bool)

  datatype Record = Record(sector: int, slotCode: string, fields: map<string, string>, raw: string)

  datatype Manifest = Manifest(manifest: Record, identity: seq<Record>, capability: seq<Record>, files: seq<Record>)

  // ----- Slots -------------------------------------------------------------

  predicate Digits(s: string) { s != "" && forall i :: 0 <= i < |s| ==> '0' <= s[i] <= '9' }

  function Value(digits: string): nat
    requires forall i :: 0 <= i < |digits| ==> '0' <= digits[i] <= '9'
  {
    if digits == "" then 0
    else 10 * Value(digits[..|digits| - 1]) + (digits[|digits| - 1] as nat - '0' as nat)
  }

  /** `_sector_for_slot` */
  function SectorForSlot(code: string): Option<int> {
    if code == "M" then Some(1)
    else if code != "" && code[0] == 'I' && Digits(code[1..]) && 1 <= Value(code[1..]) <= 4 then
      Some(Value(code[1..]) + 1)
    else if |code| == 3 && code[0] in {'K', 'F'} && Digits(code[1..]) && 1 <= Value(code[1..]) <= 10 then
      Some(Value(code[1..]) + 5)
    else None
  }

  // ----- One record --------------------------------------------------------

  predicate Ascii(s: string) { forall i :: 0 <= i < |s| ==> s[i] as int < 128 }

  predicate Printable(s: string) { forall i :: 0 <= i < |s| ==> 32 <= s[i] as int <= 126 }

  predicate AllAscii(b: seq<int>) { forall i :: 0 <= i < |b| ==> 0 <= b[i] < 128 }

  function DecodeAscii(b: seq<int>): string
    requires AllAscii(b)
  {
    seq(|b|, i requires 0 <= i < |b| => b[i] as char)
  }

  function EncodeAscii(s: string): seq<int> { seq(|s|, i requires 0 <= i < |s| => s[i] as int) }

  function RTrim(s: string): string { if s != "" && s[|s| - 1] == ' ' then RTrim(s[..|s| - 1]) else s }

  function TrimPrintable(text: string): Result<string, Reason> {
    if !Printable(text) then Err(NonPrintable)
    else if RTrim(text) == "" then Err(Blank)
    else Ok(RTrim(text))
  }

  /** `_trim_and_validate_payload` */
  function TrimAndValidate(payload: Payload): Result<string, Reason> {
    match payload
    case Bytes(bytes) =>
      if |bytes| > SLOT_PAYLOAD_BYTES then Err(TooLong)
      else if !AllAscii(bytes) then Err(NonAscii)
      else TrimPrintable(DecodeAscii(bytes))
    case Text(text) =>
      if !Ascii(text) then Err(NonAscii)
      else if |text| > SLOT_PAYLOAD_BYTES then Err(TooLong)
      else TrimPrintable(text)
  }

  predicate KeyChar(c: char) { 'A' <= c <= 'Z' || '0' <= c <= '9' || c == '_' }

  /** One `KEY=value` fragment. */
  function Field(fragment: string, sc: Screen): Result<(string, string), Reason> {
    var i := IndexOf(fragment, '=');
    if i == |fragment| then Err(InvalidField(fragment))
    else
      var key, value := fragment[..i], fragment[i + 1..];
      if key == "" || exists j :: 0 <= j < |key| && !KeyChar(key[j]) then Err(InvalidKey(key))
      else if sc.credential(value) then Err(CredentialLike)
      else if sc.script(value) then Err(ScriptLike)
      else if sc.url(value) then Err(UnrestrictedUrl)
      else Ok((key, value))
  }

  /** The fields of the fragments, a later one replacing an earlier; the first bad fragment is the error. */
  function Fields(fragments: seq<string>, fields: map<string, string>, sc: Screen)
    : Result<map<string, string>, Reason>
  {
    if fragments == [] then Ok(fields)
    else match Field(fragments[0], sc)
         case Err(reason) => Err(reason)
         case Ok((key, value)) => Fields(fragments[1..], fields[key := value], sc)
  }

  function ParseRaw(sector: int, raw: string, sc: Screen): Result<Record, Reason> {
    var parts := Split(raw, '|');
    if |parts| < 2 || parts[0] != "AC1" then Err(NotARecord)
    else if SectorForSlot(parts[1]) != Some(sector) then Err(WrongSlot(parts[1]))
    else match Fields(parts[2..], map[], sc)
         case Err(reason) => Err(reason)
         case Ok(fields) => Ok(Record(sector, parts[1], fields, raw))
  }

  /** The record of a sector. */
  function Parsed(sector: int, payload: Payload, sc: Screen): Result<Record, Error> {
    match TrimAndValidate(payload)
    case Err(reason) => Err(SectorError(sector, reason))
    case Ok(raw) => match ParseRaw(sector, raw, sc)
                    case Err(reason) => Err(SectorError(sector, reason))
                    case Ok(record) => Ok(record)
  }

  /** `_parse_record` */
  method ParseRecord(sector: int, payload: Payload, sc: Screen) returns (r: Result<Record, Error>)
    ensures r == Parsed(sector, payload, sc)
  {
    var raw := TrimAndValidate(payload);
    if raw.Err? { return Err(SectorError(sector, raw.error)); }
    var parts := Split(raw.value, '|');
    if |parts| < 2 || parts[0] != "AC1" { return Err(SectorError(sector, NotARecord)); }
    if SectorForSlot(parts[1]) != Some(sector) { return Err(SectorError(sector, WrongSlot(parts[1]))); }
    var fields: map<string, string> := map[];
    for i := 2 to |parts|
      invariant Fields(parts[2..], map[], sc) == Fields(parts[i..], fields, sc)
    {
      assert parts[i..][1..] == parts[i + 1..];
      var field := Field(parts[i], sc);
      if field.Err? { return Err(SectorError(sector, field.error)); }
      fields := fields[field.value.0 := field.value.1];
    }
    r := Ok(Record(sector, parts[1], fields, raw.value));
  }

  // ----- The card ----------------------------------------------------------

  const APPLICATION_SECTORS: set<int> := set s | 1 <= s < 16

  function OfKind(records: seq<Record>, kind: char): seq<Record> {
    if records == [] then []
    else (if records[0].slotCode != "" && records[0].slotCode[0] == kind then [records[0]] else []) +
         OfKind(records[1..], kind)
  }

  predicate IdentityComplete(record: Record) {
    ("VOID" in record.fields && record.fields["VOID"] == "1") ||
    ("NS" in record.fields && "ID" in record.fields && "H" in record.fields)
  }

  type Results = map<int, Result<Record, Error>>

  /** Each application sector's record or error. */
  function Outcomes(payloads: map<int, Payload>, sc: Screen): Results {
    map s | s in payloads && 1 <= s < 16 :: Parsed(s, payloads[s], sc)
  }

  predicate Complete(results: Results) { forall s :: 1 <= s < 16 ==> s in results }

  /** The records of the sectors from `sector` to 15, or the first error. */
  function Collected(results: Results, sector: int): Result<seq<Record>, Error>
    requires Complete(results) && 1 <= sector <= 16
    decreases 16 - sector
  {
    if sector == 16 then Ok([])
    else match results[sector]
         case Err(e) => Err(e)
         case Ok(first) => match Collected(results, sector + 1)
                           case Err(e) => Err(e)
                           case Ok(rest) => Ok([first] + rest)
  }

  function FirstIncomplete(identity: seq<Record>): Option<Record> {
    if identity == [] then None
    else if IdentityComplete(identity[0]) then FirstIncomplete(identity[1..])
    else Some(identity[0])
  }

  /** The manifest of fifteen records. */
  function Assemble(records: seq<Record>): Result<Manifest, Error>
    requires |records| == 15
  {
    match FirstIncomplete(records[1..5])
    case Some(record) => Err(Incomplete(record.slotCode))
    case None => Ok(Manifest(records[0], records[1..5], OfKind(records[5..], 'K'), OfKind(records[5..], 'F')))
  }

  lemma {:induction false} CollectedRecords(results: Results, sector: int)
    requires Complete(results) && 1 <= sector <= 16
    ensures var r := Collected(results, sector);
            && (r.Ok? <==> forall s :: sector <= s < 16 ==> results[s].Ok?)
            && (r.Ok? ==> |r.value| == 16 - sector &&
                          forall i :: 0 <= i < |r.value| ==> results[sector + i] == Ok(r.value[i]))
    decreases 16 - sector
  {
    if sector < 16 {
      CollectedRecords(results, sector + 1);
      var r := Collected(results, sector);
      if r.Ok? {
        var rest := Collected(results, sector + 1).value;
        forall i | 0 <= i < |r.value| ensures results[sector + i] == Ok(r.value[i]) {
          if i > 0 { assert r.value[i] == rest[i - 1] && sector + i == sector + 1 + (i - 1); }
        }
      }
    }
  }

  lemma {:induction false} AllThere(payloads: map<int, Payload>, sc: Screen)
    requires APPLICATION_SECTORS - payloads.Keys == {}
    ensures Complete(Outcomes(payloads, sc))
  {
    forall s | 1 <= s < 16 ensures s in payloads {
      assert s in APPLICATION_SECTORS && s !in APPLICATION_SECTORS - payloads.Keys;
    }
  }

  /** `parse_agent_card` */
  function ParseAgentCard(payloads: map<int, Payload>, sc: Screen): Result<Manifest, Error> {
    if APPLICATION_SECTORS - payloads.Keys != {} then Err(Missing(APPLICATION_SECTORS - payloads.Keys))
    else if payloads.Keys - APPLICATION_SECTORS != {} then Err(Unexpected(payloads.Keys - APPLICATION_SECTORS))
    else
      AllThere(payloads, sc);
      CollectedRecords(Outcomes(payloads, sc), 1);
      match Collected(Outcomes(payloads, sc), 1)
      case Err(e) => Err(e)
      case Ok(records) => Assemble(records)
  }

  /** A card with all its sectors is what their outcomes make of it. */
  lemma {:induction false} ParsesByOutcomes(payloads: map<int, Payload>, sc: Screen, results: Results)
    requires payloads.Keys == APPLICATION_SECTORS && results == Outcomes(payloads, sc) && Complete(results)
    requires Collected(results, 1).Ok?
    ensures |Collected(results, 1).value| == 15 && ParseAgentCard(payloads, sc) == Assemble(Collected(results, 1).value)
  {
    CollectedRecords(results, 1);
  }

  // ----- Padding and encoding make no difference ----------------------------

  function Ljust(record: string): string {
    if |record| >= SLOT_PAYLOAD_BYTES then record else record + seq(SLOT_PAYLOAD_BYTES - |record|, _ => ' ')
  }

  /** `_pad_record`: None when the record is not ASCII or too long. */
  function PadRecord(record: string): Option<string> {
    if !Ascii(record) || |record| > SLOT_PAYLOAD_BYTES then None else Some(Ljust(record))
  }

  lemma {:induction false} RTrimSpaces(s: string, n: nat)
    ensures RTrim(s + seq(n, _ => ' ')) == RTrim(s)
  {
    var padded := s + seq(n, _ => ' ');
    if n == 0 {
      assert padded == s;
    } else {
      assert padded[..|padded| - 1] == s + seq(n - 1, _ => ' ');
      RTrimSpaces(s, n - 1);
    }
  }

  /** A record and its padded form, as text or as bytes, read the same. */
  lemma {:induction false} PaddedReadsTheSame(record: string)
    requires |record| <= SLOT_PAYLOAD_BYTES
    ensures TrimAndValidate(Text(Ljust(record))) == TrimAndValidate(Text(record))
    ensures Ascii(record) ==> TrimAndValidate(Bytes(EncodeAscii(record))) == TrimAndValidate(Text(record))
  {
    var padded := Ljust(record);
    if |record| < SLOT_PAYLOAD_BYTES {
      var n := SLOT_PAYLOAD_BYTES - |record|;
      assert padded == record + seq(n, _ => ' ');
      RTrimSpaces(record, n);
      assert forall i :: 0 <= i < |record| ==> padded[i] == record[i];
      assert forall i :: |record| <= i < |padded| ==> padded[i] == ' ';
    }
    if Ascii(record) {
      assert DecodeAscii(EncodeAscii(record)) == record;
    }
  }

  /** Images whose sectors read the same parse to the same manifest or the same error. */
  lemma {:induction false} SameImages(a: map<int, Payload>, b: map<int, Payload>, sc: Screen)
    requires a.Keys == b.Keys && forall s :: s in a ==> TrimAndValidate(a[s]) == TrimAndValidate(b[s])
    ensures ParseAgentCard(a, sc) == ParseAgentCard(b, sc)
  {
    assert Outcomes(a, sc) == Outcomes(b, sc);
  }

  function Image(records: map<int, string>): map<int, Payload> { map s | s in records :: Text(records[s]) }

  function PaddedImage(records: map<int, string>): map<int, Payload> { map s | s in records :: Text(Ljust(records[s])) }

  function ByteImage(records: map<int, string>): map<int, Payload> {
    map s | s in records :: Bytes(EncodeAscii(records[s]))
  }

  /** Whatever the records are, their padded image parses like the unpadded one; so do their bytes if they are ASCII. */
  lemma {:induction false} PaddedImageParsesTheSame(records: map<int, string>, sc: Screen)
    requires forall s :: s in records ==> |records[s]| <= SLOT_PAYLOAD_BYTES
    ensures ParseAgentCard(PaddedImage(records), sc) == ParseAgentCard(Image(records), sc)
    ensures (forall s :: s in records ==> Ascii(records[s])) ==>
              ParseAgentCard(ByteImage(records), sc) == ParseAgentCard(Image(records), sc)
  {
    forall s | s in records ensures TrimAndValidate(PaddedImage(records)[s]) == TrimAndValidate(Image(records)[s]) {
      PaddedReadsTheSame(records[s]);
    }
    SameImages(PaddedImage(records), Image(records), sc);
    if forall s :: s in records ==> Ascii(records[s]) {
      forall s | s in records ensures TrimAndValidate(ByteImage(records)[s]) == TrimAndValidate(Image(records)[s]) {
        PaddedReadsTheSame(records[s]);
      }
      SameImages(ByteImage(records), Image(records), sc);
    }
  }

  // ----- What an accepted card looks like -----------------------------------

  lemma {:induction false} KindsPartition(records: seq<Record>)
    requires forall i :: 0 <= i < |records| ==> records[i].slotCode != "" && records[i].slotCode[0] in {'K', 'F'}
    ensures |OfKind(records, 'K')| + |OfKind(records, 'F')| == |records|
    ensures multiset(OfKind(records, 'K')) + multiset(OfKind(records, 'F')) == multiset(records)
  {
    if records != [] {
      KindsPartition(records[1..]);
      assert records == [records[0]] + records[1..];
    }
  }

  lemma {:induction false} SlotKind(code: string, sector: int)
    requires SectorForSlot(code) == Some(sector) && sector >= 6
    ensures code != "" && code[0] in {'K', 'F'}
  {}

  predicate InSlot(record: Record, sector: int) {
    record.sector == sector && SectorForSlot(record.slotCode) == Some(sector)
  }

  lemma {:induction false} ParsedInSlot(sector: int, payload: Payload, sc: Screen)
    ensures var r := Parsed(sector, payload, sc); r.Ok? ==> InSlot(r.value, sector)
  {}

  /** The fifteen records behind an accepted card. */
  lemma {:induction false} AcceptedRecords(payloads: map<int, Payload>, sc: Screen) returns (records: seq<Record>)
    requires ParseAgentCard(payloads, sc).Ok?
    ensures |records| == 15 && payloads.Keys == APPLICATION_SECTORS
    ensures forall i :: 0 <= i < 15 ==> InSlot(records[i], i + 1)
    ensures ParseAgentCard(payloads, sc) == Assemble(records)
  {
    assert payloads.Keys == APPLICATION_SECTORS;
    AllThere(payloads, sc);
    var results := Outcomes(payloads, sc);
    CollectedRecords(results, 1);
    records := Collected(results, 1).value;
    forall i | 0 <= i < 15 ensures InSlot(records[i], i + 1) {
      assert results[1 + i] == Ok(records[i]);
      ParsedInSlot(1 + i, payloads[1 + i], sc);
    }
  }

  lemma {:induction false} ExtensionsPartition(records: seq<Record>)
    requires |records| == 15 && forall i :: 0 <= i < 15 ==> InSlot(records[i], i + 1)
    ensures |OfKind(records[5..], 'K')| + |OfKind(records[5..], 'F')| == 10
    ensures multiset(OfKind(records[5..], 'K')) + multiset(OfKind(records[5..], 'F')) == multiset(records[5..])
  {
    forall i | 0 <= i < 10 ensures records[5..][i].slotCode != "" && records[5..][i].slotCode[0] in {'K', 'F'} {
      assert InSlot(records[i + 5], i + 5 + 1);
      SlotKind(records[i + 5].slotCode, i + 6);
    }
    KindsPartition(records[5..]);
  }

  lemma {:induction false} NoneIncomplete(identity: seq<Record>)
    ensures FirstIncomplete(identity) == None <==> forall i :: 0 <= i < |identity| ==> IdentityComplete(identity[i])
  {
    if identity != [] {
      NoneIncomplete(identity[1..]);
      assert forall i :: 0 < i < |identity| ==> identity[i] == identity[1..][i - 1];
    }
  }

  /**
   An accepted card has its manifest in sector 1, four complete identity records in
   2 to 5, and every one of the ten extension records exactly once as capability or file.
   */
  lemma {:induction false} AcceptedCard(payloads: map<int, Payload>, sc: Screen) returns (records: seq<Record>)
    requires ParseAgentCard(payloads, sc).Ok?
    ensures |records| == 15 && forall i :: 0 <= i < 15 ==> InSlot(records[i], i + 1)
    ensures var m := ParseAgentCard(payloads, sc).value;
            && m.manifest == records[0] && m.manifest.slotCode == "M" && m.identity == records[1..5]
            && (forall i :: 0 <= i < 4 ==> IdentityComplete(m.identity[i]))
            && multiset(m.capability) + multiset(m.files) == multiset(records[5..])
            && |m.capability| + |m.files| == 10
  {
    records := AcceptedRecords(payloads, sc);
    assert InSlot(records[0], 1);
    NoneIncomplete(records[1..5]);
    ExtensionsPartition(records);
  }
}
