/**
 The on-card format: block addresses, the fixed-width ASCII codec, sector
 trailers, and the trait codec that spreads one key and one value over a pair
 of sectors (apps/cards/classic_layout.py).
 */
module CardLayout {
  import opened Bytes
  import opened Wrappers

  const SECTOR_DATA_BLOCKS: nat := 3
  const SECTOR_TRAILER_OFFSET: nat := 3
  const FIRST_MANAGED_SECTOR: nat := 3
  const LAST_MANAGED_SECTOR: nat := 15
  const FIRST_TRAIT_SECTOR: nat := 3
  const LAST_TRAIT_SECTOR: nat := 14
  const TRAIT_KEY_BYTES: nat := 16
  const TRAIT_VALUE_BYTES: nat := 80
  const WRITER_ID_BYTES: nat := 16
  const TRAIT_PAIRS: nat := 6
  const CARD_BLOCKS: nat := 64

  type Block = b: seq<Byte> | |b| == 16 witness seq(16, _ => 0)
  type Key = k: seq<Byte> | |k| == 6 witness seq(6, _ => 255)

  /** The keys of one sector, as `sector_keys` stores them. */
  datatype KeyRecord = KeyRecord(keyA: Key, keyB: Key)

  /** One normalized entry of the `traits` field of a tag. */
  datatype TraitRecord = TraitRecord(value: string, sector: Option<int>, sectors: seq<int>)

  const FACTORY_KEY: Key := [255, 255, 255, 255, 255, 255]
  const FACTORY_KEYS: KeyRecord := KeyRecord(FACTORY_KEY, FACTORY_KEY)

  // ----- Addresses ---------------------------------------------------------

  function SectorBlock(sector: nat, offset: nat): nat
    requires offset <= if sector < 32 then SECTOR_TRAILER_OFFSET else 15
  {
    if sector < 32 then sector * 4 + offset else 128 + (sector - 32) * 16 + offset
  }

  function SectorForBlock(block: nat): nat {
    if block < 128 then block / 4 else 32 + (block - 128) / 16
  }

  function TrailerBlock(sector: nat): nat {
    SectorBlock(sector, if sector < 32 then SECTOR_TRAILER_OFFSET else 15)
  }

  predicate IsTrailerBlock(block: int) {
    if block < 0 then false
    else if block < 128 then block % 4 == 3
    else (block - 128) % 16 == 15
  }

  /** Addressing is a bijection between blocks and (sector, offset), for small and large sectors. */
  lemma {:induction false} AddressRoundTrip(sector: nat, offset: nat)
    requires offset <= if sector < 32 then SECTOR_TRAILER_OFFSET else 15
    ensures SectorForBlock(SectorBlock(sector, offset)) == sector
    ensures IsTrailerBlock(SectorBlock(sector, offset)) <==> SectorBlock(sector, offset) == TrailerBlock(sector)
  {
    if sector >= 32 {
      var k := sector - 32;
      assert (k * 16 + offset) / 16 == k && (k * 16 + offset) % 16 == offset;
    }
  }

  function PairSector(i: nat): nat { FIRST_TRAIT_SECTOR + 2 * i }

  predicate IsPairStart(sector: int) {
    exists i: nat :: i < TRAIT_PAIRS && sector == PairSector(i)
  }

  /** Block `j` of pair `i`: the three data blocks of its first sector, then of its second. */
  function PairBlock(i: nat, j: nat): nat
    requires j < 6
  {
    if j < 3 then SectorBlock(PairSector(i), j) else SectorBlock(PairSector(i) + 1, j - 3)
  }

  // ----- Text --------------------------------------------------------------

  predicate IsControl(c: char) {
    var n := c as int;
    n <= 8 || n == 11 || n == 12 || 14 <= n <= 31 || n == 127
  }

  /** `clean_ascii_text`: newline folding, then removal of control characters. */
  function Clean(s: string, allowNewlines: bool): string {
    if s == "" then ""
    else if allowNewlines && |s| >= 2 && s[0] == '\r' && s[1] == '\n' then "\n" + Clean(s[2..], allowNewlines)
    else if s[0] == '\r' || s[0] == '\n' then [if allowNewlines then '\n' else ' '] + Clean(s[1..], allowNewlines)
    else if IsControl(s[0]) then Clean(s[1..], allowNewlines)
    else [s[0]] + Clean(s[1..], allowNewlines)
  }

  /** `encode("ascii", errors="ignore")` */
  function AsciiBytes(s: string): seq<Byte> {
    if s == "" then []
    else if s[0] as int < 128 then [s[0] as int] + AsciiBytes(s[1..])
    else AsciiBytes(s[1..])
  }

  /** `decode("ascii", errors="ignore")` */
  function AsciiText(b: seq<Byte>): string {
    if b == [] then ""
    else if b[0] < 128 then [b[0] as char] + AsciiText(b[1..])
    else AsciiText(b[1..])
  }

  function NormalizeText(s: string, allowNewlines: bool): string {
    AsciiText(AsciiBytes(Clean(s, allowNewlines)))
  }

  /** The characters a normalized text can hold. */
  predicate IsPlain(c: char, allowNewlines: bool) {
    c as int < 128 && !IsControl(c) && c != '\r' && (allowNewlines || c != '\n')
  }

  predicate AllPlain(s: string, allowNewlines: bool) {
    forall i :: 0 <= i < |s| ==> IsPlain(s[i], allowNewlines)
  }

  function NormalizeTraitKey(s: string): Option<string> {
    var text := NormalizeText(s, false);
    if text == "" || |text| > TRAIT_KEY_BYTES then None else Some(text)
  }

  function NormalizeTraitValue(s: string): Option<string> {
    var text := NormalizeText(s, true);
    if |text| > TRAIT_VALUE_BYTES then None else Some(text)
  }

  const DEFAULT_WRITER_ID: string := "ARTHEXIS"

  function NormalizeWriterId(s: string): Option<string> {
    var text := NormalizeText(if s == "" then DEFAULT_WRITER_ID else s, false);
    if |text| > WRITER_ID_BYTES then None else Some(text)
  }

  lemma {:induction false} CleanIsPlain(s: string, nl: bool)
    ensures forall i :: 0 <= i < |Clean(s, nl)| ==>
              !IsControl(Clean(s, nl)[i]) && Clean(s, nl)[i] != '\r' && (nl || Clean(s, nl)[i] != '\n')
  {
    if s != "" {
      CleanIsPlain(s[1..], nl);
      if nl && |s| >= 2 { CleanIsPlain(s[2..], nl); }
    }
  }

  lemma {:induction false} AsciiFilter(s: string)
    ensures forall i :: 0 <= i < |AsciiText(AsciiBytes(s))| ==>
              AsciiText(AsciiBytes(s))[i] as int < 128 && AsciiText(AsciiBytes(s))[i] in s
  {
    if s != "" {
      AsciiFilter(s[1..]);
      if s[0] as int < 128 {
        assert AsciiBytes(s)[1..] == AsciiBytes(s[1..]);
        assert AsciiText(AsciiBytes(s)) == [s[0]] + AsciiText(AsciiBytes(s[1..]));
      }
    }
  }

  lemma {:induction false} PlainIsFixed(s: string, nl: bool)
    requires AllPlain(s, nl)
    ensures Clean(s, nl) == s && AsciiText(AsciiBytes(s)) == s && |AsciiBytes(s)| == |s|
    ensures forall i :: 0 <= i < |s| ==> AsciiBytes(s)[i] == s[i] as int
  {
    if s != "" {
      assert IsPlain(s[0], nl);
      assert AllPlain(s[1..], nl) by {
        forall i | 0 <= i < |s[1..]| ensures IsPlain(s[1..][i], nl) { assert s[1..][i] == s[i + 1]; }
      }
      PlainIsFixed(s[1..], nl);
      assert AsciiBytes(s)[1..] == AsciiBytes(s[1..]);
      forall i | 0 <= i < |s| ensures AsciiBytes(s)[i] == s[i] as int {
        if i > 0 { assert AsciiBytes(s)[i] == AsciiBytes(s[1..])[i - 1]; }
      }
    }
  }

  /** Normalizing yields plain text and is the identity exactly on plain text. */
  lemma {:induction false} NormalizedIsPlain(s: string, nl: bool)
    ensures AllPlain(NormalizeText(s, nl), nl)
    ensures NormalizeText(s, nl) == s <==> AllPlain(s, nl)
  {
    CleanIsPlain(s, nl);
    AsciiFilter(Clean(s, nl));
    if AllPlain(s, nl) { PlainIsFixed(s, nl); }
  }

  lemma {:induction false} DefaultWriterIsPlain()
    ensures AllPlain(DEFAULT_WRITER_ID, false) && DEFAULT_WRITER_ID != ""
    ensures |DEFAULT_WRITER_ID| <= WRITER_ID_BYTES
  {
    forall i | 0 <= i < |DEFAULT_WRITER_ID| ensures IsPlain(DEFAULT_WRITER_ID[i], false) {}
  }

  // ----- The fixed-width codec ---------------------------------------------

  function Zeros(n: nat): (r: seq<Byte>)
    ensures |r| == n
  {
    seq(n, _ => 0)
  }

  const ZERO_BLOCK: Block := Zeros(16)

  function EncodeFixedAscii(s: string, length: nat, allowNewlines: bool): (r: Option<seq<Byte>>)
    ensures r.Some? ==> |r.value| == length
  {
    var encoded := AsciiBytes(Clean(s, allowNewlines));
    if |encoded| > length then None else Some(encoded + Zeros(length - |encoded|))
  }

  function StripPadding(b: seq<Byte>): seq<Byte> {
    if b != [] && (b[|b| - 1] == 0 || b[|b| - 1] == 32) then StripPadding(b[..|b| - 1]) else b
  }

  function DecodeFixedAscii(b: seq<Byte>): string { AsciiText(StripPadding(b)) }

  predicate EndsInSpace(s: string) { s != "" && s[|s| - 1] == ' ' }

  lemma {:induction false} StripZeros(b: seq<Byte>, n: nat)
    ensures StripPadding(b + Zeros(n)) == StripPadding(b)
  {
    if n == 0 {
      assert b + Zeros(0) == b;
    } else {
      assert (b + Zeros(n))[..|b| + n - 1] == b + Zeros(n - 1);
      StripZeros(b, n - 1);
    }
  }

  lemma {:induction false} StripIsPrefix(b: seq<Byte>)
    ensures StripPadding(b) <= b
    ensures StripPadding(b) != [] ==> StripPadding(b)[|StripPadding(b)| - 1] !in {0, 32}
  {
    if b != [] && (b[|b| - 1] == 0 || b[|b| - 1] == 32) { StripIsPrefix(b[..|b| - 1]); }
  }

  lemma {:induction false} AsciiTextPlain(b: seq<Byte>)
    requires forall i :: 0 <= i < |b| ==> b[i] < 128
    ensures |AsciiText(b)| == |b| && forall i :: 0 <= i < |b| ==> AsciiText(b)[i] as int == b[i]
  {
    if b != [] { AsciiTextPlain(b[1..]); }
  }

  lemma {:induction false} DecodedNeverEndsInSpace(b: seq<Byte>)
    ensures !EndsInSpace(DecodeFixedAscii(b)) || exists i :: 0 <= i < |b| && b[i] >= 128
  {
    var s := StripPadding(b);
    StripIsPrefix(b);
    if forall i :: 0 <= i < |b| ==> b[i] < 128 {
      AsciiTextPlain(s);
    }
  }

  lemma {:induction false} PlainIsKeptWhole(s: string, nl: bool)
    requires AllPlain(s, nl) && !EndsInSpace(s)
    ensures StripPadding(AsciiBytes(s)) == AsciiBytes(s)
  {
    PlainIsFixed(s, nl);
    if s != "" { assert IsPlain(s[|s| - 1], nl); }
  }

  /**
   A plain text that fits encodes, and it decodes to itself exactly when it does
   not end in a space: the decoder cannot tell a trailing space from padding.
   */
  lemma {:induction false} FixedAsciiRoundTrip(s: string, length: nat, nl: bool)
    requires AllPlain(s, nl) && |s| <= length
    ensures EncodeFixedAscii(s, length, nl).Some?
    ensures DecodeFixedAscii(EncodeFixedAscii(s, length, nl).value) == s <==> !EndsInSpace(s)
    ensures !EndsInSpace(DecodeFixedAscii(EncodeFixedAscii(s, length, nl).value))
  {
    PlainIsFixed(s, nl);
    var e := AsciiBytes(s);
    StripZeros(e, length - |e|);
    DecodedNeverEndsInSpace(e);
    assert StripPadding(e + Zeros(length - |e|)) == StripPadding(e);
    if !EndsInSpace(s) { PlainIsKeptWhole(s, nl); }
  }

  // ----- Sector keys -------------------------------------------------------

  const ACCESS_BYTES: seq<Byte> := [0xFF, 0x07, 0x80, 0x69]

  function BuildSectorTrailer(keys: KeyRecord): Block {
    keys.keyA + ACCESS_BYTES + keys.keyB
  }

  /** The keys a trailer block carries. */
  function TrailerKeys(trailer: Block): KeyRecord {
    KeyRecord(trailer[..6], trailer[10..])
  }

  predicate IsManaged(sector: int) { FIRST_MANAGED_SECTOR <= sector <= LAST_MANAGED_SECTOR }

  /** The keys of every managed sector: the recorded ones, else newly generated ones. */
  method EnsureSectorKeyRecords(keys: map<int, KeyRecord>, generated: seq<KeyRecord>)
    returns (records: map<int, KeyRecord>)
    requires |generated| > LAST_MANAGED_SECTOR
    ensures forall s :: s in records <==> s in keys || IsManaged(s)
    ensures forall s :: s in keys ==> records[s] == keys[s]
    ensures forall s :: s in records && s !in keys ==> IsManaged(s) && records[s] == generated[s]
  {
    records := keys;
    for sector := FIRST_MANAGED_SECTOR to LAST_MANAGED_SECTOR + 1
      invariant forall s :: s in records <==> s in keys || (IsManaged(s) && s < sector)
      invariant forall s :: s in keys ==> records[s] == keys[s]
      invariant forall s :: s in records && s !in keys ==> IsManaged(s) && records[s] == generated[s]
    {
      if sector !in records { records := records[sector := generated[sector]]; }
    }
  }

  // ----- Traits ------------------------------------------------------------

  function PairRecord(value: string, sector: int): TraitRecord {
    TraitRecord(value, Some(sector), [sector, sector + 1])
  }

  /** `build_trait_block_payloads`; None stands for the CardLayoutError it raises. */
  function BuildTraitBlockPayloads(start: int, key: string, value: string): (r: Option<seq<Block>>)
    ensures r.Some? ==> |r.value| == 6
  {
    var k := NormalizeTraitKey(key);
    var v := NormalizeTraitValue(value);
    if !IsPairStart(start) || k.None? || v.None? then None
    else
      var keyBlock := EncodeFixedAscii(k.value, TRAIT_KEY_BYTES, false);
      var data := EncodeFixedAscii(v.value, TRAIT_VALUE_BYTES, true);
      if keyBlock.None? || data.None? then None
      else Some([keyBlock.value, data.value[0..16], data.value[16..32], data.value[32..48],
                 data.value[48..64], data.value[64..80]])
  }

  function BlockAt(dump: map<nat, Block>, block: nat): Block {
    if block in dump then dump[block] else ZERO_BLOCK
  }

  function Joined(b1: seq<Byte>, b2: seq<Byte>, b3: seq<Byte>, b4: seq<Byte>, b5: seq<Byte>): seq<Byte> {
    b1 + b2 + b3 + b4 + b5
  }

  function PairValueBytes(dump: map<nat, Block>, i: nat): seq<Byte> {
    Joined(BlockAt(dump, PairBlock(i, 1)), BlockAt(dump, PairBlock(i, 2)), BlockAt(dump, PairBlock(i, 3)),
           BlockAt(dump, PairBlock(i, 4)), BlockAt(dump, PairBlock(i, 5)))
  }

  /** The content of one pair: nothing, or one key with its record. */
  type Entry = Option<(string, TraitRecord)>

  /** What pair `i` of a dump holds: nothing, or one key with its record. */
  function DecodePair(dump: map<nat, Block>, i: nat): Entry {
    var keyBlock := BlockAt(dump, PairBlock(i, 0));
    if keyBlock == ZERO_BLOCK then None
    else
      var key := DecodeFixedAscii(keyBlock);
      if key == "" then None
      else Some((key, PairRecord(DecodeFixedAscii(PairValueBytes(dump, i)), PairSector(i))))
  }

  /** An insertion-ordered dictionary, as Python's `dict` iterates it. */
  type TraitDict = seq<(string, TraitRecord)>

  function DictSet(d: TraitDict, key: string, record: TraitRecord): TraitDict {
    if d == [] then [(key, record)]
    else if d[0].0 == key then [(key, record)] + d[1..]
    else [d[0]] + DictSet(d[1..], key, record)
  }

  function DictMap(d: TraitDict): map<string, TraitRecord> {
    if d == [] then map[] else DictMap(d[1..])[d[0].0 := d[0].1]
  }

  /** What each of the first `n` pairs holds. */
  function Entries(dump: map<nat, Block>, n: nat): (r: seq<Entry>)
    ensures |r| == n
  {
    seq(n, i requires 0 <= i => DecodePair(dump, i))
  }

  /** The dictionary built by storing the entries one after the other. */
  function Collect(entries: seq<Entry>): TraitDict {
    if entries == [] then []
    else
      var earlier := Collect(entries[..|entries| - 1]);
      match entries[|entries| - 1]
      case None => earlier
      case Some(entry) => DictSet(earlier, entry.0, entry.1)
  }

  /** The traits on a card, as a map. */
  function CardTraits(dump: map<nat, Block>): map<string, TraitRecord> {
    DictMap(Collect(Entries(dump, TRAIT_PAIRS)))
  }

  method DecodeTraitsFromDump(dump: map<nat, Block>) returns (traits: TraitDict)
    ensures traits == Collect(Entries(dump, TRAIT_PAIRS))
  {
    traits := [];
    for i := 0 to TRAIT_PAIRS
      invariant traits == Collect(Entries(dump, i))
    {
      assert Entries(dump, i + 1)[..i] == Entries(dump, i);
      var keyBlock := BlockAt(dump, PairBlock(i, 0));
      if keyBlock == ZERO_BLOCK { continue; }
      var key := DecodeFixedAscii(keyBlock);
      if key == "" { continue; }
      var value := DecodeFixedAscii(PairValueBytes(dump, i));
      traits := DictSet(traits, key, PairRecord(value, PairSector(i)));
    }
  }

  function NormalizedRecord(record: TraitRecord): TraitRecord {
    var value := match NormalizeTraitValue(record.value)
      case Some(text) => text
      case None =>
        var cleaned := Clean(record.value, true);
        if |cleaned| > TRAIT_VALUE_BYTES then cleaned[..TRAIT_VALUE_BYTES] else cleaned;
    var sectors := if record.sector.Some? && record.sectors == []
                   then [record.sector.value, record.sector.value + 1] else record.sectors;
    TraitRecord(value, record.sector, sectors)
  }

  function NormalizeTraits(d: TraitDict): map<string, TraitRecord> {
    if d == [] then map[]
    else
      var earlier := NormalizeTraits(d[..|d| - 1]);
      match NormalizeTraitKey(d[|d| - 1].0)
      case None => earlier
      case Some(key) => earlier[key := NormalizedRecord(d[|d| - 1].1)]
  }

  method NormalizeTraitRecords(d: TraitDict) returns (records: map<string, TraitRecord>)
    ensures records == NormalizeTraits(d)
  {
    records := map[];
    for i := 0 to |d|
      invariant records == NormalizeTraits(d[..i])
    {
      assert d[..i + 1][..i] == d[..i];
      var key := NormalizeTraitKey(d[i].0);
      if key.None? { continue; }
      records := records[key.value := NormalizedRecord(d[i].1)];
    }
    assert d[..|d|] == d;
  }

  function SectorsOf(records: map<string, TraitRecord>, keys: set<string>): set<int> {
    set k, s | k in keys && k in records && s in records[k].sectors :: s
  }

  function UsedSectors(records: map<string, TraitRecord>): set<int> {
    SectorsOf(records, records.Keys)
  }

  lemma {:induction false} AddSectorsOf(records: map<string, TraitRecord>, keys: set<string>, k: string)
    requires k in records
    ensures SectorsOf(records, keys + {k}) == SectorsOf(records, keys) + set s | s in records[k].sectors
  {
    forall s | s in records[k].sectors ensures s in SectorsOf(records, keys + {k}) {
      assert k in keys + {k};
    }
  }

  predicate PairFree(used: set<int>, i: nat) { PairSector(i) !in used && PairSector(i) + 1 !in used }

  /** The first pair no record uses, searching from pair `i`. */
  function FirstFree(used: set<int>, i: nat): (r: Option<int>)
    requires i <= TRAIT_PAIRS
    ensures r.Some? ==> exists j: nat :: i <= j < TRAIT_PAIRS && r.value == PairSector(j) && PairFree(used, j)
    ensures r.Some? ==> forall j: nat :: i <= j && PairSector(j) < r.value ==> !PairFree(used, j)
    ensures r.None? ==> forall j: nat :: i <= j < TRAIT_PAIRS ==> !PairFree(used, j)
    decreases TRAIT_PAIRS - i
  {
    if i == TRAIT_PAIRS then None
    else if PairFree(used, i) then Some(PairSector(i))
    else FirstFree(used, i + 1)
  }

  method FirstEmptyTraitSector(records: map<string, TraitRecord>) returns (sector: Option<int>)
    ensures sector == FirstFree(UsedSectors(records), 0)
  {
    var used: set<int> := {};
    var pending := records.Keys;
    while pending != {}
      invariant pending <= records.Keys
      invariant used == SectorsOf(records, records.Keys - pending)
    {
      var k :| k in pending;
      AddSectorsOf(records, records.Keys - pending, k);
      used := used + set s | s in records[k].sectors;
      pending := pending - {k};
      assert records.Keys - pending == (records.Keys - (pending + {k})) + {k};
    }
    assert records.Keys - pending == records.Keys;
    for i := 0 to TRAIT_PAIRS
      invariant FirstFree(used, 0) == FirstFree(used, i)
    {
      if PairFree(used, i) { return Some(PairSector(i)); }
    }
    return None;
  }
}
