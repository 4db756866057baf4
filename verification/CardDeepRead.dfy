/**
 The deep read: dump every block that some candidate key opens, and refresh the
 tag record from the dump (apps/cards/reader.py, `_read_deep_classic_tag_data`).
 */
module CardDeepRead {
  import opened PyText
  import opened Wrappers
  import opened CardLayout
  import opened TraitStore
  import opened CardReader
  import opened CardRefresh
  import opened CardSteps

  // ----- Candidate keys ----------------------------------------------------

  const COMMON_KEYS: seq<Key> := [
    FACTORY_KEY,
    [0xA0, 0xA1, 0xA2, 0xA3, 0xA4, 0xA5],
    [0xB0, 0xB1, 0xB2, 0xB3, 0xB4, 0xB5],
    [0x00, 0x00, 0x00, 0x00, 0x00, 0x00],
    [0xD3, 0xF7, 0xD3, 0xF7, 0xD3, 0xF7],
    [0xAA, 0xBB, 0xCC, 0xDD, 0xEE, 0xFF],
    [0x1A, 0x2B, 0x3C, 0x4D, 0x5E, 0x6F],
    [0x4D, 0x3A, 0x99, 0xC3, 0x51, 0xDD],
    [0x12, 0x34, 0x56, 0x78, 0x9A, 0xBC],
    [0xAB, 0xCD, 0xEF, 0x12, 0x34, 0x56]
  ]

  function AddKey(keys: seq<Key>, key: Key): (r: seq<Key>)
    ensures keys <= r && key in r
  {
    if key in keys then keys else keys + [key]
  }

  function AddKeys(keys: seq<Key>, more: seq<Key>): (r: seq<Key>)
    ensures keys <= r
    decreases |more|
  {
    if more == [] then keys else AddKeys(AddKey(keys, more[0]), more[1..])
  }

  /** `_build_key_candidates`: the tag's own key, then the common ones while it is unverified. */
  function KeyCandidates(key: Option<Key>, verified: bool): seq<Key> {
    var own: seq<Key> := if key.Some? then [key.value] else [];
    var keys := if verified then own else AddKeys(own, COMMON_KEYS);
    if keys == [] then [FACTORY_KEY] else keys
  }

  /** `_build_sector_key_candidates` */
  function SectorKeyCandidates(sectorKeys: map<int, KeyRecord>, key: Option<Key>, verified: bool, sector: nat,
                               t: KeyType): (r: seq<Key>)
    ensures FACTORY_KEY in r
    ensures sector in sectorKeys ==> CandidateKey(sectorKeys[sector], t) in r
  {
    var reserved: seq<Key> := if sector == 0 || sector == 1 then [FACTORY_KEY] else [];
    var recorded := if sector in sectorKeys then AddKey(reserved, CandidateKey(sectorKeys[sector], t)) else reserved;
    AddKey(AddKeys(recorded, KeyCandidates(key, verified)), FACTORY_KEY)
  }

  /** The candidate that worked is tried first from then on. */
  function Promote(keys: seq<Key>, i: nat): (r: seq<Key>)
    requires i < |keys|
    ensures multiset(r) == multiset(keys)
  {
    assert keys == keys[..i] + [keys[i]] + keys[i + 1..];
    [keys[i]] + keys[..i] + keys[i + 1..]
  }

  method TryKeys(card: Card, block: nat, t: KeyType, keys: seq<Key>) returns (used: Option<Key>, reordered: seq<Key>)
    requires card.Valid() && block < CARD_BLOCKS
    ensures multiset(reordered) == multiset(keys)
    ensures used.Some? ==>
              used.value in keys && card.Opens(block, Candidate(t, used.value)) && reordered[0] == used.value
    ensures used.None? ==> reordered == keys
    ensures card.reliable ==> (used.Some? <==> exists k :: k in keys && card.Opens(block, Candidate(t, k)))
  {
    for i := 0 to |keys|
      invariant card.reliable ==> forall j :: 0 <= j < i ==> !card.Opens(block, Candidate(t, keys[j]))
    {
      var ok := card.Auth(block, Candidate(t, keys[i]));
      if ok {
        assert keys[i] in multiset(keys);
        return Some(keys[i]), Promote(keys, i);
      }
    }
    return None, keys;
  }

  // ----- The writer's mark -------------------------------------------------

  /** `_transport_dump_is_complete` */
  predicate TransportRead(dump: Dump) {
    SectorBlock(0, 1) in dump && SectorBlock(0, 2) in dump && SectorBlock(1, 1) in dump && SectorBlock(1, 2) in dump
  }

  /** The trailers of sectors 0 and 1 still hold the factory key A. */
  predicate TransportOpens(blocks: seq<Block>)
    requires |blocks| == CARD_BLOCKS
  {
    TrailerKeys(blocks[TrailerBlock(0)]).keyA == TrailerKeys(blocks[TrailerBlock(1)]).keyA == FACTORY_KEY
  }

  /** The writer id a block is read as. */
  function WriterIdFrom(block: Block): string {
    var id := Strip(DecodeFixedAscii(block));
    if |id| > WRITER_ID_BYTES then id[..WRITER_ID_BYTES] else id
  }

  /** The saved writer id after a deep read. */
  function RefreshedWriter(dump: Dump, writerId: string): string {
    if TransportRead(dump) then WriterIdFrom(BlockAt(dump, SectorBlock(1, 1))) else writerId
  }

  lemma {:induction false} EncodedTextStrips(s: string)
    requires AllPlain(s, false)
    ensures Strip(DecodeFixedAscii(AsciiBytes(s))) == Strip(s)
  {
    PlainIsFixed(s, false);
    if EndsInSpace(s) {
      var n := |s| - 1;
      assert s == s[..n] + [' '];
      PlainIsFixed(s[..n], false);
      assert AsciiBytes(s)[..n] == AsciiBytes(s[..n]);
      EncodedTextStrips(s[..n]);
      StripTrailing(s[..n], ' ');
    } else {
      PlainIsKeptWhole(s, false);
    }
  }

  /** Reading an encoded writer id gives its text without surrounding white space. */
  lemma {:induction false} EncodedWriterReads(s: string)
    requires AllPlain(s, false) && |s| <= WRITER_ID_BYTES
    ensures var block := EncodeFixedAscii(s, WRITER_ID_BYTES, false);
            block.Some? && WriterIdFrom(block.value) == Strip(s)
  {
    PlainIsFixed(s, false);
    var block: Block := AsciiBytes(s) + Zeros(WRITER_ID_BYTES - |s|);
    assert EncodeFixedAscii(s, WRITER_ID_BYTES, false) == Some(block);
    assert DecodeFixedAscii(block) == DecodeFixedAscii(AsciiBytes(s)) by {
      StripZeros(AsciiBytes(s), WRITER_ID_BYTES - |s|);
    }
    EncodedTextStrips(s);
    StripFacts(s);
  }

  lemma {:induction false} DefaultWriterStripped()
    ensures Strip(DEFAULT_WRITER_ID) == DEFAULT_WRITER_ID != ""
  {
    StripFacts(DEFAULT_WRITER_ID);
  }

  /** What the next deep read saves after a write of the writer's mark: the text on the card, stripped. */
  lemma {:induction false} WriterIdRead(writerId: string, blocks: seq<Block>, dump: Dump, saved: string)
    returns (text: string)
    requires |blocks| == CARD_BLOCKS && DumpIsTrue(dump, blocks) && TransportRead(dump)
    requires NormalizeWriterId(writerId).Some?
    requires EncodeWriterId(NormalizeWriterId(writerId).value) == Some(blocks[WRITER_FIRST])
    ensures var writer := NormalizeWriterId(writerId).value;
            text == if writer == "" then DEFAULT_WRITER_ID else writer
    ensures RefreshedWriter(dump, saved) == Strip(text)
  {
    NormalizedWriterEncodes(writerId);
    text := NormalizeWriterId(NormalizeWriterId(writerId).value).value;
    assert AllPlain(text, false) && |text| <= WRITER_ID_BYTES by { DefaultWriterIsPlain(); }
    EncodedWriterReads(text);
    assert !IsTrailerBlock(WRITER_FIRST) && SectorBlock(1, 1) == WRITER_FIRST;
  }

  /**
   The writer id saved by a write survives the next deep read if and only if it
   is not empty and has no white space at its ends; an empty one, which the card
   holds as the default, is saved as the default. Only block 5 matters, so this
   also holds of a write whose time stamp failed.
   */
  lemma {:induction false} WriterIdSurvives(writerId: string, blocks: seq<Block>, dump: Dump, saved: string)
    requires |blocks| == CARD_BLOCKS && DumpIsTrue(dump, blocks) && TransportRead(dump)
    requires NormalizeWriterId(writerId).Some?
    requires EncodeWriterId(NormalizeWriterId(writerId).value) == Some(blocks[WRITER_FIRST])
    ensures var writer := NormalizeWriterId(writerId).value;
            && (RefreshedWriter(dump, saved) == writer <==> writer != "" && Trimmed(writer))
            && RefreshedWriter(dump, saved) == if writer == "" then DEFAULT_WRITER_ID else Strip(writer)
  {
    var text := WriterIdRead(writerId, blocks, dump, saved);
    DefaultWriterStripped();
    StripFacts(NormalizeWriterId(writerId).value);
  }

  /** `_save_tag_layout_metadata`, the writer id. */
  method SaveTagLayoutMetadata(tag: Tag, dump: Dump)
    modifies tag`writerId
    ensures tag.writerId == RefreshedWriter(dump, old(tag.writerId))
  {
    if !TransportRead(dump) { return; }
    var writerId := WriterIdFrom(BlockAt(dump, SectorBlock(1, 1)));
    if tag.writerId != writerId { tag.writerId := writerId; }
  }

  // ----- The keys noted by a read ------------------------------------------

  /** The tag's own key of one type, and whether it is marked as verified. */
  datatype OwnKey = OwnKey(key: Option<Key>, verified: bool)

  function OwnKeyOf(tag: Tag, t: KeyType): OwnKey
    reads tag
  {
    if t == A then OwnKey(tag.keyA, tag.keyAVerified) else OwnKey(tag.keyB, tag.keyBVerified)
  }

  /** The last key of one type that read a block below `limit`. */
  function LastUsed(used: map<nat, Candidate>, t: KeyType, limit: nat): Option<Key> {
    if limit == 0 then None
    else if limit - 1 in used && used[limit - 1].keyType == t then Some(used[limit - 1].key)
    else LastUsed(used, t, limit - 1)
  }

  lemma {:induction false} LastUsedBelow(used: map<nat, Candidate>, t: KeyType, limit: nat, b: nat, c: Candidate)
    requires limit <= b
    ensures LastUsed(used[b := c], t, limit) == LastUsed(used, t, limit)
  {
    if limit > 0 { LastUsedBelow(used, t, limit - 1, b, c); }
  }

  /** In memory, while the blocks are read: a working key replaces the own key and counts as verified. */
  function Noted(own: OwnKey, last: Option<Key>): OwnKey {
    if last.None? then own else OwnKey(last, true)
  }

  /** `RFID.save`: the flag of a key that is not the stored one is cleared. */
  function Cleared(own: OwnKey, stored: Option<Key>): OwnKey {
    OwnKey(own.key, own.verified && (own.key.None? || own.key == stored))
  }

  /** What a read saves in the end. */
  function SavedKey(stored: OwnKey, last: Option<Key>): OwnKey {
    if last.None? then stored else OwnKey(last, stored.key == last)
  }

  lemma {:induction false} NotedThenCleared(own: OwnKey, last: Option<Key>)
    ensures Cleared(Noted(own, last), own.key) == SavedKey(own, last)
  {}

  function SavedAfter(start: OwnKey, finds: seq<Option<Key>>): OwnKey {
    if finds == [] then start else SavedKey(SavedAfter(start, finds[..|finds| - 1]), finds[|finds| - 1])
  }

  /** The key the last of the reads found that found one at all. */
  function LastFind(own: Option<Key>, finds: seq<Option<Key>>): Option<Key> {
    if finds == [] then own
    else if finds[|finds| - 1].Some? then finds[|finds| - 1]
    else LastFind(own, finds[..|finds| - 1])
  }

  lemma {:induction false} SavedKeyIsLastFind(start: OwnKey, finds: seq<Option<Key>>)
    ensures SavedAfter(start, finds).key == LastFind(start.key, finds)
    ensures LastFind(None, finds) == None ==> SavedAfter(start, finds) == start
  {
    if finds != [] { SavedKeyIsLastFind(start, finds[..|finds| - 1]); }
  }

  /**
   Over any sequence of deep reads: the saved key is the last one found, and it is
   marked as verified if and only if the find before it, or the key saved at the
   start, was the same. So a read never saves a key it newly found as verified.
   */
  lemma {:induction false} VerifiedWhenFoundTwice(start: OwnKey, finds: seq<Option<Key>>, n: nat)
    requires n < |finds| && finds[n].Some? && forall i :: n < i < |finds| ==> finds[i].None?
    ensures SavedAfter(start, finds).key == finds[n]
    ensures SavedAfter(start, finds).verified <==> LastFind(start.key, finds[..n]) == finds[n]
    decreases |finds|
  {
    var last := |finds| - 1;
    if n < last {
      VerifiedWhenFoundTwice(start, finds[..last], n);
      assert finds[..last][..n] == finds[..n];
    } else {
      SavedKeyIsLastFind(start, finds[..n]);
    }
  }

  // ----- The read itself ---------------------------------------------------

  /** The trailer above a block holds the expected or the factory key A, and both are tried. */
  predicate OpenedByA(blocks: seq<Block>, sectorKeys: map<int, KeyRecord>, block: nat)
    requires |blocks| == CARD_BLOCKS && block < CARD_BLOCKS
  {
    var s := SectorForBlock(block);
    TrailerKeys(blocks[TrailerBlock(s)]).keyA in {KeysFor(sectorKeys, s).keyA, FACTORY_KEY}
  }

  ghost predicate DumpCovers(dump: Dump, blocks: seq<Block>, sectorKeys: map<int, KeyRecord>, limit: nat)
    requires |blocks| == CARD_BLOCKS
  {
    forall b: nat :: b < limit && b < CARD_BLOCKS && OpenedByA(blocks, sectorKeys, b) ==> b in dump
  }

  /** The candidates for a sector offer its recorded keys, and always the factory key. */
  method CandidatesForSector(tag: Tag, sector: nat) returns (keysA: seq<Key>, keysB: seq<Key>)
    ensures KeysFor(tag.sectorKeys, sector).keyA in keysA && KeysFor(tag.sectorKeys, sector).keyB in keysB
    ensures FACTORY_KEY in keysA && FACTORY_KEY in keysB
  {
    keysA := SectorKeyCandidates(tag.sectorKeys, tag.keyA, tag.keyAVerified, sector, A);
    keysB := SectorKeyCandidates(tag.sectorKeys, tag.keyB, tag.keyBVerified, sector, B);
  }

  /** Note the key that opened a block on the tag record, in memory. */
  method RecordKey(tag: Tag, t: KeyType, key: Key)
    modifies tag`keyA, tag`keyB, tag`keyAVerified, tag`keyBVerified
    ensures OwnKeyOf(tag, t) == OwnKey(Some(key), true)
    ensures t == A ==> unchanged(tag`keyB, tag`keyBVerified)
    ensures t == B ==> unchanged(tag`keyA, tag`keyAVerified)
  {
    if t == A {
      if !tag.keyAVerified || tag.keyA != Some(key) { tag.keyA, tag.keyAVerified := Some(key), true; }
    } else {
      if !tag.keyBVerified || tag.keyB != Some(key) { tag.keyB, tag.keyBVerified := Some(key), true; }
    }
  }

  /** `RFID.save`, the flags: a key that is not the stored one is saved as unverified. */
  method SaveKeys(tag: Tag, storedA: Option<Key>, storedB: Option<Key>)
    modifies tag`keyAVerified, tag`keyBVerified
    ensures OwnKeyOf(tag, A) == Cleared(old(OwnKeyOf(tag, A)), storedA)
    ensures OwnKeyOf(tag, B) == Cleared(old(OwnKeyOf(tag, B)), storedB)
  {
    if tag.keyA.Some? && tag.keyA != storedA { tag.keyAVerified := false; }
    if tag.keyB.Some? && tag.keyB != storedB { tag.keyBVerified := false; }
  }

  function KeyIfType(used: Option<Candidate>, t: KeyType): Option<Key> {
    if used.Some? && used.value.keyType == t then Some(used.value.key) else None
  }

  /** One block: authenticate with key A candidates, then key B candidates, then read. */
  method ReadWithCandidates(card: Card, tag: Tag, block: nat, keysA: seq<Key>, keysB: seq<Key>)
    returns (data: Option<Block>, keysA': seq<Key>, keysB': seq<Key>, ghost used: Option<Candidate>)
    requires card.Valid() && block < CARD_BLOCKS
    modifies tag`keyA, tag`keyB, tag`keyAVerified, tag`keyBVerified
    ensures multiset(keysA') == multiset(keysA) && multiset(keysB') == multiset(keysB)
    ensures data.Some? && !IsTrailerBlock(block) ==> data.value == card.blocks[block]
    ensures card.reliable && (exists k :: k in keysA && card.Opens(block, Candidate(A, k))) ==> data.Some?
    ensures data.Some? <==> used.Some?
    ensures used.Some? ==>
              card.Opens(block, used.value) && used.value.key in if used.value.keyType == A then keysA else keysB
    ensures OwnKeyOf(tag, A) == Noted(old(OwnKeyOf(tag, A)), KeyIfType(used, A))
    ensures OwnKeyOf(tag, B) == Noted(old(OwnKeyOf(tag, B)), KeyIfType(used, B))
  {
    var usedA, usedB: Option<Key> := None, None;
    keysB', used := keysB, None;
    usedA, keysA' := TryKeys(card, block, A, keysA);
    if usedA.None? { usedB, keysB' := TryKeys(card, block, B, keysB); }
    if usedA.None? && usedB.None? { return None, keysA', keysB', None; }
    data := card.Read(block);
    if data.Some? {
      var t, key := if usedA.Some? then A else B, if usedA.Some? then usedA.value else usedB.value;
      RecordKey(tag, t, key);
      used := Some(Candidate(t, key));
    }
  }

  lemma {:induction false} BlockPlace(block: nat)
    requires block < CARD_BLOCKS
    ensures SectorForBlock(block) < 16 && TrailerBlock(SectorForBlock(block)) < CARD_BLOCKS
  {}

  lemma {:induction false} CoversStep(dump: Dump, dump': Dump, blocks: seq<Block>, sectorKeys: map<int, KeyRecord>,
                                      block: nat)
    requires |blocks| == CARD_BLOCKS && DumpCovers(dump, blocks, sectorKeys, block) && block < CARD_BLOCKS
    requires dump.Keys <= dump'.Keys && (OpenedByA(blocks, sectorKeys, block) ==> block in dump')
    ensures DumpCovers(dump', blocks, sectorKeys, block + 1)
  {
    forall b: nat | b < block + 1 && OpenedByA(blocks, sectorKeys, b) ensures b in dump' {
      if b < block { assert b in dump; }
    }
  }

  lemma {:induction false} CoversAllPairs(dump: Dump, blocks: seq<Block>, sectorKeys: map<int, KeyRecord>)
    requires |blocks| == CARD_BLOCKS && DumpCovers(dump, blocks, sectorKeys, CARD_BLOCKS)
    requires forall s :: IsManaged(s) ==> SectorOpenable(blocks, sectorKeys, s)
    ensures DumpIsComplete(dump)
  {
    forall i: nat, j: nat | i < TRAIT_PAIRS && j < 6 ensures PairBlock(i, j) in dump {
      var b := PairBlock(i, j);
      assert b < CARD_BLOCKS && IsManaged(SectorForBlock(b)) && SectorOpenable(blocks, sectorKeys, SectorForBlock(b));
      assert OpenedByA(blocks, sectorKeys, b);
    }
  }

  lemma {:induction false} CoversTransport(dump: Dump, blocks: seq<Block>, sectorKeys: map<int, KeyRecord>)
    requires |blocks| == CARD_BLOCKS && DumpCovers(dump, blocks, sectorKeys, CARD_BLOCKS) && TransportOpens(blocks)
    ensures TransportRead(dump)
  {
    assert SectorForBlock(1) == SectorForBlock(2) == 0 && SectorForBlock(5) == SectorForBlock(6) == 1;
    assert OpenedByA(blocks, sectorKeys, 1) && OpenedByA(blocks, sectorKeys, 2);
    assert OpenedByA(blocks, sectorKeys, 5) && OpenedByA(blocks, sectorKeys, 6);
  }

  /** `_save_tag_traits_from_dump` */
  method SaveTagTraitsFromDump(tag: Tag, dump: Dump)
    modifies tag`traits
    ensures tag.traits == Refreshed(dump, old(tag.traits))
  {
    if !DumpIsComplete(dump) { return; }
    var decoded := DecodeTraitsFromDump(dump);
    var normalized := NormalizeTraitRecords(decoded);
    if normalized != tag.traits { tag.traits := normalized; }
  }

  /** One more block read, or not, with the key used. */
  lemma {:induction false} UsedStep(used: map<nat, Candidate>, t: KeyType, block: nat, key: Option<Candidate>,
                                    own: OwnKey)
    requires forall b :: b in used ==> b < block
    ensures var used' := if key.Some? then used[block := key.value] else used;
            Noted(own, LastUsed(used', t, block + 1)) == Noted(Noted(own, LastUsed(used, t, block)), KeyIfType(key, t))
  {
    if key.Some? { LastUsedBelow(used, t, block, block, key.value); }
  }

  /** The dump so far is true, and names the key that read each of its blocks. */
  ghost predicate ReadSoFar(card: Card, dump: Dump, used: map<nat, Candidate>, limit: nat)
    requires card.Valid()
    reads card
  {
    && DumpIsTrue(dump, card.blocks) && used.Keys == dump.Keys
    && forall b :: b in used ==> b < limit && b < CARD_BLOCKS && card.Opens(b, used[b])
  }

  /** The own keys in memory, given those at the start and the keys used so far. */
  ghost predicate KeysNoted(tag: Tag, startA: OwnKey, startB: OwnKey, used: map<nat, Candidate>, limit: nat)
    reads tag
  {
    && OwnKeyOf(tag, A) == Noted(startA, LastUsed(used, A, limit))
    && OwnKeyOf(tag, B) == Noted(startB, LastUsed(used, B, limit))
  }

  /** One round of the loop over the blocks. */
  method ReadNext(card: Card, tag: Tag, block: nat, keysA: seq<Key>, keysB: seq<Key>, dump: Dump,
                  ghost used: map<nat, Candidate>, ghost startA: OwnKey, ghost startB: OwnKey)
    returns (dump': Dump, keysA': seq<Key>, keysB': seq<Key>, ghost used': map<nat, Candidate>)
    requires card.Valid() && block < CARD_BLOCKS && ReadSoFar(card, dump, used, block)
    requires KeysNoted(tag, startA, startB, used, block)
    modifies tag`keyA, tag`keyB, tag`keyAVerified, tag`keyBVerified
    ensures ReadSoFar(card, dump', used', block + 1)
    ensures KeysNoted(tag, startA, startB, used', block + 1)
    ensures multiset(keysA') == multiset(keysA) && multiset(keysB') == multiset(keysB)
    ensures dump'.Keys == dump.Keys || dump'.Keys == dump.Keys + {block}
    ensures card.reliable && (exists k :: k in keysA && card.Opens(block, Candidate(A, k))) ==> block in dump'
  {
    dump', used' := dump, used;
    var data;
    ghost var key;
    data, keysA', keysB', key := ReadWithCandidates(card, tag, block, keysA, keysB);
    if data.Some? { dump', used' := dump[block := data.value], used[block := key.value]; }
    UsedStep(used, A, block, key, startA);
    UsedStep(used, B, block, key, startB);
  }

  /** The same, with both key A candidates that a sound card may need among those tried. */
  method ReadCovered(card: Card, tag: Tag, block: nat, keysA: seq<Key>, keysB: seq<Key>, dump: Dump,
                     ghost used: map<nat, Candidate>, ghost startA: OwnKey, ghost startB: OwnKey)
    returns (dump': Dump, keysA': seq<Key>, keysB': seq<Key>, ghost used': map<nat, Candidate>)
    requires card.Valid() && block < CARD_BLOCKS && ReadSoFar(card, dump, used, block)
    requires KeysNoted(tag, startA, startB, used, block)
    requires KeysFor(tag.sectorKeys, SectorForBlock(block)).keyA in keysA && FACTORY_KEY in keysA
    requires card.reliable ==> DumpCovers(dump, card.blocks, tag.sectorKeys, block)
    modifies tag`keyA, tag`keyB, tag`keyAVerified, tag`keyBVerified
    ensures ReadSoFar(card, dump', used', block + 1)
    ensures KeysNoted(tag, startA, startB, used', block + 1)
    ensures multiset(keysA') == multiset(keysA) && multiset(keysB') == multiset(keysB)
    ensures card.reliable ==> DumpCovers(dump', card.blocks, tag.sectorKeys, block + 1)
  {
    BlockPlace(block);
    ghost var held := TrailerKeys(card.blocks[TrailerBlock(SectorForBlock(block))]).keyA;
    assert OpenedByA(card.blocks, tag.sectorKeys, block) ==> held in keysA && card.Opens(block, Candidate(A, held));
    dump', keysA', keysB', used' := ReadNext(card, tag, block, keysA, keysB, dump, used, startA, startB);
    if card.reliable { CoversStep(dump, dump', card.blocks, tag.sectorKeys, block); }
  }

  /** The candidates are built afresh for each sector. */
  method NextCandidates(tag: Tag, sector: nat, lastSector: int, keysA: seq<Key>, keysB: seq<Key>)
    returns (keysA': seq<Key>, keysB': seq<Key>)
    requires sector == lastSector ==> KeysFor(tag.sectorKeys, sector).keyA in keysA && FACTORY_KEY in keysA
    ensures KeysFor(tag.sectorKeys, sector).keyA in keysA' && FACTORY_KEY in keysA'
    ensures sector == lastSector ==> keysA' == keysA && keysB' == keysB
  {
    keysA', keysB' := keysA, keysB;
    if sector != lastSector { keysA', keysB' := CandidatesForSector(tag, sector); }
  }

  /** The candidates at hand are those of the last sector. */
  predicate HoldsCandidates(sectorKeys: map<int, KeyRecord>, lastSector: int, keysA: seq<Key>) {
    lastSector >= 0 ==> KeysFor(sectorKeys, lastSector).keyA in keysA && FACTORY_KEY in keysA
  }

  lemma {:induction false} CandidatesKept(sectorKeys: map<int, KeyRecord>, sector: int, keys: seq<Key>, keys': seq<Key>)
    requires HoldsCandidates(sectorKeys, sector, keys) && multiset(keys') == multiset(keys)
    ensures HoldsCandidates(sectorKeys, sector, keys')
  {
    forall k | k in keys ensures k in keys' { assert k in multiset(keys'); }
  }

  /** The loop over the blocks; the keys are noted on the tag record in memory. */
  method ReadAllBlocks(card: Card, tag: Tag) returns (dump: Dump, ghost used: map<nat, Candidate>)
    requires card.Valid()
    modifies tag`keyA, tag`keyB, tag`keyAVerified, tag`keyBVerified
    ensures ReadSoFar(card, dump, used, CARD_BLOCKS)
    ensures KeysNoted(tag, old(OwnKeyOf(tag, A)), old(OwnKeyOf(tag, B)), used, CARD_BLOCKS)
    ensures card.reliable ==> DumpCovers(dump, card.blocks, tag.sectorKeys, CARD_BLOCKS)
  {
    dump, used := map[], map[];
    ghost var startA, startB := OwnKeyOf(tag, A), OwnKeyOf(tag, B);
    var keysA, keysB: seq<Key> := [], [];
    var lastSector: int := -1;
    for block := 0 to CARD_BLOCKS
      invariant ReadSoFar(card, dump, used, block)
      invariant KeysNoted(tag, startA, startB, used, block)
      invariant HoldsCandidates(tag.sectorKeys, lastSector, keysA)
      invariant card.reliable ==> DumpCovers(dump, card.blocks, tag.sectorKeys, block)
    {
      var sector := SectorForBlock(block);
      keysA, keysB := NextCandidates(tag, sector, lastSector, keysA, keysB);
      ghost var tried := keysA;
      dump, keysA, keysB, used := ReadCovered(card, tag, block, keysA, keysB, dump, used, startA, startB);
      CandidatesKept(tag.sectorKeys, sector, tried, keysA);
      lastSector := sector;
    }
  }

  /** The saves at the end of a deep read; `storedA` and `storedB` are the keys saved before it. */
  method SaveDeepRead(tag: Tag, dump: Dump, storedA: Option<Key>, storedB: Option<Key>)
    modifies tag`traits, tag`writerId, tag`keyAVerified, tag`keyBVerified
    ensures tag.traits == Refreshed(dump, old(tag.traits))
    ensures tag.writerId == RefreshedWriter(dump, old(tag.writerId))
    ensures OwnKeyOf(tag, A) == Cleared(old(OwnKeyOf(tag, A)), storedA)
    ensures OwnKeyOf(tag, B) == Cleared(old(OwnKeyOf(tag, B)), storedB)
  {
    SaveTagLayoutMetadata(tag, dump);
    SaveTagTraitsFromDump(tag, dump);
    SaveKeys(tag, storedA, storedB);
  }

  /**
   `_read_deep_classic_tag_data`. The dump tells the truth under every pattern of
   failures, and is complete when nothing fails and each trailer holds its
   recorded keys or the factory keys. What the tag record holds afterwards follows
   from the dump and from the keys that read it.
   */
  method DeepRead(card: Card, tag: Tag) returns (dump: Dump, ghost used: map<nat, Candidate>)
    requires card.Valid()
    modifies tag
    ensures ReadSoFar(card, dump, used, CARD_BLOCKS)
    ensures Moves(old(TagStateOf(card, tag)), TagStateOf(card, tag), Read(dump)) && unchanged(tag`initialized)
    ensures tag.writerId == RefreshedWriter(dump, old(tag.writerId))
    ensures OwnKeyOf(tag, A) == SavedKey(old(OwnKeyOf(tag, A)), LastUsed(used, A, CARD_BLOCKS))
    ensures OwnKeyOf(tag, B) == SavedKey(old(OwnKeyOf(tag, B)), LastUsed(used, B, CARD_BLOCKS))
    ensures card.reliable && old(AllOpenable(card, tag)) ==> DumpIsComplete(dump)
    ensures card.reliable && TransportOpens(card.blocks) ==> TransportRead(dump)
  {
    var storedA, storedB := tag.keyA, tag.keyB;
    ghost var ownA, ownB := OwnKeyOf(tag, A), OwnKeyOf(tag, B);
    ghost var openable := AllOpenable(card, tag);
    assert openable ==> forall s :: IsManaged(s) ==> SectorOpenable(card.blocks, tag.sectorKeys, s);
    dump, used := ReadAllBlocks(card, tag);
    if card.reliable && openable { CoversAllPairs(dump, card.blocks, tag.sectorKeys); }
    if card.reliable && TransportOpens(card.blocks) { CoversTransport(dump, card.blocks, tag.sectorKeys); }
    SaveDeepRead(tag, dump, storedA, storedB);
    NotedThenCleared(ownA, LastUsed(used, A, CARD_BLOCKS));
    NotedThenCleared(ownB, LastUsed(used, B, CARD_BLOCKS));
  }
}
