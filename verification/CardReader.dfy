/**
 The reader: a fallible card and the tag record kept in step with it
 (apps/cards/reader.py). Every authentication, read and write may fail in any
 pattern; `reliable` marks a card on which nothing does.
 */
module CardReader {
  import opened Bytes
  import opened Wrappers
  import opened CardLayout
  import opened TraitStore

  datatype KeyType = A | B

  datatype Candidate = Candidate(keyType: KeyType, key: Key)

  /** What the driver reports for a write; Silent is a status of None. */
  datatype WriteStatus = Ack | Nak | Silent

  function CardDump(blocks: seq<Block>): Dump { map b: nat | b < |blocks| :: blocks[b] }

  function CandidateKey(keys: KeyRecord, t: KeyType): Key { if t == A then keys.keyA else keys.keyB }

  // ----- The card ----------------------------------------------------------

  class Card {
    var blocks: seq<Block>
    const reliable: bool

    predicate Valid() reads this { |blocks| == CARD_BLOCKS }

    /** Does the key match the trailer of the block's sector? */
    predicate Opens(block: nat, c: Candidate)
      requires Valid() && block < CARD_BLOCKS
      reads this
    {
      CandidateKey(TrailerKeys(blocks[TrailerBlock(SectorForBlock(block))]), c.keyType) == c.key
    }

    constructor (blocks: seq<Block>, reliable: bool)
      requires |blocks| == CARD_BLOCKS
      ensures Valid() && this.blocks == blocks && this.reliable == reliable
    {
      this.blocks, this.reliable := blocks, reliable;
    }

    method Auth(block: nat, c: Candidate) returns (ok: bool)
      requires Valid() && block < CARD_BLOCKS
      ensures ok ==> Opens(block, c)
      ensures reliable ==> ok == Opens(block, c)
    {
      var glitch: bool := *;
      ok := Opens(block, c) && (reliable || !glitch);
    }

    /** A data block reads as it is; the card masks the keys in a trailer. */
    method Read(block: nat) returns (data: Option<Block>)
      requires Valid() && block < CARD_BLOCKS
      ensures data.Some? && !IsTrailerBlock(block) ==> data.value == blocks[block]
      ensures reliable ==> data.Some?
    {
      var glitch: bool := *;
      if glitch && !reliable { return None; }
      var content: Block := *;
      if !IsTrailerBlock(block) { content := blocks[block]; }
      data := Some(content);
    }

    /** An acknowledged write took effect, a refused one did not, a silent one may or may not have. */
    method Write(block: nat, data: Block) returns (status: WriteStatus)
      requires Valid() && block < CARD_BLOCKS
      modifies this
      ensures Valid()
      ensures status == Ack ==> blocks == old(blocks)[block := data]
      ensures status == Nak ==> blocks == old(blocks)
      ensures blocks == old(blocks) || blocks == old(blocks)[block := data]
      ensures reliable ==> status != Nak && blocks == old(blocks)[block := data]
    {
      var glitch: bool, silent: bool := *, *;
      if reliable || !glitch {
        blocks := blocks[block := data];
        return if silent then Silent else Ack;
      }
      return if silent then Silent else Nak;
    }
  }

  // ----- The tag record ----------------------------------------------------

  /**
   The tag record. Between operations it is what is saved; `sectorKeys` and `traits`
   are in the normal form every save gives them.
   */
  class Tag {
    var sectorKeys: map<int, KeyRecord>
    var keyA: Option<Key>
    var keyB: Option<Key>
    var keyAVerified: bool
    var keyBVerified: bool
    var traits: Traits
    var initialized: bool
    var writerId: string

    constructor ()
      ensures sectorKeys == map[] && traits == map[] && !initialized
      ensures keyA == None && keyB == None && !keyAVerified && !keyBVerified && writerId == ""
    {
      sectorKeys, traits, initialized, writerId := map[], map[], false, "";
      keyA, keyB, keyAVerified, keyBVerified := None, None, false, false;
    }
  }

  /** The keys a managed sector is expected to carry. */
  function KeysFor(sectorKeys: map<int, KeyRecord>, sector: int): KeyRecord {
    if sector in sectorKeys then sectorKeys[sector] else FACTORY_KEYS
  }

  /** The trailer of `sector` holds the recorded keys, or the factory keys when none are recorded. */
  ghost predicate KeysAgree(card: Card, tag: Tag, sector: int)
    requires card.Valid() && IsManaged(sector)
    reads card, tag
  {
    TrailerKeys(card.blocks[TrailerBlock(sector)]) == KeysFor(tag.sectorKeys, sector)
  }

  ghost predicate AllKeysAgree(card: Card, tag: Tag)
    requires card.Valid()
    reads card, tag
  {
    forall s :: IsManaged(s) ==> KeysAgree(card, tag, s)
  }

  /** The trailer holds the keys expected of it or still the factory keys: a writer tries both. */
  predicate SectorOpenable(blocks: seq<Block>, sectorKeys: map<int, KeyRecord>, s: nat)
    requires |blocks| == CARD_BLOCKS && IsManaged(s)
  {
    TrailerKeys(blocks[TrailerBlock(s)]) in {KeysFor(sectorKeys, s), FACTORY_KEYS}
  }

  ghost predicate AllOpenable(card: Card, tag: Tag)
    requires card.Valid()
    reads card, tag
  {
    forall s :: IsManaged(s) ==> SectorOpenable(card.blocks, tag.sectorKeys, s)
  }

  // ----- Writing one block -------------------------------------------------

  predicate NoRepeats(cs: seq<Candidate>) { forall i, j :: 0 <= i < j < |cs| ==> cs[i] != cs[j] }

  function AddCandidate(cs: seq<Candidate>, t: KeyType, key: Option<Key>): (r: seq<Candidate>)
    ensures cs <= r && (key.Some? ==> Candidate(t, key.value) in r)
    ensures NoRepeats(cs) ==> NoRepeats(r)
  {
    if key.None? || Candidate(t, key.value) in cs then cs else cs + [Candidate(t, key.value)]
  }

  function WriteCandidates(sectorKeys: map<int, KeyRecord>, keyA: Option<Key>, keyB: Option<Key>, sector: nat)
    : seq<Candidate>
  {
    if sector == 0 || sector == 1 then AddCandidate([], A, Some(FACTORY_KEY))
    else
      var recorded := if sector in sectorKeys
        then AddCandidate(AddCandidate([], A, Some(sectorKeys[sector].keyA)), B, Some(sectorKeys[sector].keyB)) else [];
      AddCandidate(AddCandidate(AddCandidate(AddCandidate(recorded, A, keyA), B, keyB),
                                A, Some(FACTORY_KEY)), B, Some(FACTORY_KEY))
  }

  /**
   The candidate list always contains the expected key A and the factory key A, has
   no repetition, and never offers a guess for sectors 0 and 1.
   */
  lemma {:induction false} WriteCandidatesSuffice(sectorKeys: map<int, KeyRecord>, keyA: Option<Key>, keyB: Option<Key>,
                                                  sector: nat)
    ensures var cs := WriteCandidates(sectorKeys, keyA, keyB, sector);
            && (sector < 2 ==> cs == [Candidate(A, FACTORY_KEY)])
            && (sector >= 2 ==> Candidate(A, KeysFor(sectorKeys, sector).keyA) in cs && Candidate(A, FACTORY_KEY) in cs)
            && NoRepeats(cs)
  {
    if sector >= 2 && sector in sectorKeys {
      var cs := WriteCandidates(sectorKeys, keyA, keyB, sector);
      assert cs[0] == Candidate(A, sectorKeys[sector].keyA);
    }
  }

  /** Only `block` may have changed, and only to `data`. */
  twostate predicate OnlyBlock(card: Card, block: nat, data: Block)
    requires block < |old(card.blocks)|
    reads card
  {
    card.blocks == old(card.blocks) || card.blocks == old(card.blocks)[block := data]
  }

  /**
   `_write_block`. A silent data write is confirmed by reading back; a silent
   trailer write is taken as success, so it may have been dropped.
   */
  method WriteBlock(card: Card, block: nat, c: Candidate, data: Block) returns (ok: bool, ghost dropped: bool)
    requires card.Valid() && block < CARD_BLOCKS
    modifies card
    ensures card.Valid() && OnlyBlock(card, block, data)
    ensures ok && !dropped ==> card.blocks == old(card.blocks)[block := data]
    ensures dropped ==> ok && IsTrailerBlock(block) && card.blocks == old(card.blocks)
    ensures !ok && IsTrailerBlock(block) ==> card.blocks == old(card.blocks)
    ensures card.reliable ==> !dropped && ok == old(card.Opens(block, c))
    ensures card.reliable && !ok ==> card.blocks == old(card.blocks)
  {
    dropped := false;
    var authenticated := card.Auth(block, c);
    if !authenticated { return false, false; }
    var status := card.Write(block, data);
    if status == Ack { return true, false; }
    if status == Silent {
      if IsTrailerBlock(block) {
        return true, card.blocks != old(card.blocks)[block := data];
      }
      assert card.Opens(block, c);
      var reopened := card.Auth(block, c);
      if !reopened { return false, false; }
      var readback := card.Read(block);
      return readback == Some(data), false;
    }
    return false, false;
  }

  method WriteBlockWithCandidates(card: Card, tag: Tag, block: nat, data: Block) returns (ok: bool, ghost dropped: bool)
    requires card.Valid() && block < CARD_BLOCKS
    modifies card
    ensures card.Valid() && OnlyBlock(card, block, data)
    ensures ok && !dropped ==> card.blocks == old(card.blocks)[block := data]
    ensures dropped ==> ok && IsTrailerBlock(block) && card.blocks == old(card.blocks)
    ensures !ok && IsTrailerBlock(block) ==> card.blocks == old(card.blocks)
    ensures card.reliable &&
            (exists c :: c in WriteCandidates(tag.sectorKeys, tag.keyA, tag.keyB, SectorForBlock(block)) &&
                         old(card.Opens(block, c)))
            ==> ok && !dropped
  {
    var candidates := WriteCandidates(tag.sectorKeys, tag.keyA, tag.keyB, SectorForBlock(block));
    for i := 0 to |candidates|
      invariant card.Valid() && OnlyBlock(card, block, data)
      invariant IsTrailerBlock(block) || card.reliable ==> card.blocks == old(card.blocks)
      invariant card.reliable ==> forall j :: 0 <= j < i ==> !old(card.Opens(block, candidates[j]))
    {
      ok, dropped := WriteBlock(card, block, candidates[i], data);
      if ok { return; }
    }
    return false, false;
  }

  // ----- Initialisation ----------------------------------------------------

  /** Only the blocks from `low` up to `high` may have changed. */
  predicate OnlyRange(was: seq<Block>, now: seq<Block>, low: int, high: int) {
    |now| == |was| && forall b :: 0 <= b < |was| && !(low <= b < high) ==> now[b] == was[b]
  }

  ghost predicate TrailersKept(was: seq<Block>, now: seq<Block>) {
    |was| == |now| && forall b :: 0 <= b < |was| && IsTrailerBlock(b) ==> now[b] == was[b]
  }

  // The two blocks of the writer's mark, in sector 1.
  const WRITER_FIRST: int := 5
  const WRITER_LAST: int := 6

  /** `encode_writer_id`; None stands for the CardLayoutError it raises. */
  function EncodeWriterId(writerId: string): (r: Option<seq<Byte>>)
    ensures r.Some? ==> |r.value| == WRITER_ID_BYTES
  {
    match NormalizeWriterId(writerId)
    case None => None
    case Some(text) => EncodeFixedAscii(text, WRITER_ID_BYTES, false)
  }

  /** The two blocks hold the mark of this writer. */
  predicate MarkHeld(blocks: seq<Block>, writer: string, stamp: Block)
    requires |blocks| == CARD_BLOCKS
  {
    EncodeWriterId(writer) == Some(blocks[WRITER_FIRST]) && blocks[WRITER_LAST] == stamp
  }

  lemma {:induction false} PlainWriterEncodes(text: string)
    requires AllPlain(text, false) && |text| <= WRITER_ID_BYTES && text != ""
    ensures NormalizeWriterId(text) == Some(text) && EncodeWriterId(text).Some?
  {
    NormalizedIsPlain(text, false);
    FixedAsciiRoundTrip(text, WRITER_ID_BYTES, false);
  }

  /** A normalized writer id encodes; an empty one gives way to the default once more. */
  lemma {:induction false} NormalizedWriterEncodes(writerId: string)
    requires NormalizeWriterId(writerId).Some?
    ensures var text := NormalizeWriterId(writerId).value;
            && AllPlain(text, false) && |text| <= WRITER_ID_BYTES
            && NormalizeWriterId(text) == Some(if text == "" then DEFAULT_WRITER_ID else text)
            && EncodeWriterId(text).Some?
  {
    var text := NormalizeWriterId(writerId).value;
    NormalizedIsPlain(if writerId == "" then DEFAULT_WRITER_ID else writerId, false);
    if text == "" {
      DefaultWriterIsPlain();
      PlainWriterEncodes(DEFAULT_WRITER_ID);
    } else {
      PlainWriterEncodes(text);
    }
  }

  /** `_write_writer_metadata` up to the result; the time stamp comes encoded. */
  method WriteWriterMetadata(card: Card, tag: Tag, writerId: string, stamp: Block)
    returns (writer: Option<string>, errors: seq<nat>)
    requires card.Valid()
    modifies card
    ensures card.Valid() && OnlyRange(old(card.blocks), card.blocks, WRITER_FIRST, WRITER_LAST + 1)
    ensures TrailersKept(old(card.blocks), card.blocks)
    ensures old(AllKeysAgree(card, tag)) ==> AllKeysAgree(card, tag)
    ensures writer == NormalizeWriterId(writerId)
    ensures writer.None? ==> unchanged(card) && errors == []
    ensures writer.Some? && errors == [] ==> MarkHeld(card.blocks, writer.value, stamp)
    ensures card.reliable && TrailerKeys(old(card.blocks)[7]).keyA == FACTORY_KEY ==> errors == []
  {
    errors := [];
    writer := NormalizeWriterId(writerId);
    if writer.None? { return; }
    NormalizedWriterEncodes(writerId);
    WriteCandidatesSuffice(tag.sectorKeys, tag.keyA, tag.keyB, 1);
    ghost var factory := Candidate(A, FACTORY_KEY);
    assert factory in WriteCandidates(tag.sectorKeys, tag.keyA, tag.keyB, 1);
    assert SectorBlock(1, 1) == 5 && SectorBlock(1, 2) == 6;
    ghost var opens := TrailerKeys(card.blocks[7]).keyA == FACTORY_KEY;
    assert opens ==> card.Opens(SectorBlock(1, 1), factory);
    var ok, dropped := WriteBlockWithCandidates(card, tag, SectorBlock(1, 1), EncodeWriterId(writer.value).value);
    if !ok { errors := errors + [SectorBlock(1, 1)]; }
    assert opens ==> card.Opens(SectorBlock(1, 2), factory);
    ok, dropped := WriteBlockWithCandidates(card, tag, SectorBlock(1, 2), stamp);
    if !ok { errors := errors + [SectorBlock(1, 2)]; }
    forall s | IsManaged(s) && old(KeysAgree(card, tag, s)) ensures KeysAgree(card, tag, s) {
      assert TrailerBlock(s) > WRITER_LAST;
    }
  }

  lemma {:induction false} TrailerCarriesKeys(keys: KeyRecord)
    ensures TrailerKeys(BuildSectorTrailer(keys)) == keys
  {}

  predicate KeptOrZeroed(was: seq<Block>, now: seq<Block>, block: nat)
    requires block < |was| == |now|
  {
    now[block] == was[block] || now[block] == ZERO_BLOCK
  }

  /**
   What one pass over a sector leaves: zeroed and rekeyed, or with its trailer
   untouched. Either way each data block is as before or zero.
   */
  predicate Rekeyed(was: seq<Block>, now: seq<Block>, sector: nat, keys: KeyRecord, done: bool, dropped: bool)
    requires IsManaged(sector) && |was| == |now| == CARD_BLOCKS
  {
    var t := TrailerBlock(sector);
    && (forall j: nat :: j < SECTOR_DATA_BLOCKS ==> KeptOrZeroed(was, now, SectorBlock(sector, j)))
    && (done ==> forall j: nat :: j < SECTOR_DATA_BLOCKS ==> now[SectorBlock(sector, j)] == ZERO_BLOCK)
    && now[t] == if done && !dropped then BuildSectorTrailer(keys) else was[t]
  }

  /** Zero the three data blocks of a sector, going on after a failure. */
  method ZeroSector(card: Card, tag: Tag, sector: nat) returns (ok: bool)
    requires card.Valid() && IsManaged(sector)
    modifies card
    ensures card.Valid() && OnlyRange(old(card.blocks), card.blocks, sector * 4, sector * 4 + 3)
    ensures forall j: nat :: j < SECTOR_DATA_BLOCKS ==>
              KeptOrZeroed(old(card.blocks), card.blocks, SectorBlock(sector, j))
    ensures ok ==> forall j: nat :: j < SECTOR_DATA_BLOCKS ==> card.blocks[SectorBlock(sector, j)] == ZERO_BLOCK
    ensures card.reliable && old(SectorOpenable(card.blocks, tag.sectorKeys, sector)) ==> ok
  {
    ghost var expected := Candidate(A, TrailerKeys(card.blocks[TrailerBlock(sector)]).keyA);
    WriteCandidatesSuffice(tag.sectorKeys, tag.keyA, tag.keyB, sector);
    ok := true;
    for j := 0 to SECTOR_DATA_BLOCKS
      invariant card.Valid() && OnlyRange(old(card.blocks), card.blocks, sector * 4, sector * 4 + 3)
      invariant forall i: nat :: i < SECTOR_DATA_BLOCKS ==>
          KeptOrZeroed(old(card.blocks), card.blocks, SectorBlock(sector, i))
      invariant ok ==> forall i: nat :: i < j ==> card.blocks[SectorBlock(sector, i)] == ZERO_BLOCK
      invariant card.reliable && old(SectorOpenable(card.blocks, tag.sectorKeys, sector)) ==> ok
    {
      AddressRoundTrip(sector, j);
      label before:
      var wrote, lost := WriteBlockWithCandidates(card, tag, SectorBlock(sector, j), ZERO_BLOCK);
      assert card.reliable && old(SectorOpenable(card.blocks, tag.sectorKeys, sector)) ==>
          old@before(card.Opens(SectorBlock(sector, j), expected));
      if !wrote { ok := false; }
    }
  }

  /** One round of the initialisation loop: zero the data blocks, then write the new trailer. */
  method InitializeSector(card: Card, tag: Tag, sector: nat, keys: KeyRecord) returns (ok: bool, ghost dropped: bool)
    requires card.Valid() && IsManaged(sector)
    modifies card
    ensures card.Valid() && OnlyRange(old(card.blocks), card.blocks, sector * 4, sector * 4 + 4)
    ensures Rekeyed(old(card.blocks), card.blocks, sector, keys, ok, dropped)
    ensures card.reliable && old(SectorOpenable(card.blocks, tag.sectorKeys, sector)) ==> ok && !dropped
  {
    ghost var expected := Candidate(A, TrailerKeys(card.blocks[TrailerBlock(sector)]).keyA);
    WriteCandidatesSuffice(tag.sectorKeys, tag.keyA, tag.keyB, sector);
    var zeroed := ZeroSector(card, tag, sector);
    if !zeroed { return false, false; }
    AddressRoundTrip(sector, SECTOR_TRAILER_OFFSET);
    label rekey:
    ok, dropped := WriteBlockWithCandidates(card, tag, TrailerBlock(sector), BuildSectorTrailer(keys));
    assert card.reliable && old(SectorOpenable(card.blocks, tag.sectorKeys, sector)) ==>
        old@rekey(card.Opens(TrailerBlock(sector), expected));
  }

  datatype InitResult =
    | BadWriterId
    | Initialised(complete: bool, sectors: seq<int>, failed: seq<int>, writerErrors: seq<nat>)

  predicate TouchesTraits(sectors: seq<int>) {
    exists s :: s in sectors && FIRST_TRAIT_SECTOR <= s <= LAST_TRAIT_SECTOR
  }

  const MANAGED_SECTORS: seq<int> := seq(LAST_MANAGED_SECTOR + 1 - FIRST_MANAGED_SECTOR, i => FIRST_MANAGED_SECTOR + i)

  /** The keys initialisation gives a sector: the recorded ones, else newly generated ones. */
  function NewKeys(sectorKeys: map<int, KeyRecord>, generated: seq<KeyRecord>, sector: nat): KeyRecord
    requires |generated| > sector
  {
    if sector in sectorKeys then sectorKeys[sector] else generated[sector]
  }

  /** Each managed sector below `limit` was rekeyed from `records`, or kept its trailer. */
  ghost predicate SectorsOutcome(was: seq<Block>, now: seq<Block>, records: map<int, KeyRecord>, limit: nat,
                                 done: seq<int>, lost: set<int>)
  {
    && |was| == |now| == CARD_BLOCKS && limit <= LAST_MANAGED_SECTOR + 1
    && forall s: nat :: FIRST_MANAGED_SECTOR <= s < limit ==>
         s in records && Rekeyed(was, now, s, records[s], s in done, s in lost)
  }

  lemma {:induction false} SectorsStep(was: seq<Block>, mid: seq<Block>, now: seq<Block>, records: map<int, KeyRecord>,
                                       sector: nat, done: seq<int>, lost: set<int>, ok: bool, dropped: bool)
    requires IsManaged(sector) && sector in records && |now| == CARD_BLOCKS
    requires SectorsOutcome(was, mid, records, sector, done, lost)
    requires forall j: nat :: j <= SECTOR_TRAILER_OFFSET ==> mid[SectorBlock(sector, j)] == was[SectorBlock(sector, j)]
    requires OnlyRange(mid, now, sector * 4, sector * 4 + 4)
    requires Rekeyed(mid, now, sector, records[sector], ok, dropped)
    requires forall s :: s in done || s in lost ==> s < sector
    ensures SectorsOutcome(was, now, records, sector + 1, if ok then done + [sector] else done,
                           if dropped then lost + {sector as int} else lost)
  {
    var done' := if ok then done + [sector] else done;
    var lost' := if dropped then lost + {sector as int} else lost;
    forall s: nat | FIRST_MANAGED_SECTOR <= s < sector + 1
      ensures s in records && Rekeyed(was, now, s, records[s], s in done', s in lost')
    {
      if s < sector {
        forall j: nat | j < SECTOR_DATA_BLOCKS ensures now[SectorBlock(s, j)] == mid[SectorBlock(s, j)] {}
        assert Rekeyed(was, mid, s, records[s], s in done, s in lost);
        forall j: nat | j < SECTOR_DATA_BLOCKS ensures KeptOrZeroed(was, now, SectorBlock(s, j)) {
          assert KeptOrZeroed(was, mid, SectorBlock(s, j));
        }
      } else {
        forall j: nat | j < SECTOR_DATA_BLOCKS ensures KeptOrZeroed(was, now, SectorBlock(s, j)) {
          assert KeptOrZeroed(mid, now, SectorBlock(s, j));
        }
      }
    }
  }

  /** The saved sector keys after the sectors listed were rekeyed from `records`. */
  function Persisted(sectorKeys: map<int, KeyRecord>, records: map<int, KeyRecord>, done: seq<int>)
    : map<int, KeyRecord>
  {
    map s | s in records && (s in sectorKeys || s in done) :: records[s]
  }

  lemma {:induction false} NothingPersisted(sectorKeys: map<int, KeyRecord>, records: map<int, KeyRecord>)
    requires forall s :: s in sectorKeys ==> s in records && records[s] == sectorKeys[s]
    ensures Persisted(sectorKeys, records, []) == sectorKeys
  {
    var persisted := Persisted(sectorKeys, records, []);
    var none: seq<int> := [];
    forall s: int ensures s in persisted <==> s in sectorKeys { assert s !in none; }
    forall s | s in persisted ensures persisted[s] == sectorKeys[s] { assert s !in none; }
    assert persisted.Keys == sectorKeys.Keys;
  }

  lemma {:induction false} PersistedStep(sectorKeys: map<int, KeyRecord>, records: map<int, KeyRecord>, done: seq<int>,
                                         sector: int)
    requires sector in records
    ensures Persisted(sectorKeys, records, done + [sector]) ==
            Persisted(sectorKeys, records, done)[sector := records[sector]]
  {}

  /** The sectors before `limit`, split into those done and those that failed. */
  ghost predicate Tally(done: seq<int>, failed: seq<int>, limit: int) {
    && |done| + |failed| == limit - FIRST_MANAGED_SECTOR
    && (forall s :: s in done || s in failed ==> FIRST_MANAGED_SECTOR <= s < limit)
    && (forall s :: FIRST_MANAGED_SECTOR <= s < limit ==> (s in done <==> s !in failed))
    && (failed == [] ==> forall i :: 0 <= i < |done| ==> done[i] == FIRST_MANAGED_SECTOR + i)
  }

  lemma {:induction false} TallyStep(done: seq<int>, failed: seq<int>, sector: int)
    requires Tally(done, failed, sector)
    ensures Tally(done + [sector], failed, sector + 1) && Tally(done, failed + [sector], sector + 1)
  {}

  lemma {:induction false} TallyDone(done: seq<int>, failed: seq<int>)
    requires Tally(done, failed, LAST_MANAGED_SECTOR + 1)
    ensures failed == [] <==> done == MANAGED_SECTORS
    ensures forall s :: s in done ==> IsManaged(s)
    ensures forall s :: IsManaged(s) ==> (s in done <==> s !in failed)
  {}

  /** The loop over the managed sectors. */
  method InitializeSectors(card: Card, tag: Tag, records: map<int, KeyRecord>)
    returns (sectors: seq<int>, failed: seq<int>, persisted: map<int, KeyRecord>, ghost lost: set<int>)
    requires card.Valid() && forall s :: IsManaged(s) ==> s in records
    requires forall s :: s in tag.sectorKeys ==> s in records && records[s] == tag.sectorKeys[s]
    modifies card
    ensures card.Valid() && OnlyRange(old(card.blocks), card.blocks, FIRST_MANAGED_SECTOR * 4, CARD_BLOCKS)
    ensures SectorsOutcome(old(card.blocks), card.blocks, records, LAST_MANAGED_SECTOR + 1, sectors, lost)
    ensures forall s :: s in sectors ==> IsManaged(s)
    ensures failed == [] <==> sectors == MANAGED_SECTORS
    ensures forall s :: IsManaged(s) ==> (s in sectors <==> s !in failed)
    ensures persisted == Persisted(tag.sectorKeys, records, sectors)
    ensures card.reliable && old(AllOpenable(card, tag)) ==> failed == [] && lost == {}
  {
    sectors, failed, persisted, lost := [], [], tag.sectorKeys, {};
    NothingPersisted(tag.sectorKeys, records);
    for sector := FIRST_MANAGED_SECTOR to LAST_MANAGED_SECTOR + 1
      invariant card.Valid() && OnlyRange(old(card.blocks), card.blocks, FIRST_MANAGED_SECTOR * 4, sector * 4)
      invariant SectorsOutcome(old(card.blocks), card.blocks, records, sector, sectors, lost)
      invariant Tally(sectors, failed, sector) && forall s :: s in lost ==> s < sector
      invariant persisted == Persisted(tag.sectorKeys, records, sectors)
      invariant card.reliable && old(AllOpenable(card, tag)) ==> failed == [] && lost == {}
    {
      ghost var mid := card.blocks;
      assert forall j: nat :: j <= SECTOR_TRAILER_OFFSET ==>
          card.blocks[SectorBlock(sector, j)] == old(card.blocks)[SectorBlock(sector, j)];
      assert old(AllOpenable(card, tag)) ==> old(SectorOpenable(card.blocks, tag.sectorKeys, sector));
      var ok, dropped := InitializeSector(card, tag, sector, records[sector]);
      SectorsStep(old(card.blocks), mid, card.blocks, records, sector, sectors, lost, ok, dropped);
      TallyStep(sectors, failed, sector);
      if dropped { lost := lost + {sector}; }
      if ok {
        PersistedStep(tag.sectorKeys, records, sectors, sector);
        sectors := sectors + [sector];
        persisted := persisted[sector := records[sector]];
      } else {
        failed := failed + [sector];
      }
    }
    TallyDone(sectors, failed);
  }

  /** What initialisation did to the card and to the saved sector keys. */
  ghost predicate InitOutcome(was: seq<Block>, now: seq<Block>, before: map<int, KeyRecord>, after: map<int, KeyRecord>,
                              generated: seq<KeyRecord>, done: seq<int>, lost: set<int>)
  {
    && |was| == |now| == CARD_BLOCKS && |generated| > LAST_MANAGED_SECTOR
    && (forall s: nat :: IsManaged(s) ==>
         Rekeyed(was, now, s, NewKeys(before, generated, s), s in done, s in lost))
    && (forall s :: s in after <==> s in before || s in done)
    && (forall s: nat :: IsManaged(s) && s in after ==> after[s] == NewKeys(before, generated, s))
    && (forall s: int :: s in after && !IsManaged(s) ==> s in before && after[s] == before[s])
  }

  predicate SectorAgrees(blocks: seq<Block>, keys: map<int, KeyRecord>, s: nat)
    requires |blocks| == CARD_BLOCKS && IsManaged(s)
  {
    TrailerKeys(blocks[TrailerBlock(s)]) == KeysFor(keys, s)
  }

  /**
   Key agreement over initialisation, for every pattern of failures: an agreeing
   sector still agrees exactly when its new trailer was not written without an
   acknowledgement and dropped, or when the trailer held no new keys.
   */
  lemma {:induction false} KeyAgreementAfterInit(was: seq<Block>, now: seq<Block>, before: map<int, KeyRecord>,
                                                 after: map<int, KeyRecord>, generated: seq<KeyRecord>, done: seq<int>,
                                                 lost: set<int>, s: nat)
    requires InitOutcome(was, now, before, after, generated, done, lost)
    requires IsManaged(s) && SectorAgrees(was, before, s)
    ensures SectorAgrees(now, after, s) <==>
            !(s in done && s in lost && s !in before && generated[s] != FACTORY_KEYS)
  {
    TrailerCarriesKeys(NewKeys(before, generated, s));
    assert Rekeyed(was, now, s, NewKeys(before, generated, s), s in done, s in lost);
  }

  /** One run in which that happens: a blank card takes the zero blocks of sector 3 and drops its new trailer. */
  lemma {:induction false} DroppedFirstKeys(generated: seq<KeyRecord>)
    returns (was: seq<Block>, after: map<int, KeyRecord>, done: seq<int>, lost: set<int>)
    requires |generated| > LAST_MANAGED_SECTOR && generated[FIRST_MANAGED_SECTOR] != FACTORY_KEYS
    ensures InitOutcome(was, was, map[], after, generated, done, lost)
    ensures SectorAgrees(was, map[], FIRST_MANAGED_SECTOR) && !SectorAgrees(was, after, FIRST_MANAGED_SECTOR)
  {
    was := seq(CARD_BLOCKS, b => if IsTrailerBlock(b) then BuildSectorTrailer(FACTORY_KEYS) else ZERO_BLOCK);
    after := map[FIRST_MANAGED_SECTOR := generated[FIRST_MANAGED_SECTOR]];
    done, lost := [FIRST_MANAGED_SECTOR], {FIRST_MANAGED_SECTOR};
    TrailerCarriesKeys(FACTORY_KEYS);
    forall s: nat | IsManaged(s)
      ensures Rekeyed(was, was, s, NewKeys(map[], generated, s), s in done, s in lost)
    {
      AddressRoundTrip(s, 0);
    }
    KeyAgreementAfterInit(was, was, map[], after, generated, done, lost, FIRST_MANAGED_SECTOR);
  }

  lemma {:induction false} NoEntries(e: seq<Entry>)
    requires forall i :: 0 <= i < |e| ==> e[i] == None
    ensures Collect(e) == []
  {
    if e != [] { NoEntries(e[..|e| - 1]); }
  }

  /** A card shows no trait exactly when no pair decodes to one. */
  lemma {:induction false} NothingShown(d: Dump)
    ensures Agrees(d, map[]) <==> forall i: nat :: i < TRAIT_PAIRS ==> DecodePair(d, i).None?
  {
    var e := Entries(d, TRAIT_PAIRS);
    if forall i: nat :: i < TRAIT_PAIRS ==> DecodePair(d, i).None? {
      NoEntries(e);
    } else {
      var i: nat :| i < TRAIT_PAIRS && DecodePair(d, i).Some?;
      LookupIsLastPair(e, e[i].value.0);
    }
  }

  /** A pair shows a trait after initialisation if and only if it did before and its key block was left alone. */
  lemma {:induction false} PairAfterInit(was: seq<Block>, now: seq<Block>, before: map<int, KeyRecord>,
                                         after: map<int, KeyRecord>, generated: seq<KeyRecord>, done: seq<int>,
                                         lost: set<int>, i: nat)
    requires InitOutcome(was, now, before, after, generated, done, lost) && i < TRAIT_PAIRS
    ensures DecodePair(CardDump(now), i).Some? <==>
            DecodePair(CardDump(was), i).Some? && now[PairBlock(i, 0)] == was[PairBlock(i, 0)]
    ensures PairSector(i) in done ==> DecodePair(CardDump(now), i).None?
  {
    var s := PairSector(i);
    assert Rekeyed(was, now, s, NewKeys(before, generated, s), s in done, s in lost);
    assert KeptOrZeroed(was, now, SectorBlock(s, 0)) && PairBlock(i, 0) == SectorBlock(s, 0);
  }

  /**
   Initialisation empties the registry as soon as one trait sector was done. For
   every pattern of failures, card and emptied registry agree exactly when every
   pair that showed a key before had its key block changed; a card that showed no
   trait still shows none.
   */
  lemma {:induction false} EmptiedRegistryAgrees(was: seq<Block>, now: seq<Block>, before: map<int, KeyRecord>,
                                                 after: map<int, KeyRecord>, generated: seq<KeyRecord>, done: seq<int>,
                                                 lost: set<int>)
    requires InitOutcome(was, now, before, after, generated, done, lost)
    ensures Agrees(CardDump(now), map[]) <==>
            forall i: nat :: i < TRAIT_PAIRS && DecodePair(CardDump(was), i).Some? ==>
              now[PairBlock(i, 0)] != was[PairBlock(i, 0)]
    ensures Agrees(CardDump(was), map[]) ==> Agrees(CardDump(now), map[])
    ensures forall i: nat :: i < TRAIT_PAIRS && PairSector(i) in done ==> DecodePair(CardDump(now), i).None?
  {
    forall i: nat | i < TRAIT_PAIRS
      ensures DecodePair(CardDump(now), i).Some? <==>
              DecodePair(CardDump(was), i).Some? && now[PairBlock(i, 0)] == was[PairBlock(i, 0)]
      ensures PairSector(i) in done ==> DecodePair(CardDump(now), i).None?
    {
      PairAfterInit(was, now, before, after, generated, done, lost, i);
    }
    NothingShown(CardDump(was));
    NothingShown(CardDump(now));
  }

  /** A blank card but for one key, in the second pair. */
  function OneKeyCard(keyBlock: Block): (blocks: seq<Block>)
    ensures |blocks| == CARD_BLOCKS
  {
    seq(CARD_BLOCKS, b => if b == PairBlock(1, 0) then keyBlock
                          else if IsTrailerBlock(b) then BuildSectorTrailer(FACTORY_KEYS) else ZERO_BLOCK)
  }

  lemma {:induction false} BlankKeyIsEmpty()
    ensures DecodeFixedAscii(ZERO_BLOCK) == ""
  {
    assert [] + Zeros(16) == ZERO_BLOCK;
    StripZeros([], 16);
  }

  /** An initialisation that does sector 3 alone empties the registry, while the second pair goes on showing its key. */
  lemma {:induction false} PartialInitDisagrees(keyBlock: Block, generated: seq<KeyRecord>)
    returns (was: seq<Block>, now: seq<Block>, after: map<int, KeyRecord>, done: seq<int>)
    requires DecodeFixedAscii(keyBlock) != "" && |generated| > LAST_MANAGED_SECTOR
    ensures InitOutcome(was, now, map[], after, generated, done, {}) && TouchesTraits(done)
    ensures DecodePair(CardDump(was), 1).Some? && !Agrees(CardDump(now), map[])
  {
    was := OneKeyCard(keyBlock);
    now := was[TrailerBlock(FIRST_MANAGED_SECTOR) := BuildSectorTrailer(generated[FIRST_MANAGED_SECTOR])];
    after, done := map[FIRST_MANAGED_SECTOR := generated[FIRST_MANAGED_SECTOR]], [FIRST_MANAGED_SECTOR];
    forall s: nat | IsManaged(s)
      ensures Rekeyed(was, now, s, NewKeys(map[], generated, s), s in done, s in {})
    {
      forall j: nat | j < SECTOR_DATA_BLOCKS ensures now[SectorBlock(s, j)] == was[SectorBlock(s, j)] {
        AddressRoundTrip(s, j);
      }
    }
    assert FIRST_TRAIT_SECTOR in done;
    assert keyBlock != ZERO_BLOCK by { BlankKeyIsEmpty(); }
    assert now[PairBlock(1, 0)] == was[PairBlock(1, 0)] == keyBlock;
    EmptiedRegistryAgrees(was, now, map[], after, generated, done, {});
  }

  /** The update of the tag record at the end of initialisation. */
  method SaveInitialisation(tag: Tag, persisted: map<int, KeyRecord>, sectors: seq<int>, failed: seq<int>,
                            writerErrors: seq<nat>, writer: string)
    requires failed == [] <==> sectors == MANAGED_SECTORS
    modifies tag
    ensures unchanged(tag`keyA, tag`keyB, tag`keyAVerified, tag`keyBVerified)
    ensures tag.sectorKeys == if sectors == [] then old(tag.sectorKeys) else persisted
    ensures tag.traits == if TouchesTraits(sectors) then map[] else old(tag.traits)
    ensures tag.initialized == (old(tag.initialized) || failed == [])
    ensures tag.writerId == if writerErrors == [] then writer else old(tag.writerId)
  {
    if sectors != [] {
      tag.sectorKeys := persisted;
      if TouchesTraits(sectors) { tag.traits := map[]; }
    }
    var complete := sectors == MANAGED_SECTORS;
    if complete && failed == [] { tag.initialized := true; }
    if writerErrors == [] { tag.writerId := writer; }
  }

  lemma {:induction false} OutcomeFrom(was: seq<Block>, mid: seq<Block>, now: seq<Block>, before: map<int, KeyRecord>,
                                       records: map<int, KeyRecord>, generated: seq<KeyRecord>, done: seq<int>,
                                       lost: set<int>)
    requires |was| == |mid| == |now| == CARD_BLOCKS && |generated| > LAST_MANAGED_SECTOR
    requires OnlyRange(was, mid, WRITER_FIRST, WRITER_LAST + 1)
    requires SectorsOutcome(mid, now, records, LAST_MANAGED_SECTOR + 1, done, lost)
    requires forall s :: s in done ==> IsManaged(s)
    requires forall s :: s in records <==> s in before || IsManaged(s)
    requires forall s :: s in before ==> records[s] == before[s]
    requires forall s :: s in records && s !in before ==> IsManaged(s) && records[s] == generated[s]
    ensures InitOutcome(was, now, before, Persisted(before, records, done), generated, done, lost)
    ensures done == [] ==> Persisted(before, records, done) == before
  {
    forall s: nat | IsManaged(s)
      ensures Rekeyed(was, now, s, NewKeys(before, generated, s), s in done, s in lost)
    {
      assert Rekeyed(mid, now, s, records[s], s in done, s in lost);
      assert TrailerBlock(s) > WRITER_LAST;
    }
    NothingPersisted(before, records);
  }

  /**
   `_initialize_detected_card`. `lost` names the sectors whose new trailer was
   written without an acknowledgement and dropped by the card.
   */
  method InitializeDetectedCard(card: Card, tag: Tag, generated: seq<KeyRecord>, writerId: string, stamp: Block)
    returns (r: InitResult, ghost lost: set<int>)
    requires card.Valid() && |generated| > LAST_MANAGED_SECTOR
    modifies card, tag
    ensures card.Valid()
    ensures forall b :: 0 <= b < FIRST_MANAGED_SECTOR * 4 && b != WRITER_FIRST && b != WRITER_LAST ==>
              card.blocks[b] == old(card.blocks)[b]
    ensures r.BadWriterId? <==> NormalizeWriterId(writerId).None?
    ensures r.BadWriterId? ==> unchanged(card) && unchanged(tag)
    ensures unchanged(tag`keyA, tag`keyB, tag`keyAVerified, tag`keyBVerified)
    ensures r.Initialised? ==>
              && InitOutcome(old(card.blocks), card.blocks, old(tag.sectorKeys), tag.sectorKeys, generated, r.sectors,
                             lost)
              && (forall s :: s in r.sectors ==> IsManaged(s))
              && (forall s :: IsManaged(s) ==> (s in r.sectors <==> s !in r.failed))
              && (r.complete <==> r.failed == [])
              && tag.traits == (if TouchesTraits(r.sectors) then map[] else old(tag.traits))
              && tag.initialized == (old(tag.initialized) || r.complete)
              && tag.writerId == (if r.writerErrors == [] then NormalizeWriterId(writerId).value else old(tag.writerId))
              && (r.writerErrors == [] ==> MarkHeld(card.blocks, tag.writerId, stamp))
    ensures r.Initialised? ==>
              forall s: nat, j: nat :: s in r.sectors && j < SECTOR_DATA_BLOCKS ==>
                card.blocks[SectorBlock(s, j)] == ZERO_BLOCK
    ensures r.Initialised? && card.reliable && old(AllOpenable(card, tag)) ==> r.complete && lost == {}
    ensures r.Initialised? && card.reliable && TrailerKeys(old(card.blocks)[7]).keyA == FACTORY_KEY ==>
              r.writerErrors == []
  {
    lost := {};
    var records := EnsureSectorKeyRecords(tag.sectorKeys, generated);
    var writer, writerErrors := WriteWriterMetadata(card, tag, writerId, stamp);
    if writer.None? { return BadWriterId, {}; }
    ghost var mid := card.blocks;
    var sectors, failed, persisted, dropped := InitializeSectors(card, tag, records);
    lost := dropped;
    OutcomeFrom(old(card.blocks), mid, card.blocks, tag.sectorKeys, records, generated, sectors, lost);
    SaveInitialisation(tag, persisted, sectors, failed, writerErrors, writer.value);
    r := Initialised(failed == [], sectors, failed, writerErrors);
  }
}
