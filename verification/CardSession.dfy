/**
 The session that writes one trait, initialising the card first if need be
 (apps/cards/reader.py, `set_current_card_trait`).
 */
module CardSession {
  import opened Wrappers
  import opened CardLayout
  import opened TraitStore
  import opened TraitRuns
  import opened CardReader
  import opened CardSteps

  // ----- Writing a trait ---------------------------------------------------

  lemma {:induction false} PairBlockPlace(i: nat, j: nat)
    requires i < TRAIT_PAIRS && j < 6
    ensures var b := PairBlock(i, j);
            && PairSector(i) * 4 <= b < PairSector(i) * 4 + 8 && b < CARD_BLOCKS
            && !IsTrailerBlock(b) && IsManaged(SectorForBlock(b)) && b > WRITER_LAST
  {}

  /** A change confined to the two sectors of pair `i` leaves every other pair alone. */
  lemma {:induction false} RangeSparesPairs(was: seq<Block>, now: seq<Block>, i: nat)
    requires i < TRAIT_PAIRS && |was| == CARD_BLOCKS
    requires OnlyRange(was, now, PairSector(i) * 4, PairSector(i) * 4 + 8)
    ensures SameOtherPairs(CardDump(was), CardDump(now), i)
  {
    forall i': nat, j: nat | i' < TRAIT_PAIRS && i' != i && j < 6
      ensures BlockAt(CardDump(now), PairBlock(i', j)) == BlockAt(CardDump(was), PairBlock(i', j))
    {
      PairBlockPlace(i', j);
    }
  }

  lemma {:induction false} WriterBlocksSparePairs(was: seq<Block>, now: seq<Block>)
    requires |was| == CARD_BLOCKS && OnlyRange(was, now, WRITER_FIRST, WRITER_LAST + 1)
    ensures forall i: nat :: i < TRAIT_PAIRS ==> SamePair(CardDump(was), CardDump(now), i)
  {
    forall i: nat, j: nat | i < TRAIT_PAIRS && j < 6
      ensures BlockAt(CardDump(now), PairBlock(i, j)) == BlockAt(CardDump(was), PairBlock(i, j))
    {
      PairBlockPlace(i, j);
    }
  }

  /** Block `j` of pair `i` on the card. */
  function PairContent(blocks: seq<Block>, i: nat, j: nat): Block
    requires |blocks| == CARD_BLOCKS && i < TRAIT_PAIRS && j < 6
  {
    blocks[PairBlock(i, j)]
  }

  lemma {:induction false} TrailersKeptKeepKeys(was: seq<Block>, now: seq<Block>, keys: map<int, KeyRecord>, s: nat)
    requires |was| == CARD_BLOCKS && TrailersKept(was, now) && IsManaged(s)
    ensures SectorAgrees(now, keys, s) <==> SectorAgrees(was, keys, s)
  {
    assert IsTrailerBlock(TrailerBlock(s));
  }

  /** One block of the payload. */
  method WritePayloadBlock(card: Card, tag: Tag, i: nat, j: nat, data: Block) returns (ok: bool)
    requires card.Valid() && i < TRAIT_PAIRS && j < 6
    modifies card
    ensures card.Valid()
    ensures OnlyRange(old(card.blocks), card.blocks, PairBlock(i, j), PairBlock(i, j) + 1)
    ensures PairContent(card.blocks, i, j) in {PairContent(old(card.blocks), i, j), data}
    ensures ok ==> PairContent(card.blocks, i, j) == data
    ensures card.reliable && old(AllKeysAgree(card, tag)) ==> ok
    ensures old(AllKeysAgree(card, tag)) ==> AllKeysAgree(card, tag)
  {
    PairBlockPlace(i, j);
    var block := PairBlock(i, j);
    ghost var sector := SectorForBlock(block);
    ghost var expected := Candidate(A, KeysFor(tag.sectorKeys, sector).keyA);
    WriteCandidatesSuffice(tag.sectorKeys, tag.keyA, tag.keyB, sector);
    assert AllKeysAgree(card, tag) ==> KeysAgree(card, tag, sector) && card.Opens(block, expected);
    ghost var dropped;
    ok, dropped := WriteBlockWithCandidates(card, tag, block, data);
    assert TrailersKept(old(card.blocks), card.blocks);
    forall s | IsManaged(s) && old(KeysAgree(card, tag, s)) ensures KeysAgree(card, tag, s) {
      TrailersKeptKeepKeys(old(card.blocks), card.blocks, tag.sectorKeys, s);
    }
  }

  lemma {:induction false} OneBlockSpares(was: seq<Block>, now: seq<Block>, i: nat, j: nat)
    requires i < TRAIT_PAIRS && j < 6 && |was| == CARD_BLOCKS
    requires OnlyRange(was, now, PairBlock(i, j), PairBlock(i, j) + 1)
    ensures TrailersKept(was, now) && OnlyRange(was, now, PairSector(i) * 4, PairSector(i) * 4 + 8)
    ensures forall k: nat :: k < 6 && k != j ==> PairContent(now, i, k) == PairContent(was, i, k)
  {
    PairBlockPlace(i, j);
  }

  /** Writes the six blocks of a pair, going on after a failure. */
  method WritePayload(card: Card, tag: Tag, i: nat, payload: seq<Block>) returns (errors: seq<nat>)
    requires card.Valid() && i < TRAIT_PAIRS && |payload| == 6
    modifies card
    ensures card.Valid() && TrailersKept(old(card.blocks), card.blocks)
    ensures OnlyRange(old(card.blocks), card.blocks, PairSector(i) * 4, PairSector(i) * 4 + 8)
    ensures forall k: nat :: k < 6 ==>
              PairContent(card.blocks, i, k) in {PairContent(old(card.blocks), i, k), payload[k]}
    ensures errors == [] ==> forall k: nat :: k < 6 ==> PairContent(card.blocks, i, k) == payload[k]
    ensures card.reliable && old(AllKeysAgree(card, tag)) ==> errors == []
  {
    errors := [];
    for j := 0 to 6
      invariant card.Valid() && TrailersKept(old(card.blocks), card.blocks)
      invariant OnlyRange(old(card.blocks), card.blocks, PairSector(i) * 4, PairSector(i) * 4 + 8)
      invariant forall k: nat :: k < 6 ==>
        PairContent(card.blocks, i, k) in {PairContent(old(card.blocks), i, k), payload[k]}
      invariant errors == [] ==> forall k: nat :: k < j ==> PairContent(card.blocks, i, k) == payload[k]
      invariant old(AllKeysAgree(card, tag)) ==> AllKeysAgree(card, tag)
      invariant card.reliable && old(AllKeysAgree(card, tag)) ==> errors == []
    {
      ghost var before := card.blocks;
      var ok := WritePayloadBlock(card, tag, i, j, payload[j]);
      OneBlockSpares(before, card.blocks, i, j);
      if !ok { errors := errors + [PairBlock(i, j)]; }
    }
  }

  datatype TraitResult =
    | LayoutError
    | InitializationFailed(init: InitResult)
    | NoEmptyPair
    | WriteFailed(errors: seq<nat>)
    | Written(sector: int, writerErrors: seq<nat>)

  function Store(card: Card, tag: Tag): StoreState
    reads card, tag
  {
    StoreState(CardDump(card.blocks), tag.traits)
  }

  lemma {:induction false} CallAt(traits: Traits, key: string, value: string, i: nat)
    requires NormalKey(key) && NormalValue(value) && i < TRAIT_PAIRS && Target(traits, key) == Some(PairSector(i))
    ensures CallPair(traits, key, value) == Some(i)
    ensures BuildTraitBlockPayloads(PairSector(i), key, value) == Some(CallPayload(traits, key, value))
    ensures Registered(traits, key, value) == traits[key := PairRecord(value, PairSector(i))]
  {
    assert IsPairStart(PairSector(i));
  }

  /** Writer's mark first, then the payload: together one step of the trait store. */
  lemma {:induction false} StepFrom(was: seq<Block>, mid: seq<Block>, now: seq<Block>, traits: Traits, key: string,
                                    value: string, i: nat, payload: seq<Block>, written: bool)
    requires |was| == CARD_BLOCKS && OnlyRange(was, mid, WRITER_FIRST, WRITER_LAST + 1)
    requires NormalKey(key) && NormalValue(value) && i < TRAIT_PAIRS && Target(traits, key) == Some(PairSector(i))
    requires BuildTraitBlockPayloads(PairSector(i), key, value) == Some(payload)
    requires OnlyRange(mid, now, PairSector(i) * 4, PairSector(i) * 4 + 8)
    requires forall k: nat :: k < 6 ==>
               PairContent(now, i, k) == PairContent(mid, i, k) || PairContent(now, i, k) == payload[k]
    requires written ==> forall k: nat :: k < 6 ==> PairContent(now, i, k) == payload[k]
    ensures var traits' := if written then traits[key := PairRecord(value, PairSector(i))] else traits;
            TraitStep(StoreState(CardDump(was), traits), StoreState(CardDump(now), traits'), Call(key, value, written))
  {
    CallAt(traits, key, value, i);
    WriterBlocksSparePairs(was, mid);
    RangeSparesPairs(mid, now, i);
    forall i': nat | i' < TRAIT_PAIRS && i' != i ensures SamePair(CardDump(was), CardDump(now), i') {
      assert SamePair(CardDump(was), CardDump(mid), i') && SamePair(CardDump(mid), CardDump(now), i');
    }
    assert SamePair(CardDump(was), CardDump(mid), i);
    forall k: nat | k < 6
      ensures BlockAt(CardDump(now), PairBlock(i, k)) == PairContent(now, i, k)
      ensures BlockAt(CardDump(was), PairBlock(i, k)) == PairContent(mid, i, k)
    {
      PairBlockPlace(i, k);
    }
  }

  lemma {:induction false} NoStep(was: seq<Block>, now: seq<Block>, traits: Traits, key: string, value: string)
    requires |was| == CARD_BLOCKS && OnlyRange(was, now, WRITER_FIRST, WRITER_LAST + 1)
    ensures TraitStep(StoreState(CardDump(was), traits), StoreState(CardDump(now), traits), Call(key, value, false))
  {
    WriterBlocksSparePairs(was, now);
    match CallPair(traits, key, value)
    case None =>
    case Some(i) => assert SamePair(CardDump(was), CardDump(now), i);
  }

  /** A written trait also records its writer, unless writing the mark failed. */
  ghost predicate WriterRecorded(card: Card, tag: Tag, oldId: string, r: TraitResult, writerId: string, stamp: Block)
    requires card.Valid()
    reads card, tag
  {
    r.Written? ==>
      if r.writerErrors == [] then
        NormalizeWriterId(writerId) == Some(tag.writerId) && MarkHeld(card.blocks, tag.writerId, stamp)
      else tag.writerId == oldId
  }

  /** The part of `set_current_card_trait` from the writer's mark on, for a given pair of sectors. */
  method WriteTraitAt(card: Card, tag: Tag, start: int, key: string, value: string, writerId: string, stamp: Block)
    returns (r: TraitResult)
    requires card.Valid() && NormalKey(key) && NormalValue(value) && Target(tag.traits, key) == Some(start)
    modifies card, tag
    ensures card.Valid() && TrailersKept(old(card.blocks), card.blocks)
    ensures unchanged(tag`sectorKeys, tag`initialized, tag`keyA, tag`keyB, tag`keyAVerified, tag`keyBVerified)
    ensures r.LayoutError? || r.WriteFailed? || (r.Written? && r.sector == start)
    ensures !r.Written? ==> unchanged(tag)
    ensures TraitStep(old(Store(card, tag)), Store(card, tag), Call(key, value, r.Written?))
    ensures WriterRecorded(card, tag, old(tag.writerId), r, writerId, stamp)
    ensures card.reliable && old(AllKeysAgree(card, tag)) && NormalizeWriterId(writerId).Some? && IsPairStart(start) ==>
              r.Written?
    ensures card.reliable && TrailerKeys(old(card.blocks)[7]).keyA == FACTORY_KEY && r.Written? ==>
              r.writerErrors == []
  {
    ghost var was := card.blocks;
    var writer, writerErrors := WriteWriterMetadata(card, tag, writerId, stamp);
    ghost var mid := card.blocks;
    if writer.None? { NoStep(was, mid, tag.traits, key, value); return LayoutError; }
    var payload := BuildTraitBlockPayloads(start, key, value);
    if payload.None? {
      if IsPairStart(start) { PayloadOf(start, key, value); }
      NoStep(was, mid, tag.traits, key, value);
      return LayoutError;
    }
    var i := PairIndex(start);
    var errors := WritePayload(card, tag, i, payload.value);
    StepFrom(was, mid, card.blocks, tag.traits, key, value, i, payload.value, errors == []);
    if errors != [] { return WriteFailed(errors); }
    tag.traits := tag.traits[key := PairRecord(value, start)];
    if writerErrors == [] { tag.writerId := writer.value; }
    r := Written(start, writerErrors);
  }

  /** The part of `set_current_card_trait` that follows initialisation. */
  method WriteTrait(card: Card, tag: Tag, key: string, value: string, writerId: string, stamp: Block)
    returns (r: TraitResult)
    requires card.Valid() && NormalKey(key) && NormalValue(value)
    modifies card, tag
    ensures card.Valid() && TrailersKept(old(card.blocks), card.blocks)
    ensures unchanged(tag`sectorKeys, tag`initialized, tag`keyA, tag`keyB, tag`keyAVerified, tag`keyBVerified)
    ensures !r.InitializationFailed? && (!r.Written? ==> unchanged(tag))
    ensures TraitStep(old(Store(card, tag)), Store(card, tag), Call(key, value, r.Written?))
    ensures r.NoEmptyPair? <==> Target(old(tag.traits), key).None?
    ensures r.Written? ==> Target(old(tag.traits), key) == Some(r.sector)
    ensures WriterRecorded(card, tag, old(tag.writerId), r, writerId, stamp)
    ensures card.reliable && old(AllKeysAgree(card, tag)) && NormalizeWriterId(writerId).Some? &&
              CallPair(old(tag.traits), key, value).Some?
            ==> r.Written?
  {
    var start: Option<int> := None;
    if key in tag.traits { start := tag.traits[key].sector; }
    if start.None? { start := FirstEmptyTraitSector(tag.traits); }
    if start.None? {
      NoStep(card.blocks, card.blocks, tag.traits, key, value);
      return NoEmptyPair;
    }
    r := WriteTraitAt(card, tag, start.value, key, value, writerId, stamp);
  }

  lemma {:induction false} RawStep(s: StoreState, s': StoreState, key: string, value: string, written: bool)
    requires NormalizeTraitKey(key).Some? && NormalizeTraitValue(value).Some?
    requires TraitStep(s, s', Call(NormalizeTraitKey(key).value, NormalizeTraitValue(value).value, written))
    ensures TraitStep(s, s', Call(key, value, written))
  {
    Normalizing(key, value);
  }

  /** The first trait of a freshly initialised card goes to the first pair, and card and registry agree on it. */
  lemma {:induction false} FirstTrait(s: StoreState, s': StoreState, key: string, value: string)
    requires s.traits == map[] && Agrees(s.dump, s.traits) && NormalKey(key) && NormalValue(value)
    requires TraitStep(s, s', Call(key, value, true))
    ensures s'.traits == map[key := PairRecord(value, FIRST_TRAIT_SECTOR)]
    ensures Canonical(key) && Canonical(value) ==> Agrees(s'.dump, s'.traits)
  {
    BlankStoreHasRoom(key, value);
    TraitWriteKeepsAgreement(s.dump, s'.dump, s.traits, key, value, 0);
  }

  /** Key agreement of every sector after an initialisation. */
  lemma {:induction false} AllKeysAfterInit(a: TagState, b: TagState, step: Step)
    requires Moves(a, b, step) && step.Initialise?
    ensures forall s: nat :: IsManaged(s) && SectorAgrees(a.blocks, a.keys, s) ==>
              (SectorAgrees(b.blocks, b.keys, s) <==> !LosesKeys(a, step, s))
  {
    forall s: nat | IsManaged(s) && SectorAgrees(a.blocks, a.keys, s)
      ensures SectorAgrees(b.blocks, b.keys, s) <==> !LosesKeys(a, step, s)
    {
      KeyAgreementAfterInit(a.blocks, b.blocks, a.keys, b.keys, step.generated, step.done, step.lost, s);
    }
  }

  lemma {:induction false} CompleteInitEmpties(a: TagState, b: TagState, step: Step)
    requires Moves(a, b, step) && step.Initialise? && forall s :: IsManaged(s) ==> s in step.done
    ensures b.traits == map[] && Agrees(CardDump(b.blocks), map[])
  {
    EmptiedRegistryAgrees(a.blocks, b.blocks, a.keys, b.keys, step.generated, step.done, step.lost);
    assert FIRST_TRAIT_SECTOR in step.done;
  }

  /** The registry holds just this trait, and the card agrees if it is canonical. */
  ghost predicate OneTrait(card: Card, tag: Tag, key: string, value: string)
    requires card.Valid()
    reads card, tag
  {
    && tag.traits == map[key := PairRecord(value, FIRST_TRAIT_SECTOR)]
    && (Canonical(key) && Canonical(value) ==> Agrees(CardDump(card.blocks), tag.traits))
  }

  /** The initialisation that comes before a first trait. */
  method InitializeForTrait(card: Card, tag: Tag, writerId: string, stamp: Block, generated: seq<KeyRecord>)
    returns (init: InitResult, ghost step: Step)
    requires card.Valid() && |generated| > LAST_MANAGED_SECTOR
    modifies card, tag
    ensures card.Valid()
    ensures init.BadWriterId? <==> NormalizeWriterId(writerId).None?
    ensures init.BadWriterId? ==> unchanged(card) && unchanged(tag)
    ensures init.Initialised? ==>
              && step.Initialise? && step.generated == generated && step.done == init.sectors
              && Moves(old(TagStateOf(card, tag)), TagStateOf(card, tag), step)
              && (init.complete <==> init.failed == []) && tag.initialized == (old(tag.initialized) || init.complete)
    ensures init.Initialised? ==>
              forall s: nat :: IsManaged(s) && old(SectorAgrees(card.blocks, tag.sectorKeys, s)) ==>
                (SectorAgrees(card.blocks, tag.sectorKeys, s) <==> !LosesKeys(old(TagStateOf(card, tag)), step, s))
    ensures init.Initialised? && init.complete ==> tag.traits == map[] && Agrees(CardDump(card.blocks), map[])
    ensures init.Initialised? && card.reliable && old(AllKeysAgree(card, tag)) ==>
              init.complete && AllKeysAgree(card, tag)
  {
    ghost var before := TagStateOf(card, tag);
    ghost var lost;
    init, lost := InitializeDetectedCard(card, tag, generated, writerId, stamp);
    step := Initialise(generated, [], {});
    if init.BadWriterId? { return; }
    step := Initialise(generated, init.sectors, lost);
    assert Moves(before, TagStateOf(card, tag), step);
    AllKeysAfterInit(before, TagStateOf(card, tag), step);
    if init.complete { CompleteInitEmpties(before, TagStateOf(card, tag), step); }
    if card.reliable && old(AllKeysAgree(card, tag)) {
      forall s | IsManaged(s) ensures KeysAgree(card, tag, s) {
        assert old(KeysAgree(card, tag, s)) && old(SectorAgrees(card.blocks, tag.sectorKeys, s));
        assert SectorAgrees(card.blocks, tag.sectorKeys, s);
      }
    }
  }

  /** Writing a trait whose key and value can be normalized, as one step. */
  method WriteRawTrait(card: Card, tag: Tag, key: string, value: string, writerId: string, stamp: Block)
    returns (r: TraitResult)
    requires card.Valid() && NormalizeTraitKey(key).Some? && NormalizeTraitValue(value).Some?
    modifies card, tag
    ensures card.Valid()
    ensures Moves(old(TagStateOf(card, tag)), TagStateOf(card, tag), Write(Call(key, value, r.Written?)))
    ensures unchanged(tag`initialized) && !r.InitializationFailed? && (!r.Written? ==> unchanged(tag))
    ensures WriterRecorded(card, tag, old(tag.writerId), r, writerId, stamp)
    ensures forall s: nat :: IsManaged(s) ==>
              (SectorAgrees(card.blocks, tag.sectorKeys, s) <==> old(SectorAgrees(card.blocks, tag.sectorKeys, s)))
    ensures r.Written? && old(tag.traits) == map[] && Agrees(CardDump(old(card.blocks)), map[]) ==>
              OneTrait(card, tag, NormalizeTraitKey(key).value, NormalizeTraitValue(value).value)
    ensures card.reliable && old(AllKeysAgree(card, tag)) && NormalizeWriterId(writerId).Some? &&
              CallPair(old(tag.traits), key, value).Some?
            ==> r.Written?
  {
    var k, v := NormalizeTraitKey(key).value, NormalizeTraitValue(value).value;
    ghost var mid := TagStateOf(card, tag);
    Normalizing(key, value);
    r := WriteTrait(card, tag, k, v, writerId, stamp);
    RawStep(StoreOf(mid), Store(card, tag), key, value, r.Written?);
    forall s: nat | IsManaged(s)
      ensures SectorAgrees(card.blocks, tag.sectorKeys, s) <==> SectorAgrees(mid.blocks, tag.sectorKeys, s)
    {
      TrailersKeptKeepKeys(mid.blocks, card.blocks, tag.sectorKeys, s);
    }
    if r.Written? && mid.traits == map[] && Agrees(CardDump(mid.blocks), map[]) {
      FirstTrait(StoreOf(mid), Store(card, tag), k, v);
    }
  }

  /** The steps of a call on a new card: nothing, an initialisation, or an initialisation and then a write. */
  predicate FirstSteps(steps: seq<Step>, generated: seq<KeyRecord>, call: Call, r: TraitResult) {
    if steps == [] then r.LayoutError?
    else
      && steps[0].Initialise? && steps[0].generated == generated
      && (if r.InitializationFailed? then |steps| == 1 && r.init.Initialised? && r.init.sectors == steps[0].done
          else steps == [steps[0], Write(call)])
  }

  lemma {:induction false} ShortRun(states: seq<TagState>, steps: seq<Step>)
    requires 1 <= |states| == |steps| + 1 <= 3 && |states[0].blocks| == CARD_BLOCKS
    requires |steps| > 0 ==> Moves(states[0], states[1], steps[0])
    requires |steps| > 1 ==> Moves(states[1], states[2], steps[1])
    ensures IsCardRun(states, steps)
  {}

  /** The keys a call leaves in agreement: all that agreed, but for those its first step loses. */
  ghost predicate KeysKept(was: TagState, now: TagState, steps: seq<Step>)
    requires |was.blocks| == |now.blocks| == CARD_BLOCKS
  {
    forall s: nat :: IsManaged(s) && SectorAgrees(was.blocks, was.keys, s) ==>
      (SectorAgrees(now.blocks, now.keys, s) <==> !(steps != [] && LosesKeys(was, steps[0], s)))
  }

  /** A new card: initialise it, then write the trait. */
  method SetFirstTrait(card: Card, tag: Tag, key: string, value: string, writerId: string, stamp: Block,
                       generated: seq<KeyRecord>)
    returns (r: TraitResult, ghost states: seq<TagState>, ghost steps: seq<Step>)
    requires card.Valid() && |generated| > LAST_MANAGED_SECTOR && !tag.initialized
    requires NormalizeTraitKey(key).Some? && NormalizeTraitValue(value).Some?
    modifies card, tag
    ensures card.Valid() && IsCardRun(states, steps)
    ensures states[0] == old(TagStateOf(card, tag)) && states[|steps|] == TagStateOf(card, tag)
    ensures FirstSteps(steps, generated, Call(key, value, r.Written?), r) && tag.initialized == (|steps| == 2)
    ensures steps == [] ==> unchanged(card) && unchanged(tag)
    ensures r.Written? && r.writerErrors == [] ==>
              NormalizeWriterId(writerId) == Some(tag.writerId) && MarkHeld(card.blocks, tag.writerId, stamp)
    ensures r.Written? ==> OneTrait(card, tag, NormalizeTraitKey(key).value, NormalizeTraitValue(value).value)
    ensures card.reliable && old(AllKeysAgree(card, tag)) && NormalizeWriterId(writerId).Some? ==> r.Written?
    ensures KeysKept(old(TagStateOf(card, tag)), TagStateOf(card, tag), steps)
  {
    states, steps := [TagStateOf(card, tag)], [];
    var init;
    ghost var step;
    init, step := InitializeForTrait(card, tag, writerId, stamp, generated);
    if init.BadWriterId? { return LayoutError, states, steps; }
    states, steps := states + [TagStateOf(card, tag)], [step];
    ShortRun(states, steps);
    if init.failed != [] || !init.complete { return InitializationFailed(init), states, steps; }
    Normalizing(key, value);
    BlankStoreHasRoom(NormalizeTraitKey(key).value, NormalizeTraitValue(value).value);
    r := WriteRawTrait(card, tag, key, value, writerId, stamp);
    states, steps := states + [TagStateOf(card, tag)], steps + [Write(Call(key, value, r.Written?))];
    ShortRun(states, steps);
  }

  /**
   `set_current_card_trait`, as the run of card steps it is. On an initialised card
   it is one write; otherwise the card is initialised first, and a success leaves
   exactly this trait on a blank card. Key agreement is kept as by initialisation
   alone.
   */
  method SetCurrentCardTrait(card: Card, tag: Tag, key: string, value: string, writerId: string, stamp: Block,
                             initialize: bool, generated: seq<KeyRecord>)
    returns (r: TraitResult, ghost states: seq<TagState>, ghost steps: seq<Step>)
    requires card.Valid() && |generated| > LAST_MANAGED_SECTOR
    modifies card, tag
    ensures card.Valid() && IsCardRun(states, steps)
    ensures states[0] == old(TagStateOf(card, tag)) && states[|steps|] == TagStateOf(card, tag)
    ensures if initialize && !old(tag.initialized) then FirstSteps(steps, generated, Call(key, value, r.Written?), r)
            else steps == [Write(Call(key, value, r.Written?))]
    ensures tag.initialized == (old(tag.initialized) || |steps| == 2)
    ensures NormalizeTraitKey(key).None? || NormalizeTraitValue(value).None? ==>
              r.LayoutError? && unchanged(card) && unchanged(tag)
    ensures steps == [] ==> unchanged(card) && unchanged(tag)
    ensures old(tag.initialized) || !initialize ==>
              && !r.InitializationFailed? && (!r.Written? ==> unchanged(tag))
              && WriterRecorded(card, tag, old(tag.writerId), r, writerId, stamp)
    ensures r.Written? && r.writerErrors == [] ==>
              NormalizeWriterId(writerId) == Some(tag.writerId) && MarkHeld(card.blocks, tag.writerId, stamp)
    ensures !old(tag.initialized) && initialize && r.Written? ==>
              NormalizeTraitKey(key).Some? && NormalizeTraitValue(value).Some? &&
              OneTrait(card, tag, NormalizeTraitKey(key).value, NormalizeTraitValue(value).value)
    ensures card.reliable && old(AllKeysAgree(card, tag)) && NormalizeWriterId(writerId).Some? &&
              NormalizeTraitKey(key).Some? && NormalizeTraitValue(value).Some? &&
              (old(tag.initialized) || !initialize ==> CallPair(old(tag.traits), key, value).Some?)
            ==> r.Written?
    ensures KeysKept(old(TagStateOf(card, tag)), TagStateOf(card, tag), steps)
  {
    states, steps := [TagStateOf(card, tag)], [];
    if NormalizeTraitKey(key).None? || NormalizeTraitValue(value).None? {
      r := LayoutError;
      NoStep(card.blocks, card.blocks, tag.traits, key, value);
      if initialize && !tag.initialized { return; }
    } else if initialize && !tag.initialized {
      r, states, steps := SetFirstTrait(card, tag, key, value, writerId, stamp, generated);
      return;
    } else {
      r := WriteRawTrait(card, tag, key, value, writerId, stamp);
    }
    states, steps := states + [TagStateOf(card, tag)], [Write(Call(key, value, r.Written?))];
    ShortRun(states, steps);
  }
}
