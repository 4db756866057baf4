/**
 Whole runs of trait writes, with every pattern of failing blocks: what card and
 registry show afterwards (apps/cards/reader.py, `set_current_card_trait`).
 */
module TraitRuns {
  import opened Wrappers
  import opened CardLayout
  import opened TraitStore

  datatype StoreState = StoreState(dump: Dump, traits: Traits)

  /** One call, and whether it reported success. */
  datatype Call = Call(key: string, value: string, written: bool)

  function PairIndex(start: int): nat
    requires IsPairStart(start)
    ensures PairIndex(start) < TRAIT_PAIRS && PairSector(PairIndex(start)) == start
  {
    (start - FIRST_TRAIT_SECTOR) / 2
  }

  /** The pair a call writes to; None when the call is rejected before touching the trait area. */
  function CallPair(traits: Traits, key: string, value: string): Option<nat> {
    var k, v := NormalizeTraitKey(key), NormalizeTraitValue(value);
    if k.None? || v.None? then None
    else
      match Target(traits, k.value)
      case None => None
      case Some(start) => if IsPairStart(start) then Some(PairIndex(start)) else None
  }

  lemma {:induction false} Normalizing(key: string, value: string)
    ensures NormalizeTraitKey(key).Some? ==> NormalKey(NormalizeTraitKey(key).value)
    ensures NormalizeTraitValue(value).Some? ==> NormalValue(NormalizeTraitValue(value).value)
  {
    NormalizedIsPlain(key, false);
    NormalizedIsPlain(NormalizeText(key, false), false);
    NormalizedIsPlain(value, true);
    NormalizedIsPlain(NormalizeText(value, true), true);
  }

  function CallPayload(traits: Traits, key: string, value: string): (p: seq<Block>)
    requires CallPair(traits, key, value).Some?
    ensures |p| == 6
    ensures BuildTraitBlockPayloads(PairSector(CallPair(traits, key, value).value), NormalizeTraitKey(key).value,
                                    NormalizeTraitValue(value).value) == Some(p)
  {
    Normalizing(key, value);
    PayloadOf(PairSector(CallPair(traits, key, value).value), NormalizeTraitKey(key).value,
              NormalizeTraitValue(value).value);
    BuildTraitBlockPayloads(PairSector(CallPair(traits, key, value).value), NormalizeTraitKey(key).value,
                            NormalizeTraitValue(value).value).value
  }

  /** The registry after a call that reported success. */
  function Registered(traits: Traits, key: string, value: string): Traits
    requires CallPair(traits, key, value).Some?
  {
    traits[NormalizeTraitKey(key).value :=
      PairRecord(NormalizeTraitValue(value).value, PairSector(CallPair(traits, key, value).value))]
  }

  /** Every block of pair `i` holds either its old content or its share of the payload. */
  predicate PartlyWritten(d: Dump, d': Dump, i: nat, payload: seq<Block>)
    requires |payload| == 6
  {
    forall j: nat :: j < 6 ==>
      BlockAt(d', PairBlock(i, j)) == BlockAt(d, PairBlock(i, j)) || BlockAt(d', PairBlock(i, j)) == payload[j]
  }

  /** What one call may do to the trait area and the registry. */
  predicate TraitStep(s: StoreState, s': StoreState, c: Call) {
    match CallPair(s.traits, c.key, c.value)
    case None =>
      !c.written && s'.traits == s.traits && forall i: nat :: i < TRAIT_PAIRS ==> SamePair(s.dump, s'.dump, i)
    case Some(i) =>
      var payload := CallPayload(s.traits, c.key, c.value);
      && SameOtherPairs(s.dump, s'.dump, i)
      && PartlyWritten(s.dump, s'.dump, i, payload)
      && (c.written ==> PairHolds(s'.dump, i, payload))
      && s'.traits == if c.written then Registered(s.traits, c.key, c.value) else s.traits
  }

  predicate IsRun(states: seq<StoreState>, calls: seq<Call>) {
    |states| == |calls| + 1 && forall n :: 0 <= n < |calls| ==> TraitStep(states[n], states[n + 1], calls[n])
  }

  predicate CanonicalCall(c: Call) {
    c.written ==> NormalizeTraitKey(c.key).Some? && NormalizeTraitValue(c.value).Some? &&
                  Canonical(NormalizeTraitKey(c.key).value) && Canonical(NormalizeTraitValue(c.value).value)
  }

  /** The reference: a plain map updated by the successful calls, in order. */
  function PlainMap(start: map<string, string>, calls: seq<Call>): map<string, string> {
    if calls == [] then start
    else
      var c := calls[|calls| - 1];
      var m := PlainMap(start, calls[..|calls| - 1]);
      if c.written && NormalizeTraitKey(c.key).Some? && NormalizeTraitValue(c.value).Some?
      then m[NormalizeTraitKey(c.key).value := NormalizeTraitValue(c.value).value] else m
  }

  function Values(traits: Traits): map<string, string> { map k | k in traits :: traits[k].value }

  /** The pairs whose last write failed. */
  function Dirty(states: seq<StoreState>, calls: seq<Call>): set<nat>
    requires |states| == |calls| + 1
  {
    if calls == [] then {}
    else
      var n := |calls| - 1;
      var before := Dirty(states[..n + 1], calls[..n]);
      match CallPair(states[n].traits, calls[n].key, calls[n].value)
      case None => before
      case Some(i) => if calls[n].written then before - {i} else before + {i}
  }

  function PairBlocks(i: nat): set<nat> { set j: nat | j < 6 :: PairBlock(i, j) }

  lemma {:induction false} PairBlocksApart(i: nat, i': nat, j: nat)
    requires i < TRAIT_PAIRS && i' < TRAIT_PAIRS && j < 6 && i' != i
    ensures PairBlock(i', j) !in PairBlocks(i)
  {}

  function PairOffset(i: nat, b: nat): (j: nat)
    requires i < TRAIT_PAIRS && b in PairBlocks(i)
    ensures j < 6 && PairBlock(i, j) == b
  {
    var offset := b - PairBlock(i, 0);
    if offset < 3 then offset else offset - 1
  }

  lemma {:induction false} OtherPairsSame(d: Dump, d': Dump, i: nat)
    requires i < TRAIT_PAIRS && d'.Keys == d.Keys + PairBlocks(i)
    requires forall b :: b in d && b !in PairBlocks(i) ==> d'[b] == d[b]
    ensures SameOtherPairs(d, d', i)
  {
    forall i': nat, j: nat | i' < TRAIT_PAIRS && i' != i && j < 6
      ensures BlockAt(d', PairBlock(i', j)) == BlockAt(d, PairBlock(i', j))
    {
      PairBlocksApart(i, i', j);
    }
  }

  /** The dump with the six blocks of pair `i` replaced. */
  function WithPair(d: Dump, i: nat, payload: seq<Block>): (d': Dump)
    requires i < TRAIT_PAIRS && |payload| == 6
    ensures SameOtherPairs(d, d', i) && PairHolds(d', i, payload)
  {
    var d' := map b | b in d.Keys + PairBlocks(i) :: if b in PairBlocks(i) then payload[PairOffset(i, b)] else d[b];
    OtherPairsSame(d, d', i);
    assert forall j: nat :: j < 6 ==> PairBlock(i, j) in PairBlocks(i) && PairOffset(i, PairBlock(i, j)) == j;
    d'
  }

  lemma {:induction false} CopyPair(image: Dump, d: Dump, i: nat) returns (image': Dump)
    requires i < TRAIT_PAIRS
    ensures SameOtherPairs(image, image', i) && SamePair(image', d, i)
  {
    image' := WithPair(image, i, seq(6, j requires 0 <= j < 6 => BlockAt(d, PairBlock(i, j))));
  }

  lemma {:induction false} StepIsMapUpdate(s: StoreState, s': StoreState, c: Call)
    requires TraitStep(s, s', c)
    ensures Values(s'.traits) == PlainMap(Values(s.traits), [c])
  {
    assert [c][..0] == [];
  }

  lemma {:induction false} StepKeepsImage(s: StoreState, s': StoreState, c: Call, image: Dump, dirty: set<nat>)
    returns (image': Dump)
    requires TraitStep(s, s', c) && CanonicalCall(c) && Agrees(image, s.traits)
    requires forall i: nat :: i < TRAIT_PAIRS && i !in dirty ==> SamePair(image, s.dump, i)
    ensures Agrees(image', s'.traits)
    ensures var dirty' := match CallPair(s.traits, c.key, c.value)
              case None => dirty
              case Some(i) => if c.written then dirty - {i} else dirty + {i};
            forall i: nat :: i < TRAIT_PAIRS && i !in dirty' ==> SamePair(image', s'.dump, i)
    ensures Values(s'.traits) == PlainMap(Values(s.traits), [c])
  {
    StepIsMapUpdate(s, s', c);
    match CallPair(s.traits, c.key, c.value)
    case None =>
      image' := image;
      forall i: nat | i < TRAIT_PAIRS && i !in dirty ensures SamePair(image', s'.dump, i) {
        assert SamePair(image, s.dump, i) && SamePair(s.dump, s'.dump, i);
      }
    case Some(i) =>
      if c.written {
        image' := CopyPair(image, s'.dump, i);
        Normalizing(c.key, c.value);
        TraitWriteKeepsAgreement(image, image', s.traits, NormalizeTraitKey(c.key).value,
                                 NormalizeTraitValue(c.value).value, i);
      } else {
        image' := image;
      }
      forall i': nat | i' < TRAIT_PAIRS && i' !in dirty && i' != i ensures SamePair(image', s'.dump, i') {
        assert SamePair(image, image', i') && SamePair(image, s.dump, i') && SamePair(s.dump, s'.dump, i');
      }
  }

  /**
   The repaired image: what the card would hold if the failed writes had left no
   trace. It always agrees with the registry, and differs from the card at most
   in the dirty pairs.
   */
  lemma {:induction false} RunKeepsImage(states: seq<StoreState>, calls: seq<Call>) returns (image: Dump)
    requires IsRun(states, calls) && Agrees(states[0].dump, states[0].traits)
    requires forall c :: c in calls ==> CanonicalCall(c)
    ensures Agrees(image, states[|calls|].traits)
    ensures forall i: nat :: i < TRAIT_PAIRS && i !in Dirty(states, calls) ==> SamePair(image, states[|calls|].dump, i)
    ensures Values(states[|calls|].traits) == PlainMap(Values(states[0].traits), calls)
    decreases |calls|
  {
    if calls == [] {
      image := states[0].dump;
    } else {
      var n := |calls| - 1;
      assert states[..n + 1][0] == states[0];
      image := RunKeepsImage(states[..n + 1], calls[..n]);
      image := StepKeepsImage(states[n], states[n + 1], calls[n], image, Dirty(states[..n + 1], calls[..n]));
    }
  }

  lemma {:induction false} BlankStoreHasRoom(key: string, value: string)
    requires NormalKey(key) && NormalValue(value)
    ensures Target(map[], key) == Some(FIRST_TRAIT_SECTOR)
    ensures CallPair(map[], key, value) == Some(0)
  {
    assert UsedSectors(map[]) == {};
    assert PairFree({}, 0) && PairSector(0) == FIRST_TRAIT_SECTOR;
    assert IsPairStart(FIRST_TRAIT_SECTOR);
  }

  // ----- What one write does to the pairs ----------------------------------

  lemma {:induction false} UsedMeansOwned(traits: Traits, j: nat)
    requires WellPlaced(traits)
    ensures PairFree(UsedSectors(traits), j) <==> !Owned(traits, j)
  {
    if !PairFree(UsedSectors(traits), j) {
      var s :| s in UsedSectors(traits) && (s == PairSector(j) || s == PairSector(j) + 1);
      var k :| k in traits && s in traits[k].sectors;
      var i := OwnerOf(traits, k);
      assert i == j;
    }
    if Owned(traits, j) {
      var k :| k in traits && Owns(traits, k, j);
      assert InOnePair(traits[k]) && traits[k].sectors[0] == PairSector(j);
      assert PairSector(j) in traits[k].sectors && k in traits.Keys;
    }
  }

  /** A call writes to the pair of its key, or to the first pair without an owner. */
  lemma {:induction false} CallPlace(traits: Traits, key: string, value: string, i: nat)
    requires WellPlaced(traits) && CallPair(traits, key, value) == Some(i)
    ensures i < TRAIT_PAIRS && Target(traits, NormalizeTraitKey(key).value) == Some(PairSector(i))
    ensures var k := NormalizeTraitKey(key).value;
            if k in traits then Owns(traits, k, i)
            else !Owned(traits, i) && forall j: nat :: j < i ==> Owned(traits, j)
  {
    var k := NormalizeTraitKey(key).value;
    if k in traits {
      assert InOnePair(traits[k]);
    } else {
      UsedMeansOwned(traits, i);
      forall j: nat | j < i ensures Owned(traits, j) { UsedMeansOwned(traits, j); }
    }
  }

  lemma {:induction false} OwnerIsUnique(traits: Traits, key: string, i: nat)
    requires WellPlaced(traits) && Owns(traits, key, i)
    ensures Owned(traits, i) && forall k :: Owns(traits, k, i) ==> k == key
  {}

  lemma {:induction false} SamePairTells(d: Dump, d': Dump, traits: Traits, i: nat)
    requires SamePair(d, d', i)
    ensures PairTells(d', traits, i) <==> PairTells(d, traits, i)
  {
    SamePairDecodes(d, d', i);
  }

  /** A key left in a pair without an owner does no harm when a later pair tells it better. */
  predicate Harmless(traits: Traits, shown: string, i: nat) { shown == "" || OwnsLater(traits, shown, i) }

  /**
   A failed write leaves registry and other pairs alone. Its own pair tells
   afterwards what the registry says exactly when it still shows the record of its
   owner; or, having none, when its key block was left alone and it told so
   before, or shows a key that does no harm.
   */
  lemma {:induction false} FailedWriteTells(s: StoreState, s': StoreState, c: Call, i: nat)
    requires TraitStep(s, s', c) && !c.written && WellPlaced(s.traits)
    requires CallPair(s.traits, c.key, c.value) == Some(i)
    ensures s'.traits == s.traits
    ensures forall j: nat :: j < TRAIT_PAIRS && j != i ==>
              (PairTells(s'.dump, s'.traits, j) <==> PairTells(s.dump, s.traits, j))
    ensures var key, payload := NormalizeTraitKey(c.key).value, CallPayload(s.traits, c.key, c.value);
            PairTells(s'.dump, s'.traits, i) <==>
            if key in s.traits then DecodePair(s'.dump, i) == Some((key, s.traits[key]))
            else if BlockAt(s'.dump, PairBlock(i, 0)) == BlockAt(s.dump, PairBlock(i, 0)) then
              PairTells(s.dump, s.traits, i)
            else Harmless(s.traits, DecodeFixedAscii(payload[0]), i)
  {
    var key, payload := NormalizeTraitKey(c.key).value, CallPayload(s.traits, c.key, c.value);
    CallPlace(s.traits, c.key, c.value, i);
    Normalizing(c.key, c.value);
    PayloadOf(PairSector(i), key, NormalizeTraitValue(c.value).value);
    forall j: nat | j < TRAIT_PAIRS && j != i
      ensures PairTells(s'.dump, s'.traits, j) <==> PairTells(s.dump, s.traits, j)
    {
      SamePairTells(s.dump, s'.dump, s.traits, j);
    }
    if key in s.traits { OwnerIsUnique(s.traits, key, i); }
  }

  lemma {:induction false} CanonicalKeyShown(traits: Traits, key: string, value: string)
    requires CallPair(traits, key, value).Some? && Canonical(NormalizeTraitKey(key).value)
    ensures DecodeFixedAscii(CallPayload(traits, key, value)[0]) == NormalizeTraitKey(key).value != ""
  {
    var k := NormalizeTraitKey(key).value;
    Normalizing(key, value);
    NormalizedIsPlain(k, false);
    FixedAsciiRoundTrip(k, TRAIT_KEY_BYTES, false);
    PayloadOf(PairSector(CallPair(traits, key, value).value), k, NormalizeTraitValue(value).value);
  }

  /**
   When a failed write keeps card and registry in agreement: a registered key,
   exactly when its pair still shows the old record; a new key, exactly when the
   key block of its pair was left alone, or the key as the card shows it does no
   harm, which a canonical key never does.
   */
  lemma {:induction false} FailedWriteKeepsAgreement(s: StoreState, s': StoreState, c: Call, i: nat)
    requires TraitStep(s, s', c) && !c.written && Agrees(s.dump, s.traits)
    requires CallPair(s.traits, c.key, c.value) == Some(i)
    ensures var key, payload := NormalizeTraitKey(c.key).value, CallPayload(s.traits, c.key, c.value);
            var kept := BlockAt(s'.dump, PairBlock(i, 0)) == BlockAt(s.dump, PairBlock(i, 0));
            && (key in s.traits ==>
                  (Agrees(s'.dump, s'.traits) <==> DecodePair(s'.dump, i) == DecodePair(s.dump, i)))
            && (key !in s.traits ==>
                  (Agrees(s'.dump, s'.traits) <==>
                   kept || Harmless(s.traits, DecodeFixedAscii(payload[0]), i)))
            && (key !in s.traits && Canonical(key) ==> (Agrees(s'.dump, s'.traits) <==> kept))
  {
    var key := NormalizeTraitKey(c.key).value;
    EntriesArePlaced(s.dump);
    DecodedIsWellPlaced(Entries(s.dump, TRAIT_PAIRS));
    CallPlace(s.traits, c.key, c.value, i);
    FailedWriteTells(s, s', c, i);
    forall j: nat | j < TRAIT_PAIRS ensures PairTells(s.dump, s.traits, j) { AgreeingPairTells(s.dump, j); }
    AgreesPairByPair(s'.dump, s'.traits);
    assert Torn(s'.dump, s'.traits) == {} <==> PairTells(s'.dump, s'.traits, i) by {
      assert i in Torn(s'.dump, s'.traits) <==> !PairTells(s'.dump, s'.traits, i);
    }
    if key in s.traits {
      OwnerIsShown(Entries(s.dump, TRAIT_PAIRS), key, i);
    } else if Canonical(key) {
      CanonicalKeyShown(s.traits, c.key, c.value);
    }
  }

  lemma {:induction false} RegisteredIsPlaced(traits: Traits, key: string, value: string, i: nat)
    requires WellPlaced(traits) && i < TRAIT_PAIRS
    requires Owns(traits, key, i) || !Owned(traits, i)
    ensures WellPlaced(traits[key := PairRecord(value, PairSector(i))])
  {
    var traits' := traits[key := PairRecord(value, PairSector(i))];
    assert IsPairStart(PairSector(i));
    forall k, k' | k in traits' && k' in traits' && traits'[k].sector == traits'[k'].sector ensures k == k' {
      assert k in traits && k != key ==> !Owns(traits, k, i);
      assert k' in traits && k' != key ==> !Owns(traits, k', i);
    }
  }

  lemma {:induction false} OtherPairTells(d: Dump, traits: Traits, key: string, value: string, i: nat, j: nat)
    requires WellPlaced(traits) && j != i
    requires if key in traits then Owns(traits, key, i) else forall j: nat :: j < i ==> Owned(traits, j)
    ensures PairTells(d, traits[key := PairRecord(value, PairSector(i))], j) <==> PairTells(d, traits, j)
  {
    var traits' := traits[key := PairRecord(value, PairSector(i))];
    forall k ensures Owns(traits', k, j) <==> Owns(traits, k, j) {}
    assert Owned(traits', j) <==> Owned(traits, j);
  }

  /**
   A successful write puts one record in place and leaves all other pairs telling
   what they told; its own pair tells exactly when key and value are canonical.
   */
  lemma {:induction false} SuccessfulWriteTells(s: StoreState, s': StoreState, c: Call, i: nat)
    requires TraitStep(s, s', c) && c.written && WellPlaced(s.traits)
    requires CallPair(s.traits, c.key, c.value) == Some(i)
    ensures WellPlaced(s'.traits)
    ensures forall j: nat :: j < TRAIT_PAIRS && j != i ==>
              (PairTells(s'.dump, s'.traits, j) <==> PairTells(s.dump, s.traits, j))
    ensures PairTells(s'.dump, s'.traits, i) <==>
            Canonical(NormalizeTraitKey(c.key).value) && Canonical(NormalizeTraitValue(c.value).value)
  {
    var key, value := NormalizeTraitKey(c.key).value, NormalizeTraitValue(c.value).value;
    CallPlace(s.traits, c.key, c.value, i);
    RegisteredIsPlaced(s.traits, key, value, i);
    Normalizing(c.key, c.value);
    WrittenPairDecodes(s'.dump, i, key, value);
    OwnerIsUnique(s'.traits, key, i);
    forall j: nat | j < TRAIT_PAIRS && j != i
      ensures PairTells(s'.dump, s'.traits, j) <==> PairTells(s.dump, s.traits, j)
    {
      SamePairTells(s.dump, s'.dump, s.traits, j);
      OtherPairTells(s'.dump, s.traits, key, value, i, j);
    }
  }

  lemma {:induction false} TornButFor(s: StoreState, s': StoreState, i: nat)
    requires forall j: nat :: j < TRAIT_PAIRS && j != i ==>
               (PairTells(s'.dump, s'.traits, j) <==> PairTells(s.dump, s.traits, j))
    ensures Torn(s'.dump, s'.traits) - {i} == Torn(s.dump, s.traits) - {i}
  {}

  /** What one call does to the set of torn pairs. */
  lemma {:induction false} StepTears(s: StoreState, s': StoreState, c: Call)
    requires TraitStep(s, s', c) && WellPlaced(s.traits)
    ensures WellPlaced(s'.traits)
    ensures match CallPair(s.traits, c.key, c.value)
            case None => Torn(s'.dump, s'.traits) == Torn(s.dump, s.traits)
            case Some(i) =>
              && Torn(s'.dump, s'.traits) - {i} == Torn(s.dump, s.traits) - {i}
              && (c.written && CanonicalCall(c) ==> i !in Torn(s'.dump, s'.traits))
  {
    match CallPair(s.traits, c.key, c.value)
    case None =>
      forall i: nat | i < TRAIT_PAIRS ensures PairTells(s'.dump, s.traits, i) <==> PairTells(s.dump, s.traits, i) {
        SamePairTells(s.dump, s'.dump, s.traits, i);
      }
    case Some(i) =>
      if c.written { SuccessfulWriteTells(s, s', c, i); } else { FailedWriteTells(s, s', c, i); }
      TornButFor(s, s', i);
  }

  // ----- Whole runs --------------------------------------------------------

  /**
   Over every run of trait writes with every pattern of failures: the registry is
   the plain map of the successful writes; only pairs whose last write failed are
   torn; and the traits decoded from the card are the registry exactly when none is.
   */
  lemma {:induction false} StoreRefinesMap(states: seq<StoreState>, calls: seq<Call>)
    requires IsRun(states, calls) && Agrees(states[0].dump, states[0].traits)
    requires forall c :: c in calls ==> CanonicalCall(c)
    ensures Values(states[|calls|].traits) == PlainMap(Values(states[0].traits), calls)
    ensures Torn(states[|calls|].dump, states[|calls|].traits) <= Dirty(states, calls)
    ensures Agrees(states[|calls|].dump, states[|calls|].traits) <==>
            Torn(states[|calls|].dump, states[|calls|].traits) == {}
    ensures Dirty(states, calls) == {} ==> Agrees(states[|calls|].dump, states[|calls|].traits)
    ensures |states[|calls|].traits| <= TRAIT_PAIRS
  {
    var image := RunKeepsImage(states, calls);
    var last := states[|calls|];
    EntriesArePlaced(image);
    DecodedIsWellPlaced(Entries(image, TRAIT_PAIRS));
    AtMostOnePerPair(last.traits);
    forall i: nat | i < TRAIT_PAIRS && i !in Dirty(states, calls) ensures PairTells(last.dump, last.traits, i) {
      AgreeingPairTells(image, i);
      SamePairTells(image, last.dump, last.traits, i);
    }
    AgreesPairByPair(last.dump, last.traits);
  }

  predicate NormalRegistry(traits: Traits) {
    forall k :: k in traits ==> NormalKey(k) && NormalValue(traits[k].value)
  }

  /** A registry in normal form stays in normal form. */
  lemma {:induction false} RunStaysNormal(states: seq<StoreState>, calls: seq<Call>)
    requires IsRun(states, calls) && NormalRegistry(states[0].traits)
    ensures NormalRegistry(states[|calls|].traits)
    decreases |calls|
  {
    if calls != [] {
      var n := |calls| - 1;
      assert states[..n + 1][0] == states[0];
      RunStaysNormal(states[..n + 1], calls[..n]);
      assert TraitStep(states[n], states[n + 1], calls[n]);
      Normalizing(calls[n].key, calls[n].value);
    }
  }

  /** A seventh distinct key is refused whatever happened before, and refusal changes nothing. */
  lemma {:induction false} SeventhKeyRefused(states: seq<StoreState>, calls: seq<Call>, s': StoreState, c: Call)
    requires IsRun(states, calls) && Agrees(states[0].dump, states[0].traits)
    requires forall c :: c in calls ==> CanonicalCall(c)
    requires NormalizeTraitKey(c.key).Some? && NormalizeTraitValue(c.value).Some?
    ensures var s := states[|calls|];
            CallPair(s.traits, c.key, c.value).None? <==>
            NormalizeTraitKey(c.key).value !in s.traits && |s.traits| == TRAIT_PAIRS
    ensures var s := states[|calls|];
            NormalizeTraitKey(c.key).value !in s.traits && |s.traits| == TRAIT_PAIRS && TraitStep(s, s', c) ==>
            !c.written && s'.traits == s.traits && CardTraits(s'.dump) == CardTraits(s.dump)
  {
    var s := states[|calls|];
    var image := RunKeepsImage(states, calls);
    var key := NormalizeTraitKey(c.key).value;
    var e := Entries(image, TRAIT_PAIRS);
    EntriesArePlaced(image);
    RefusedIffFull(e, key);
    if Target(s.traits, key).Some? { var i := TargetIsSafe(e, key); }
    if CallPair(s.traits, c.key, c.value).None? && TraitStep(s, s', c) {
      forall i: nat | i < TRAIT_PAIRS ensures DecodePair(s'.dump, i) == DecodePair(s.dump, i) {
        SamePairDecodes(s.dump, s'.dump, i);
      }
      assert Entries(s'.dump, TRAIT_PAIRS) == Entries(s.dump, TRAIT_PAIRS);
    }
  }

  /**
   A failed write changes no registry entry and no other pair, so the same call
   made again writes the same payload to the same pair, and its first success
   puts card and registry back in agreement.
   */
  lemma {:induction false} RetryRestores(s0: StoreState, s1: StoreState, s2: StoreState, failed: Call, retry: Call)
    requires Agrees(s0.dump, s0.traits)
    requires TraitStep(s0, s1, failed) && !failed.written
    requires retry == failed.(written := true) && CanonicalCall(retry) && TraitStep(s1, s2, retry)
    ensures CallPair(s1.traits, retry.key, retry.value) == CallPair(s0.traits, failed.key, failed.value)
    ensures CallPair(s0.traits, failed.key, failed.value).Some?
    ensures s2.traits == Registered(s0.traits, failed.key, failed.value)
    ensures Agrees(s2.dump, s2.traits)
  {
    var i := CallPair(s0.traits, failed.key, failed.value).value;
    assert SameOtherPairs(s0.dump, s2.dump, i) by {
      forall i': nat | i' < TRAIT_PAIRS && i' != i ensures SamePair(s0.dump, s2.dump, i') {
        assert SamePair(s0.dump, s1.dump, i') && SamePair(s1.dump, s2.dump, i');
      }
    }
    Normalizing(retry.key, retry.value);
    TraitWriteKeepsAgreement(s0.dump, s2.dump, s0.traits, NormalizeTraitKey(retry.key).value,
                             NormalizeTraitValue(retry.value).value, i);
  }
}
