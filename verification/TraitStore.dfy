/**
 What the trait area of a card means: the decoded traits behave like a map, one
 trait write is one map update, and every run of writes keeps card, registry and
 a plain map in step.
 */
module TraitStore {
  import opened Sets
  import opened Wrappers
  import opened CardLayout

  type Dump = map<nat, Block>
  type Traits = map<string, TraitRecord>

  // ----- The decoded dictionary as a map -----------------------------------

  lemma {:induction false} DictSetUpdates(d: TraitDict, key: string, record: TraitRecord)
    ensures DictMap(DictSet(d, key, record)) == DictMap(d)[key := record]
  {
    if d != [] && d[0].0 != key {
      DictSetUpdates(d[1..], key, record);
      assert DictSet(d, key, record)[1..] == DictSet(d[1..], key, record);
    }
  }

  predicate Holds(entry: Entry, key: string) { entry.Some? && entry.value.0 == key }

  /** The pair whose record a lookup of `key` finds: the last one holding it. */
  function LastPair(e: seq<Entry>, key: string): (r: Option<nat>)
    ensures r.Some? ==> r.value < |e| && Holds(e[r.value], key)
    ensures forall i: nat :: i < |e| && Holds(e[i], key) ==> r.Some? && i <= r.value
  {
    if e == [] then None
    else if Holds(e[|e| - 1], key) then Some(|e| - 1)
    else LastPair(e[..|e| - 1], key)
  }

  function AsMap(e: seq<Entry>): Traits { DictMap(Collect(e)) }

  lemma {:induction false} LookupIsLastPair(e: seq<Entry>, key: string)
    ensures key in AsMap(e) <==> LastPair(e, key).Some?
    ensures LastPair(e, key).Some? ==> AsMap(e)[key] == e[LastPair(e, key).value].value.1
  {
    if e != [] {
      var shorter := e[..|e| - 1];
      LookupIsLastPair(shorter, key);
      var last := e[|e| - 1];
      if last.Some? { DictSetUpdates(Collect(shorter), last.value.0, last.value.1); }
    }
  }

  /** Where a write of `key` goes: the pair the registry gives it, else the first free one. */
  function Target(traits: Traits, key: string): Option<int> {
    if key in traits && traits[key].sector.Some? then traits[key].sector
    else FirstFree(UsedSectors(traits), 0)
  }

  /** Every entry carries the number of the pair it was read from. */
  predicate Placed(e: seq<Entry>) {
    |e| == TRAIT_PAIRS &&
    forall i :: 0 <= i < |e| && e[i].Some? ==>
      e[i].value.1.sector == Some(PairSector(i)) && e[i].value.1.sectors == [PairSector(i), PairSector(i) + 1]
  }

  /** In an agreeing store every record names the one pair that holds it. */
  lemma {:induction false} RecordNamesItsPair(e: seq<Entry>, key: string) returns (i: nat)
    requires Placed(e) && key in AsMap(e)
    ensures i < |e| && LastPair(e, key) == Some(i) && AsMap(e)[key] == e[i].value.1
    ensures AsMap(e)[key].sector == Some(PairSector(i))
    ensures AsMap(e)[key].sectors == [PairSector(i), PairSector(i) + 1]
    ensures PairSector(i) in UsedSectors(AsMap(e))
  {
    LookupIsLastPair(e, key);
    i := LastPair(e, key).value;
    assert AsMap(e)[key].sectors[0] == PairSector(i);
    assert key in AsMap(e).Keys && PairSector(i) in AsMap(e)[key].sectors;
  }

  /** The target of a write is one of the six pairs, and overwriting it loses no other record. */
  lemma {:induction false} TargetIsSafe(e: seq<Entry>, key: string) returns (i: nat)
    requires Placed(e) && Target(AsMap(e), key).Some?
    ensures i < |e| && Target(AsMap(e), key) == Some(PairSector(i))
    ensures forall i': nat :: i' < |e| && Holds(e[i'], key) ==> i' <= i
    ensures e[i].Some? && e[i].value.0 != key ==> LastPair(e, e[i].value.0).value > i
  {
    LookupIsLastPair(e, key);
    if key in AsMap(e) {
      i := RecordNamesItsPair(e, key);
    } else {
      i :| i < TRAIT_PAIRS && Target(AsMap(e), key).value == PairSector(i) && PairFree(UsedSectors(AsMap(e)), i);
    }
    if e[i].Some? && e[i].value.0 != key {
      LookupIsLastPair(e, e[i].value.0);
      var last := RecordNamesItsPair(e, e[i].value.0);
    }
  }

  /** Replacing the content of the target pair by one entry is one map update. */
  lemma {:induction false} EntryUpdateIsMapUpdate(e: seq<Entry>, i: nat, key: string, record: TraitRecord)
    requires Placed(e) && i < |e| && Target(AsMap(e), key) == Some(PairSector(i))
    ensures AsMap(e[i := Some((key, record))]) == AsMap(e)[key := record]
  {
    var i0 := TargetIsSafe(e, key);
    var e' := e[i := Some((key, record))];
    forall k ensures LastPair(e', k) == if k == key then Some(i) else LastPair(e, k) {
      var before, after := LastPair(e, k), LastPair(e', k);
      assert Holds(e'[i], key);
      if before.Some? && before.value != i { assert Holds(e'[before.value], k); }
      if after.Some? && after.value != i { assert Holds(e[after.value], k); }
    }
    forall k
      ensures k in AsMap(e') <==> k in AsMap(e) || k == key
      ensures k in AsMap(e') ==> AsMap(e')[k] == AsMap(e)[key := record][k]
    {
      LookupIsLastPair(e, k);
      LookupIsLastPair(e', k);
    }
  }

  // ----- Six pairs, and no more --------------------------------------------

  lemma {:induction false} SizeBound(e: seq<Entry>)
    ensures |AsMap(e)| <= |e|
    ensures |AsMap(e)| == |e| ==>
              forall i :: 0 <= i < |e| ==> e[i].Some? && LastPair(e, e[i].value.0) == Some(i)
  {
    if e != [] {
      var shorter, last := e[..|e| - 1], e[|e| - 1];
      SizeBound(shorter);
      if last.Some? {
        DictSetUpdates(Collect(shorter), last.value.0, last.value.1);
        assert AsMap(e).Keys == AsMap(shorter).Keys + {last.value.0};
        LookupIsLastPair(shorter, last.value.0);
        if |AsMap(e)| == |e| {
          forall i | 0 <= i < |e| ensures e[i].Some? && LastPair(e, e[i].value.0) == Some(i) {
            assert i < |e| - 1 ==> shorter[i] == e[i] && LastPair(shorter, shorter[i].value.0) == Some(i);
          }
        }
      }
    }
  }

  function KeysBelow(e: seq<Entry>, n: nat): set<string> {
    set k | k in AsMap(e) && LastPair(e, k).Some? && LastPair(e, k).value < n
  }

  lemma {:induction false} KeyInUsedPair(e: seq<Entry>, i: nat) returns (k: string)
    requires Placed(e) && i < |e| && !PairFree(UsedSectors(AsMap(e)), i)
    ensures k in AsMap(e) && LastPair(e, k) == Some(i)
  {
    var s :| s in UsedSectors(AsMap(e)) && (s == PairSector(i) || s == PairSector(i) + 1);
    k :| k in AsMap(e) && s in AsMap(e)[k].sectors;
    var i' := RecordNamesItsPair(e, k);
  }

  /** If every pair is in use, the first `n` pairs account for at least `n` keys. */
  lemma {:induction false} AllPairsUsed(e: seq<Entry>, n: nat)
    requires Placed(e) && n <= |e|
    requires forall i: nat :: i < |e| ==> !PairFree(UsedSectors(AsMap(e)), i)
    ensures |KeysBelow(e, n)| >= n
  {
    if n > 0 {
      AllPairsUsed(e, n - 1);
      var k := KeyInUsedPair(e, n - 1);
      assert KeysBelow(e, n - 1) + {k} <= KeysBelow(e, n) && k !in KeysBelow(e, n - 1);
      SubsetSize(KeysBelow(e, n - 1) + {k}, KeysBelow(e, n));
    }
  }

  /** A write is refused exactly when the store already holds six other keys. */
  lemma {:induction false} RefusedIffFull(e: seq<Entry>, key: string)
    requires Placed(e)
    ensures |AsMap(e)| <= TRAIT_PAIRS
    ensures Target(AsMap(e), key).None? <==> key !in AsMap(e) && |AsMap(e)| == TRAIT_PAIRS
  {
    SizeBound(e);
    if key in AsMap(e) {
      var i := RecordNamesItsPair(e, key);
    } else if |AsMap(e)| == TRAIT_PAIRS {
      forall i: nat | i < |e| ensures !PairFree(UsedSectors(AsMap(e)), i) {
        LookupIsLastPair(e, e[i].value.0);
        var i' := RecordNamesItsPair(e, e[i].value.0);
      }
    } else if Target(AsMap(e), key).None? {
      AllPairsUsed(e, |e|);
      SubsetSize(KeysBelow(e, |e|), AsMap(e).Keys);
    }
  }

  // ----- One trait, written and read back ----------------------------------

  predicate SamePair(d: Dump, d': Dump, i: nat) {
    forall j: nat :: j < 6 ==> BlockAt(d', PairBlock(i, j)) == BlockAt(d, PairBlock(i, j))
  }

  predicate SameOtherPairs(d: Dump, d': Dump, i: nat) {
    forall i': nat :: i' < TRAIT_PAIRS && i' != i ==> SamePair(d, d', i')
  }

  predicate PairHolds(d: Dump, i: nat, payload: seq<Block>)
    requires |payload| == 6
  {
    forall j: nat :: j < 6 ==> BlockAt(d, PairBlock(i, j)) == payload[j]
  }

  lemma {:induction false} SamePairDecodes(d: Dump, d': Dump, i: nat)
    requires SamePair(d, d', i)
    ensures DecodePair(d', i) == DecodePair(d, i)
  {
    forall j: nat | j < 6 ensures BlockAt(d', PairBlock(i, j)) == BlockAt(d, PairBlock(i, j)) {}
    assert PairValueBytes(d', i) == PairValueBytes(d, i);
  }

  lemma {:induction false} EntriesUpdated(d: Dump, d': Dump, i: nat)
    requires i < TRAIT_PAIRS && SameOtherPairs(d, d', i)
    ensures Entries(d', TRAIT_PAIRS) == Entries(d, TRAIT_PAIRS)[i := DecodePair(d', i)]
  {
    forall i': nat | i' < TRAIT_PAIRS && i' != i ensures DecodePair(d', i') == DecodePair(d, i') {
      SamePairDecodes(d, d', i');
    }
  }

  lemma {:induction false} EntriesArePlaced(d: Dump)
    ensures Placed(Entries(d, TRAIT_PAIRS))
  {}

  /** Card and registry show the same traits. */
  predicate Agrees(d: Dump, traits: Traits) { CardTraits(d) == traits }

  /** A normalized key or value the decoder gives back unchanged. */
  predicate Canonical(text: string) { !EndsInSpace(text) }

  predicate NormalKey(key: string) { NormalizeTraitKey(key) == Some(key) }
  predicate NormalValue(value: string) { NormalizeTraitValue(value) == Some(value) }

  lemma {:induction false} PayloadOf(start: int, key: string, value: string)
    requires IsPairStart(start) && NormalKey(key) && NormalValue(value)
    ensures BuildTraitBlockPayloads(start, key, value).Some?
    ensures var p := BuildTraitBlockPayloads(start, key, value).value;
            EncodeFixedAscii(key, TRAIT_KEY_BYTES, false) == Some(p[0]) && p[0] != ZERO_BLOCK &&
            EncodeFixedAscii(value, TRAIT_VALUE_BYTES, true) == Some(Joined(p[1], p[2], p[3], p[4], p[5]))
  {
    NormalizedIsPlain(key, false);
    NormalizedIsPlain(value, true);
    PlainIsFixed(key, false);
    FixedAsciiRoundTrip(key, TRAIT_KEY_BYTES, false);
    FixedAsciiRoundTrip(value, TRAIT_VALUE_BYTES, true);
    var data := EncodeFixedAscii(value, TRAIT_VALUE_BYTES, true).value;
    assert data == Joined(data[0..16], data[16..32], data[32..48], data[48..64], data[64..80]);
    assert IsPlain(key[0], false);
    assert EncodeFixedAscii(key, TRAIT_KEY_BYTES, false).value[0] != 0;
    assert ZERO_BLOCK[0] == 0;
  }

  /** A pair holding the payload of (key, value) decodes to just that, exactly when both are canonical. */
  lemma {:induction false} WrittenPairDecodes(d: Dump, i: nat, key: string, value: string)
    requires i < TRAIT_PAIRS && NormalKey(key) && NormalValue(value)
    requires BuildTraitBlockPayloads(PairSector(i), key, value).Some?
    requires PairHolds(d, i, BuildTraitBlockPayloads(PairSector(i), key, value).value)
    ensures DecodePair(d, i) == Some((key, PairRecord(value, PairSector(i)))) <==> Canonical(key) && Canonical(value)
    ensures Holds(DecodePair(d, i), key) <==> Canonical(key)
  {
    PayloadOf(PairSector(i), key, value);
    var p := BuildTraitBlockPayloads(PairSector(i), key, value).value;
    forall j: nat | j < 6 ensures BlockAt(d, PairBlock(i, j)) == p[j] {}
    assert PairValueBytes(d, i) == Joined(p[1], p[2], p[3], p[4], p[5]);
    NormalizedIsPlain(key, false);
    NormalizedIsPlain(value, true);
    FixedAsciiRoundTrip(key, TRAIT_KEY_BYTES, false);
    FixedAsciiRoundTrip(value, TRAIT_VALUE_BYTES, true);
  }

  /**
   A fully successful trait write keeps card and registry in agreement exactly
   when key and value are canonical; a trailing space breaks it.
   */
  lemma {:induction false} TraitWriteKeepsAgreement(d: Dump, d': Dump, traits: Traits, key: string, value: string,
                                                    i: nat)
    requires Agrees(d, traits) && i < TRAIT_PAIRS && Target(traits, key) == Some(PairSector(i))
    requires NormalKey(key) && NormalValue(value)
    requires SameOtherPairs(d, d', i)
    requires BuildTraitBlockPayloads(PairSector(i), key, value).Some?
    requires PairHolds(d', i, BuildTraitBlockPayloads(PairSector(i), key, value).value)
    ensures Agrees(d', traits[key := PairRecord(value, PairSector(i))]) <==> Canonical(key) && Canonical(value)
  {
    var e, e' := Entries(d, TRAIT_PAIRS), Entries(d', TRAIT_PAIRS);
    var traits' := traits[key := PairRecord(value, PairSector(i))];
    WrittenPairDecodes(d', i, key, value);
    EntriesUpdated(d, d', i);
    EntriesArePlaced(d);
    EntriesArePlaced(d');
    if Canonical(key) {
      EntryUpdateIsMapUpdate(e, i, key, DecodePair(d', i).value.1);
      assert AsMap(e')[key] == DecodePair(d', i).value.1;
    } else if Agrees(d', traits') {
      var i' := RecordNamesItsPair(e', key);
    }
  }
  // ----- Agreement, pair by pair -------------------------------------------

  /** The registry gives pair `i` to the key. */
  predicate Owns(traits: Traits, key: string, i: nat) { key in traits && traits[key].sector == Some(PairSector(i)) }

  predicate Owned(traits: Traits, i: nat) { exists key :: key in traits && Owns(traits, key, i) }

  /** The registry gives the key a pair after `i`. */
  predicate OwnsLater(traits: Traits, key: string, i: nat) {
    key in traits && traits[key].sector.Some? && traits[key].sector.value > PairSector(i)
  }

  /**
   The pair tells what the registry says of it: the record of its owner, or, if it
   has none, nothing that a later pair does not tell better.
   */
  predicate PairTells(d: Dump, traits: Traits, i: nat) {
    var shown := DecodePair(d, i);
    if Owned(traits, i) then
      shown.Some? && Owns(traits, shown.value.0, i) && traits[shown.value.0] == shown.value.1
    else
      shown.Some? ==> OwnsLater(traits, shown.value.0, i)
  }

  /** The pairs that do not tell what the registry says. */
  function Torn(d: Dump, traits: Traits): set<nat> { set i: nat | i < TRAIT_PAIRS && !PairTells(d, traits, i) }

  predicate InOnePair(record: TraitRecord) {
    && record.sector.Some? && IsPairStart(record.sector.value)
    && record.sectors == [record.sector.value, record.sector.value + 1]
  }

  /** Every record names one pair, and no two the same. */
  predicate WellPlaced(traits: Traits) {
    && (forall k :: k in traits ==> InOnePair(traits[k]))
    && (forall k, k' :: k in traits && k' in traits && traits[k].sector == traits[k'].sector ==> k == k')
  }

  lemma {:induction false} DecodedIsWellPlaced(e: seq<Entry>)
    requires Placed(e)
    ensures WellPlaced(AsMap(e))
  {
    forall k | k in AsMap(e) ensures InOnePair(AsMap(e)[k]) { var i := RecordNamesItsPair(e, k); }
    forall k, k' | k in AsMap(e) && k' in AsMap(e) && AsMap(e)[k].sector == AsMap(e)[k'].sector ensures k == k' {
      var i := RecordNamesItsPair(e, k);
      var i' := RecordNamesItsPair(e, k');
    }
  }

  lemma {:induction false} OwnerOf(traits: Traits, key: string) returns (i: nat)
    requires WellPlaced(traits) && key in traits
    ensures i < TRAIT_PAIRS && Owns(traits, key, i) && forall k :: Owns(traits, k, i) ==> k == key
  {
    assert InOnePair(traits[key]);
    i :| i < TRAIT_PAIRS && traits[key].sector.value == PairSector(i);
  }

  lemma {:induction false} OwnerIsShown(e: seq<Entry>, key: string, i: nat)
    requires Placed(e) && i < TRAIT_PAIRS && Owns(AsMap(e), key, i)
    ensures e[i] == Some((key, AsMap(e)[key]))
  {
    var i' := RecordNamesItsPair(e, key);
  }

  lemma {:induction false} StaleIsOwnedLater(e: seq<Entry>, i: nat)
    requires Placed(e) && i < TRAIT_PAIRS && !Owned(AsMap(e), i) && e[i].Some?
    ensures OwnsLater(AsMap(e), e[i].value.0, i)
  {
    LookupIsLastPair(e, e[i].value.0);
    var i' := RecordNamesItsPair(e, e[i].value.0);
    assert Owns(AsMap(e), e[i].value.0, i');
  }

  /** In an agreeing store every pair tells what the registry says. */
  lemma {:induction false} AgreeingPairTells(d: Dump, i: nat)
    requires i < TRAIT_PAIRS
    ensures PairTells(d, CardTraits(d), i)
  {
    var e := Entries(d, TRAIT_PAIRS);
    EntriesArePlaced(d);
    if Owned(CardTraits(d), i) {
      var k :| k in CardTraits(d) && Owns(CardTraits(d), k, i);
      OwnerIsShown(e, k, i);
    } else if DecodePair(d, i).Some? {
      StaleIsOwnedLater(e, i);
    }
  }

  /** Where every pair tells, a registered key is found in its pair and nowhere later. */
  lemma {:induction false} TellingKeyFound(d: Dump, traits: Traits, key: string)
    requires WellPlaced(traits) && key in traits && forall i: nat :: i < TRAIT_PAIRS ==> PairTells(d, traits, i)
    ensures key in CardTraits(d) && CardTraits(d)[key] == traits[key]
  {
    var e := Entries(d, TRAIT_PAIRS);
    var i := OwnerOf(traits, key);
    assert PairTells(d, traits, i) && Holds(e[i], key);
    var j := LastPair(e, key).value;
    assert PairTells(d, traits, j) && Holds(e[j], key);
    LookupIsLastPair(e, key);
  }

  /** Card and registry agree if and only if every pair tells what the registry says. */
  lemma {:induction false} AgreesPairByPair(d: Dump, traits: Traits)
    requires WellPlaced(traits)
    ensures Agrees(d, traits) <==> Torn(d, traits) == {}
  {
    if Agrees(d, traits) {
      forall i: nat | i < TRAIT_PAIRS ensures PairTells(d, traits, i) { AgreeingPairTells(d, i); }
    }
    if Torn(d, traits) == {} {
      forall i: nat | i < TRAIT_PAIRS ensures PairTells(d, traits, i) { assert i !in Torn(d, traits); }
      forall k | k in traits ensures k in CardTraits(d) && CardTraits(d)[k] == traits[k] {
        TellingKeyFound(d, traits, k);
      }
      var e := Entries(d, TRAIT_PAIRS);
      forall k | k in CardTraits(d) ensures k in traits {
        LookupIsLastPair(e, k);
        assert PairTells(d, traits, LastPair(e, k).value);
      }
      assert CardTraits(d).Keys == traits.Keys;
    }
  }

  function OwnersBelow(traits: Traits, n: nat): set<string> {
    set k | k in traits && traits[k].sector.Some? && traits[k].sector.value < PairSector(n)
  }

  lemma {:induction false} FewOwners(traits: Traits, n: nat)
    requires WellPlaced(traits)
    ensures |OwnersBelow(traits, n)| <= n
  {
    if n == 0 {
      forall k | k in traits ensures k !in OwnersBelow(traits, 0) { var i := OwnerOf(traits, k); }
      assert OwnersBelow(traits, 0) == {};
    } else {
      FewOwners(traits, n - 1);
      var last := OwnersBelow(traits, n) - OwnersBelow(traits, n - 1);
      forall k, k' | k in last && k' in last ensures k == k' {
        var i := OwnerOf(traits, k);
        var i' := OwnerOf(traits, k');
        assert i == i' == n - 1;
      }
      AtMostOne(last);
      SubsetSize(OwnersBelow(traits, n), OwnersBelow(traits, n - 1) + last);
    }
  }

  /** A well-placed registry holds at most as many keys as there are pairs. */
  lemma {:induction false} AtMostOnePerPair(traits: Traits)
    requires WellPlaced(traits)
    ensures |traits| <= TRAIT_PAIRS
  {
    var below := OwnersBelow(traits, TRAIT_PAIRS);
    FewOwners(traits, TRAIT_PAIRS);
    forall k | k in traits ensures k in below { var i := OwnerOf(traits, k); }
    assert below == traits.Keys;
  }
}
