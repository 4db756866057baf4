/**
 The registry refreshed from a dump of the card (apps/cards/reader.py,
 `_save_tag_traits_from_dump`): what a complete read saves, and when it changes
 anything.
 */
module CardRefresh {
  import opened Bytes
  import opened Wrappers
  import opened CardLayout
  import opened TraitStore
  import opened TraitRuns
  import opened CardReader

  predicate DumpIsComplete(dump: Dump) {
    forall i: nat, j: nat | i < TRAIT_PAIRS && j < 6 :: PairBlock(i, j) in dump
  }

  /** Every data block of the dump is the card's. */
  ghost predicate DumpIsTrue(dump: Dump, blocks: seq<Block>) {
    forall b :: b in dump ==> b < |blocks| && (!IsTrailerBlock(b) ==> dump[b] == blocks[b])
  }

  predicate DistinctKeys(d: TraitDict) { forall i, j :: 0 <= i < j < |d| ==> d[i].0 != d[j].0 }

  function KeysOf(d: TraitDict): set<string> { set i | 0 <= i < |d| :: d[i].0 }

  lemma {:induction false} KeysOfCons(d: TraitDict)
    requires d != []
    ensures KeysOf(d) == KeysOf(d[1..]) + {d[0].0}
    ensures DistinctKeys(d) <==> DistinctKeys(d[1..]) && d[0].0 !in KeysOf(d[1..])
  {
    forall i | 0 <= i < |d| ensures d[i].0 in KeysOf(d[1..]) + {d[0].0} {
      if i > 0 { assert d[i] == d[1..][i - 1]; }
    }
    if DistinctKeys(d[1..]) && d[0].0 !in KeysOf(d[1..]) {
      forall i, j | 0 <= i < j < |d| ensures d[i].0 != d[j].0 { assert d[j] == d[1..][j - 1]; }
    }
  }

  lemma {:induction false} DictSetKeepsKeys(d: TraitDict, key: string, record: TraitRecord)
    requires DistinctKeys(d)
    ensures DistinctKeys(DictSet(d, key, record))
    ensures KeysOf(DictSet(d, key, record)) == KeysOf(d) + {key}
  {
    var d' := DictSet(d, key, record);
    KeysOfCons(d');
    if d == [] {
      assert KeysOf(d'[1..]) == {};
    } else {
      KeysOfCons(d);
      if d[0].0 != key {
        DictSetKeepsKeys(d[1..], key, record);
        assert d'[1..] == DictSet(d[1..], key, record);
      } else {
        assert d'[1..] == d[1..];
      }
    }
  }

  lemma {:induction false} CollectIsDistinct(e: seq<Entry>)
    ensures DistinctKeys(Collect(e))
  {
    if e != [] {
      CollectIsDistinct(e[..|e| - 1]);
      if e[|e| - 1].Some? { DictSetKeepsKeys(Collect(e[..|e| - 1]), e[|e| - 1].value.0, e[|e| - 1].value.1); }
    }
  }

  /** The map `m` has just the entries of `d`. */
  ghost predicate HasEntries(m: Traits, d: TraitDict) {
    m.Keys == KeysOf(d) && forall i :: 0 <= i < |d| ==> d[i].0 in m && m[d[i].0] == d[i].1
  }

  lemma {:induction false} SameEntries(m: Traits, m': Traits, d: TraitDict)
    requires HasEntries(m, d) && HasEntries(m', d)
    ensures m == m'
  {
    forall k | k in m ensures m[k] == m'[k] {
      var i :| 0 <= i < |d| && d[i].0 == k;
    }
  }

  lemma {:induction false} DictMapEntries(d: TraitDict)
    requires DistinctKeys(d)
    ensures HasEntries(DictMap(d), d)
  {
    if d != [] {
      KeysOfCons(d);
      DictMapEntries(d[1..]);
      forall i | 0 < i < |d| ensures d[i].0 in DictMap(d) && DictMap(d)[d[i].0] == d[i].1 {
        assert d[i] == d[1..][i - 1];
      }
    }
  }

  lemma {:induction false} PrefixKeys(d: TraitDict)
    requires d != []
    ensures KeysOf(d) == KeysOf(d[..|d| - 1]) + {d[|d| - 1].0}
  {
    forall i | 0 <= i < |d| - 1 ensures d[i].0 in KeysOf(d[..|d| - 1]) { assert d[i] == d[..|d| - 1][i]; }
  }

  lemma {:induction false} ExtendEntries(m: Traits, d: TraitDict, entry: (string, TraitRecord))
    requires HasEntries(m, d) && DistinctKeys(d + [entry])
    ensures HasEntries(m[entry.0 := entry.1], d + [entry])
  {
    var d' := d + [entry];
    assert d'[..|d|] == d;
    PrefixKeys(d');
    forall i | 0 <= i < |d| ensures d'[i].0 != entry.0 { assert d'[|d|] == entry; }
  }

  /** The last entry of a dictionary is one map update. */
  lemma {:induction false} DictMapLast(d: TraitDict)
    requires d != [] && DistinctKeys(d)
    ensures var n := |d| - 1; DictMap(d) == DictMap(d[..n])[d[n].0 := d[n].1]
  {
    var n := |d| - 1;
    assert d == d[..n] + [d[n]];
    DictMapEntries(d);
    DictMapEntries(d[..n]);
    ExtendEntries(DictMap(d[..n]), d[..n], d[n]);
    SameEntries(DictMap(d), DictMap(d[..n])[d[n].0 := d[n].1], d);
  }

  function NormalizedAll(traits: Traits): Traits { map k | k in traits :: NormalizedRecord(traits[k]) }

  /** With normal keys, normalizing a dictionary is normalizing its records. */
  lemma {:induction false} NormalizeKeepsKeys(d: TraitDict)
    requires DistinctKeys(d) && forall i :: 0 <= i < |d| ==> NormalKey(d[i].0)
    ensures NormalizeTraits(d) == NormalizedAll(DictMap(d))
  {
    if d != [] {
      var n := |d| - 1;
      NormalizeKeepsKeys(d[..n]);
      DictMapLast(d);
      assert NormalKey(d[n].0);
    }
  }

  lemma {:induction false} NormalizedMap(e: seq<Entry>)
    requires forall k :: k in AsMap(e) ==> NormalKey(k)
    ensures NormalizeTraits(Collect(e)) == NormalizedAll(AsMap(e))
  {
    CollectIsDistinct(e);
    DictMapEntries(Collect(e));
    NormalizeKeepsKeys(Collect(e));
  }

  /** Normalizing changes nothing in a normal registry. */
  lemma {:induction false} NormalIsFixed(traits: Traits)
    requires NormalRegistry(traits) && WellPlaced(traits)
    ensures NormalizedAll(traits) == traits
  {
    forall k | k in traits ensures NormalizedRecord(traits[k]) == traits[k] {
      assert InOnePair(traits[k]) && NormalValue(traits[k].value);
    }
  }

  /** Normalizing the decoded traits of a normal store gives its map. */
  lemma {:induction false} NormalizedEntries(e: seq<Entry>)
    requires Placed(e) && NormalRegistry(AsMap(e))
    ensures NormalizeTraits(Collect(e)) == AsMap(e)
  {
    DecodedIsWellPlaced(e);
    NormalizedMap(e);
    NormalIsFixed(AsMap(e));
  }

  /** Each normalized record comes from an entry of the dictionary. */
  lemma {:induction false} NormalizedSource(d: TraitDict, key: string) returns (i: nat)
    requires key in NormalizeTraits(d)
    ensures i < |d| && NormalizeTraitKey(d[i].0) == Some(key) && NormalizeTraits(d)[key] == NormalizedRecord(d[i].1)
  {
    var n := |d| - 1;
    if NormalizeTraitKey(d[n].0) == Some(key) { i := n; } else { i := NormalizedSource(d[..n], key); }
  }

  /** The registry saved by a complete read is well placed, whatever the card shows. */
  lemma {:induction false} NormalizedIsWellPlaced(e: seq<Entry>)
    requires Placed(e)
    ensures WellPlaced(NormalizeTraits(Collect(e)))
  {
    var d, traits := Collect(e), NormalizeTraits(Collect(e));
    CollectIsDistinct(e);
    DictMapEntries(d);
    DecodedIsWellPlaced(e);
    forall i | 0 <= i < |d| ensures InOnePair(d[i].1) && d[i].0 in AsMap(e) && AsMap(e)[d[i].0] == d[i].1 {}
    forall k | k in traits ensures InOnePair(traits[k]) { var i := NormalizedSource(d, k); }
    forall k, k' | k in traits && k' in traits && traits[k].sector == traits[k'].sector ensures k == k' {
      var i := NormalizedSource(d, k);
      var i' := NormalizedSource(d, k');
      assert AsMap(e)[d[i].0].sector == AsMap(e)[d[i'].0].sector;
    }
  }

  lemma {:induction false} TruePairDecodes(dump: Dump, blocks: seq<Block>, i: nat)
    requires |blocks| == CARD_BLOCKS && DumpIsComplete(dump) && DumpIsTrue(dump, blocks) && i < TRAIT_PAIRS
    ensures DecodePair(dump, i) == DecodePair(CardDump(blocks), i)
  {
    forall j: nat | j < 6 ensures BlockAt(CardDump(blocks), PairBlock(i, j)) == BlockAt(dump, PairBlock(i, j)) {
      assert PairBlock(i, j) in dump && !IsTrailerBlock(PairBlock(i, j));
    }
    SamePairDecodes(dump, CardDump(blocks), i);
  }

  /** A complete and true dump decodes to what the card holds. */
  lemma {:induction false} TrueDumpDecodes(dump: Dump, blocks: seq<Block>)
    requires |blocks| == CARD_BLOCKS && DumpIsComplete(dump) && DumpIsTrue(dump, blocks)
    ensures Entries(dump, TRAIT_PAIRS) == Entries(CardDump(blocks), TRAIT_PAIRS)
  {
    forall i: nat | i < TRAIT_PAIRS ensures DecodePair(dump, i) == DecodePair(CardDump(blocks), i) {
      TruePairDecodes(dump, blocks, i);
    }
  }

  /** What the deep read leaves in the registry. */
  function Refreshed(dump: Dump, traits: Traits): Traits {
    if DumpIsComplete(dump) then NormalizeTraits(Collect(Entries(dump, TRAIT_PAIRS))) else traits
  }

  lemma {:induction false} TextShrinks(s: string, nl: bool)
    ensures |Clean(s, nl)| <= |s| && |AsciiBytes(s)| <= |s|
    decreases |s|
  {
    if s != "" {
      TextShrinks(s[1..], nl);
      if nl && |s| >= 2 { TextShrinks(s[2..], nl); }
    }
  }

  lemma {:induction false} BytesShrink(b: seq<Byte>)
    ensures |AsciiText(b)| <= |b|
  {
    if b != [] { BytesShrink(b[1..]); }
  }

  /** A text no longer than a trait value normalizes to a normal value. */
  lemma {:induction false} ShortNormalizes(s: string)
    requires |s| <= TRAIT_VALUE_BYTES
    ensures NormalizeTraitValue(s).Some? && NormalValue(NormalizeTraitValue(s).value)
  {
    TextShrinks(s, true);
    TextShrinks(Clean(s, true), true);
    BytesShrink(AsciiBytes(Clean(s, true)));
    Normalizing("", s);
  }

  lemma {:induction false} DecodedIsShort(dump: Dump, i: nat)
    requires DecodePair(dump, i).Some?
    ensures |DecodePair(dump, i).value.1.value| <= TRAIT_VALUE_BYTES
  {
    StripIsPrefix(PairValueBytes(dump, i));
    BytesShrink(StripPadding(PairValueBytes(dump, i)));
  }

  lemma {:induction false} ShortValuesNormalize(d: TraitDict)
    requires forall i :: 0 <= i < |d| ==> |d[i].1.value| <= TRAIT_VALUE_BYTES
    ensures NormalRegistry(NormalizeTraits(d))
  {
    if d != [] {
      var n := |d| - 1;
      ShortValuesNormalize(d[..n]);
      ShortNormalizes(d[n].1.value);
      Normalizing(d[n].0, "");
    }
  }

  /** A complete dump always refreshes the registry to a normal one. */
  lemma {:induction false} RefreshedIsNormal(dump: Dump)
    ensures NormalRegistry(NormalizeTraits(Collect(Entries(dump, TRAIT_PAIRS))))
  {
    var e := Entries(dump, TRAIT_PAIRS);
    var d := Collect(e);
    CollectIsDistinct(e);
    DictMapEntries(d);
    EntriesArePlaced(dump);
    forall i | 0 <= i < |d| ensures |d[i].1.value| <= TRAIT_VALUE_BYTES {
      var p := RecordNamesItsPair(e, d[i].0);
      assert d[i].1 == e[p].value.1;
      DecodedIsShort(dump, p);
    }
    ShortValuesNormalize(d);
  }

  /**
   A deep read of an agreeing card changes no trait, whichever blocks it managed
   to read. A complete one brings the registry to what the card shows exactly when
   the card shows only normal keys and values; otherwise it saves their normal forms.
   Of such a card it changes the registry exactly when the two disagree.
   */
  lemma {:induction false} DeepReadKeepsTraits(dump: Dump, blocks: seq<Block>, traits: Traits)
    requires |blocks| == CARD_BLOCKS && DumpIsTrue(dump, blocks)
    ensures Agrees(CardDump(blocks), traits) && NormalRegistry(traits) ==> Refreshed(dump, traits) == traits
    ensures DumpIsComplete(dump) ==>
              (Agrees(CardDump(blocks), Refreshed(dump, traits)) <==> NormalRegistry(CardTraits(CardDump(blocks))))
    ensures DumpIsComplete(dump) && NormalRegistry(CardTraits(CardDump(blocks))) ==>
              (Refreshed(dump, traits) == traits <==> Agrees(CardDump(blocks), traits))
    ensures DumpIsComplete(dump) || NormalRegistry(traits) ==> NormalRegistry(Refreshed(dump, traits))
    ensures DumpIsComplete(dump) || WellPlaced(traits) ==> WellPlaced(Refreshed(dump, traits))
  {
    EntriesArePlaced(CardDump(blocks));
    if DumpIsComplete(dump) {
      TrueDumpDecodes(dump, blocks);
      RefreshedIsNormal(dump);
      NormalizedIsWellPlaced(Entries(dump, TRAIT_PAIRS));
      if NormalRegistry(CardTraits(CardDump(blocks))) { NormalizedEntries(Entries(CardDump(blocks), TRAIT_PAIRS)); }
    }
  }

  lemma {:induction false} StripKeeps(b: seq<Byte>, q: nat)
    requires q < |b| && b[q] !in {0, 32}
    ensures |StripPadding(b)| > q
  {
    if b[|b| - 1] == 0 || b[|b| - 1] == 32 { StripKeeps(b[..|b| - 1], q); }
  }

  /**
   How a card comes to show text that is not normal: when the end of a longer old
   value stays behind a shorter new one, the padding between them is read as text.
   */
  lemma {:induction false} TornValueIsNotNormal(d: Dump, i: nat, p: nat, q: nat)
    requires i < TRAIT_PAIRS && DecodePair(d, i).Some? && p < q < TRAIT_VALUE_BYTES
    requires LastPair(Entries(d, TRAIT_PAIRS), DecodePair(d, i).value.0) == Some(i)
    requires forall k :: 0 <= k < TRAIT_VALUE_BYTES ==> PairValueBytes(d, i)[k] < 128
    requires PairValueBytes(d, i)[p] == 0 && PairValueBytes(d, i)[q] !in {0, 32}
    ensures !NormalRegistry(CardTraits(d))
  {
    var b := PairValueBytes(d, i);
    StripKeeps(b, q);
    StripIsPrefix(b);
    AsciiTextPlain(StripPadding(b));
    var value := AsciiText(StripPadding(b));
    assert value[p] as int == 0 && !IsPlain(value[p], true);
    NormalizedIsPlain(value, true);
    LookupIsLastPair(Entries(d, TRAIT_PAIRS), DecodePair(d, i).value.0);
    assert CardTraits(d)[DecodePair(d, i).value.0].value == value;
  }

  lemma {:induction false} BlankAgrees()
    ensures Agrees(map[], map[])
  {
    NothingShown(map[]);
  }

  /** A blank card with one trait written to its first pair. */
  lemma {:induction false} OneTraitCard(key: string, value: string) returns (d: Dump, payload: seq<Block>)
    requires NormalKey(key) && NormalValue(value) && Canonical(key) && Canonical(value)
    ensures BuildTraitBlockPayloads(PairSector(0), key, value) == Some(payload) && PairHolds(d, 0, payload)
    ensures Agrees(d, map[key := PairRecord(value, PairSector(0))]) && SameOtherPairs(map[], d, 0)
  {
    BlankStoreHasRoom(key, value);
    assert IsPairStart(PairSector(0));
    PayloadOf(PairSector(0), key, value);
    payload := BuildTraitBlockPayloads(PairSector(0), key, value).value;
    d := WithPair(map[], 0, payload);
    BlankAgrees();
    TraitWriteKeepsAgreement(map[], d, map[], key, value, 0);
  }

  /** The bytes of an encoded value: its characters, then zeros. */
  lemma {:induction false} ValueBytes(start: int, key: string, value: string, k: nat)
    requires IsPairStart(start) && NormalKey(key) && NormalValue(value) && k < TRAIT_VALUE_BYTES
    ensures BuildTraitBlockPayloads(start, key, value).Some?
    ensures var p := BuildTraitBlockPayloads(start, key, value).value;
            Joined(p[1], p[2], p[3], p[4], p[5])[k] == if k < |value| then value[k] as int else 0
  {
    PayloadOf(start, key, value);
    NormalizedIsPlain(value, true);
    PlainIsFixed(value, true);
  }

  /** A byte of a long value of which the first block was overwritten by a short one. */
  lemma {:induction false} MixedByte(key: string, long: string, short: string, payload: seq<Block>,
                                     q: seq<Block>, k: nat)
    requires NormalKey(key) && NormalValue(long) && NormalValue(short) && k < TRAIT_VALUE_BYTES
    requires BuildTraitBlockPayloads(PairSector(0), key, long) == Some(payload)
    requires BuildTraitBlockPayloads(PairSector(0), key, short) == Some(q)
    ensures var text := if k < 16 then short else long;
            Joined(q[1], payload[2], payload[3], payload[4], payload[5])[k] ==
            if k < |text| then text[k] as int else 0
  {
    assert IsPairStart(PairSector(0));
    ValueBytes(PairSector(0), key, if k < 16 then short else long, k);
  }

  lemma {:induction false} NormalIsPlain(value: string, k: nat)
    requires NormalValue(value) && k < |value|
    ensures 0 < value[k] as int < 128
  {
    NormalizedIsPlain(value, true);
    assert IsPlain(value[k], true);
  }

  /** Such bytes decode to text that is not normal: a zero stands before the end of the long value. */
  lemma {:induction false} MixedBytes(key: string, long: string, short: string, payload: seq<Block>, q: seq<Block>)
    requires NormalKey(key) && NormalValue(long) && NormalValue(short) && Canonical(long) && |short| < 16 < |long|
    requires |long| <= TRAIT_VALUE_BYTES
    requires BuildTraitBlockPayloads(PairSector(0), key, long) == Some(payload)
    requires BuildTraitBlockPayloads(PairSector(0), key, short) == Some(q)
    ensures var b := Joined(q[1], payload[2], payload[3], payload[4], payload[5]);
            && (forall k :: 0 <= k < TRAIT_VALUE_BYTES ==> b[k] < 128)
            && b[|short|] == 0 && b[|long| - 1] !in {0, 32}
  {
    var b := Joined(q[1], payload[2], payload[3], payload[4], payload[5]);
    forall k: nat | k < TRAIT_VALUE_BYTES ensures b[k] < 128 {
      MixedByte(key, long, short, payload, q, k);
      if k < |short| { NormalIsPlain(short, k); }
      if k < |long| { NormalIsPlain(long, k); }
    }
    MixedByte(key, long, short, payload, q, |short|);
    MixedByte(key, long, short, payload, q, |long| - 1);
    NormalIsPlain(long, |long| - 1);
  }

  /** The only pair that shows anything is the first, so a lookup of its key finds it there. */
  lemma {:induction false} FirstPairIsLast(d: Dump, key: string)
    requires Holds(DecodePair(d, 0), key) && SameOtherPairs(map[], d, 0)
    ensures LastPair(Entries(d, TRAIT_PAIRS), key) == Some(0)
  {
    var e := Entries(d, TRAIT_PAIRS);
    assert Holds(e[0], key);
    forall i: nat | 0 < i < TRAIT_PAIRS ensures !Holds(e[i], key) { SamePairDecodes(map[], d, i); }
  }

  /** The first block of another payload in the place of that of the first pair. */
  lemma {:induction false} OverwriteFirst(d: Dump, payload: seq<Block>, block: Block, key: string) returns (d': Dump)
    requires |payload| == 6 && PairHolds(d, 0, payload) && SameOtherPairs(map[], d, 0) && Holds(DecodePair(d, 0), key)
    ensures SameOtherPairs(d, d', 0) && PairHolds(d', 0, payload[1 := block])
    ensures PairValueBytes(d', 0) == Joined(block, payload[2], payload[3], payload[4], payload[5])
    ensures LastPair(Entries(d', TRAIT_PAIRS), key) == Some(0) && Holds(DecodePair(d', 0), key)
  {
    d' := WithPair(d, 0, payload[1 := block]);
    assert BlockAt(d', PairBlock(0, 0)) == BlockAt(d, PairBlock(0, 0));
    forall i: nat | i < TRAIT_PAIRS && i != 0 ensures SamePair(map[], d', i) {
      assert SamePair(map[], d, i) && SamePair(d, d', i);
    }
    FirstPairIsLast(d', key);
  }

  lemma {:induction false} FailedStep(d: Dump, d': Dump, traits: Traits, key: string, value: string,
                                      payload: seq<Block>, q: seq<Block>)
    requires CallPair(traits, key, value) == Some(0) && CallPayload(traits, key, value) == q
    requires |payload| == 6 && PairHolds(d, 0, payload)
    requires SameOtherPairs(d, d', 0) && PairHolds(d', 0, payload[1 := q[1]])
    ensures TraitStep(StoreState(d, traits), StoreState(d', traits), Call(key, value, false))
  {
    forall j: nat | j < 6
      ensures BlockAt(d', PairBlock(0, j)) == BlockAt(d, PairBlock(0, j)) || BlockAt(d', PairBlock(0, j)) == q[j]
    {
      assert BlockAt(d', PairBlock(0, j)) == payload[1 := q[1]][j];
    }
  }

  /**
   Such a card, for every long old value and every short new one: a failed write of
   which only the first value block reaches the card.
   */
  lemma {:induction false} ShortOverLong(key: string, long: string, short: string)
    returns (s: StoreState, s': StoreState)
    requires NormalKey(key) && NormalValue(long) && NormalValue(short) && Canonical(key) && Canonical(long)
    requires |short| < 16 < |long|
    ensures Agrees(s.dump, s.traits) && NormalRegistry(s.traits)
    ensures TraitStep(s, s', Call(key, short, false)) && !NormalRegistry(CardTraits(s'.dump))
  {
    var d, payload := OneTraitCard(key, long);
    var traits := map[key := PairRecord(long, PairSector(0))];
    assert CallPair(traits, key, short) == Some(0) by { assert IsPairStart(PairSector(0)); }
    var q := CallPayload(traits, key, short);
    OwnerIsShown(Entries(d, TRAIT_PAIRS), key, 0);
    var d' := OverwriteFirst(d, payload, q[1], key);
    s, s' := StoreState(d, traits), StoreState(d', traits);
    FailedStep(d, d', traits, key, short, payload, q);
    MixedBytes(key, long, short, payload, q);
    TornValueIsNotNormal(d', 0, |short|, |long| - 1);
  }

  /**
   After any run of trait writes in which every pair ended with a success, a deep
   read changes nothing, under every pattern of read failures.
   */
  lemma {:induction false} DeepReadAfterRun(states: seq<StoreState>, calls: seq<Call>, blocks: seq<Block>, dump: Dump)
    requires IsRun(states, calls) && Agrees(states[0].dump, states[0].traits) && NormalRegistry(states[0].traits)
    requires forall c :: c in calls ==> CanonicalCall(c)
    requires Dirty(states, calls) == {} && |blocks| == CARD_BLOCKS && states[|calls|].dump == CardDump(blocks)
    requires DumpIsTrue(dump, blocks)
    ensures Refreshed(dump, states[|calls|].traits) == states[|calls|].traits
  {
    StoreRefinesMap(states, calls);
    RunStaysNormal(states, calls);
    DeepReadKeepsTraits(dump, blocks, states[|calls|].traits);
  }
}
