/**
 Mixed runs of trait writes, deep reads and initialisations: which pairs of the card
 tell what the registry says, and so when the two agree (apps/cards/reader.py).
 */
module StoreRuns {
  import opened Sets
  import opened Wrappers
  import opened CardLayout
  import opened TraitStore
  import opened TraitRuns
  import opened CardReader
  import opened CardRefresh
  import opened CardSteps

  function TornPairs(s: TagState): set<nat> { Torn(CardDump(s.blocks), s.traits) }

  /** The pairs that showed a trait and kept their key block. */
  function StillShown(was: seq<Block>, now: seq<Block>): set<nat>
    requires |was| == |now| == CARD_BLOCKS
  {
    set i: nat | i < TRAIT_PAIRS && DecodePair(CardDump(was), i).Some? && now[PairBlock(i, 0)] == was[PairBlock(i, 0)]
  }

  function Changed(was: seq<Block>, now: seq<Block>): set<nat> {
    set i: nat | i < TRAIT_PAIRS && !SamePair(CardDump(was), CardDump(now), i)
  }

  // ----- One step ----------------------------------------------------------

  lemma {:induction false} EmptyRegistryTells(d: Dump, i: nat)
    ensures PairTells(d, map[], i) <==> DecodePair(d, i).None?
  {}

  lemma {:induction false} InitTears(a: TagState, b: TagState, step: Step)
    requires Moves(a, b, step) && step.Initialise? && WellPlaced(a.traits)
    ensures WellPlaced(b.traits)
    ensures if TouchesTraits(step.done) then TornPairs(b) == StillShown(a.blocks, b.blocks)
            else TornPairs(b) - Changed(a.blocks, b.blocks) == TornPairs(a) - Changed(a.blocks, b.blocks)
  {
    if TouchesTraits(step.done) {
      forall i: nat | i < TRAIT_PAIRS ensures i in TornPairs(b) <==> i in StillShown(a.blocks, b.blocks) {
        PairAfterInit(a.blocks, b.blocks, a.keys, b.keys, step.generated, step.done, step.lost, i);
        EmptyRegistryTells(CardDump(b.blocks), i);
      }
    } else {
      forall i: nat | i < TRAIT_PAIRS && i !in Changed(a.blocks, b.blocks)
        ensures i in TornPairs(b) <==> i in TornPairs(a)
      {
        SamePairTells(CardDump(a.blocks), CardDump(b.blocks), a.traits, i);
      }
    }
  }

  lemma {:induction false} ReadMends(a: TagState, b: TagState, dump: Dump)
    requires Moves(a, b, Read(dump)) && WellPlaced(a.traits)
    ensures WellPlaced(b.traits)
    ensures if DumpIsComplete(dump) then TornPairs(b) == {} <==> NormalRegistry(CardTraits(CardDump(a.blocks)))
            else b == a
  {
    DeepReadKeepsTraits(dump, a.blocks, a.traits);
    AgreesPairByPair(CardDump(b.blocks), b.traits);
  }

  /**
   What one operation does to the torn pairs, under every pattern of failures. A
   write settles its own pair alone; an initialisation that empties the registry
   leaves torn just the pairs that still show a key; a complete read leaves none
   exactly when the card shows normal text only.
   */
  lemma {:induction false} StepTearsPairs(a: TagState, b: TagState, step: Step)
    requires Moves(a, b, step) && WellPlaced(a.traits)
    ensures WellPlaced(b.traits)
    ensures match step
            case Initialise(_, done, _) =>
              if TouchesTraits(done) then TornPairs(b) == StillShown(a.blocks, b.blocks)
              else TornPairs(b) - Changed(a.blocks, b.blocks) == TornPairs(a) - Changed(a.blocks, b.blocks)
            case Write(c) => (
              match CallPair(a.traits, c.key, c.value)
              case None => TornPairs(b) == TornPairs(a)
              case Some(i) =>
                && TornPairs(b) - {i} == TornPairs(a) - {i}
                && (c.written && CanonicalCall(c) ==> i !in TornPairs(b))
            )
            case Read(dump) =>
              if DumpIsComplete(dump) then TornPairs(b) == {} <==> NormalRegistry(CardTraits(CardDump(a.blocks)))
              else b == a
  {
    match step
    case Initialise(_, _, _) => InitTears(a, b, step);
    case Write(c) => StepTears(StoreOf(a), StoreOf(b), c);
    case Read(dump) => ReadMends(a, b, dump);
  }

  // ----- Whole runs --------------------------------------------------------

  const ALL_PAIRS: set<nat> := set i: nat | i < TRAIT_PAIRS

  function SuspectsAfterWrite(suspects: set<nat>, pair: Option<nat>, cleared: bool): set<nat> {
    match pair
    case None => suspects
    case Some(i) => if cleared then suspects - {i} else suspects + {i}
  }

  /** The pairs that may be torn after a step, from what its outcome shows. */
  function SuspectsAfter(suspects: set<nat>, a: TagState, b: TagState, step: Step): set<nat>
    requires |a.blocks| == |b.blocks| == CARD_BLOCKS
  {
    match step
    case Initialise(_, done, _) =>
      if TouchesTraits(done) then StillShown(a.blocks, b.blocks) else suspects + Changed(a.blocks, b.blocks)
    case Write(c) => SuspectsAfterWrite(suspects, CallPair(a.traits, c.key, c.value), c.written && CanonicalCall(c))
    case Read(dump) =>
      if !DumpIsComplete(dump) then suspects
      else if NormalRegistry(CardTraits(CardDump(a.blocks))) then {}
      else ALL_PAIRS
  }

  function Suspects(states: seq<TagState>, steps: seq<Step>): set<nat>
    requires |states| == |steps| + 1 && forall s :: s in states ==> |s.blocks| == CARD_BLOCKS
  {
    if steps == [] then TornPairs(states[0])
    else
      var n := |steps| - 1;
      SuspectsAfter(Suspects(states[..n + 1], steps[..n]), states[n], states[n + 1], steps[n])
  }

  lemma {:induction false} OnePairChanges(torn: set<nat>, torn': set<nat>, pair: Option<nat>, cleared: bool,
                                          suspects: set<nat>)
    requires torn <= suspects
    requires match pair
             case None => torn' == torn
             case Some(i) => torn' - {i} == torn - {i} && (cleared ==> i !in torn')
    ensures torn' <= SuspectsAfterWrite(suspects, pair, cleared)
  {
    if pair.Some? { SameBut(torn, torn', {pair.value}, suspects); }
  }

  lemma {:induction false} WriteKeepsSuspects(a: TagState, b: TagState, call: Call, suspects: set<nat>)
    requires Moves(a, b, Write(call)) && WellPlaced(a.traits) && TornPairs(a) <= suspects
    ensures WellPlaced(b.traits) && TornPairs(b) <= SuspectsAfter(suspects, a, b, Write(call))
  {
    StepTears(StoreOf(a), StoreOf(b), call);
    var pair := CallPair(a.traits, call.key, call.value);
    OnePairChanges(TornPairs(a), TornPairs(b), pair, call.written && CanonicalCall(call), suspects);
  }

  lemma {:induction false} StepKeepsSuspects(a: TagState, b: TagState, step: Step, suspects: set<nat>)
    requires Moves(a, b, step) && WellPlaced(a.traits) && TornPairs(a) <= suspects
    ensures WellPlaced(b.traits) && TornPairs(b) <= SuspectsAfter(suspects, a, b, step)
  {
    match step
    case Initialise(_, _, _) =>
      InitTears(a, b, step);
      if !TouchesTraits(step.done) { SameBut(TornPairs(a), TornPairs(b), Changed(a.blocks, b.blocks), suspects); }
    case Write(call) => WriteKeepsSuspects(a, b, call, suspects);
    case Read(dump) => ReadMends(a, b, dump);
  }

  lemma {:induction false} RunKeepsSuspects(states: seq<TagState>, steps: seq<Step>)
    requires IsCardRun(states, steps) && WellPlaced(states[0].traits)
    ensures forall s :: s in states ==> |s.blocks| == CARD_BLOCKS
    ensures WellPlaced(states[|steps|].traits) && TornPairs(states[|steps|]) <= Suspects(states, steps)
    decreases |steps|
  {
    if steps != [] {
      var n := |steps| - 1;
      assert states[..n + 1][0] == states[0];
      RunKeepsSuspects(states[..n + 1], steps[..n]);
      assert states == states[..n + 1] + [states[n + 1]] && states[..n + 1][n] == states[n];
      assert Moves(states[n], states[n + 1], steps[n]);
      StepKeepsSuspects(states[n], states[n + 1], steps[n], Suspects(states[..n + 1], steps[..n]));
    }
  }

  /**
   Over every mixed run with every pattern of failures: card and registry agree if
   and only if no pair is torn. Only suspects are torn: pairs torn at the start, and
   pairs a step may have torn that no later success, complete read of a card showing
   normal text, or emptied registry has cleared. There are never more than six keys.
   */
  lemma {:induction false} AgreeIffNoneTorn(states: seq<TagState>, steps: seq<Step>)
    requires IsCardRun(states, steps) && WellPlaced(states[0].traits)
    ensures forall s :: s in states ==> |s.blocks| == CARD_BLOCKS
    ensures var last := states[|steps|];
            && (Agrees(CardDump(last.blocks), last.traits) <==> TornPairs(last) == {})
            && TornPairs(last) <= Suspects(states, steps)
            && |last.traits| <= TRAIT_PAIRS
  {
    RunKeepsSuspects(states, steps);
    var last := states[|steps|];
    AgreesPairByPair(CardDump(last.blocks), last.traits);
    AtMostOnePerPair(last.traits);
  }

  // ----- A failed write and the read after it ------------------------------

  /** What the pair of a canonical key shows after a failed write that was not without effect. */
  lemma {:induction false} ShownAfterFailure(a: TagState, b: TagState, call: Call, i: nat)
    requires Moves(a, b, Write(call)) && !call.written && Agrees(CardDump(a.blocks), a.traits)
    requires CallPair(a.traits, call.key, call.value) == Some(i) && Canonical(NormalizeTraitKey(call.key).value)
    ensures b.traits == a.traits && WellPlaced(a.traits)
    ensures var key, d, d' := NormalizeTraitKey(call.key).value, CardDump(a.blocks), CardDump(b.blocks);
            key in a.traits || BlockAt(d', PairBlock(i, 0)) != BlockAt(d, PairBlock(i, 0)) ==>
              && Holds(DecodePair(d', i), key)
              && CardTraits(d') == a.traits[key := DecodePair(d', i).value.1]
  {
    var key, d, d' := NormalizeTraitKey(call.key).value, CardDump(a.blocks), CardDump(b.blocks);
    var e := Entries(d, TRAIT_PAIRS);
    EntriesArePlaced(d);
    DecodedIsWellPlaced(e);
    CallPlace(a.traits, call.key, call.value, i);
    CanonicalKeyShown(a.traits, call.key, call.value);
    if key in a.traits { OwnerIsShown(e, key, i); }
    if key in a.traits || BlockAt(d', PairBlock(i, 0)) != BlockAt(d, PairBlock(i, 0)) {
      Normalizing(call.key, call.value);
      PayloadOf(PairSector(i), key, NormalizeTraitValue(call.value).value);
      assert Holds(DecodePair(d', i), key);
      EntriesUpdated(d, d', i);
      EntryUpdateIsMapUpdate(e, i, key, DecodePair(d', i).value.1);
    }
  }

  lemma {:induction false} NormalizedUpdate(traits: Traits, key: string, record: TraitRecord)
    ensures NormalizedAll(traits[key := record]) == NormalizedAll(traits)[key := NormalizedRecord(record)]
  {}

  lemma {:induction false} UpdateChanges(traits: Traits, key: string, record: TraitRecord)
    ensures traits[key := record] == traits <==> key in traits && traits[key] == record
  {
    assert key in traits[key := record] && traits[key := record][key] == record;
  }

  /** The registry read from a card that shows a normal one but for one record. */
  lemma {:induction false} ReadAfterUpdate(b: TagState, dump: Dump, traits: Traits, key: string, record: TraitRecord)
    requires |b.blocks| == CARD_BLOCKS && DumpIsTrue(dump, b.blocks) && DumpIsComplete(dump)
    requires NormalRegistry(traits) && WellPlaced(traits) && NormalKey(key)
    requires CardTraits(CardDump(b.blocks)) == traits[key := record]
    ensures Refreshed(dump, b.traits) == traits[key := NormalizedRecord(record)]
  {
    TrueDumpDecodes(dump, b.blocks);
    NormalizedMap(Entries(CardDump(b.blocks), TRAIT_PAIRS));
    NormalIsFixed(traits);
    NormalizedUpdate(traits, key, record);
  }

  /**
   When a failed write is taken over by the next complete read: for a registered
   key, exactly when the value its pair then shows has another normal form than the
   registered one; for a new key, exactly when the key block reached the card. On a
   card showing normal text that is exactly when the failed write broke agreement.
   */
  lemma {:induction false} FailedWriteThenRead(a: TagState, b: TagState, c: TagState, call: Call, dump: Dump, i: nat)
    requires Moves(a, b, Write(call)) && !call.written && Moves(b, c, Read(dump)) && DumpIsComplete(dump)
    requires Agrees(CardDump(a.blocks), a.traits) && NormalRegistry(a.traits)
    requires CallPair(a.traits, call.key, call.value) == Some(i) && Canonical(NormalizeTraitKey(call.key).value)
    ensures var key, d, d' := NormalizeTraitKey(call.key).value, CardDump(a.blocks), CardDump(b.blocks);
            && (key in a.traits ==>
                  (c.traits == a.traits <==>
                   DecodePair(d', i).Some? && NormalizedRecord(DecodePair(d', i).value.1) == a.traits[key]))
            && (key !in a.traits ==>
                  (c.traits == a.traits <==> BlockAt(d', PairBlock(i, 0)) == BlockAt(d, PairBlock(i, 0))))
            && (NormalRegistry(CardTraits(d')) ==> (c.traits == a.traits <==> Agrees(d', a.traits)))
  {
    var key, d, d' := NormalizeTraitKey(call.key).value, CardDump(a.blocks), CardDump(b.blocks);
    DeepReadKeepsTraits(dump, b.blocks, b.traits);
    ShownAfterFailure(a, b, call, i);
    if key in a.traits || BlockAt(d', PairBlock(i, 0)) != BlockAt(d, PairBlock(i, 0)) {
      Normalizing(call.key, call.value);
      ReadAfterUpdate(b, dump, a.traits, key, DecodePair(d', i).value.1);
      UpdateChanges(a.traits, key, NormalizedRecord(DecodePair(d', i).value.1));
    } else {
      FailedWriteKeepsAgreement(StoreOf(a), StoreOf(b), call, i);
    }
  }

  /** A write all of whose blocks arrived leaves a card that agrees with the registry a success would save. */
  lemma {:induction false} ArrivedAgrees(a: TagState, b: TagState, call: Call, i: nat)
    requires Moves(a, b, Write(call)) && !call.written && Agrees(CardDump(a.blocks), a.traits)
    requires CallPair(a.traits, call.key, call.value) == Some(i) && CanonicalCall(call.(written := true))
    requires PairHolds(CardDump(b.blocks), i, CallPayload(a.traits, call.key, call.value))
    ensures b.traits == a.traits
    ensures var traits := Registered(a.traits, call.key, call.value);
            Agrees(CardDump(b.blocks), traits) && (NormalRegistry(a.traits) ==> NormalRegistry(traits))
  {
    Normalizing(call.key, call.value);
    TraitWriteKeepsAgreement(CardDump(a.blocks), CardDump(b.blocks), a.traits, NormalizeTraitKey(call.key).value,
                             NormalizeTraitValue(call.value).value, i);
  }

  /**
   With deep reads the registry need not be the plain map of the successful writes:
   a failed write all of whose blocks reached the card is saved by the next complete
   read as if it had succeeded.
   */
  lemma {:induction false} FailedWriteImported(a: TagState, b: TagState, c: TagState, call: Call, dump: Dump)
    requires Moves(a, b, Write(call)) && !call.written && Moves(b, c, Read(dump)) && DumpIsComplete(dump)
    requires Agrees(CardDump(a.blocks), a.traits) && NormalRegistry(a.traits)
    requires CallPair(a.traits, call.key, call.value).Some? && CanonicalCall(call.(written := true))
    requires PairHolds(CardDump(b.blocks), CallPair(a.traits, call.key, call.value).value,
                       CallPayload(a.traits, call.key, call.value))
    ensures b.traits == a.traits
    ensures c.traits == Registered(a.traits, call.key, call.value)
  {
    ArrivedAgrees(a, b, call, CallPair(a.traits, call.key, call.value).value);
    DeepReadKeepsTraits(dump, b.blocks, Registered(a.traits, call.key, call.value));
  }
}
