/**
 The operations on a card as steps: what each of them promises about the blocks and
 the saved record, under every pattern of failures (apps/cards/reader.py).
 */
module CardSteps {
  import opened CardLayout
  import opened TraitStore
  import opened TraitRuns
  import opened CardReader
  import opened CardRefresh

  /** The blocks of a card, and what is saved of its keys and traits. */
  datatype TagState = TagState(blocks: seq<Block>, keys: map<int, KeyRecord>, traits: Traits)

  /** One operation: initialising the card, writing one trait, reading the card. */
  datatype Step =
    | Initialise(generated: seq<KeyRecord>, done: seq<int>, lost: set<int>)
    | Write(call: Call)
    | Read(dump: Dump)

  function TagStateOf(card: Card, tag: Tag): TagState
    reads card, tag
  {
    TagState(card.blocks, tag.sectorKeys, tag.traits)
  }

  function StoreOf(s: TagState): StoreState { StoreState(CardDump(s.blocks), s.traits) }

  ghost predicate Moves(a: TagState, b: TagState, step: Step) {
    && |a.blocks| == |b.blocks| == CARD_BLOCKS
    && match step
       case Initialise(generated, done, lost) =>
         && InitOutcome(a.blocks, b.blocks, a.keys, b.keys, generated, done, lost)
         && b.traits == if TouchesTraits(done) then map[] else a.traits
       case Write(call) =>
         TraitStep(StoreOf(a), StoreOf(b), call) && TrailersKept(a.blocks, b.blocks) && b.keys == a.keys
       case Read(dump) =>
         DumpIsTrue(dump, a.blocks) && b == a.(traits := Refreshed(dump, a.traits))
  }

  ghost predicate IsCardRun(states: seq<TagState>, steps: seq<Step>) {
    && |states| == |steps| + 1 && |states[0].blocks| == CARD_BLOCKS
    && forall n :: 0 <= n < |steps| ==> Moves(states[n], states[n + 1], steps[n])
  }

  /** The step gave sector `s` its first keys by a trailer write that was dropped without an answer. */
  predicate LosesKeys(a: TagState, step: Step, s: nat) {
    step.Initialise? && |step.generated| > s && s in step.done && s in step.lost && s !in a.keys &&
    step.generated[s] != FACTORY_KEYS
  }
}
