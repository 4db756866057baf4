/**
 Keys over whole runs: any sequence of initialisations, trait writes and deep reads,
 each with any pattern of failures (apps/cards/reader.py).
 */
module CardRuns {
  import opened CardLayout
  import opened CardReader
  import opened CardSteps

  lemma {:induction false} StepKeepsOpenable(a: TagState, b: TagState, step: Step, s: nat)
    requires Moves(a, b, step) && IsManaged(s) && SectorOpenable(a.blocks, a.keys, s)
    ensures SectorOpenable(b.blocks, b.keys, s)
    ensures SectorAgrees(a.blocks, a.keys, s) ==> (SectorAgrees(b.blocks, b.keys, s) <==> !LosesKeys(a, step, s))
    ensures step.Initialise? && s in step.done && s !in step.lost ==> SectorAgrees(b.blocks, b.keys, s)
  {
    match step
    case Initialise(generated, done, lost) =>
      TrailerCarriesKeys(NewKeys(a.keys, generated, s));
      assert Rekeyed(a.blocks, b.blocks, s, NewKeys(a.keys, generated, s), s in done, s in lost);
    case Write(_) =>
      assert IsTrailerBlock(TrailerBlock(s));
    case Read(_) =>
  }

  /**
   No run locks a sector out: whatever fails, each trailer holds its recorded keys
   or the factory keys, and both are among the keys a writer tries.
   */
  lemma {:induction false} NeverLockedOut(states: seq<TagState>, steps: seq<Step>, s: nat, n: nat)
    requires IsCardRun(states, steps) && n <= |steps|
    requires IsManaged(s) && SectorOpenable(states[0].blocks, states[0].keys, s)
    ensures |states[n].blocks| == CARD_BLOCKS && SectorOpenable(states[n].blocks, states[n].keys, s)
    ensures var keyA := TrailerKeys(states[n].blocks[TrailerBlock(s)]).keyA;
            forall a, b :: Candidate(A, keyA) in WriteCandidates(states[n].keys, a, b, s)
  {
    if n > 0 {
      NeverLockedOut(states, steps, s, n - 1);
      assert Moves(states[n - 1], states[n - 1 + 1], steps[n - 1]);
      StepKeepsOpenable(states[n - 1], states[n], steps[n - 1], s);
    }
    forall a, b
      ensures Candidate(A, TrailerKeys(states[n].blocks[TrailerBlock(s)]).keyA) in
              WriteCandidates(states[n].keys, a, b, s)
    {
      WriteCandidatesSuffice(states[n].keys, a, b, s);
    }
  }

  /** Key agreement over every run in which no first rekeying was dropped without an answer. */
  lemma {:induction false} KeysAgreeThroughout(states: seq<TagState>, steps: seq<Step>, s: nat, n: nat)
    requires IsCardRun(states, steps) && n <= |steps|
    requires IsManaged(s) && SectorAgrees(states[0].blocks, states[0].keys, s)
    requires forall i :: 0 <= i < |steps| ==> !LosesKeys(states[i], steps[i], s)
    ensures |states[n].blocks| == CARD_BLOCKS && SectorAgrees(states[n].blocks, states[n].keys, s)
  {
    if n > 0 {
      KeysAgreeThroughout(states, steps, s, n - 1);
      assert Moves(states[n - 1], states[n - 1 + 1], steps[n - 1]);
      StepKeepsOpenable(states[n - 1], states[n], steps[n - 1], s);
    }
  }
}
