/**
 Whole runs of observations: when scans are emitted, where deep data comes from,
 and how long a presence is said to last (apps/cards/rfid_service.py).
 */
module RfidRuns {
  import opened Wrappers
  import opened RfidService

  predicate StepAt(cfg: Config, states: seq<Service>, obs: seq<Observation>, outs: seq<Output>, i: nat)
    requires |states| == |obs| + 1 && |outs| == |obs| && i < |obs|
  {
    (states[i + 1], outs[i]) == Observe(cfg, states[i], obs[i])
  }

  ghost predicate IsRun(cfg: Config, states: seq<Service>, obs: seq<Observation>, outs: seq<Output>) {
    && |states| == |obs| + 1 && |outs| == |obs| && states[0] == IDLE
    && forall i :: 0 <= i < |obs| ==> StepAt(cfg, states, obs, outs, i)
  }

  // ----- Deduplication -----------------------------------------------------

  lemma {:induction false} EmissionFields(cfg: Config, s: Service, o: Observation)
    ensures var (s', out) := Observe(cfg, s, o);
            && (out.emitted ==> s'.lastEmittedRfid == Some(o.rfid) && s'.lastEmittedAt == Some(o.now))
            && (!out.emitted ==> s'.lastEmittedRfid == s.lastEmittedRfid && s'.lastEmittedAt == s.lastEmittedAt)
            && (out.emitted && s.lastEmittedRfid == Some(o.rfid) && s.lastEmittedAt.Some? ==>
                 out.forced || o.now - s.lastEmittedAt.value >= cfg.dedupe)
  {}

  /** Until the next emission the state remembers the last one. */
  lemma {:induction false} LastEmission(cfg: Config, states: seq<Service>, obs: seq<Observation>, outs: seq<Output>,
                                        i: nat, j: nat)
    requires IsRun(cfg, states, obs, outs) && i < j <= |obs|
    requires outs[i].emitted && forall k :: i < k < j ==> !outs[k].emitted
    ensures states[j].lastEmittedRfid == Some(obs[i].rfid) && states[j].lastEmittedAt == Some(obs[i].now)
    decreases j - i
  {
    assert StepAt(cfg, states, obs, outs, j - 1);
    EmissionFields(cfg, states[j - 1], obs[j - 1]);
    if i < j - 1 { LastEmission(cfg, states, obs, outs, i, j - 1); }
  }

  /**
   Two emissions of the same tag with none between them are at least the dedupe
   interval apart, unless the later one was forced.
   */
  lemma {:induction false} EmissionsAreSpaced(cfg: Config, states: seq<Service>, obs: seq<Observation>,
                                              outs: seq<Output>, i: nat, j: nat)
    requires IsRun(cfg, states, obs, outs) && i < j < |obs|
    requires outs[i].emitted && outs[j].emitted && forall k :: i < k < j ==> !outs[k].emitted
    ensures obs[j].rfid == obs[i].rfid ==> outs[j].forced || obs[j].now - obs[i].now >= cfg.dedupe
  {
    LastEmission(cfg, states, obs, outs, i, j);
    assert StepAt(cfg, states, obs, outs, j);
    EmissionFields(cfg, states[j], obs[j]);
  }

  // ----- One deep scan and two forced emissions per presence ---------------

  function CountAttempts(outs: seq<Output>): nat {
    if outs == [] then 0 else CountAttempts(outs[..|outs| - 1]) + if outs[|outs| - 1].attempted then 1 else 0
  }

  function CountForced(outs: seq<Output>): nat {
    if outs == [] then 0 else CountForced(outs[..|outs| - 1]) + if outs[|outs| - 1].forced then 1 else 0
  }

  /** How many deep scans, and how many forced emissions, this presence may still make. */
  function AttemptsLeft(s: Service): nat { if s.enriched.Some? || s.attemptedRfid.Some? then 0 else 1 }

  function ForcedLeft(s: Service): nat {
    if s.enriched.Some? then 0 else if s.attemptedRfid.Some? then 1 else 2
  }

  /** The payload names the tag. */
  predicate Names(p: Payload, rfid: Option<string>) { rfid.Some? && "rfid" in p && p["rfid"] == Made(rfid.value) }

  /** The cached payload is a deep one of the current tag, and so was an attempted deep scan. */
  predicate CacheOk(s: Service) {
    && (s.enriched.Some? ==> HasDeep(s.enriched.value) && Names(s.enriched.value, s.currentRfid))
    && (s.attemptedRfid.Some? ==> s.attemptedRfid == s.currentRfid)
  }

  lemma {:induction false} BuildKeepsDeep(cfg: Config, s: Service, o: Observation)
    requires s.enriched.Some? ==> HasDeep(s.enriched.value)
    ensures var s' := Build(cfg, s, o).0; s'.enriched.Some? ==> HasDeep(s'.enriched.value)
  {}

  lemma {:induction false} BuildKeepsName(cfg: Config, s: Service, o: Observation)
    requires s.currentRfid == Some(o.rfid) && (s.attemptedRfid.Some? ==> s.attemptedRfid == s.currentRfid)
    requires s.enriched.Some? ==> Names(s.enriched.value, s.currentRfid)
    ensures var s' := Build(cfg, s, o).0;
            && s'.currentRfid == s.currentRfid && (s'.attemptedRfid.Some? ==> s'.attemptedRfid == s.currentRfid)
            && (s'.enriched.Some? ==> Names(s'.enriched.value, s.currentRfid))
  {}

  lemma {:induction false} BuildSpends(cfg: Config, s: Service, o: Observation)
    requires CacheOk(s) && s.currentRfid == Some(o.rfid)
    ensures var (s', payload, attempted, forced) := Build(cfg, s, o);
            && (if attempted then 1 else 0) + AttemptsLeft(s') <= AttemptsLeft(s)
            && (if forced then 1 else 0) + ForcedLeft(s') <= ForcedLeft(s)
  {}

  lemma {:induction false} ObserveSpends(cfg: Config, s: Service, o: Observation)
    requires CacheOk(s)
    ensures var (s', out) := Observe(cfg, s, o);
            && CacheOk(s') && s'.currentRfid == Some(o.rfid)
            && (!out.started ==> s.currentRfid == Some(o.rfid))
            && (if out.attempted then 1 else 0) + AttemptsLeft(s') <= (if out.started then 1 else AttemptsLeft(s))
            && (if out.forced then 1 else 0) + ForcedLeft(s') <= (if out.started then 2 else ForcedLeft(s))
  {
    var s0 := if ShouldStart(cfg, s, o.rfid, o.now) then Start(s, o.rfid, o.now, o.iso) else s;
    BuildKeepsDeep(cfg, s0, o);
    BuildKeepsName(cfg, s0, o);
    BuildSpends(cfg, s0, o);
  }

  lemma {:induction false} CacheAlwaysOk(cfg: Config, states: seq<Service>, obs: seq<Observation>, outs: seq<Output>,
                                         i: nat)
    requires IsRun(cfg, states, obs, outs) && i <= |obs|
    ensures CacheOk(states[i])
  {
    if i > 0 {
      CacheAlwaysOk(cfg, states, obs, outs, i - 1);
      assert StepAt(cfg, states, obs, outs, i - 1);
      ObserveSpends(cfg, states[i - 1], obs[i - 1]);
    }
  }

  /** The observations from `a` up to `b` belong to one presence that starts at `a`. */
  predicate OnePresence(outs: seq<Output>, a: nat, b: nat)
    requires a < b <= |outs|
  {
    outs[a].started && forall k :: a < k < b ==> !outs[k].started
  }

  lemma {:induction false} SliceButLast(outs: seq<Output>, a: nat, b: nat)
    requires a < b <= |outs|
    ensures |outs[a..b]| == b - a && outs[a..b][b - 1 - a] == outs[b - 1]
    ensures outs[a..b][..b - 1 - a] == outs[a..b - 1]
  {}

  lemma {:induction false} SpentSoFar(cfg: Config, states: seq<Service>, obs: seq<Observation>, outs: seq<Output>,
                                      a: nat, b: nat)
    requires IsRun(cfg, states, obs, outs) && a < b <= |obs| && OnePresence(outs, a, b)
    ensures CountAttempts(outs[a..b]) + AttemptsLeft(states[b]) <= 1
    ensures CountForced(outs[a..b]) + ForcedLeft(states[b]) <= 2
    decreases b - a
  {
    CacheAlwaysOk(cfg, states, obs, outs, b - 1);
    assert StepAt(cfg, states, obs, outs, b - 1);
    ObserveSpends(cfg, states[b - 1], obs[b - 1]);
    SliceButLast(outs, a, b);
    if a < b - 1 { SpentSoFar(cfg, states, obs, outs, a, b - 1); }
  }

  /** Each presence makes at most one automatic deep scan and at most two forced emissions. */
  lemma {:induction false} PresenceBudget(cfg: Config, states: seq<Service>, obs: seq<Observation>, outs: seq<Output>,
                                          a: nat, b: nat)
    requires IsRun(cfg, states, obs, outs) && a < b <= |obs| && OnePresence(outs, a, b)
    ensures CountAttempts(outs[a..b]) <= 1 && CountForced(outs[a..b]) <= 2
  {
    SpentSoFar(cfg, states, obs, outs, a, b);
  }

  // ----- Where deep data comes from ----------------------------------------

  /** All deep values were read from `tag`, no earlier than observation `from` and no later than `upto`. */
  predicate DeepFrom(p: Payload, tag: string, from: nat, upto: nat) {
    forall k :: k in p && k in DEEP_KEYS ==> p[k].Read? && p[k].tag == tag && from <= p[k].at <= upto
  }

  /** The reader stamps what it reads with the tag it reads and the current observation. */
  predicate ReadsAt(o: Observation, i: nat) {
    && DeepFrom(o.payload, o.rfid, i, i)
    && (o.deep.Card? ==> DeepFrom(o.deep.payload, o.deep.rfid, i, i))
  }

  lemma {:induction false} StampedKeepsDeep(s: Service, p: Payload, now: int, iso: string, tag: string, from: nat,
                                            upto: nat)
    requires DeepFrom(p, tag, from, upto)
    ensures DeepFrom(Stamped(s, p, now, iso), tag, from, upto)
  {}

  lemma {:induction false} WidenDeep(p: Payload, tag: string, from: nat, from': nat, upto: nat, upto': nat)
    requires DeepFrom(p, tag, from, upto) && from' <= from && upto <= upto'
    ensures DeepFrom(p, tag, from', upto')
  {}

  lemma {:induction false} BaseKeepsDeep(s: Service, o: Observation, i: nat)
    requires ReadsAt(o, i)
    ensures DeepFrom(BasePayload(s, o), o.rfid, i, i)
  {
    var p := Labelled(o.payload, o);
    StampedKeepsDeep(s, p, o.now, o.iso, o.rfid, i, i);
  }

  lemma {:induction false} DeepPayloadKeepsDeep(s: Service, o: Observation, i: nat)
    requires ReadsAt(o, i)
    ensures DeepFrom(DeepPayload(s, o), o.rfid, i, i)
  {
    if o.deep.Card? && o.deep.rfid == o.rfid {
      var p := Labelled(o.deep.payload, o);
      var q := p["deep_scan" := Made(if HasDeep(p) then "ok" else "no-deep-data")];
      StampedKeepsDeep(s, q, o.now, o.iso, o.rfid, i, i);
    }
  }

  lemma {:induction false} MergedKeepsDeep(base: Payload, deep: Payload, tag: string, from: nat, upto: nat)
    requires DeepFrom(base, tag, from, upto) && DeepFrom(deep, tag, from, upto)
    ensures DeepFrom(Merged(base, deep), tag, from, upto)
  {}

  lemma {:induction false} OverlaidKeepsDeep(cached: Payload, base: Payload, tag: string, from: nat, upto: nat)
    requires DeepFrom(cached, tag, from, upto)
    ensures DeepFrom(Overlaid(cached, base), tag, from, upto)
  {}

  /** The cache holds deep data of the current tag, read within the presence. */
  predicate CacheFrom(s: Service, from: nat, upto: nat) {
    s.enriched.Some? ==> s.currentRfid.Some? && DeepFrom(s.enriched.value, s.currentRfid.value, from, upto)
  }

  lemma {:induction false} BuildProvenance(cfg: Config, s: Service, o: Observation, from: nat, i: nat)
    requires ReadsAt(o, i) && s.currentRfid == Some(o.rfid) && from <= i && CacheFrom(s, from, i)
    ensures var (s', payload, attempted, forced) := Build(cfg, s, o);
            DeepFrom(payload, o.rfid, from, i) && CacheFrom(s', from, i) && s'.currentRfid == s.currentRfid
  {
    BaseKeepsDeep(s, o, i);
    var base, s1 := BasePayload(s, o), Marked(s, o.now, o.iso);
    WidenDeep(base, o.rfid, i, from, i, i);
    if !HasDeep(base) {
      var attempt := s1.enriched.None? && ShouldDeepScan(cfg, s1, o.rfid, o.now);
      var s2 := if attempt then s1.(attemptedRfid := Some(o.rfid)) else s1;
      var merged := if attempt then Stamped(s2, Merged(base, DeepPayload(s2, o)), o.now, o.iso) else base;
      if attempt {
        DeepPayloadKeepsDeep(s2, o, i);
        WidenDeep(DeepPayload(s2, o), o.rfid, i, from, i, i);
        MergedKeepsDeep(base, DeepPayload(s2, o), o.rfid, from, i);
        StampedKeepsDeep(s2, Merged(base, DeepPayload(s2, o)), o.now, o.iso, o.rfid, from, i);
      }
      var s3 := if attempt && HasDeep(merged) then s2.(enriched := Some(merged)) else s2;
      if s3.enriched.Some? {
        OverlaidKeepsDeep(s3.enriched.value, merged, o.rfid, from, i);
        StampedKeepsDeep(s3, Overlaid(s3.enriched.value, merged), o.now, o.iso, o.rfid, from, i);
      }
    }
  }

  lemma {:induction false} ObserveProvenance(cfg: Config, s: Service, o: Observation, from: nat, i: nat)
    requires ReadsAt(o, i) && from <= i && (ShouldStart(cfg, s, o.rfid, o.now) || CacheFrom(s, from, i))
    ensures var (s', out) := Observe(cfg, s, o);
            DeepFrom(out.payload, o.rfid, from, i) && CacheFrom(s', from, i)
  {
    var s0 := if ShouldStart(cfg, s, o.rfid, o.now) then Start(s, o.rfid, o.now, o.iso) else s;
    BuildProvenance(cfg, s0, o, from, i);
  }

  /** Whatever deep data a scan carries was read from that same tag within the same presence. */
  lemma {:induction false} DeepDataProvenance(cfg: Config, states: seq<Service>, obs: seq<Observation>,
                                              outs: seq<Output>, a: nat, b: nat)
    requires IsRun(cfg, states, obs, outs) && a < b <= |obs| && OnePresence(outs, a, b)
    requires forall i: nat :: i < |obs| ==> ReadsAt(obs[i], i)
    ensures DeepFrom(outs[b - 1].payload, obs[b - 1].rfid, a, b - 1)
    ensures CacheFrom(states[b], a, b - 1)
    decreases b - a
  {
    assert StepAt(cfg, states, obs, outs, b - 1);
    if a < b - 1 {
      DeepDataProvenance(cfg, states, obs, outs, a, b - 1);
      if states[b - 1].enriched.Some? {
        WidenDeep(states[b - 1].enriched.value, states[b - 1].currentRfid.value, a, a, b - 2, b - 1);
      }
    }
    ObserveProvenance(cfg, states[b - 1], obs[b - 1], a, b - 1);
  }

  // ----- Presence durations ------------------------------------------------

  lemma {:induction false} BuildClock(cfg: Config, s: Service, o: Observation)
    ensures var (s', payload, _, _) := Build(cfg, s, o);
            && s'.currentRfid == s.currentRfid && s'.lastAt == Some(o.now)
            && s'.startedAt == Some(if s.startedAt.Some? then s.startedAt.value else o.now)
            && "presence_duration_seconds" in payload
            && payload["presence_duration_seconds"] == Duration(AtLeastZero(o.now - s'.startedAt.value))
  {}

  lemma {:induction false} PresenceFields(cfg: Config, s: Service, o: Observation)
    requires s.startedAt.None? <==> s.lastAt.None?
    ensures var (s', out) := Observe(cfg, s, o);
            && s'.currentRfid == Some(o.rfid) && s'.lastAt == Some(o.now)
            && s'.startedAt == (if out.started then Some(o.now) else s.startedAt) && s'.startedAt.Some?
            && (!out.started ==> s.lastAt.Some? && o.now - s.lastAt.value <= cfg.presenceGap)
            && "presence_duration_seconds" in out.payload
            && out.payload["presence_duration_seconds"] == Duration(AtLeastZero(o.now - s'.startedAt.value))
  {
    BuildClock(cfg, if ShouldStart(cfg, s, o.rfid, o.now) then Start(s, o.rfid, o.now, o.iso) else s, o);
  }

  lemma {:induction false} ClockFields(cfg: Config, states: seq<Service>, obs: seq<Observation>, outs: seq<Output>,
                                       i: nat)
    requires IsRun(cfg, states, obs, outs) && i <= |obs|
    ensures states[i].startedAt.None? <==> states[i].lastAt.None?
    ensures i > 0 ==> states[i].lastAt == Some(obs[i - 1].now)
  {
    if i > 0 {
      ClockFields(cfg, states, obs, outs, i - 1);
      assert StepAt(cfg, states, obs, outs, i - 1);
      PresenceFields(cfg, states[i - 1], obs[i - 1]);
    }
  }

  /**
   With a clock that never goes back, the duration reported after k observations
   of a presence is the true one: from 0 up to k - 1 times the presence gap.
   */
  lemma {:induction false} PresenceDuration(cfg: Config, states: seq<Service>, obs: seq<Observation>, outs: seq<Output>,
                                            a: nat, b: nat)
    requires IsRun(cfg, states, obs, outs) && a < b <= |obs| && OnePresence(outs, a, b)
    requires forall i, j :: 0 <= i <= j < |obs| ==> obs[i].now <= obs[j].now
    ensures states[b].startedAt == Some(obs[a].now)
    ensures var k := b - a;
            && "presence_duration_seconds" in outs[b - 1].payload
            && outs[b - 1].payload["presence_duration_seconds"] == Duration(obs[b - 1].now - obs[a].now)
            && 0 <= obs[b - 1].now - obs[a].now <= (k - 1) * cfg.presenceGap
    decreases b - a
  {
    ClockFields(cfg, states, obs, outs, b - 1);
    assert StepAt(cfg, states, obs, outs, b - 1);
    PresenceFields(cfg, states[b - 1], obs[b - 1]);
    if a < b - 1 {
      PresenceDuration(cfg, states, obs, outs, a, b - 1);
      assert (b - a - 1) * cfg.presenceGap == (b - a - 2) * cfg.presenceGap + cfg.presenceGap;
    }
  }
}
