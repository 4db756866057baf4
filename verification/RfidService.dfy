/**
 The RFID service state: presence of a held card, deduplication of emitted
 scans, and the automatic deep scan (apps/cards/rfid_service.py).
 */
module RfidService {
  import opened Wrappers

  /**
   A payload value: something the reader read, with the tag it came from and the
   observation it was read in, or something the service made itself. Times are in
   milliseconds.
   */
  datatype Val = Read(truthy: bool, tag: string, at: nat) | Made(text: string) | Duration(millis: int)

  type Payload = map<string, Val>

  predicate Truthy(v: Val) {
    match v case Read(truthy, _, _) => truthy case Made(text) => text != "" case Duration(n) => n != 0
  }

  predicate TruthyAt(p: Payload, key: string) { key in p && Truthy(p[key]) }

  const DEEP_KEYS: set<string> := {"deep_read", "dump", "keys"}

  /** `has_deep_scan_data` */
  predicate HasDeep(p: Payload) { TruthyAt(p, "deep_read") || TruthyAt(p, "dump") || TruthyAt(p, "keys") }

  datatype Config = Config(presenceGap: int, deepScanHold: int, dedupe: int)

  /** The card a deep read finds, if any. */
  datatype DeepResult = NoCard | Card(rfid: string, payload: Payload)

  /** One scan of a tag, with everything the environment answers during it. */
  datatype Observation = Observation(rfid: string, payload: Payload, now: int, iso: string, deep: DeepResult,
                                     emitOk: bool)

  /** The fields of the service state. */
  datatype Service = Service(
    lastEmittedRfid: Option<string>, lastEmittedAt: Option<int>, currentRfid: Option<string>,
    startedAt: Option<int>, startedIso: Option<string>, lastAt: Option<int>,
    enriched: Option<Payload>, attemptedRfid: Option<string>)

  const IDLE: Service := Service(None, None, None, None, None, None, None, None)

  /** What one observation led to. */
  datatype Output = Output(started: bool, attempted: bool, forced: bool, emitted: bool, payload: Payload)

  // ----- Presence ----------------------------------------------------------

  predicate ShouldStart(cfg: Config, s: Service, rfid: string, now: int) {
    if s.currentRfid != Some(rfid) then true
    else if s.lastAt.None? then s.startedAt.None?
    else now - s.lastAt.value > cfg.presenceGap
  }

  function Start(s: Service, rfid: string, now: int, iso: string): Service {
    s.(currentRfid := Some(rfid), startedAt := Some(now), startedIso := Some(iso), lastAt := None,
       enriched := None, attemptedRfid := None)
  }

  function Marked(s: Service, now: int, iso: string): Service {
    s.(startedAt := Some(if s.startedAt.Some? then s.startedAt.value else now),
       startedIso := Some(if s.startedIso.Some? && s.startedIso.value != "" then s.startedIso.value else iso),
       lastAt := Some(now))
  }

  function AtLeastZero(n: int): nat { if n < 0 then 0 else n }

  /** `_stamp_presence` on the payload. */
  function Stamped(s: Service, p: Payload, now: int, iso: string): Payload {
    var m := Marked(s, now, iso);
    p["first_presence_at" := Made(m.startedIso.value)]["last_presence_at" := Made(iso)]
     ["presence_duration_seconds" := Duration(AtLeastZero(now - m.startedAt.value))]
  }

  // ----- The deep scan -----------------------------------------------------

  predicate ShouldDeepScan(cfg: Config, s: Service, rfid: string, now: int) {
    s.attemptedRfid != Some(rfid) && s.startedAt.Some? && now - s.startedAt.value >= cfg.deepScanHold
  }

  function WithDefault(p: Payload, key: string, v: Val): Payload { if key in p then p else p[key := v] }

  /** What every payload of a scan is given. */
  function Labelled(p: Payload, o: Observation): Payload {
    WithDefault(p["rfid" := Made(o.rfid)], "service_mode", Made("service"))["scanned_at" := Made(o.iso)]
  }

  /** What an attempted deep scan adds: the deep payload of the same tag, or just a note. */
  function DeepPayload(s: Service, o: Observation): Payload {
    match o.deep
    case NoCard => map["deep_scan" := Made("no-card")]
    case Card(rfid, payload) =>
      if rfid != o.rfid then map["deep_scan" := Made("rfid-mismatch")]
      else
        var p := Labelled(payload, o);
        Stamped(s, p["deep_scan" := Made(if HasDeep(p) then "ok" else "no-deep-data")], o.now, o.iso)
  }

  /** `merge_deep_scan_payload` */
  function Merged(base: Payload, deep: Payload): Payload { base + (deep - {"rfid", "service_mode"}) }

  /** The scan's own values laid over the cached deep payload, deep data excepted. */
  function Overlaid(cached: Payload, base: Payload): Payload { cached + (base - DEEP_KEYS) }

  function BasePayload(s: Service, o: Observation): Payload {
    Stamped(s, Labelled(o.payload, o),
            o.now, o.iso)
  }

  // ----- One observation ---------------------------------------------------

  /** `_build_scan_artifact_payload` once the presence is settled: state, payload, attempted, forced. */
  function Build(cfg: Config, s: Service, o: Observation): (Service, Payload, bool, bool) {
    var base := BasePayload(s, o);
    var s1 := Marked(s, o.now, o.iso);
    if HasDeep(base) then
      (s1.(enriched := Some(base)), base, false, s1.enriched.None? || !HasDeep(s1.enriched.value))
    else
      var attempt := s1.enriched.None? && ShouldDeepScan(cfg, s1, o.rfid, o.now);
      var s2 := if attempt then s1.(attemptedRfid := Some(o.rfid)) else s1;
      var merged := if attempt then Stamped(s2, Merged(base, DeepPayload(s2, o)), o.now, o.iso) else base;
      var s3 := if attempt && HasDeep(merged) then s2.(enriched := Some(merged)) else s2;
      if s3.enriched.None? then (s3, merged, attempt, attempt)
      else
        var payload := Stamped(s3, Overlaid(s3.enriched.value, merged), o.now, o.iso);
        (s3.(enriched := Some(payload)), payload, attempt, attempt)
  }

  predicate Suppressed(cfg: Config, s: Service, o: Observation) {
    s.lastEmittedRfid == Some(o.rfid) && s.lastEmittedAt.Some? && o.now - s.lastEmittedAt.value < cfg.dedupe
  }

  /** `_emit_scan_artifacts` for a non-blank tag. */
  function Observe(cfg: Config, s: Service, o: Observation): (Service, Output) {
    var started := ShouldStart(cfg, s, o.rfid, o.now);
    var s0 := if started then Start(s, o.rfid, o.now, o.iso) else s;
    var (s1, payload, attempted, forced) := Build(cfg, s0, o);
    var emitted := (forced || !Suppressed(cfg, s1, o)) && o.emitOk;
    (if emitted then s1.(lastEmittedRfid := Some(o.rfid), lastEmittedAt := Some(o.now)) else s1,
     Output(started, attempted, forced, emitted, payload))
  }

  // ----- The service object ------------------------------------------------

  class RFIDServiceState {
    const cfg: Config
    var lastEmittedRfid: Option<string>
    var lastEmittedAt: Option<int>
    var currentRfid: Option<string>
    var startedAt: Option<int>
    var startedIso: Option<string>
    var lastAt: Option<int>
    var enriched: Option<Payload>
    var attemptedRfid: Option<string>

    function Fields(): Service reads this {
      Service(lastEmittedRfid, lastEmittedAt, currentRfid, startedAt, startedIso, lastAt, enriched, attemptedRfid)
    }

    constructor (cfg: Config)
      ensures this.cfg == cfg && Fields() == IDLE
    {
      this.cfg := cfg;
      lastEmittedRfid, lastEmittedAt, currentRfid, startedAt := None, None, None, None;
      startedIso, lastAt, enriched, attemptedRfid := None, None, None, None;
    }

    method StartPresence(rfid: string, now: int, iso: string)
      modifies this
      ensures Fields() == Start(old(Fields()), rfid, now, iso)
    {
      currentRfid, startedAt, startedIso := Some(rfid), Some(now), Some(iso);
      lastAt, enriched, attemptedRfid := None, None, None;
    }

    method StampPresence(p: Payload, now: int, iso: string) returns (stamped: Payload)
      modifies `startedAt, `startedIso, `lastAt
      ensures stamped == Stamped(old(Fields()), p, now, iso) && Fields() == Marked(old(Fields()), now, iso)
    {
      if startedAt.None? { startedAt := Some(now); }
      if startedIso.None? || startedIso.value == "" { startedIso := Some(iso); }
      stamped := p["first_presence_at" := Made(startedIso.value)]["last_presence_at" := Made(iso)]
                  ["presence_duration_seconds" := Duration(AtLeastZero(now - startedAt.value))];
      lastAt := Some(now);
    }

    method AttemptDeepScan(o: Observation) returns (deep: Payload)
      requires startedAt.Some? && startedIso.Some? && startedIso.value != "" && lastAt == Some(o.now)
      modifies this
      ensures Fields() == old(Fields()).(attemptedRfid := Some(o.rfid))
      ensures deep == DeepPayload(Fields(), o)
    {
      attemptedRfid := Some(o.rfid);
      match o.deep
      case NoCard => return map["deep_scan" := Made("no-card")];
      case Card(rfid, payload) =>
        if rfid != o.rfid { return map["deep_scan" := Made("rfid-mismatch")]; }
        var p := Labelled(payload, o);
        p := p["deep_scan" := Made(if HasDeep(p) then "ok" else "no-deep-data")];
        deep := StampPresence(p, o.now, o.iso);
    }

    /** The loop that lays a scan over the cached deep payload. */
    method Overlay(cached: Payload, base: Payload) returns (p: Payload)
      ensures p == Overlaid(cached, base)
    {
      p := cached;
      var pending := base.Keys;
      while pending != {}
        invariant pending <= base.Keys
        invariant p == Overlaid(cached, base - pending)
      {
        var key :| key in pending;
        assert base - (pending - {key}) == (base - pending)[key := base[key]];
        if key !in DEEP_KEYS { p := p[key := base[key]]; }
        pending := pending - {key};
      }
      assert base - {} == base;
    }

    method BuildScanArtifactPayload(o: Observation) returns (payload: Payload, attempted: bool, forced: bool)
      requires o.iso != ""
      modifies this
      ensures var s := old(Fields());
              var s0 := if ShouldStart(cfg, s, o.rfid, o.now) then Start(s, o.rfid, o.now, o.iso) else s;
              (Fields(), payload, attempted, forced) == Build(cfg, s0, o)
    {
      if ShouldStart(cfg, Fields(), o.rfid, o.now) { StartPresence(o.rfid, o.now, o.iso); }
      attempted, forced := false, false;
      payload := Labelled(o.payload, o);
      payload := StampPresence(payload, o.now, o.iso);
      if HasDeep(payload) {
        forced := enriched.None? || !HasDeep(enriched.value);
        enriched := Some(payload);
        return;
      }
      if enriched.None? && ShouldDeepScan(cfg, Fields(), o.rfid, o.now) {
        var deep := AttemptDeepScan(o);
        payload := StampPresence(Merged(payload, deep), o.now, o.iso);
        if HasDeep(payload) { enriched := Some(payload); }
        attempted, forced := true, true;
      }
      if enriched.None? { return; }
      payload := Overlay(enriched.value, payload);
      payload := StampPresence(payload, o.now, o.iso);
      enriched := Some(payload);
    }

    /** `_emit_scan_artifacts`; the log receives the payload when both writes work. */
    method EmitScanArtifacts(o: Observation) returns (out: Output)
      requires o.iso != ""
      modifies this
      ensures (Fields(), out) == Observe(cfg, old(Fields()), o)
    {
      var started := ShouldStart(cfg, Fields(), o.rfid, o.now);
      var payload, attempted, forced := BuildScanArtifactPayload(o);
      if Suppressed(cfg, Fields(), o) && !forced { return Output(started, attempted, forced, false, payload); }
      if !o.emitOk { return Output(started, attempted, forced, false, payload); }
      lastEmittedRfid, lastEmittedAt := Some(o.rfid), Some(o.now);
      out := Output(started, attempted, forced, true, payload);
    }
  }
}
