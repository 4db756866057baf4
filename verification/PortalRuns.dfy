/**
 Many request threads against one portal: every interleaving of the steps of
 `subscribe` with every pattern of failures (scripts/ap_portal_server.py).
 */
module PortalRuns {
  import opened Wrappers
  import opened PyText
  import opened PortalFiles

  type Encoder = Consent -> string

  /** Where a thread is, with the values it has noted so far. */
  datatype Pc =
    | Idle
    | Begin(c: Consent)
    | Synced(c: Consent, prev: set<Mac>, existed: bool)
    | Positioned(c: Consent, prev: set<Mac>, existed: bool, pos: Option<nat>)
    | FileWritten(c: Consent, prev: set<Mac>, existed: bool, pos: Option<nat>)
    | Logged(c: Consent, prev: set<Mac>, existed: bool, pos: Option<nat>)
    | Recorded(c: Consent, prev: set<Mac>)
    | UndoLog(prev: set<Mac>, existed: bool, pos: Option<nat>)
    | UndoFile(prev: set<Mac>, existed: bool)
    | UndoFirewall(prev: set<Mac>)
    | KnownPositioned(c: Consent, pos: Option<nat>)
    | KnownLogged(c: Consent, pos: Option<nat>)
    | KnownUndo(pos: Option<nat>)
    | Done

  /**
   The portal and its threads. `startup`, `cleanStart`, `committed` and
   `undoFailed` are history: the allowlist read at start-up, whether the consent
   log then ended with a finished line, the consent log up to the last
   acknowledged submission, and whether some undo step has failed.
   */
  datatype World = World(
    sync: bool, firewall: set<Mac>, allowlist: Option<string>, consents: Option<string>, activity: Option<string>,
    authorized: set<Mac>, trusted: set<Mac>, lock: Option<nat>, pcs: map<nat, Pc>,
    startup: set<Mac>, cleanStart: bool, committed: string, undoFailed: bool)

  function PcOf(w: World, t: nat): Pc { if t in w.pcs then w.pcs[t] else Idle }

  function LineOf(enc: Encoder, c: Consent): string { enc(c) + "\n" }

  function Lets(w: World): set<Mac> { w.authorized + w.trusted }

  /** The start of a run: memory is the parsed file, the firewall is in line, no thread is active. */
  predicate Init(w: World) {
    && AllNormal(w.trusted) && w.authorized == w.startup == ParseAllowlist(w.allowlist)
    && (w.sync ==> w.firewall == Lets(w)) && w.lock.None? && w.pcs == map[] && !w.undoFailed
    && w.committed == Content(w.consents) && w.cleanStart == AtLineStart(w.committed, '\n')
  }

  function Goto(w: World, t: nat, pc: Pc): World { w.(pcs := w.pcs[t := pc]) }

  /** An unlocked activity append, or the start of a submission. */
  ghost predicate IdleMove(w: World, w': World, t: nat, ok: bool) {
    || (exists line :: AppendStep(w.activity, w'.activity, line, ok) && w' == w.(activity := w'.activity))
    || (w.lock.None? && exists c: Consent :: IsNormalMac(c.mac) && w' == Goto(w, t, Begin(c)).(lock := Some(t)))
  }

  ghost predicate BeginMove(w: World, w': World, t: nat, c: Consent, ok: bool) {
    if c.mac in Lets(w) then w' == Goto(w, t, KnownPositioned(c, LogSize(w.consents)))
    else if !w.sync then w' == Goto(w, t, Synced(c, w.authorized, w.allowlist.Some?))
    else && SyncStep(w.firewall, w'.firewall, Lets(w) + {c.mac}, ok)
         && w' == Goto(w, t, if ok then Synced(c, w.authorized, w.allowlist.Some?) else Done).(firewall := w'.firewall)
  }

  ghost predicate WriteMove(w: World, w': World, t: nat, pc: Pc, ok: bool)
    requires pc.Positioned?
  {
    && (exists text :: IsRendering(text, pc.prev + {pc.c.mac}) && WriteStep(w.allowlist, w'.allowlist, text, ok))
    && w' == Goto(w, t, if ok then FileWritten(pc.c, pc.prev, pc.existed, pc.pos)
                        else UndoLog(pc.prev, pc.existed, pc.pos)).(allowlist := w'.allowlist)
  }

  /** Appending the consent line, then going to `next`, or to `undo` when it fails. */
  ghost predicate ConsentMove(enc: Encoder, w: World, w': World, t: nat, c: Consent, next: Pc, undo: Pc, ok: bool) {
    && AppendStep(w.consents, w'.consents, LineOf(enc, c), ok)
    && w' == Goto(w, t, if ok then next else undo).(consents := w'.consents)
  }

  /** Appending the activity line, which commits the consent, then going to `next`, or to `undo` when it fails. */
  ghost predicate ActivityMove(w: World, w': World, t: nat, next: Pc, undo: Pc, ok: bool) {
    && (exists line :: AppendStep(w.activity, w'.activity, line, ok))
    && w' == Goto(w, t, if ok then next else undo)
             .(activity := w'.activity, committed := if ok then Content(w.consents) else w.committed)
  }

  ghost predicate TruncateMove(w: World, w': World, t: nat, pos: Option<nat>, next: Pc, ok: bool) {
    && TruncateStep(w.consents, w'.consents, pos, ok)
    && w' == Goto(w, t, next).(consents := w'.consents, undoFailed := w.undoFailed || !ok)
  }

  ghost predicate RestoreMove(w: World, w': World, t: nat, prev: set<Mac>, existed: bool, ok: bool) {
    && RestoreStep(w.allowlist, w'.allowlist, prev, existed, ok)
    && w' == Goto(w, t, UndoFirewall(prev)).(allowlist := w'.allowlist, undoFailed := w.undoFailed || !ok)
  }

  ghost predicate UnsyncMove(w: World, w': World, t: nat, prev: set<Mac>, ok: bool) {
    if !w.sync then w' == Goto(w, t, Done)
    else && SyncStep(w.firewall, w'.firewall, prev + w.trusted, ok)
         && w' == Goto(w, t, Done).(firewall := w'.firewall, undoFailed := w.undoFailed || !ok)
  }

  /** One step of thread `t`; `ok` says whether the operation it performs succeeded. */
  ghost predicate Step(enc: Encoder, w: World, w': World, t: nat, ok: bool) {
    match PcOf(w, t)
    case Idle => IdleMove(w, w', t, ok)
    case Begin(c) => BeginMove(w, w', t, c, ok)
    case Synced(c, prev, existed) => w' == Goto(w, t, Positioned(c, prev, existed, LogSize(w.consents)))
    case Positioned(_, _, _, _) => WriteMove(w, w', t, PcOf(w, t), ok)
    case FileWritten(c, prev, existed, pos) =>
      ConsentMove(enc, w, w', t, c, Logged(c, prev, existed, pos), UndoLog(prev, existed, pos), ok)
    case Logged(c, prev, existed, pos) =>
      ActivityMove(w, w', t, Recorded(c, prev), UndoLog(prev, existed, pos), ok)
    case Recorded(c, prev) => w' == Goto(w, t, Done).(authorized := prev + {c.mac})
    case UndoLog(prev, existed, pos) => TruncateMove(w, w', t, pos, UndoFile(prev, existed), ok)
    case UndoFile(prev, existed) => RestoreMove(w, w', t, prev, existed, ok)
    case UndoFirewall(prev) => UnsyncMove(w, w', t, prev, ok)
    case KnownPositioned(c, pos) => ConsentMove(enc, w, w', t, c, KnownLogged(c, pos), KnownUndo(pos), ok)
    case KnownLogged(c, pos) => ActivityMove(w, w', t, Done, KnownUndo(pos), ok)
    case KnownUndo(pos) => TruncateMove(w, w', t, pos, Done, ok)
    case Done => w' == w.(pcs := w.pcs - {t}, lock := None)
  }

  // ----- The invariant -----------------------------------------------------

  predicate RecordAt(enc: Encoder, log: string, c: Consent, p: nat) {
    p + |LineOf(enc, c)| <= |log| && log[p..p + |LineOf(enc, c)|] == LineOf(enc, c)
  }

  /** Some consent record for the MAC is in the log, byte for byte. */
  ghost predicate HasRecord(enc: Encoder, log: string, mac: Mac) {
    exists c: Consent, p: nat :: c.mac == mac && RecordAt(enc, log, c, p)
  }

  /** Some line of the log is a consent record for the MAC. */
  ghost predicate HasReadableRecord(enc: Encoder, log: string, mac: Mac) {
    exists c: Consent :: c.mac == mac && enc(c) in StrLines(log)
  }

  predicate FilesAgree(w: World) { !w.undoFailed ==> ParseAllowlist(w.allowlist) == w.authorized }
  predicate LogAgrees(w: World) { !w.undoFailed ==> Content(w.consents) == w.committed }
  predicate FirewallAgrees(w: World) { !w.undoFailed && w.sync ==> w.firewall == Lets(w) }

  function Size(pos: Option<nat>): nat { if pos.Some? then pos.value else 0 }

  /** The noted log size is past everything committed, and no earlier than it need be. */
  predicate PositionSafe(w: World, pos: Option<nat>) {
    && Size(pos) <= |Content(w.consents)| && (pos.Some? ==> w.consents.Some?)
    && |w.committed| <= Size(pos) && (!w.undoFailed ==> Size(pos) == |w.committed|)
  }

  predicate PrevSafe(w: World, prev: set<Mac>, existed: bool) {
    prev == w.authorized && (!existed && !w.undoFailed ==> prev == {})
  }

  /** A submission for a MAC that is about to be let in. */
  predicate NewSafe(w: World, c: Consent, prev: set<Mac>, existed: bool) {
    && PrevSafe(w, prev, existed) && IsNormalMac(c.mac) && c.mac !in Lets(w)
    && (w.sync ==> w.firewall == Lets(w) + {c.mac})
  }

  /** What holds while the thread holding the lock is at `pc`. */
  ghost predicate PcSafe(enc: Encoder, w: World, pc: Pc) {
    match pc
    case Idle => true
    case Begin(c) => IsNormalMac(c.mac) && FilesAgree(w) && LogAgrees(w) && FirewallAgrees(w)
    case Synced(c, prev, existed) => NewSafe(w, c, prev, existed) && FilesAgree(w) && LogAgrees(w)
    case Positioned(c, prev, existed, pos) =>
      NewSafe(w, c, prev, existed) && LogAgrees(w) && pos == LogSize(w.consents)
    case FileWritten(c, prev, existed, pos) =>
      && NewSafe(w, c, prev, existed) && LogAgrees(w) && pos == LogSize(w.consents)
      && ParseAllowlist(w.allowlist) == prev + {c.mac}
    case Logged(c, prev, existed, pos) =>
      && NewSafe(w, c, prev, existed) && PositionSafe(w, pos) && ParseAllowlist(w.allowlist) == prev + {c.mac}
      && Content(w.consents) == Content(w.consents)[..Size(pos)] + LineOf(enc, c)
    case Recorded(c, prev) =>
      && NewSafe(w, c, prev, true) && LogAgrees(w) && ParseAllowlist(w.allowlist) == prev + {c.mac}
      && HasRecord(enc, w.committed, c.mac)
      && (w.cleanStart && !w.undoFailed ==> HasReadableRecord(enc, w.committed, c.mac))
    case UndoLog(prev, existed, pos) => PrevSafe(w, prev, existed) && PositionSafe(w, pos)
    case UndoFile(prev, existed) => PrevSafe(w, prev, existed) && LogAgrees(w)
    case UndoFirewall(prev) => PrevSafe(w, prev, true) && FilesAgree(w) && LogAgrees(w)
    case KnownPositioned(c, pos) =>
      FilesAgree(w) && LogAgrees(w) && FirewallAgrees(w) && pos == LogSize(w.consents)
    case KnownLogged(c, pos) =>
      && FilesAgree(w) && FirewallAgrees(w) && PositionSafe(w, pos)
      && Content(w.consents) == Content(w.consents)[..Size(pos)] + LineOf(enc, c)
    case KnownUndo(pos) => FilesAgree(w) && FirewallAgrees(w) && PositionSafe(w, pos)
    case Done => FilesAgree(w) && LogAgrees(w) && FirewallAgrees(w)
  }

  /** Safety at every moment, and full agreement whenever the lock is free and no undo has failed. */
  ghost predicate Inv(enc: Encoder, w: World) {
    && AllNormal(w.authorized) && AllNormal(w.trusted)
    && (w.sync ==> Lets(w) <= w.firewall)
    && w.committed <= Content(w.consents)
    && (w.cleanStart && !w.undoFailed ==> AtLineStart(w.committed, '\n'))
    && (forall m :: m in w.authorized && m !in w.startup ==>
         HasRecord(enc, w.committed, m) &&
         (w.cleanStart && !w.undoFailed ==> HasReadableRecord(enc, w.committed, m)))
    && (forall t: nat :: PcOf(w, t) != Idle ==> w.lock == Some(t))
    && (w.lock.None? ==> FilesAgree(w) && LogAgrees(w) && FirewallAgrees(w))
    && (w.lock.Some? ==> PcSafe(enc, w, PcOf(w, w.lock.value)) && PcOf(w, w.lock.value) != Idle)
  }

  ghost predicate EncodesLines(enc: Encoder) {
    forall c: Consent :: NoBreaks(enc(c), STR_BREAKS)
  }

  lemma {:induction false} LogGrows(enc: Encoder, log: string, log': string, mac: Mac)
    requires log <= log'
    ensures HasRecord(enc, log, mac) ==> HasRecord(enc, log', mac)
  {
    if HasRecord(enc, log, mac) {
      var c: Consent, p: nat :| c.mac == mac && RecordAt(enc, log, c, p);
      assert log'[p..p + |LineOf(enc, c)|] == log[p..p + |LineOf(enc, c)|];
      assert RecordAt(enc, log', c, p);
    }
  }

  /** A line appended at a line start becomes a line of its own, and the others stay. */
  lemma {:induction false} CommittedLine(enc: Encoder, log: string, c: Consent)
    requires EncodesLines(enc)
    ensures HasRecord(enc, log + LineOf(enc, c), c.mac)
    ensures AtLineStart(log + LineOf(enc, c), '\n')
    ensures AtLineStart(log, '\n') ==>
              HasReadableRecord(enc, log + LineOf(enc, c), c.mac) &&
              forall m :: HasReadableRecord(enc, log, m) ==> HasReadableRecord(enc, log + LineOf(enc, c), m)
  {
    var log' := log + LineOf(enc, c);
    assert RecordAt(enc, log', c, |log|);
    if AtLineStart(log, '\n') {
      SplitAfterLine(log, LineOf(enc, c), STR_BREAKS, '\n', '\r');
      SplitFirstLine(enc(c), "", STR_BREAKS, '\n', '\r');
      assert enc(c) + "\n" + "" == LineOf(enc, c);
      assert StrLines(log') == StrLines(log) + [enc(c)];
      assert enc(c) in StrLines(log');
    }
  }

  /**
   Why readability needs every undo to have worked: a record appended after a torn
   line is glued to it, so it becomes a line of its own if and only if nothing was
   torn, and can be read only if it stood in the log before.
   */
  lemma {:induction false} TornLineSwallowsNextRecord(enc: Encoder, log: string, torn: string, c: Consent)
    requires EncodesLines(enc) && AtLineStart(log, '\n') && NoBreaks(torn, STR_BREAKS)
    ensures StrLines(log + torn + LineOf(enc, c)) == StrLines(log) + [torn + enc(c)]
    ensures StrLines(log + torn + LineOf(enc, c)) == StrLines(log) + [enc(c)] <==> torn == ""
    ensures enc(c) in StrLines(log + torn + LineOf(enc, c)) <==> torn == "" || enc(c) in StrLines(log)
  {
    assert log + torn + LineOf(enc, c) == log + (torn + enc(c) + "\n" + "");
    SplitAfterLine(log, torn + enc(c) + "\n" + "", STR_BREAKS, '\n', '\r');
    SplitFirstLine(torn + enc(c), "", STR_BREAKS, '\n', '\r');
    var lines := StrLines(log) + [torn + enc(c)];
    assert lines[|lines| - 1] == torn + enc(c) && |torn + enc(c)| == |torn| + |enc(c)|;
    assert torn == "" ==> torn + enc(c) == enc(c);
  }

  // ----- Every step keeps the invariant ------------------------------------

  /** Authorization and committed consents only grow; the fixed parts stay. */
  predicate Grows(w: World, w': World) {
    && w.authorized <= w'.authorized && w.committed <= w'.committed
    && w'.trusted == w.trusted && w'.startup == w.startup && w'.sync == w.sync && w'.cleanStart == w.cleanStart
  }

  /** The parts of the invariant a step of the lock holder has to re-establish. */
  lemma {:induction false} HolderStep(enc: Encoder, w: World, w': World, t: nat, pc: Pc)
    requires Inv(enc, w) && w.lock == Some(t) && PcOf(w, t) != Idle && pc != Idle
    requires w'.lock == w.lock && w'.pcs == w.pcs[t := pc] && PcSafe(enc, w', pc)
    requires Grows(w, w')
    requires AllNormal(w'.authorized) && (w'.sync ==> Lets(w') <= w'.firewall) && (w.undoFailed ==> w'.undoFailed)
    requires w'.committed <= Content(w'.consents)
    requires w'.committed != w.committed && w'.cleanStart && !w'.undoFailed ==>
               AtLineStart(w'.committed, '\n') &&
               forall m :: HasReadableRecord(enc, w.committed, m) ==> HasReadableRecord(enc, w'.committed, m)
    requires forall m :: m in w'.authorized && m !in w.authorized ==>
               HasRecord(enc, w'.committed, m) &&
               (w'.cleanStart && !w'.undoFailed ==> HasReadableRecord(enc, w'.committed, m))
    ensures Inv(enc, w') && Grows(w, w')
  {
    forall m | m in w'.authorized && m !in w'.startup
      ensures HasRecord(enc, w'.committed, m)
      ensures w'.cleanStart && !w'.undoFailed ==> HasReadableRecord(enc, w'.committed, m)
    {
      if m in w.authorized { LogGrows(enc, w.committed, w'.committed, m); }
    }
    forall t': nat ensures PcOf(w', t') != Idle ==> w'.lock == Some(t') {
      if t' != t { assert PcOf(w', t') == PcOf(w, t'); }
    }
  }

  /** The consent just appended is committed. */
  lemma {:induction false} CommitLine(enc: Encoder, w: World, c: Consent, pos: Option<nat>)
    requires EncodesLines(enc) && Inv(enc, w) && PositionSafe(w, pos)
    requires Content(w.consents) == Content(w.consents)[..Size(pos)] + LineOf(enc, c)
    ensures var log := Content(w.consents);
            && HasRecord(enc, log, c.mac)
            && (w.cleanStart && !w.undoFailed ==>
                 AtLineStart(log, '\n') && HasReadableRecord(enc, log, c.mac) &&
                 forall m :: HasReadableRecord(enc, w.committed, m) ==> HasReadableRecord(enc, log, m))
  {
    CommittedLine(enc, Content(w.consents)[..Size(pos)], c);
    if !w.undoFailed { assert Content(w.consents)[..Size(pos)] == w.committed; }
  }

  /** A line appended to the activity log without the lock touches nothing else. */
  lemma {:induction false} ActivityLineKeeps(enc: Encoder, w: World, w': World)
    requires Inv(enc, w) && w' == w.(activity := w'.activity)
    ensures Inv(enc, w') && Grows(w, w')
  {
    assert forall t' :: PcOf(w', t') == PcOf(w, t');
    if w.lock.Some? { assert PcSafe(enc, w', PcOf(w, w.lock.value)); }
  }

  lemma {:induction false} EnterKeeps(enc: Encoder, w: World, w': World, t: nat, c: Consent)
    requires Inv(enc, w) && w.lock.None? && IsNormalMac(c.mac) && w' == Goto(w, t, Begin(c)).(lock := Some(t))
    ensures Inv(enc, w') && Grows(w, w')
  {
    forall t': nat ensures PcOf(w', t') != Idle ==> w'.lock == Some(t') {
      if t' != t { assert PcOf(w', t') == PcOf(w, t'); }
    }
    assert PcSafe(enc, w', Begin(c));
  }

  lemma {:induction false} IdleKeeps(enc: Encoder, w: World, w': World, t: nat, ok: bool)
    requires Inv(enc, w) && PcOf(w, t) == Idle && IdleMove(w, w', t, ok)
    ensures Inv(enc, w') && Grows(w, w')
  {
    if w'.pcs == w.pcs {
      ActivityLineKeeps(enc, w, w');
    } else {
      var c: Consent :| IsNormalMac(c.mac) && w' == Goto(w, t, Begin(c)).(lock := Some(t));
      EnterKeeps(enc, w, w', t, c);
    }
  }

  lemma {:induction false} DoneKeeps(enc: Encoder, w: World, w': World, t: nat)
    requires Inv(enc, w) && PcOf(w, t) == Done && w' == w.(pcs := w.pcs - {t}, lock := None)
    ensures Inv(enc, w') && Grows(w, w')
  {
    forall t': nat ensures PcOf(w', t') == Idle {
      if t' != t { assert PcOf(w', t') == PcOf(w, t'); }
    }
  }

  lemma {:induction false} BeginKeeps(enc: Encoder, w: World, w': World, t: nat, c: Consent, ok: bool)
    requires Inv(enc, w) && PcOf(w, t) == Begin(c) && BeginMove(w, w', t, c, ok)
    ensures Inv(enc, w') && Grows(w, w')
  {
    HolderStep(enc, w, w', t, PcOf(w', t));
  }

  lemma {:induction false} NotePositionKeeps(enc: Encoder, w: World, w': World, t: nat)
    requires Inv(enc, w) && PcOf(w, t).Synced?
    requires var pc := PcOf(w, t); w' == Goto(w, t, Positioned(pc.c, pc.prev, pc.existed, LogSize(w.consents)))
    ensures Inv(enc, w') && Grows(w, w')
  {
    HolderStep(enc, w, w', t, PcOf(w', t));
  }

  /** A step of the lock holder that touches nothing but the allowlist file. */
  lemma {:induction false} FileStepKeeps(enc: Encoder, w: World, w': World, t: nat, pc: Pc)
    requires Inv(enc, w) && w.lock == Some(t) && PcOf(w, t) != Idle && pc != Idle
    requires w' == Goto(w, t, pc).(allowlist := w'.allowlist) && PcSafe(enc, w', pc)
    ensures Inv(enc, w') && Grows(w, w')
  {
    HolderStep(enc, w, w', t, pc);
  }

  lemma {:induction false} WrittenFileParses(f: Option<string>, f': Option<string>, macs: set<Mac>)
    requires AllNormal(macs) && exists text :: IsRendering(text, macs) && WriteStep(f, f', text, true)
    ensures ParseAllowlist(f') == macs
  {
    var text :| IsRendering(text, macs) && WriteStep(f, f', text, true);
    AllowlistRoundTrip(text, macs);
  }

  lemma {:induction false} WriteDone(enc: Encoder, w: World, w': World, t: nat, pc: Pc) returns (next: Pc)
    requires pc.Positioned? && NewSafe(w, pc.c, pc.prev, pc.existed) && LogAgrees(w) && pc.pos == LogSize(w.consents)
    requires AllNormal(w.authorized) && WriteMove(w, w', t, pc, true)
    ensures next != Idle && w' == Goto(w, t, next).(allowlist := w'.allowlist) && PcSafe(enc, w', next)
  {
    next := FileWritten(pc.c, pc.prev, pc.existed, pc.pos);
    WrittenFileParses(w.allowlist, w'.allowlist, pc.prev + {pc.c.mac});
    assert NewSafe(w', pc.c, pc.prev, pc.existed);
  }

  lemma {:induction false} WriteFailed(enc: Encoder, w: World, w': World, t: nat, pc: Pc) returns (next: Pc)
    requires pc.Positioned? && PrevSafe(w, pc.prev, pc.existed) && LogAgrees(w) && pc.pos == LogSize(w.consents)
    requires w.committed <= Content(w.consents) && WriteMove(w, w', t, pc, false)
    ensures next != Idle && w' == Goto(w, t, next).(allowlist := w'.allowlist) && PcSafe(enc, w', next)
  {
    next := UndoLog(pc.prev, pc.existed, pc.pos);
    assert PrevSafe(w', pc.prev, pc.existed) && PositionSafe(w', pc.pos);
  }

  lemma {:induction false} WriteKeeps(enc: Encoder, w: World, w': World, t: nat, ok: bool)
    requires Inv(enc, w) && PcOf(w, t).Positioned? && WriteMove(w, w', t, PcOf(w, t), ok)
    ensures Inv(enc, w') && Grows(w, w')
  {
    if ok {
      var next := WriteDone(enc, w, w', t, PcOf(w, t));
      FileStepKeeps(enc, w, w', t, next);
    } else {
      var next := WriteFailed(enc, w, w', t, PcOf(w, t));
      FileStepKeeps(enc, w, w', t, next);
    }
  }

  lemma {:induction false} AppendedPosition(enc: Encoder, w: World, w': World, t: nat, c: Consent, next: Pc, undo: Pc,
                                            ok: bool)
    requires ConsentMove(enc, w, w', t, c, next, undo, ok) && LogAgrees(w) && w.committed <= Content(w.consents)
    ensures PositionSafe(w', LogSize(w.consents)) && w'.committed <= Content(w'.consents)
    ensures ok ==> Content(w'.consents) == Content(w'.consents)[..Size(LogSize(w.consents))] + LineOf(enc, c)
  {
    assert Content(w.consents) <= Content(w'.consents);
  }

  lemma {:induction false} NewConsentKeeps(enc: Encoder, w: World, w': World, t: nat, ok: bool)
    requires Inv(enc, w) && PcOf(w, t).FileWritten?
    requires var pc := PcOf(w, t);
             ConsentMove(enc, w, w', t, pc.c, Logged(pc.c, pc.prev, pc.existed, pc.pos),
                         UndoLog(pc.prev, pc.existed, pc.pos), ok)
    ensures Inv(enc, w') && Grows(w, w')
  {
    var pc := PcOf(w, t);
    AppendedPosition(enc, w, w', t, pc.c, Logged(pc.c, pc.prev, pc.existed, pc.pos),
                     UndoLog(pc.prev, pc.existed, pc.pos), ok);
    HolderStep(enc, w, w', t, PcOf(w', t));
  }

  lemma {:induction false} NewActivityKeeps(enc: Encoder, w: World, w': World, t: nat, c: Consent, prev: set<Mac>,
                                            existed: bool, pos: Option<nat>, ok: bool)
    requires EncodesLines(enc) && Inv(enc, w) && PcOf(w, t) == Logged(c, prev, existed, pos)
    requires ActivityMove(w, w', t, Recorded(c, prev), UndoLog(prev, existed, pos), ok)
    ensures Inv(enc, w') && Grows(w, w')
  {
    if ok {
      CommitLine(enc, w, c, pos);
      HolderStep(enc, w, w', t, Recorded(c, prev));
    } else {
      HolderStep(enc, w, w', t, UndoLog(prev, existed, pos));
    }
  }

  lemma {:induction false} MemoryKeeps(enc: Encoder, w: World, w': World, t: nat)
    requires Inv(enc, w) && PcOf(w, t).Recorded?
    requires w' == Goto(w, t, Done).(authorized := PcOf(w, t).prev + {PcOf(w, t).c.mac})
    ensures Inv(enc, w') && Grows(w, w')
  {
    HolderStep(enc, w, w', t, Done);
  }

  /** Cutting back to a safe position removes nothing committed. */
  lemma {:induction false} PrefixOfCut(w: World, w': World, t: nat, pos: Option<nat>, next: Pc, ok: bool)
    requires PositionSafe(w, pos) && w.committed <= Content(w.consents)
    requires TruncateMove(w, w', t, pos, next, ok)
    ensures w'.committed <= Content(w'.consents) && LogAgrees(w')
  {}

  lemma {:induction false} UndoLogKeeps(enc: Encoder, w: World, w': World, t: nat, ok: bool)
    requires Inv(enc, w) && PcOf(w, t).UndoLog?
    requires TruncateMove(w, w', t, PcOf(w, t).pos, UndoFile(PcOf(w, t).prev, PcOf(w, t).existed), ok)
    ensures Inv(enc, w') && Grows(w, w')
  {
    PrefixOfCut(w, w', t, PcOf(w, t).pos, UndoFile(PcOf(w, t).prev, PcOf(w, t).existed), ok);
    HolderStep(enc, w, w', t, PcOf(w', t));
  }

  lemma {:induction false} UndoFileKeeps(enc: Encoder, w: World, w': World, t: nat, prev: set<Mac>, existed: bool,
                                         ok: bool)
    requires Inv(enc, w) && PcOf(w, t) == UndoFile(prev, existed) && RestoreMove(w, w', t, prev, existed, ok)
    ensures Inv(enc, w') && Grows(w, w')
  {
    if ok && existed {
      var text :| IsRendering(text, prev) && WriteStep(w.allowlist, w'.allowlist, text, ok);
      AllowlistRoundTrip(text, prev);
    }
    HolderStep(enc, w, w', t, PcOf(w', t));
  }

  lemma {:induction false} UndoFirewallKeeps(enc: Encoder, w: World, w': World, t: nat, prev: set<Mac>, ok: bool)
    requires Inv(enc, w) && PcOf(w, t) == UndoFirewall(prev) && UnsyncMove(w, w', t, prev, ok)
    ensures Inv(enc, w') && Grows(w, w')
  {
    HolderStep(enc, w, w', t, Done);
  }

  lemma {:induction false} KnownConsentKeeps(enc: Encoder, w: World, w': World, t: nat, c: Consent, pos: Option<nat>,
                                             ok: bool)
    requires Inv(enc, w) && PcOf(w, t) == KnownPositioned(c, pos)
    requires ConsentMove(enc, w, w', t, c, KnownLogged(c, pos), KnownUndo(pos), ok)
    ensures Inv(enc, w') && Grows(w, w')
  {
    AppendedPosition(enc, w, w', t, c, KnownLogged(c, pos), KnownUndo(pos), ok);
    HolderStep(enc, w, w', t, PcOf(w', t));
  }

  lemma {:induction false} KnownActivityKeeps(enc: Encoder, w: World, w': World, t: nat, c: Consent, pos: Option<nat>,
                                              ok: bool)
    requires EncodesLines(enc) && Inv(enc, w) && PcOf(w, t) == KnownLogged(c, pos)
    requires ActivityMove(w, w', t, Done, KnownUndo(pos), ok)
    ensures Inv(enc, w') && Grows(w, w')
  {
    if ok { CommitLine(enc, w, c, pos); }
    HolderStep(enc, w, w', t, PcOf(w', t));
  }

  lemma {:induction false} KnownUndoKeeps(enc: Encoder, w: World, w': World, t: nat, pos: Option<nat>, ok: bool)
    requires Inv(enc, w) && PcOf(w, t) == KnownUndo(pos) && TruncateMove(w, w', t, pos, Done, ok)
    ensures Inv(enc, w') && Grows(w, w')
  {
    PrefixOfCut(w, w', t, pos, Done, ok);
    HolderStep(enc, w, w', t, Done);
  }

  lemma {:induction false} StepKeepsInv(enc: Encoder, w: World, w': World, t: nat, ok: bool)
    requires EncodesLines(enc) && Inv(enc, w) && Step(enc, w, w', t, ok)
    ensures Inv(enc, w') && Grows(w, w')
  {
    match PcOf(w, t)
    case Idle => IdleKeeps(enc, w, w', t, ok);
    case Begin(c) => BeginKeeps(enc, w, w', t, c, ok);
    case Synced(_, _, _) => NotePositionKeeps(enc, w, w', t);
    case Positioned(_, _, _, _) => WriteKeeps(enc, w, w', t, ok);
    case FileWritten(_, _, _, _) => NewConsentKeeps(enc, w, w', t, ok);
    case Logged(c, prev, existed, pos) => NewActivityKeeps(enc, w, w', t, c, prev, existed, pos, ok);
    case Recorded(_, _) => MemoryKeeps(enc, w, w', t);
    case UndoLog(_, _, _) => UndoLogKeeps(enc, w, w', t, ok);
    case UndoFile(prev, existed) => UndoFileKeeps(enc, w, w', t, prev, existed, ok);
    case UndoFirewall(prev) => UndoFirewallKeeps(enc, w, w', t, prev, ok);
    case KnownPositioned(c, pos) => KnownConsentKeeps(enc, w, w', t, c, pos, ok);
    case KnownLogged(c, pos) => KnownActivityKeeps(enc, w, w', t, c, pos, ok);
    case KnownUndo(pos) => KnownUndoKeeps(enc, w, w', t, pos, ok);
    case Done => DoneKeeps(enc, w, w', t);
  }

  // ----- The steps of one thread -------------------------------------------

  ghost predicate ThreadStep(enc: Encoder, w: World, w': World, t: nat) { exists ok: bool :: Step(enc, w, w', t, ok) }

  /** Some steps of one thread, one after the other. */
  ghost predicate IsPath(enc: Encoder, path: seq<World>, t: nat) {
    path != [] && forall i :: 0 <= i < |path| - 1 ==> ThreadStep(enc, path[i], path[i + 1], t)
  }

  function EndOf(path: seq<World>): World
    requires path != []
  {
    path[|path| - 1]
  }

  lemma {:induction false} Extend(enc: Encoder, path: seq<World>, w: World, t: nat, ok: bool)
    returns (longer: seq<World>)
    requires IsPath(enc, path, t) && Step(enc, EndOf(path), w, t, ok)
    ensures IsPath(enc, longer, t) && longer[0] == path[0] && EndOf(longer) == w
  {
    longer := path + [w];
    forall i | 0 <= i < |longer| - 1 ensures ThreadStep(enc, longer[i], longer[i + 1], t) {
      if i < |path| - 1 {
        assert ThreadStep(enc, path[i], path[i + 1], t);
      } else {
        assert longer[i] == EndOf(path) && longer[i + 1] == w;
      }
    }
  }

  lemma {:induction false} TakeLock(enc: Encoder, w: World, t: nat, c: Consent) returns (path: seq<World>)
    requires PcOf(w, t) == Idle && w.lock.None? && IsNormalMac(c.mac)
    ensures IsPath(enc, path, t) && path[0] == w && EndOf(path) == Goto(w, t, Begin(c)).(lock := Some(t))
  {
    path := Extend(enc, [w], Goto(w, t, Begin(c)).(lock := Some(t)), t, true);
  }

  lemma {:induction false} ReleaseLock(enc: Encoder, path: seq<World>, t: nat) returns (longer: seq<World>)
    requires IsPath(enc, path, t) && PcOf(EndOf(path), t) == Done
    ensures IsPath(enc, longer, t) && longer[0] == path[0]
    ensures var w := EndOf(path);
            EndOf(longer) == w.(pcs := w.pcs - {t}, lock := None) && PcOf(EndOf(longer), t) == Idle
  {
    longer := Extend(enc, path, EndOf(path).(pcs := EndOf(path).pcs - {t}, lock := None), t, true);
  }

  /** The step a new MAC starts with, once the firewall has been tried. */
  lemma {:induction false} EnterNew(enc: Encoder, path: seq<World>, t: nat, c: Consent, firewall: set<Mac>, ok: bool)
    returns (longer: seq<World>)
    requires IsPath(enc, path, t) && PcOf(EndOf(path), t) == Begin(c) && c.mac !in Lets(EndOf(path))
    requires var w := EndOf(path);
             if w.sync then SyncStep(w.firewall, firewall, w.authorized + {c.mac} + w.trusted, ok)
             else ok && firewall == w.firewall
    ensures IsPath(enc, longer, t) && longer[0] == path[0]
    ensures var w := EndOf(path);
            EndOf(longer) == Goto(w, t, if ok then Synced(c, w.authorized, w.allowlist.Some?) else Done)
                             .(firewall := firewall)
  {
    var w := EndOf(path);
    assert w.authorized + {c.mac} + w.trusted == Lets(w) + {c.mac};
    var w' := Goto(w, t, if ok then Synced(c, w.authorized, w.allowlist.Some?) else Done).(firewall := firewall);
    assert BeginMove(w, w', t, c, ok);
    longer := Extend(enc, path, w', t, ok);
  }

  // ----- Whole runs --------------------------------------------------------

  ghost predicate SomeStep(enc: Encoder, w: World, w': World) {
    exists t: nat, ok: bool :: Step(enc, w, w', t, ok)
  }

  ghost predicate IsRun(enc: Encoder, run: seq<World>) {
    && run != [] && Init(run[0])
    && forall i :: 0 <= i < |run| - 1 ==> SomeStep(enc, run[i], run[i + 1])
  }

  /** The steps of one thread from the start are a run. */
  lemma {:induction false} PathIsRun(enc: Encoder, path: seq<World>, t: nat)
    requires IsPath(enc, path, t) && Init(path[0])
    ensures IsRun(enc, path)
  {
    forall i | 0 <= i < |path| - 1 ensures SomeStep(enc, path[i], path[i + 1]) {
      assert ThreadStep(enc, path[i], path[i + 1], t);
    }
  }

  lemma {:induction false} RunKeepsInv(enc: Encoder, run: seq<World>, n: nat)
    requires EncodesLines(enc) && IsRun(enc, run) && n < |run|
    ensures Inv(enc, run[n])
  {
    if n > 0 {
      RunKeepsInv(enc, run, n - 1);
      assert SomeStep(enc, run[n - 1], run[n - 1 + 1]);
      var t: nat, ok: bool :| Step(enc, run[n - 1], run[n], t, ok);
      StepKeepsInv(enc, run[n - 1], run[n], t, ok);
    }
  }

  lemma {:induction false} RunStepGrows(enc: Encoder, run: seq<World>, n: nat)
    requires EncodesLines(enc) && IsRun(enc, run) && 0 < n < |run|
    ensures Grows(run[n - 1], run[n])
  {
    RunKeepsInv(enc, run, n - 1);
    assert SomeStep(enc, run[n - 1], run[n - 1 + 1]);
    var t: nat, ok: bool :| Step(enc, run[n - 1], run[n], t, ok);
    StepKeepsInv(enc, run[n - 1], run[n], t, ok);
  }

  ghost predicate AllGrow(run: seq<World>) {
    forall i :: 0 < i < |run| ==> Grows(run[i - 1], run[i])
  }

  lemma {:induction false} GrowsThroughout(run: seq<World>, m: nat, n: nat)
    requires AllGrow(run) && m <= n < |run|
    ensures Grows(run[m], run[n])
    decreases n - m
  {
    if m < n { GrowsThroughout(run, m, n - 1); }
  }

  /** Authorization and committed consents only grow. */
  lemma {:induction false} RunOnlyGrows(enc: Encoder, run: seq<World>, m: nat, n: nat)
    requires EncodesLines(enc) && IsRun(enc, run) && m <= n < |run|
    ensures run[m].authorized <= run[n].authorized && run[m].committed <= run[n].committed
    ensures run[m].trusted == run[n].trusted && run[m].startup == run[n].startup
    ensures run[m].sync == run[n].sync && run[m].cleanStart == run[n].cleanStart
  {
    forall i | 0 < i < |run| ensures Grows(run[i - 1], run[i]) { RunStepGrows(enc, run, i); }
    GrowsThroughout(run, m, n);
  }

  /**
   Portal safety: at every moment of every interleaving, whoever memory lets in
   the firewall lets in; every committed consent is still in the log, byte for
   byte; every MAC let in since start-up has a consent record; and whenever the
   lock is free and no undo step has failed, the allowlist file parses to the set
   in memory and the log is just what was committed.
   */
  lemma {:induction false} PortalSafety(enc: Encoder, run: seq<World>, m: nat, n: nat)
    requires EncodesLines(enc) && IsRun(enc, run) && m <= n < |run|
    ensures run[n].sync ==> run[n].authorized + run[n].trusted <= run[n].firewall
    ensures run[m].authorized <= run[n].authorized
    ensures run[m].committed <= run[n].committed <= Content(run[n].consents)
    ensures forall mac :: mac in run[n].authorized && mac !in run[0].authorized ==>
              HasRecord(enc, Content(run[n].consents), mac)
    ensures run[0].cleanStart && !run[n].undoFailed && run[n].lock.None? ==>
              forall mac :: mac in run[n].authorized && mac !in run[0].authorized ==>
                HasReadableRecord(enc, Content(run[n].consents), mac)
    ensures !run[n].undoFailed && run[n].lock.None? ==>
              ParseAllowlist(run[n].allowlist) == run[n].authorized && Content(run[n].consents) == run[n].committed
  {
    RunKeepsInv(enc, run, n);
    RunOnlyGrows(enc, run, m, n);
    RunOnlyGrows(enc, run, 0, n);
    forall mac | mac in run[n].authorized && mac !in run[0].authorized
      ensures HasRecord(enc, Content(run[n].consents), mac)
    {
      LogGrows(enc, run[n].committed, Content(run[n].consents), mac);
    }
  }
}
