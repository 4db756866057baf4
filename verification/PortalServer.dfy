/**
 The portal's subscribe transaction with its hand-written rollback
 (scripts/ap_portal_server.py, `PortalState`).
 */
module PortalServer {
  import opened Wrappers
  import opened PyText
  import opened PortalFiles
  import opened PortalRuns

  datatype Outcome =
    | Accepted(already: bool, trustedDevice: bool)
    | Rejected
    | FirewallFailed
    | FileFailed(undone: bool)

  /** `_append_jsonl` on the content of a log. */
  method AppendJsonl(log: Option<string>, line: string) returns (ok: bool, log': Option<string>)
    ensures AppendStep(log, log', line, ok)
  {
    var opened': bool, cut: nat := *, *;
    if !opened' { return false, log; }
    var before := Content(log);
    if cut == |line| { return true, Some(before + line); }
    log' := Some(before + line[..if cut < |line| then cut else |line|]);
    ok := false;
    assert before + line == log'.value + line[if cut < |line| then cut else |line|..];
  }

  // ----- Where a thread goes next ------------------------------------------

  /** The thread is about to append the consent. */
  predicate Logs(pc: Pc, c: Consent) { (pc.FileWritten? || pc.KnownPositioned?) && pc.c == c }

  function AfterConsent(pc: Pc): Pc
    requires pc.FileWritten? || pc.KnownPositioned?
  {
    match pc
    case FileWritten(c, prev, existed, pos) => Logged(c, prev, existed, pos)
    case KnownPositioned(c, pos) => KnownLogged(c, pos)
  }

  function AfterActivity(pc: Pc): Pc
    requires pc.FileWritten? || pc.KnownPositioned?
  {
    match pc
    case FileWritten(c, prev, _, _) => Recorded(c, prev)
    case KnownPositioned(_, _) => Done
  }

  function AfterFailure(pc: Pc): Pc
    requires pc.FileWritten? || pc.KnownPositioned?
  {
    match pc
    case FileWritten(_, prev, existed, pos) => UndoLog(prev, existed, pos)
    case KnownPositioned(_, pos) => KnownUndo(pos)
  }

  /** The thread is about to append the activity line, and goes on to `next`, or to `undo`. */
  predicate CommitsTo(pc: Pc, next: Pc, undo: Pc) {
    match pc
    case Logged(c, prev, existed, pos) => next == Recorded(c, prev) && undo == UndoLog(prev, existed, pos)
    case KnownLogged(_, pos) => next == Done && undo == KnownUndo(pos)
    case _ => false
  }

  class PortalState {
    const syncFirewall: bool
    const encode: Consent -> string
    var firewall: set<Mac>
    var allowlist: Option<string>
    var consents: Option<string>
    var activity: Option<string>
    var authorized: set<Mac>
    var trusted: set<Mac>
    var started: bool

    /** Whoever memory lets in, the firewall lets in. */
    ghost predicate Safe() reads this {
      AllNormal(authorized) && AllNormal(trusted) && (syncFirewall ==> authorized + trusted <= firewall)
    }

    /** File, memory and firewall tell the same story. */
    ghost predicate Consistent() reads this {
      ParseAllowlist(allowlist) == authorized && (syncFirewall ==> firewall == authorized + trusted)
    }

    function Line(c: Consent): string { LineOf(encode, c) }

    /** The world as this object has it; the rest of the world is threads, lock and history. */
    predicate Matches(w: World) reads this {
      && w.sync == syncFirewall && w.firewall == firewall && w.allowlist == allowlist && w.consents == consents
      && w.activity == activity && w.authorized == authorized && w.trusted == trusted
    }

    /** Thread `t` has taken the steps of the path and stands at `pc`. */
    ghost predicate Standing(path: seq<World>, t: nat, pc: Pc) reads this {
      IsPath(encode, path, t) && PcOf(EndOf(path), t) == pc && Matches(EndOf(path))
    }

    /** The world at start-up: no thread active, nothing committed but what the log holds. */
    function StartWorld(): World reads this {
      World(syncFirewall, firewall, allowlist, consents, activity, authorized, trusted, None, map[], authorized,
            AtLineStart(Content(consents), '\n'), Content(consents), false)
    }

    method SyncFirewall(macs: set<Mac>) returns (ok: bool)
      modifies this`firewall
      ensures SyncStep(old(firewall), firewall, macs, ok)
    {
      ok := *;
      if ok { firewall := macs; }
    }

    /** Start-up: memory is what the files say, and the firewall is brought in line; a failed sync aborts. */
    constructor (syncFirewall: bool, encode: Consent -> string, allowlist: Option<string>, trustedList: Option<string>,
                 consents: Option<string>, activity: Option<string>)
      ensures this.syncFirewall == syncFirewall && this.encode == encode
      ensures this.allowlist == allowlist && this.consents == consents && this.activity == activity
      ensures authorized == ParseAllowlist(allowlist) && trusted == ParseAllowlist(trustedList)
      ensures started ==> Safe() && Consistent() && Init(StartWorld())
    {
      this.syncFirewall, this.encode, this.allowlist := syncFirewall, encode, allowlist;
      this.consents, this.activity, this.firewall := consents, activity, {};
      new;
      authorized := ReadMacAllowlist(allowlist);
      trusted := ReadMacAllowlist(trustedList);
      started := true;
      if syncFirewall { started := SyncFirewall(authorized + trusted); }
    }

    // ----- Steps -----

    method WriteAuthorizedMacs(macs: set<Mac>) returns (ok: bool)
      requires AllNormal(macs)
      modifies this`allowlist
      ensures ok ==> allowlist.Some? && ParseAllowlist(allowlist) == macs
      ensures exists text :: IsRendering(text, macs) && WriteStep(old(allowlist), allowlist, text, ok)
    {
      var lines := Sorted(macs);
      var text := JoinLines(lines, '\n');
      assert IsRendering(text, macs);
      var opened': bool, cut: nat := *, *;
      if !opened' { return false; }
      allowlist := Some(text[..if cut < |text| then cut else |text|]);
      ok := cut == |text|;
      if ok { allowlist := Some(text); }
      AllowlistRoundTrip(text, macs);
    }

    method RestoreAuthorizedMacs(macs: set<Mac>, existed: bool) returns (ok: bool)
      requires AllNormal(macs)
      modifies this`allowlist
      ensures RestoreStep(old(allowlist), allowlist, macs, existed, ok)
      ensures ok ==> ParseAllowlist(allowlist) == if existed then macs else {}
    {
      if existed {
        ok := WriteAuthorizedMacs(macs);
      } else {
        ok := *;
        if ok { allowlist := None; }
      }
    }

    method AppendConsent(c: Consent) returns (ok: bool)
      modifies this`consents
      ensures AppendStep(old(consents), consents, Line(c), ok)
    {
      ok, consents := AppendJsonl(consents, Line(c));
    }

    method RecordActivity(line: string) returns (ok: bool)
      modifies this`activity
      ensures AppendStep(old(activity), activity, line, ok)
    {
      ok, activity := AppendJsonl(activity, line);
    }

    method RestoreConsentLog(position: Option<nat>) returns (ok: bool)
      requires consents.Some? && position.Some? ==> position.value <= |consents.value|
      modifies this`consents
      ensures TruncateStep(old(consents), consents, position, ok)
    {
      ok := *;
      if position.Some? && consents.None? { return false; }
      if ok { consents := if position.None? then None else Some(consents.value[..position.value]); }
    }

    // ----- Requests -----

    predicate IsAuthorized(mac: Mac) reads this { mac in authorized || mac in trusted }

    /** The consent line, as a step of the thread. */
    method LogLine(c: Consent, ghost path: seq<World>, ghost t: nat) returns (ok: bool, ghost path': seq<World>)
      requires path != [] && Logs(PcOf(EndOf(path), t), c) && Standing(path, t, PcOf(EndOf(path), t))
      modifies this`consents
      ensures AppendStep(old(consents), consents, Line(c), ok)
      ensures path' != [] && path'[0] == path[0]
      ensures var pc := PcOf(EndOf(path), t); Standing(path', t, if ok then AfterConsent(pc) else AfterFailure(pc))
    {
      ghost var pc := PcOf(EndOf(path), t);
      ok := AppendConsent(c);
      path' := Extend(encode, path, Goto(EndOf(path), t, if ok then AfterConsent(pc) else AfterFailure(pc))
                                    .(consents := consents), t, ok);
    }

    /** The activity line that commits a consent, as a step of the thread. */
    method CommitLine(activityLine: string, ghost path: seq<World>, ghost t: nat, ghost next: Pc, ghost undo: Pc)
      returns (ok: bool, ghost path': seq<World>)
      requires path != [] && CommitsTo(PcOf(EndOf(path), t), next, undo) && Standing(path, t, PcOf(EndOf(path), t))
      modifies this`activity
      ensures AppendStep(old(activity), activity, activityLine, ok)
      ensures Standing(path', t, if ok then next else undo) && path'[0] == path[0]
    {
      ghost var w := EndOf(path);
      ok := RecordActivity(activityLine);
      path' := Extend(encode, path, Goto(w, t, if ok then next else undo)
                                    .(activity := activity,
                                      committed := if ok then Content(consents) else w.committed), t, ok);
    }

    /** Consent and activity records. */
    method LogConsent(c: Consent, activityLine: string, ghost path: seq<World>, ghost t: nat)
      returns (ok: bool, ghost path': seq<World>)
      requires path != [] && Logs(PcOf(EndOf(path), t), c) && Standing(path, t, PcOf(EndOf(path), t))
      modifies this`consents, this`activity
      ensures ok ==> consents == Some(Content(old(consents)) + Line(c)) &&
                     activity == Some(Content(old(activity)) + activityLine)
      ensures Content(old(consents)) <= Content(consents) && (old(consents).Some? ==> consents.Some?)
      ensures path' != [] && path'[0] == path[0]
      ensures var pc := PcOf(EndOf(path), t); Standing(path', t, if ok then AfterActivity(pc) else AfterFailure(pc))
    {
      ghost var pc := PcOf(EndOf(path), t);
      ok, path' := LogLine(c, path, t);
      if ok { ok, path' := CommitLine(activityLine, path', t, AfterActivity(pc), AfterFailure(pc)); }
    }

    /** Truncating the consent log, as a step of the thread. */
    method UndoConsent(position: Option<nat>, ghost path: seq<World>, ghost t: nat, ghost next: Pc)
      returns (ok: bool, ghost path': seq<World>)
      requires consents.Some? && position.Some? ==> position.value <= |consents.value|
      requires path != [] && Standing(path, t, PcOf(EndOf(path), t))
      requires match PcOf(EndOf(path), t)
               case UndoLog(prev, existed, pos) => pos == position && next == UndoFile(prev, existed)
               case KnownUndo(pos) => pos == position && next == Done
               case _ => false
      modifies this`consents
      ensures TruncateStep(old(consents), consents, position, ok)
      ensures Standing(path', t, next) && path'[0] == path[0]
    {
      ghost var w := EndOf(path);
      ok := RestoreConsentLog(position);
      path' := Extend(encode, path, Goto(w, t, next).(consents := consents, undoFailed := w.undoFailed || !ok), t, ok);
    }

    /** Putting the allowlist back, as a step of the thread. */
    method UndoAllowlist(previous: set<Mac>, existed: bool, ghost path: seq<World>, ghost t: nat)
      returns (ok: bool, ghost path': seq<World>)
      requires AllNormal(previous) && Standing(path, t, UndoFile(previous, existed))
      modifies this`allowlist
      ensures ok ==> ParseAllowlist(allowlist) == if existed then previous else {}
      ensures Standing(path', t, UndoFirewall(previous)) && path'[0] == path[0]
    {
      ghost var w := EndOf(path);
      ok := RestoreAuthorizedMacs(previous, existed);
      path' := Extend(encode, path, Goto(w, t, UndoFirewall(previous))
                                    .(allowlist := allowlist, undoFailed := w.undoFailed || !ok), t, ok);
    }

    /** Putting the firewall back, as a step of the thread. */
    method UndoSync(previous: set<Mac>, ghost path: seq<World>, ghost t: nat)
      returns (ok: bool, ghost path': seq<World>)
      requires Standing(path, t, UndoFirewall(previous))
      modifies this`firewall
      ensures firewall == old(firewall) || (syncFirewall && firewall == previous + trusted)
      ensures ok && syncFirewall ==> firewall == previous + trusted
      ensures Standing(path', t, Done) && path'[0] == path[0]
    {
      ghost var w := EndOf(path);
      ok := true;
      if syncFirewall { ok := SyncFirewall(previous + trusted); }
      path' := Extend(encode, path, Goto(w, t, Done).(firewall := firewall, undoFailed := w.undoFailed || !ok), t, ok);
    }

    /** A MAC that is let in already only has its consent logged. */
    method SubscribeKnown(c: Consent, activityLine: string, ghost path: seq<World>, ghost t: nat)
      returns (r: Outcome, ghost path': seq<World>)
      requires IsAuthorized(c.mac) && Standing(path, t, Begin(c))
      modifies this`consents, this`activity
      ensures r.Accepted? || r.FileFailed?
      ensures r.Accepted? ==>
                && r == Accepted(true, c.mac in trusted)
                && consents == Some(Content(old(consents)) + Line(c))
                && activity == Some(Content(old(activity)) + activityLine)
      ensures r == FileFailed(true) ==> consents == old(consents)
      ensures Standing(path', t, Done) && path'[0] == path[0]
    {
      var position := LogSize(consents);
      path' := Extend(encode, path, Goto(EndOf(path), t, KnownPositioned(c, position)), t, true);
      var logged;
      logged, path' := LogConsent(c, activityLine, path', t);
      if logged { return Accepted(true, c.mac in trusted), path'; }
      ghost var grown := consents;
      var undone;
      undone, path' := UndoConsent(position, path', t, Done);
      if undone { TruncateUndoesAppends(old(consents), grown, consents); }
      r := FileFailed(undone);
    }

    /** The guarded part of the transaction: allowlist, consent, activity. */
    method CommitFiles(next: set<Mac>, c: Consent, activityLine: string, ghost path: seq<World>, ghost t: nat)
      returns (ok: bool, ghost path': seq<World>)
      requires AllNormal(next) && path != []
      requires var pc := PcOf(EndOf(path), t);
               pc.Positioned? && pc.c == c && next == pc.prev + {c.mac} && Standing(path, t, pc)
      modifies `allowlist, `consents, `activity
      ensures ok ==>
                && ParseAllowlist(allowlist) == next
                && consents == Some(Content(old(consents)) + Line(c))
                && activity == Some(Content(old(activity)) + activityLine)
      ensures Content(old(consents)) <= Content(consents) && (old(consents).Some? ==> consents.Some?)
      ensures path' != [] && path'[0] == path[0]
      ensures var pc := PcOf(EndOf(path), t);
              Standing(path', t, if ok then Recorded(c, pc.prev) else UndoLog(pc.prev, pc.existed, pc.pos))
    {
      ghost var pc := PcOf(EndOf(path), t);
      ok := WriteAuthorizedMacs(next);
      path' := Extend(encode, path, Goto(EndOf(path), t, if ok then FileWritten(c, pc.prev, pc.existed, pc.pos)
                                                         else UndoLog(pc.prev, pc.existed, pc.pos))
                                    .(allowlist := allowlist), t, ok);
      if ok { ok, path' := LogConsent(c, activityLine, path', t); }
    }

    /** The rollback of a new MAC: all three steps are tried, whatever fails. */
    method Undo(position: Option<nat>, previous: set<Mac>, existed: bool, ghost path: seq<World>, ghost t: nat)
      returns (r: Outcome, ghost path': seq<World>)
      requires consents.Some? && position.Some? ==> position.value <= |consents.value|
      requires AllNormal(previous) && Standing(path, t, UndoLog(previous, existed, position))
      modifies `consents, `allowlist, `firewall
      ensures r.FileFailed?
      ensures firewall == old(firewall) || (syncFirewall && firewall == previous + trusted)
      ensures r.undone ==>
                && TruncateStep(old(consents), consents, position, true)
                && ParseAllowlist(allowlist) == (if existed then previous else {})
                && (syncFirewall ==> firewall == previous + trusted)
      ensures Standing(path', t, Done) && path'[0] == path[0]
    {
      var truncated, restored, synced;
      truncated, path' := UndoConsent(position, path, t, UndoFile(previous, existed));
      restored, path' := UndoAllowlist(previous, existed, path', t);
      synced, path' := UndoSync(previous, path', t);
      r := FileFailed(truncated && restored && synced);
    }

    /** Letting a new MAC through the firewall, as a step of the thread. */
    method OpenFirewall(c: Consent, ghost path: seq<World>, ghost t: nat) returns (ok: bool, ghost path': seq<World>)
      requires !IsAuthorized(c.mac) && Standing(path, t, Begin(c))
      modifies this`firewall
      ensures firewall == if ok && syncFirewall then authorized + {c.mac} + trusted else old(firewall)
      ensures Standing(path', t, if ok then Synced(c, authorized, allowlist.Some?) else Done) && path'[0] == path[0]
    {
      ok := true;
      if syncFirewall { ok := SyncFirewall(authorized + {c.mac} + trusted); }
      path' := EnterNew(encode, path, t, c, firewall, ok);
    }

    /** Memory comes last. */
    method CommitMemory(c: Consent, previous: set<Mac>, ghost path: seq<World>, ghost t: nat)
      returns (ghost path': seq<World>)
      requires Standing(path, t, Recorded(c, previous))
      modifies this`authorized
      ensures authorized == previous + {c.mac}
      ensures Standing(path', t, Done) && path'[0] == path[0]
    {
      authorized := previous + {c.mac};
      path' := Extend(encode, path, Goto(EndOf(path), t, Done).(authorized := authorized), t, true);
    }

    /** The rest once the firewall lets the new MAC through: files, then memory, or the rollback. */
    method CommitNew(c: Consent, activityLine: string, ghost path: seq<World>, ghost t: nat)
      returns (r: Outcome, ghost path': seq<World>)
      requires AllNormal(authorized) && IsNormalMac(c.mac)
      requires Standing(path, t, Synced(c, authorized, allowlist.Some?))
      modifies `firewall, `allowlist, `consents, `activity, `authorized
      ensures r.Accepted? || r.FileFailed?
      ensures r.Accepted? ==>
                && r == Accepted(false, false)
                && consents == Some(Content(old(consents)) + Line(c))
                && activity == Some(Content(old(activity)) + activityLine)
                && authorized == old(authorized) + {c.mac}
                && ParseAllowlist(allowlist) == authorized && firewall == old(firewall)
      ensures r.FileFailed? ==>
                && authorized == old(authorized)
                && (firewall == old(firewall) || (syncFirewall && firewall == authorized + trusted))
      ensures r == FileFailed(true) ==>
                && consents == old(consents)
                && ParseAllowlist(allowlist) == (if old(allowlist).Some? then authorized else {})
                && (syncFirewall ==> firewall == authorized + trusted)
      ensures Standing(path', t, Done) && path'[0] == path[0]
    {
      var previous, existed, position := authorized, allowlist.Some?, LogSize(consents);
      path' := Extend(encode, path, Goto(EndOf(path), t, Positioned(c, previous, existed, position)), t, true);
      var committed;
      committed, path' := CommitFiles(previous + {c.mac}, c, activityLine, path', t);
      if committed {
        path' := CommitMemory(c, previous, path', t);
        return Accepted(false, false), path';
      }
      ghost var grown := consents;
      r, path' := Undo(position, previous, existed, path', t);
      if r.undone { TruncateUndoesAppends(old(consents), grown, consents); }
    }

    /** A new MAC: firewall first, then files, then memory. */
    method SubscribeNew(c: Consent, activityLine: string, ghost path: seq<World>, ghost t: nat)
      returns (r: Outcome, ghost path': seq<World>)
      requires Safe() && IsNormalMac(c.mac) && !IsAuthorized(c.mac) && Standing(path, t, Begin(c))
      modifies `firewall, `allowlist, `consents, `activity, `authorized
      ensures Safe() && !r.Rejected?
      ensures r.FirewallFailed? ==> unchanged(this)
      ensures r.Accepted? ==>
                && r == Accepted(false, false)
                && consents == Some(Content(old(consents)) + Line(c))
                && activity == Some(Content(old(activity)) + activityLine)
                && authorized == old(authorized) + {c.mac}
                && ParseAllowlist(allowlist) == authorized
                && firewall == (if syncFirewall then authorized + trusted else old(firewall))
      ensures !r.Accepted? ==> authorized == old(authorized)
      ensures r == FileFailed(true) ==>
                && consents == old(consents)
                && ParseAllowlist(allowlist) == (if old(allowlist).Some? then authorized else {})
                && firewall == (if syncFirewall then authorized + trusted else old(firewall))
      ensures Standing(path', t, Done) && path'[0] == path[0]
    {
      var synced;
      synced, path' := OpenFirewall(c, path, t);
      if !synced { return FirewallFailed, path'; }
      r, path' := CommitNew(c, activityLine, path', t);
    }

    /**
     `subscribe`. For every pattern of failures, a new MAC is committed to
     firewall, allowlist, consent log and memory together, or to memory not at
     all; and when the undo steps succeed everything is as it was. Whatever thread
     runs it, it takes a path of that thread's steps, from lock to unlock.
     */
    method Subscribe(acceptTerms: bool, emailValid: bool, mac: Option<Mac>, c: Consent, activityLine: string,
                     ghost w: World, ghost t: nat)
      returns (r: Outcome, ghost path: seq<World>)
      requires Safe()
      requires mac.Some? ==> IsNormalMac(mac.value) && c.mac == mac.value
      requires Matches(w) && PcOf(w, t) == Idle && w.lock.None?
      modifies this
      ensures Safe() && trusted == old(trusted) && started == old(started)
      ensures r.Rejected? <==> !acceptTerms || !emailValid || mac.None?
      ensures r.Rejected? || r.FirewallFailed? ==> unchanged(`firewall, `allowlist, `consents, `authorized)
      ensures r.Accepted? ==>
                && r.already == old(IsAuthorized(mac.value)) && r.trustedDevice == (mac.value in trusted)
                && IsAuthorized(mac.value)
                && consents == Some(Content(old(consents)) + Line(c))
                && activity == Some(Content(old(activity)) + activityLine)
      ensures r.Accepted? && r.already ==> unchanged(`firewall, `allowlist, `authorized)
      ensures r.Accepted? && !r.already ==>
                && authorized == old(authorized) + {mac.value}
                && ParseAllowlist(allowlist) == authorized
                && firewall == (if syncFirewall then authorized + trusted else old(firewall))
      ensures !r.Accepted? ==> authorized == old(authorized)
      ensures r == FileFailed(true) ==> consents == old(consents)
      ensures r == FileFailed(true) && old(Consistent()) ==>
                Consistent() && ParseAllowlist(allowlist) == ParseAllowlist(old(allowlist)) && firewall == old(firewall)
      ensures old(Consistent()) && r != FileFailed(false) ==> Consistent()
      ensures Standing(path, t, Idle) && path[0] == w && EndOf(path).lock.None?
    {
      path := [w];
      if !acceptTerms || !emailValid { return Rejected, path; }
      if mac.None? {
        var noted := RecordActivity(activityLine);
        path := Extend(encode, path, w.(activity := activity), t, noted);
        return Rejected, path;
      }
      path := TakeLock(encode, w, t, c);
      if IsAuthorized(mac.value) {
        r, path := SubscribeKnown(c, activityLine, path, t);
      } else {
        r, path := SubscribeNew(c, activityLine, path, t);
      }
      path := ReleaseLock(encode, path, t);
    }
  }
}
