/**
 Whole lives of tokens: who is let in, until when, and what the event log says
 (apps/apis/models.py, `GeneralServiceToken`).
 */
module TokenRuns {
  import opened Wrappers
  import opened ServiceTokens

  datatype Op =
    | IssueOp(all: Claims, expiresAt: int, claims: Claims)
    | RetireOp
    | AuthenticateOp(raw: string)
    | RevokeOp(id: nat, reason: string)

  /** One call and the time it is made at. */
  datatype Call = Call(op: Op, now: int)

  function Apply(k: Codec, t: Table, c: Call): Table {
    match c.op
    case IssueOp(all, expiresAt, claims) =>
      (match Issue(k, t, all, expiresAt, claims) case Err(_) => t case Ok(r) => r.0)
    case RetireOp => RetireExpired(t, c.now)
    case AuthenticateOp(raw) => Authenticate(k, t, raw, c.now).0
    case RevokeOp(id, reason) => if id < |t.tokens| then Revoke(t, id, c.now, reason) else t
  }

  function Run(k: Codec, t: Table, calls: seq<Call>): Table {
    if calls == [] then t else Apply(k, Run(k, t, calls[..|calls| - 1]), calls[|calls| - 1])
  }

  // ----- The event log -----------------------------------------------------

  function CountRetired(events: seq<Event>, id: nat): nat {
    if events == [] then 0
    else CountRetired(events[..|events| - 1], id) + if events[|events| - 1] == RetiredEvent(id) then 1 else 0
  }

  lemma {:induction false} CountConcat(a: seq<Event>, b: seq<Event>, id: nat)
    ensures CountRetired(a + b, id) == CountRetired(a, id) + CountRetired(b, id)
    decreases |b|
  {
    if b == [] {
      assert a + b == a;
    } else {
      assert (a + b)[..|a + b| - 1] == a + b[..|b| - 1];
      CountConcat(a, b[..|b| - 1], id);
    }
  }

  lemma {:induction false} CountOverdue(tokens: seq<Token>, now: int, n: nat, id: nat)
    requires n <= |tokens|
    ensures CountRetired(RetiredEvents(OverdueIds(tokens, now, n)), id) ==
            if id < n && Overdue(tokens[id], now) then 1 else 0
  {
    if n > 0 {
      CountOverdue(tokens, now, n - 1, id);
      var before := OverdueIds(tokens, now, n - 1);
      if Overdue(tokens[n - 1], now) {
        assert RetiredEvents(before + [n - 1])[..|before|] == RetiredEvents(before);
      } else {
        assert before + [] == before;
      }
    }
  }

  lemma {:induction false} CountOne(events: seq<Event>, e: Event, id: nat)
    ensures CountRetired(events + [e], id) == CountRetired(events, id) + if e == RetiredEvent(id) then 1 else 0
  {
    assert (events + [e])[..|events|] == events;
  }

  /** The bookkeeping of one token. */
  predicate RowOk(t: Table, id: nat)
    requires id < |t.tokens|
  {
    var row := t.tokens[id];
    && CountRetired(t.events, id) == (if row.retiredAt.Some? then 1 else 0)
    && (row.status == Retired ==> row.retiredAt.Some?) && (row.status == Active ==> row.retiredAt.None?)
    && (row.status == Revoked <==> row.revokedAt.Some?)
  }

  ghost predicate AuditOk(t: Table) {
    && (forall i, j :: 0 <= i < j < |t.tokens| ==> t.tokens[i].hash != t.tokens[j].hash)
    && (forall id: nat :: id < |t.tokens| ==> RowOk(t, id))
    && (forall id: nat :: id >= |t.tokens| ==> CountRetired(t.events, id) == 0)
  }

  lemma {:induction false} IssueKeepsAudit(k: Codec, t: Table, all: Claims, expiresAt: int, claims: Claims)
    requires AuditOk(t)
    ensures match Issue(k, t, all, expiresAt, claims) case Err(_) => true case Ok(r) => AuditOk(r.0)
  {
    forall id: nat { CountOne(t.events, CreatedEvent(|t.tokens|), id); }
    var r := Issue(k, t, all, expiresAt, claims);
    if r.Ok? {
      forall id: nat | id < |t.tokens| ensures RowOk(r.value.0, id) { assert RowOk(t, id); }
    }
  }

  lemma {:induction false} RetireKeepsAudit(t: Table, now: int)
    requires AuditOk(t)
    ensures AuditOk(RetireExpired(t, now))
  {
    var t' := RetireExpired(t, now);
    var added := RetiredEvents(OverdueIds(t.tokens, now, |t.tokens|));
    forall id: nat
      ensures CountRetired(t'.events, id) ==
              CountRetired(t.events, id) + if id < |t.tokens| && Overdue(t.tokens[id], now) then 1 else 0
    {
      CountConcat(t.events, added, id);
      CountOverdue(t.tokens, now, |t.tokens|, id);
    }
    forall id: nat | id < |t.tokens| ensures RowOk(t', id) { assert RowOk(t, id); }
  }

  lemma {:induction false} TouchKeepsAudit(t: Table, t': Table, at: nat, e: Event)
    requires AuditOk(t) && at < |t.tokens|
    requires |t'.tokens| == |t.tokens| && t'.tokens[at].hash == t.tokens[at].hash
    requires forall i :: 0 <= i < |t.tokens| && i != at ==> t'.tokens[i] == t.tokens[i]
    requires t'.events == t.events + [e] && (e == RetiredEvent(at) || e == RevokedEvent(at))
    requires RowOk(t', at)
    ensures AuditOk(t')
  {
    forall id: nat { CountOne(t.events, e, id); }
    forall id: nat | id < |t.tokens| ensures RowOk(t', id) { assert RowOk(t, id); }
  }

  lemma {:induction false} ApplyKeepsAudit(k: Codec, t: Table, c: Call)
    requires AuditOk(t)
    ensures AuditOk(Apply(k, t, c))
  {
    match c.op
    case IssueOp(all, expiresAt, claims) => IssueKeepsAudit(k, t, all, expiresAt, claims);
    case RetireOp => RetireKeepsAudit(t, c.now);
    case AuthenticateOp(raw) =>
      var found := FindHash(t.tokens, k.sha256(raw));
      if found.Some? && Apply(k, t, c) != t {
        assert RowOk(t, found.value);
        CountOne(t.events, RetiredEvent(found.value), found.value);
        TouchKeepsAudit(t, RetireOne(t, found.value, c.now), found.value, RetiredEvent(found.value));
      }
    case RevokeOp(id, reason) =>
      if id < |t.tokens| {
        assert RowOk(t, id);
        CountOne(t.events, RevokedEvent(id), id);
        TouchKeepsAudit(t, Revoke(t, id, c.now, reason), id, RevokedEvent(id));
      }
  }

  lemma {:induction false} RunKeepsAuditFrom(k: Codec, t: Table, calls: seq<Call>)
    requires AuditOk(t)
    ensures AuditOk(Run(k, t, calls))
  {
    if calls != [] {
      RunKeepsAuditFrom(k, t, calls[..|calls| - 1]);
      ApplyKeepsAudit(k, Run(k, t, calls[..|calls| - 1]), calls[|calls| - 1]);
    }
  }

  /** Over every serial run a token has exactly one RETIRED event if it has a retirement time, and none otherwise. */
  lemma {:induction false} RunKeepsAudit(k: Codec, calls: seq<Call>)
    ensures AuditOk(Run(k, Table([], []), calls))
  {
    RunKeepsAuditFrom(k, Table([], []), calls);
  }

  // ----- An authentication cut in two --------------------------------------

  /**
   Serial calls are needed: the write an authentication makes on finding the token
   expired does not look at the row again. It keeps the books exactly when the row
   is still active.
   */
  lemma {:induction false} RetireOneKeepsAudit(t: Table, id: nat, now: int)
    requires AuditOk(t) && id < |t.tokens|
    ensures AuditOk(RetireOne(t, id, now)) <==> t.tokens[id].status == Active
  {
    assert RowOk(t, id);
    CountOne(t.events, RetiredEvent(id), id);
    var t' := RetireOne(t, id, now);
    if t.tokens[id].status == Active {
      TouchKeepsAudit(t, t', id, RetiredEvent(id));
    } else {
      assert !RowOk(t', id);
    }
  }

  /** The call takes an active row out of service. */
  predicate Ends(k: Codec, row: Token, id: nat, c: Call) {
    match c.op
    case IssueOp(_, _, _) => false
    case RetireOp => row.expiresAt <= c.now
    case AuthenticateOp(raw) => k.sha256(raw) == row.hash && row.expiresAt <= c.now
    case RevokeOp(i, _) => i == id
  }

  lemma {:induction false} ActiveThroughCall(k: Codec, t: Table, c: Call, id: nat)
    requires AuditOk(t) && id < |t.tokens|
    ensures var row, t' := t.tokens[id], Apply(k, t, c);
            && id < |t'.tokens| && t'.tokens[id].hash == row.hash && t'.tokens[id].expiresAt == row.expiresAt
            && (t'.tokens[id].status == Active <==> row.status == Active && !Ends(k, row, id, c))
  {
    match c.op
    case IssueOp(_, _, _) =>
    case RetireOp =>
    case AuthenticateOp(raw) =>
    case RevokeOp(_, _) =>
  }

  /** None of the calls does. */
  predicate NoneEnds(k: Codec, row: Token, id: nat, calls: seq<Call>) {
    forall i :: 0 <= i < |calls| ==> !Ends(k, row, id, calls[i])
  }

  lemma {:induction false} NoneEndsPrefix(k: Codec, row: Token, row': Token, id: nat, calls: seq<Call>)
    requires calls != [] && row'.hash == row.hash && row'.expiresAt == row.expiresAt
    ensures NoneEnds(k, row, id, calls) <==>
            NoneEnds(k, row, id, calls[..|calls| - 1]) && !Ends(k, row', id, calls[|calls| - 1])
  {
    assert Ends(k, row', id, calls[|calls| - 1]) == Ends(k, row, id, calls[|calls| - 1]);
    assert forall i :: 0 <= i < |calls| - 1 ==> calls[..|calls| - 1][i] == calls[i];
  }

  lemma {:induction false} ActiveThroughRun(k: Codec, t: Table, calls: seq<Call>, id: nat)
    requires AuditOk(t) && id < |t.tokens|
    ensures var row, t' := t.tokens[id], Run(k, t, calls);
            && id < |t'.tokens| && t'.tokens[id].hash == row.hash && t'.tokens[id].expiresAt == row.expiresAt
            && (t'.tokens[id].status == Active <==> row.status == Active && NoneEnds(k, row, id, calls))
  {
    if calls != [] {
      var n := |calls| - 1;
      var mid := Run(k, t, calls[..n]);
      ActiveThroughRun(k, t, calls[..n], id);
      RunKeepsAuditFrom(k, t, calls[..n]);
      ActiveThroughCall(k, mid, calls[n], id);
      NoneEndsPrefix(k, t.tokens[id], mid.tokens[id], id, calls);
    }
  }

  /**
   Calls that run between the check and the write of an authentication which found
   the token expired: the books are kept if and only if none of them retired or
   revoked the token.
   */
  lemma {:induction false} CheckThenWrite(k: Codec, t: Table, calls: seq<Call>, id: nat, now: int)
    requires AuditOk(t) && id < |t.tokens| && Overdue(t.tokens[id], now)
    ensures id < |Run(k, t, calls).tokens|
    ensures AuditOk(RetireOne(Run(k, t, calls), id, now)) <==> NoneEnds(k, t.tokens[id], id, calls)
  {
    ActiveThroughRun(k, t, calls, id);
    RunKeepsAuditFrom(k, t, calls);
    RetireOneKeepsAudit(Run(k, t, calls), id, now);
  }

  /** A sweep in between gives the token a second RETIRED event. */
  lemma {:induction false} RaceRetiresTwice(t: Table, id: nat, now: int)
    requires AuditOk(t) && id < |t.tokens| && Overdue(t.tokens[id], now)
    ensures CountRetired(RetireOne(RetireExpired(t, now), id, now).events, id) == 2
    ensures !AuditOk(RetireOne(RetireExpired(t, now), id, now))
  {
    RetireKeepsAudit(t, now);
    assert RowOk(RetireExpired(t, now), id);
    CountOne(RetireExpired(t, now).events, RetiredEvent(id), id);
    RetireOneKeepsAudit(RetireExpired(t, now), id, now);
  }

  /** A revocation in between is overwritten: the token ends as retired, with a revocation time. */
  lemma {:induction false} RaceHidesRevocation(k: Codec, t: Table, id: nat, now: int, reason: string)
    requires AuditOk(t) && id < |t.tokens| && Overdue(t.tokens[id], now)
    ensures var t' := RetireOne(Revoke(t, id, now, reason), id, now);
            t'.tokens[id].status == Retired && t'.tokens[id].revokedAt == Some(now) && !AuditOk(t')
  {
    var revoke := Call(RevokeOp(id, reason), now);
    assert [revoke][..0] == [] && Run(k, t, [revoke]) == Revoke(t, id, now, reason);
    assert Ends(k, t.tokens[id], id, [revoke][0]);
    CheckThenWrite(k, t, [revoke], id, now);
  }

  // ----- Who is let in -----------------------------------------------------

  predicate RevokedIn(calls: seq<Call>, id: nat) {
    exists i :: 0 <= i < |calls| && calls[i].op.RevokeOp? && calls[i].op.id == id
  }

  lemma {:induction false} RevokedInPrefix(calls: seq<Call>, id: nat)
    requires calls != []
    ensures RevokedIn(calls, id) <==>
            RevokedIn(calls[..|calls| - 1], id) ||
            (calls[|calls| - 1].op.RevokeOp? && calls[|calls| - 1].op.id == id)
  {
    var n := |calls| - 1;
    if RevokedIn(calls[..n], id) {
      var i :| 0 <= i < n && calls[..n][i].op.RevokeOp? && calls[..n][i].op.id == id;
      assert calls[i].op.RevokeOp?;
    }
    if RevokedIn(calls, id) {
      var i :| 0 <= i < |calls| && calls[i].op.RevokeOp? && calls[i].op.id == id;
      if i < n { assert calls[..n][i] == calls[i]; }
    }
  }

  /** What one call does to one row: its hash and expiry stay, revocation sticks, retirement waits for the expiry. */
  ghost predicate RowKept(was: Token, row: Token, revoked: bool, now: int) {
    && row.hash == was.hash && row.expiresAt == was.expiresAt
    && (row.status == Revoked <==> was.status == Revoked || revoked)
    && (row.status == Retired ==> was.status == Retired || was.expiresAt <= now)
  }

  lemma {:induction false} RowThroughCall(k: Codec, t: Table, c: Call, id: nat, now: int)
    requires id < |t.tokens| && c.now <= now
    ensures var t' := Apply(k, t, c);
            id < |t'.tokens| && RowKept(t.tokens[id], t'.tokens[id], c.op.RevokeOp? && c.op.id == id, now)
  {
    match c.op
    case IssueOp(_, _, _) =>
    case RetireOp =>
    case AuthenticateOp(_) =>
    case RevokeOp(_, _) =>
  }

  /** And any run. */
  lemma {:induction false} RowThroughRun(k: Codec, t: Table, calls: seq<Call>, id: nat, now: int)
    requires id < |t.tokens| && t.tokens[id].status == Active
    requires forall i :: 0 <= i < |calls| ==> calls[i].now <= now
    ensures var t' := Run(k, t, calls);
            && id < |t'.tokens|
            && t'.tokens[id].hash == t.tokens[id].hash && t'.tokens[id].expiresAt == t.tokens[id].expiresAt
            && (t'.tokens[id].status == Revoked <==> RevokedIn(calls, id))
            && (t'.tokens[id].status == Retired ==> t.tokens[id].expiresAt <= now)
  {
    if calls != [] {
      var n := |calls| - 1;
      RowThroughRun(k, t, calls[..n], id, now);
      RevokedInPrefix(calls, id);
      RowThroughCall(k, Run(k, t, calls[..n]), calls[n], id, now);
    }
  }

  /** Hashes are distinct, so a token is found by its own. */
  lemma {:induction false} FoundByHash(t: Table, id: nat)
    requires AuditOk(t) && id < |t.tokens|
    ensures FindHash(t.tokens, t.tokens[id].hash) == Some(id)
  {
    var found := FindHash(t.tokens, t.tokens[id].hash);
    assert found.Some? && t.tokens[found.value].hash == t.tokens[id].hash;
  }

  /** What is answered to a token whose row is `id`. */
  lemma {:induction false} VerdictOnRow(k: Codec, t: Table, id: nat, raw: string, now: int)
    requires AuditOk(t) && id < |t.tokens| && t.tokens[id].hash == k.sha256(raw) && DecodeJwt(k, raw).Some?
    ensures Authenticate(k, t, raw, now).1 ==
            match t.tokens[id].status
            case Revoked => TokenRevoked
            case Retired => TokenRetired
            case Active =>
              if t.tokens[id].expiresAt <= now then TokenExpired else Granted(id, DecodeJwt(k, raw).value)
  {
    FoundByHash(t, id);
  }

  /**
   An issued token is let in, with exactly the claims it was issued with, if and
   only if it has not expired and has not been revoked; and every refusal names
   its reason.
   */
  lemma {:induction false} LetInUntilExpiryOrRevocation(k: Codec, t: Table, all: Claims, expiresAt: int, claims: Claims,
                                                        calls: seq<Call>, now: int)
    requires Sound(k) && AuditOk(t) && Issue(k, t, all, expiresAt, claims).Ok?
    requires forall i :: 0 <= i < |calls| ==> calls[i].now <= now
    ensures var (t1, id, raw) := Issue(k, t, all, expiresAt, claims).value;
            var verdict := Authenticate(k, Run(k, t1, calls), raw, now).1;
            && (verdict == Granted(id, all) <==> now < expiresAt && !RevokedIn(calls, id))
            && (RevokedIn(calls, id) ==> verdict == TokenRevoked)
            && (!RevokedIn(calls, id) && expiresAt <= now ==> verdict in {TokenRetired, TokenExpired})
  {
    var (t1, id, raw) := Issue(k, t, all, expiresAt, claims).value;
    IssueKeepsAudit(k, t, all, expiresAt, claims);
    RowThroughRun(k, t1, calls, id, now);
    RunKeepsAuditFrom(k, t1, calls);
    JwtRoundTrip(k, all);
    VerdictOnRow(k, Run(k, t1, calls), id, raw, now);
  }

  /** Once refused, a token is never let in again, whatever happens later. */
  lemma {:induction false} NeverAgain(k: Codec, t: Table, all: Claims, expiresAt: int, claims: Claims, calls: seq<Call>,
                                      now: int, more: seq<Call>, later: int)
    requires Sound(k) && AuditOk(t) && Issue(k, t, all, expiresAt, claims).Ok? && now <= later
    requires forall i :: 0 <= i < |calls| ==> calls[i].now <= now
    requires forall i :: 0 <= i < |more| ==> more[i].now <= later
    ensures var (t1, id, raw) := Issue(k, t, all, expiresAt, claims).value;
            !Authenticate(k, Run(k, t1, calls), raw, now).1.Granted? ==>
            !Authenticate(k, Run(k, t1, calls + more), raw, later).1.Granted?
  {
    var (t1, id, raw) := Issue(k, t, all, expiresAt, claims).value;
    LetInUntilExpiryOrRevocation(k, t, all, expiresAt, claims, calls, now);
    LetInUntilExpiryOrRevocation(k, t, all, expiresAt, claims, calls + more, later);
    if RevokedIn(calls, id) {
      var i :| 0 <= i < |calls| && calls[i].op.RevokeOp? && calls[i].op.id == id;
      assert (calls + more)[i] == calls[i];
    }
  }
}
