/**
 JWT bearer tokens: the compact form, and the life of a token in the database
 (apps/apis/models.py, `GeneralServiceToken`).
 */
module ServiceTokens {
  import opened Bytes
  import opened Wrappers
  import opened PyText
  import Base64Url

  // ----- The compact form --------------------------------------------------

  /** A claim value; `Other` stands for any further JSON value by its text. */
  datatype Json = Number(int) | Text(string) | Numbers(seq<int>) | Other(string)

  type Claims = map<string, Json>

  /** JSON, HMAC and SHA-256, taken as given functions. */
  datatype Codec = Codec(dumps: Claims -> seq<Byte>, loads: seq<Byte> -> Option<Claims>, hmac: string -> seq<Byte>,
                         sha256: string -> string)

  /** JSON reads back what it wrote, and the hash tells texts apart. */
  ghost predicate Sound(k: Codec) {
    && (forall c :: k.loads(k.dumps(c)) == Some(c))
    && (forall a, b :: k.sha256(a) == k.sha256(b) ==> a == b)
  }

  const HEADER: string := "{\"alg\":\"HS256\",\"typ\":\"JWT\"}"

  function BytesOf(s: string): seq<Byte>
    requires forall i :: 0 <= i < |s| ==> s[i] as int < 128
  {
    seq(|s|, i requires 0 <= i < |s| => s[i] as int)
  }

  /** `_encode_jwt` */
  function EncodeJwt(k: Codec, payload: Claims): string {
    var header := Base64Url.Encode(BytesOf(HEADER));
    var body := Base64Url.Encode(k.dumps(payload));
    var signature := Base64Url.Encode(k.hmac(header + "." + body));
    header + "." + body + "." + signature
  }

  /** `_decode_jwt` */
  function DecodeJwt(k: Codec, token: string): Option<Claims> {
    var parts := Split(token, '.');
    if |parts| != 3 then None
    else
      var provided := Base64Url.Decode(parts[2]);
      if provided != Some(k.hmac(parts[0] + "." + parts[1])) then None
      else
        match Base64Url.Decode(parts[1])
        case None => None
        case Some(body) => k.loads(body)
  }

  /** Dot-free parts joined by dots split into just these parts. */
  lemma {:induction false} ThreeParts(a: string, b: string, c: string)
    requires '.' !in a && '.' !in b && '.' !in c
    ensures Split(a + "." + b + "." + c, '.') == [a, b, c]
  {
    var parts := [a, b, c];
    assert parts[1..] == [b, c] && parts[1..][1..] == [c];
    assert Join([b, c], '.') == b + ['.'] + c;
    assert Join(parts, '.') == a + ['.'] + (b + ['.'] + c) == a + "." + b + "." + c;
    SplitJoin(parts, '.');
  }

  lemma {:induction false} EncodedHasNoDot(b: seq<Byte>)
    ensures '.' !in Base64Url.Encode(b)
  {
    Base64Url.Unpadded(b);
  }

  /** A signed text splits into what was signed and the signature. */
  lemma {:induction false} SignedParts(header: string, body: string, mac: seq<Byte>)
    requires '.' !in header && '.' !in body
    ensures var signature := Base64Url.Encode(mac);
            && Split(header + "." + body + "." + signature, '.') == [header, body, signature]
            && Base64Url.Decode(signature) == Some(mac)
  {
    EncodedHasNoDot(mac);
    ThreeParts(header, body, Base64Url.Encode(mac));
    Base64Url.RoundTrip(mac);
  }

  /** The compact form splits into its three parts, the signature checks, and the claims come back. */
  lemma {:induction false} JwtRoundTrip(k: Codec, payload: Claims)
    requires Sound(k)
    ensures DecodeJwt(k, EncodeJwt(k, payload)) == Some(payload)
  {
    var header, body := Base64Url.Encode(BytesOf(HEADER)), Base64Url.Encode(k.dumps(payload));
    EncodedHasNoDot(BytesOf(HEADER));
    EncodedHasNoDot(k.dumps(payload));
    SignedParts(header, body, k.hmac(header + "." + body));
    Base64Url.RoundTrip(k.dumps(payload));
  }

  /** Different claims never share a token. */
  lemma {:induction false} JwtInjective(k: Codec, a: Claims, b: Claims)
    requires Sound(k) && EncodeJwt(k, a) == EncodeJwt(k, b)
    ensures a == b
  {
    JwtRoundTrip(k, a);
    JwtRoundTrip(k, b);
  }

  // ----- The table ---------------------------------------------------------

  datatype Status = Active | Retired | Revoked

  datatype Token = Token(hash: string, expiresAt: int, status: Status, retiredAt: Option<int>, revokedAt: Option<int>,
                         reason: string, claims: Claims)

  datatype Event = CreatedEvent(id: nat) | RetiredEvent(id: nat) | RevokedEvent(id: nat)

  /** The token rows, named by position, and the event log. */
  datatype Table = Table(tokens: seq<Token>, events: seq<Event>)

  datatype Verdict =
    | Granted(id: nat, payload: Claims)
    | TokenInvalid
    | TokenRevoked
    | TokenRetired
    | TokenExpired
    | SignatureInvalid

  /** The first row with the hash. */
  function FindHash(tokens: seq<Token>, hash: string): (r: Option<nat>)
    ensures r.Some? ==> r.value < |tokens| && tokens[r.value].hash == hash
    ensures r.None? ==> forall i :: 0 <= i < |tokens| ==> tokens[i].hash != hash
  {
    if tokens == [] then None
    else
      match FindHash(tokens[..|tokens| - 1], hash)
      case Some(i) => Some(i)
      case None => if tokens[|tokens| - 1].hash == hash then Some(|tokens| - 1) else None
  }

  function StandardClaims(sub: string, issuedAt: int, expiry: int, jti: string, groups: seq<int>): Claims {
    map["sub" := Text(sub), "iat" := Number(issuedAt), "exp" := Number(expiry), "jti" := Text(jti),
        "token_type" := Text("general_service"), "sg_ids" := Numbers(groups)]
  }

  /** `issue`, given the full claims: the caller's override the standard ones. A taken hash is an integrity error. */
  function Issue(k: Codec, t: Table, all: Claims, expiresAt: int, claims: Claims): Result<(Table, nat, string), ()> {
    var raw := EncodeJwt(k, all);
    if FindHash(t.tokens, k.sha256(raw)).Some? then Err(())
    else
      var id := |t.tokens|;
      Ok((Table(t.tokens + [Token(k.sha256(raw), expiresAt, Active, None, None, "", claims)],
                t.events + [CreatedEvent(id)]), id, raw))
  }

  predicate Overdue(token: Token, now: int) { token.status == Active && token.expiresAt <= now }

  function Retire(token: Token, now: int): Token { token.(status := Retired, retiredAt := Some(now)) }

  function OverdueIds(tokens: seq<Token>, now: int, n: nat): (ids: seq<nat>)
    requires n <= |tokens|
    ensures forall i :: i in ids <==> 0 <= i < n && Overdue(tokens[i], now)
  {
    if n == 0 then []
    else OverdueIds(tokens, now, n - 1) + if Overdue(tokens[n - 1], now) then [n - 1] else []
  }

  function RetiredEvents(ids: seq<nat>): seq<Event> { seq(|ids|, i requires 0 <= i < |ids| => RetiredEvent(ids[i])) }

  /** `retire_expired_tokens` */
  function RetireExpired(t: Table, now: int): Table {
    Table(seq(|t.tokens|, i requires 0 <= i < |t.tokens| =>
            if Overdue(t.tokens[i], now) then Retire(t.tokens[i], now) else t.tokens[i]),
          t.events + RetiredEvents(OverdueIds(t.tokens, now, |t.tokens|)))
  }

  /** The write `authenticate_jwt` makes when it finds the token expired. */
  function RetireOne(t: Table, id: nat, now: int): Table
    requires id < |t.tokens|
  {
    Table(t.tokens[id := Retire(t.tokens[id], now)], t.events + [RetiredEvent(id)])
  }

  /** `authenticate_jwt` */
  function Authenticate(k: Codec, t: Table, raw: string, now: int): (Table, Verdict) {
    match FindHash(t.tokens, k.sha256(raw))
    case None => (t, TokenInvalid)
    case Some(id) =>
      if t.tokens[id].status == Revoked then (t, TokenRevoked)
      else if t.tokens[id].status == Retired then (t, TokenRetired)
      else if t.tokens[id].expiresAt <= now then (RetireOne(t, id, now), TokenExpired)
      else
        match DecodeJwt(k, raw)
        case None => (t, SignatureInvalid)
        case Some(payload) => (t, Granted(id, payload))
  }

  /** `revoke` */
  function Revoke(t: Table, id: nat, now: int, reason: string): Table
    requires id < |t.tokens|
  {
    Table(t.tokens[id := t.tokens[id].(status := Revoked, revokedAt := Some(now), reason := Strip(reason))],
          t.events + [RevokedEvent(id)])
  }

  // ----- The same operations on a table in place ---------------------------

  class TokenStore {
    const codec: Codec
    var tokens: seq<Token>
    var events: seq<Event>

    constructor (codec: Codec)
      ensures this.codec == codec && tokens == [] && events == []
    {
      this.codec, tokens, events := codec, [], [];
    }

    function Contents(): Table reads this { Table(tokens, events) }

    method IssueToken(sub: string, now: int, expiresAt: int, expiry: int, jti: string, groups: seq<int>, claims: Claims)
      returns (r: Result<(nat, string), ()>)
      modifies this
      ensures var all := StandardClaims(sub, now, expiry, jti, groups) + claims;
              match Issue(codec, old(Contents()), all, expiresAt, claims)
              case Err(_) => r.Err? && unchanged(this)
              case Ok((t, id, raw)) => r == Ok((id, raw)) && Contents() == t
    {
      var all := StandardClaims(sub, now, expiry, jti, groups) + claims;
      var raw := EncodeJwt(codec, all);
      var hash := codec.sha256(raw);
      if FindHash(tokens, hash).Some? { return Err(()); }
      var id := |tokens|;
      tokens := tokens + [Token(hash, expiresAt, Active, None, None, "", claims)];
      events := events + [CreatedEvent(id)];
      r := Ok((id, raw));
    }

    method RetireExpiredTokens(now: int) returns (updated: nat)
      modifies this
      ensures Contents() == RetireExpired(old(Contents()), now)
      ensures updated == |OverdueIds(old(tokens), now, |old(tokens)|)|
    {
      var expired: seq<nat> := [];
      for i := 0 to |tokens|
        invariant expired == OverdueIds(tokens, now, i)
      {
        if Overdue(tokens[i], now) { expired := expired + [i]; }
      }
      var rows := tokens;
      for i := 0 to |tokens|
        invariant |rows| == |tokens|
        invariant forall j :: 0 <= j < i ==>
            rows[j] == if Overdue(tokens[j], now) then Retire(tokens[j], now) else tokens[j]
        invariant forall j :: i <= j < |tokens| ==> rows[j] == tokens[j]
      {
        if i in expired { rows := rows[i := Retire(rows[i], now)]; }
      }
      ghost var before := Contents();
      tokens := rows;
      assert tokens == RetireExpired(before, now).tokens;
      updated := |expired|;
      if updated > 0 { events := events + RetiredEvents(expired); }
    }

    method AuthenticateJwt(raw: string, now: int) returns (verdict: Verdict)
      modifies this
      ensures (Contents(), verdict) == Authenticate(codec, old(Contents()), raw, now)
    {
      var found := FindHash(tokens, codec.sha256(raw));
      if found.None? { return TokenInvalid; }
      var id := found.value;
      if tokens[id].status == Revoked { return TokenRevoked; }
      if tokens[id].status == Retired { return TokenRetired; }
      if tokens[id].expiresAt <= now {
        tokens := tokens[id := tokens[id].(status := Retired, retiredAt := Some(now))];
        events := events + [RetiredEvent(id)];
        return TokenExpired;
      }
      var payload := DecodeJwt(codec, raw);
      verdict := if payload.None? then SignatureInvalid else Granted(id, payload.value);
    }

    method RevokeToken(id: nat, now: int, reason: string)
      requires id < |tokens|
      modifies this
      ensures Contents() == Revoke(old(Contents()), id, now, reason)
    {
      tokens := tokens[id := tokens[id].(status := Revoked, revokedAt := Some(now), reason := Strip(reason))];
      events := events + [RevokedEvent(id)];
    }
  }
}
