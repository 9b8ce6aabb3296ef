/** The node's check of client tokens. Message authentication, base64url, JSON and SHA-256 are
    parameters; the laws they must obey are stated where a theorem needs them. */
module Auth {
  import opened Text
  import opened Utf8
  import opened RoutePolicies

  const TOKEN_PREFIX := "xat"
  const TOKEN_VERSION := "v1"

  datatype RouteClaims = RouteClaims(targetAddr: string, protocol: string)

  datatype Claims = Claims(
    nodeId: nat,
    userId: nat,
    deviceId: string,
    gameId: nat,
    gameKey: Option<string>,
    regionId: Option<nat>,
    business: Option<string>,
    intentId: Option<string>,
    routePolicyHash: Option<string>,
    routePolicyId: Option<string>,
    route: Option<RouteClaims>,
    expiresAt: nat,
    issuedAt: Option<nat>,
    nonce: Option<string>)

  /** mac(secret, text), base64url both ways, the claims decoder, and the policy hash, which has no
      value when the policy cannot be encoded. */
  datatype Crypto = Crypto(
    mac: (string, string) -> seq<byte>,
    encode64: seq<byte> -> string,
    decode64: string -> Option<seq<byte>>,
    decodeClaims: seq<byte> -> Option<Claims>,
    hashPolicy: RoutePolicy -> Option<string>)

  datatype ProbeRequest = ProbeRequest(
    clientNonce: Option<string>,
    userId: Option<nat>,
    deviceId: Option<string>,
    gameId: Option<nat>,
    regionId: Option<nat>,
    transport: Option<string>,
    token: Option<string>,
    routePolicy: Option<RoutePolicy>)

  datatype AuthDecision = NoToken | Valid(claims: Claims) | Invalid(code: string)

  function VerifyToken(c: Crypto, token: string, expectedNodeId: Option<nat>, secret: string, now: nat)
    : Result<Claims, string>
  {
    var parts := Split(token, '.');
    if |parts| != 4 || parts[0] != TOKEN_PREFIX || parts[1] != TOKEN_VERSION then Err("format")
    else
      var signingInput := parts[0] + "." + parts[1] + "." + parts[2];
      var signature := c.decode64(parts[3]);
      if signature.None? then Err("signature encoding")
      else if signature.value != c.mac(secret, signingInput) then Err("signature mismatch")
      else
        var payload := c.decode64(parts[2]);
        if payload.None? then Err("payload encoding")
        else
          var decoded := c.decodeClaims(payload.value);
          if decoded.None? then Err("payload JSON")
          else
            var claims := decoded.value;
            if expectedNodeId.Some? && claims.nodeId != expectedNodeId.value then Err("node_id")
            else if claims.expiresAt <= now then Err("expired")
            else if Trim(claims.deviceId) == [] then Err("device_id")
            else if claims.route.Some? && Trim(claims.route.value.targetAddr) == [] then Err("route.target_addr")
            else if claims.route.Some? && claims.route.value.protocol !in {"udp", "tcp"} then Err("route.protocol")
            else Ok(claims)
  }

  function MatchRequestClaims(request: ProbeRequest, claims: Claims): AuthDecision {
    if request.userId.Some? && request.userId.value != claims.userId then Invalid("claim_mismatch")
    else if request.deviceId.Some? && request.deviceId.value != claims.deviceId then Invalid("claim_mismatch")
    else if request.gameId.Some? && request.gameId.value != claims.gameId then Invalid("claim_mismatch")
    else if request.regionId.Some? && request.regionId != claims.regionId then Invalid("claim_mismatch")
    else Valid(claims)
  }

  function VerifyProbeToken(
    c: Crypto, request: ProbeRequest, expectedNodeId: Option<nat>, secret: Option<string>, now: nat): AuthDecision
  {
    var token := NonBlank(request.token);
    if token.None? then NoToken
    else if secret.None? || Trim(secret.value) == [] then Invalid("auth_not_ready")
    else
      match VerifyToken(c, token.value, expectedNodeId, secret.value, now)
      case Ok(claims) => MatchRequestClaims(request, claims)
      case Err(_) => Invalid("invalid_token")
  }

  // ---------------------------------------------------------------- what acceptance means

  function SigningInput(payload: string): string {
    TOKEN_PREFIX + "." + TOKEN_VERSION + "." + payload
  }

  /** The token text is xat.v1.payload.signature with a signature made with the secret. */
  ghost predicate SignedParts(c: Crypto, token: string, secret: string, claims: Claims,
                              payload: string, signature: string) {
    && '.' !in payload && '.' !in signature
    && token == SigningInput(payload) + "." + signature
    && c.decode64(signature) == Some(c.mac(secret, SigningInput(payload)))
    && c.decode64(payload).Some?
    && c.decodeClaims(c.decode64(payload).value) == Some(claims)
  }

  ghost predicate SignedBy(c: Crypto, token: string, secret: string, claims: Claims) {
    exists payload: string, signature: string :: SignedParts(c, token, secret, claims, payload, signature)
  }

  ghost predicate UsableClaims(claims: Claims, expectedNodeId: Option<nat>, now: nat) {
    && (expectedNodeId == None || expectedNodeId == Some(claims.nodeId))
    && now < claims.expiresAt
    && !IsBlank(claims.deviceId)
    && (claims.route.Some? ==>
          !IsBlank(claims.route.value.targetAddr) && claims.route.value.protocol in {"udp", "tcp"})
  }

  ghost predicate AgreesWith(request: ProbeRequest, claims: Claims) {
    && request.userId in {None, Some(claims.userId)}
    && request.deviceId in {None, Some(claims.deviceId)}
    && request.gameId in {None, Some(claims.gameId)}
    && (request.regionId == None || request.regionId == claims.regionId)
  }

  lemma PartsOfToken(a: string, b: string, payload: string, signature: string)
    requires '.' !in a && '.' !in b && '.' !in payload && '.' !in signature
    ensures Split(a + "." + b + "." + payload + "." + signature, '.') == [a, b, payload, signature]
  {
    var parts := [a, b, payload, signature];
    assert Join(parts[3..], '.') == signature;
    assert parts[2..][1..] == parts[3..];
    assert Join(parts[2..], '.') == payload + "." + signature;
    assert parts[1..][1..] == parts[2..];
    assert Join(parts[1..], '.') == b + "." + (payload + "." + signature);
    assert Join(parts, '.') == a + "." + (b + "." + (payload + "." + signature));
    assert a + "." + b + "." + payload + "." + signature == Join(parts, '.');
    SplitJoin(parts, '.');
  }

  lemma {:induction false} PartsHoldNoSeparator(s: string, sep: char)
    ensures forall p :: p in Split(s, sep) ==> sep !in p
  {
    if s != [] {
      PartsHoldNoSeparator(s[1..], sep);
      var rest := Split(s[1..], sep);
      assert rest[0] in rest;
      forall p | p in Split(s, sep) ensures sep !in p {
        assert p == [] || p == [s[0]] + rest[0] || p in rest;
      }
    }
  }

  lemma FourParts(token: string)
    requires |Split(token, '.')| == 4
    ensures
      var parts := Split(token, '.');
      token == parts[0] + "." + parts[1] + "." + parts[2] + "." + parts[3]
  {
    var parts := Split(token, '.');
    JoinSplit(token, '.');
    assert Join(parts[3..], '.') == parts[3];
    assert parts[2..][1..] == parts[3..];
    assert Join(parts[2..], '.') == parts[2] + "." + parts[3];
    assert parts[1..][1..] == parts[2..];
    assert Join(parts[1..], '.') == parts[1] + "." + (parts[2] + "." + parts[3]);
    assert Join(parts, '.') == parts[0] + "." + (parts[1] + "." + (parts[2] + "." + parts[3]));
  }

  /** A token is accepted with some claims exactly when it is signed with the node's secret, carries
      those claims, and the claims are usable on this node now. */
  lemma VerifyTokenMeansSigned(
    c: Crypto, token: string, expectedNodeId: Option<nat>, secret: string, now: nat, claims: Claims)
    ensures VerifyToken(c, token, expectedNodeId, secret, now) == Ok(claims)
      <==> SignedBy(c, token, secret, claims) && UsableClaims(claims, expectedNodeId, now)
  {
    if VerifyToken(c, token, expectedNodeId, secret, now) == Ok(claims) {
      AcceptedIsSigned(c, token, expectedNodeId, secret, now, claims);
    }
    if SignedBy(c, token, secret, claims) && UsableClaims(claims, expectedNodeId, now) {
      var payload: string, signature: string :| SignedParts(c, token, secret, claims, payload, signature);
      SignedIsAccepted(c, token, expectedNodeId, secret, now, claims, payload, signature);
    }
  }

  lemma AcceptedIsSigned(
    c: Crypto, token: string, expectedNodeId: Option<nat>, secret: string, now: nat, claims: Claims)
    requires VerifyToken(c, token, expectedNodeId, secret, now) == Ok(claims)
    ensures SignedBy(c, token, secret, claims) && UsableClaims(claims, expectedNodeId, now)
  {
    var parts := Split(token, '.');
    FourParts(token);
    PartsHoldNoSeparator(token, '.');
    assert parts[2] in parts && parts[3] in parts;
    assert SignedParts(c, token, secret, claims, parts[2], parts[3]);
  }

  lemma SignedIsAccepted(
    c: Crypto, token: string, expectedNodeId: Option<nat>, secret: string, now: nat, claims: Claims,
    payload: string, signature: string)
    requires SignedParts(c, token, secret, claims, payload, signature) && UsableClaims(claims, expectedNodeId, now)
    ensures VerifyToken(c, token, expectedNodeId, secret, now) == Ok(claims)
  {
    PartsOfToken(TOKEN_PREFIX, TOKEN_VERSION, payload, signature);
  }

  /** The whole decision: valid exactly for a signed token with usable claims that agree with every
      field the request names. */
  lemma ProbeIsValidExactlyWhenGenuine(
    c: Crypto, request: ProbeRequest, expectedNodeId: Option<nat>, secret: Option<string>, now: nat, claims: Claims)
    ensures VerifyProbeToken(c, request, expectedNodeId, secret, now) == Valid(claims)
      <==>
      && request.token.Some? && !IsBlank(request.token.value)
      && secret.Some? && !IsBlank(secret.value)
      && SignedBy(c, Trim(request.token.value), secret.value, claims)
      && UsableClaims(claims, expectedNodeId, now)
      && AgreesWith(request, claims)
  {
    if request.token.Some? && !IsBlank(request.token.value) && secret.Some? && !IsBlank(secret.value) {
      var token := Trim(request.token.value);
      VerifyTokenMeansSigned(c, token, expectedNodeId, secret.value, now, claims);
      match VerifyToken(c, token, expectedNodeId, secret.value, now)
      case Ok(found) =>
        assert MatchRequestClaims(request, claims) == Valid(claims) <==> AgreesWith(request, claims);
      case Err(_) =>
    }
  }

  ghost predicate GenuineClaims(c: Crypto, token: string, expectedNodeId: Option<nat>, secret: string, now: nat, claims: Claims) {
    SignedBy(c, token, secret, claims) && UsableClaims(claims, expectedNodeId, now)
  }

  /** Why a probe's token is not accepted: there is none; the node has no secret; no usable claims are
      signed in it; or they contradict the request. Each case is reported with its own code. */
  lemma ProbeIsRefusedExactly(
    c: Crypto, request: ProbeRequest, expectedNodeId: Option<nat>, secret: Option<string>, now: nat)
    ensures
      var decision := VerifyProbeToken(c, request, expectedNodeId, secret, now);
      if request.token.None? || IsBlank(request.token.value) then decision == NoToken
      else if secret.None? || IsBlank(secret.value) then decision == Invalid("auth_not_ready")
      else
        var token := Trim(request.token.value);
        && (decision == Invalid("invalid_token") <==>
              forall claims :: !GenuineClaims(c, token, expectedNodeId, secret.value, now, claims))
        && (decision == Invalid("claim_mismatch") <==>
              exists claims :: GenuineClaims(c, token, expectedNodeId, secret.value, now, claims) && !AgreesWith(request, claims))
        && (decision.Invalid? ==> decision.code in {"invalid_token", "claim_mismatch"}) && decision != NoToken
  {
    hide Trim, VerifyToken, SignedBy, UsableClaims;
    if request.token.Some? && !IsBlank(request.token.value) && secret.Some? && !IsBlank(secret.value) {
      var token := Trim(request.token.value);
      forall claims
        ensures GenuineClaims(c, token, expectedNodeId, secret.value, now, claims)
          <==> VerifyToken(c, token, expectedNodeId, secret.value, now) == Ok(claims)
      {
        VerifyTokenMeansSigned(c, token, expectedNodeId, secret.value, now, claims);
      }
      var r := VerifyToken(c, token, expectedNodeId, secret.value, now);
      if r.Ok? {
        assert GenuineClaims(c, token, expectedNodeId, secret.value, now, r.value);
        assert AgreesWith(request, r.value) <==> MatchRequestClaims(request, r.value) == Valid(r.value);
      }
      assert "invalid_token" != "claim_mismatch" by { assert |"invalid_token"| != |"claim_mismatch"|; }
    }
  }
}
