/** The pure decisions of the node's session handlers: binding a probe to its token and policy,
    choosing a relay target, and naming a session. */
module Session {
  import opened Text
  import opened Cidr
  import opened RoutePolicies
  import opened SessionStores
  import opened Auth
  import opened Checks

  const PROBE_TTL_SEC: nat := 30
  const DEFAULT_RELAY_TIMEOUT_MS: nat := 200

  datatype Transport = Tcp | Udp | Quic

  function TransportName(t: Transport): string {
    match t case Tcp => "tcp" case Udp => "udp" case Quic => "quic"
  }

  // ---------------------------------------------------------------- probe identity

  datatype ProbeIdentity = ProbeIdentity(
    credentialPresent: bool,
    credentialValid: bool,
    credentialExpiresAt: Option<nat>,
    intentId: Option<string>,
    routeTargetAddr: Option<string>,
    routePolicy: Option<RoutePolicy>,
    routePolicyId: Option<string>,
    routePolicyHash: Option<string>,
    userId: Option<nat>,
    deviceId: Option<string>,
    gameId: Option<nat>,
    regionId: Option<nat>)

  function IdentityFromRequest(r: ProbeRequest): ProbeIdentity {
    ProbeIdentity(false, false, None, None, None, None, None, None, r.userId, r.deviceId, r.gameId, r.regionId)
  }

  /** Why a policy sent with a probe cannot be bound to the token's claims, if it cannot. */
  function BindingError(c: Crypto, claims: Claims, policy: Option<RoutePolicy>): Option<string> {
    if claims.routePolicyHash.None? then None
    else if policy.None? then Some("missing_route_policy")
    else if c.hashPolicy(policy.value).None? then Some("invalid_route_policy")
    else if c.hashPolicy(policy.value) != claims.routePolicyHash then Some("route_policy_mismatch")
    else if claims.routePolicyId.Some? && policy.value.policyId != claims.routePolicyId.value
    then Some("route_policy_mismatch")
    else None
  }

  function IdentityFromClaims(c: Crypto, claims: Claims, policy: Option<RoutePolicy>)
    : Result<ProbeIdentity, string>
  {
    var error := BindingError(c, claims, policy);
    if error.Some? then Err(error.value)
    else
      var dynamicRoute := claims.routePolicyHash.Some?;
      Ok(ProbeIdentity(
        true, true, Some(claims.expiresAt), claims.intentId,
        if dynamicRoute || claims.route.None? then None else Some(claims.route.value.targetAddr),
        if dynamicRoute then policy else None,
        claims.routePolicyId, claims.routePolicyHash,
        Some(claims.userId), Some(claims.deviceId), Some(claims.gameId), claims.regionId))
  }

  /** `UdpSession::new` for a probe's identity. */
  function NewSession(id: string, identity: ProbeIdentity, peer: string, now: nat): UdpSession {
    UdpSession(
      id, identity.userId, identity.deviceId, identity.gameId, identity.regionId, identity.credentialValid,
      identity.intentId, identity.routeTargetAddr, identity.routePolicy, identity.routePolicyId,
      identity.routePolicyHash, now, now + PROBE_TTL_SEC, now, peer, 0, 0)
  }

  /** What is checked of the policy sent with a token, in order. */
  ghost function BindingChecks(c: Crypto, claims: Claims, policy: Option<RoutePolicy>): seq<Check> {
    [Check(claims.routePolicyHash.Some? ==> policy.Some?, "missing_route_policy"),
     Check(claims.routePolicyHash.Some? && policy.Some? ==> c.hashPolicy(policy.value).Some?, "invalid_route_policy"),
     Check(claims.routePolicyHash.Some? && policy.Some? ==>
             && c.hashPolicy(policy.value) == claims.routePolicyHash
             && claims.routePolicyId in {None, Some(policy.value.policyId)}, "route_policy_mismatch")]
  }

  /** A session is new: made now, for 30 seconds, and nothing has been sent on it. */
  ghost predicate FreshSession(s: UdpSession, id: string, peer: string, now: nat) {
    && s.sessionId == id && s.createdAt == now && s.expiresAt == now + 30
    && s.lastSeenAt == now && s.lastPeer == peer && s.rxBytes == 0 && s.txBytes == 0
  }

  /** What a snapshot says about its session's owner when the probe carried a token. */
  ghost predicate OwnedByClaims(s: Snapshot, claims: Claims, policy: Option<RoutePolicy>) {
    && s.authenticated && s.userId == Some(claims.userId) && s.deviceId == Some(claims.deviceId)
    && s.gameId == Some(claims.gameId) && s.regionId == claims.regionId && s.intentId == claims.intentId
    && s.routePolicyId == claims.routePolicyId && s.routePolicyHash == claims.routePolicyHash
    && s.routePolicy == (if claims.routePolicyHash.Some? then policy else None)
    && s.routeTargetAddr == (if claims.routePolicyHash.Some? || claims.route.None? then None else Some(claims.route.value.targetAddr))
  }

  /** And when it carried none: only what the request said of itself, and nothing is bound. */
  ghost predicate OwnedByRequest(s: Snapshot, request: ProbeRequest) {
    && !s.authenticated && s.userId == request.userId && s.deviceId == request.deviceId
    && s.gameId == request.gameId && s.regionId == request.regionId && s.intentId == None
    && s.routePolicyId == None && s.routePolicyHash == None && s.routePolicy == None && s.routeTargetAddr == None
  }

  /** Binding succeeds exactly when every check passes, and then the session is that of the claims. */
  lemma IdentityIsOfClaims(c: Crypto, claims: Claims, policy: Option<RoutePolicy>, id: string, peer: string, now: nat)
    ensures Decided(BindingChecks(c, claims, policy), IdentityFromClaims(c, claims, policy))
    ensures IdentityFromClaims(c, claims, policy).Ok? ==>
      var session := NewSession(id, IdentityFromClaims(c, claims, policy).value, peer, now);
      FreshSession(session, id, peer, now) && Shows(SnapshotOf(session), session) && OwnedByClaims(SnapshotOf(session), claims, policy)
  {
    hide AllPass, FailsFirst;
    ThreeChecks(BindingChecks(c, claims, policy));
  }

  lemma IdentityIsOfRequest(request: ProbeRequest, id: string, peer: string, now: nat)
    ensures
      var session := NewSession(id, IdentityFromRequest(request), peer, now);
      FreshSession(session, id, peer, now) && Shows(SnapshotOf(session), session) && OwnedByRequest(SnapshotOf(session), request)
  {
  }

  // ---------------------------------------------------------------- session ids

  function Dashes(s: string): (r: string)
    ensures |r| == |s|
  {
    seq(|s|, i requires 0 <= i < |s| => if s[i] == ':' || s[i] == '.' then '-' else s[i])
  }

  function BuildSessionId(transport: Transport, peer: string, now: nat, sequence: nat): string {
    "ps-" + TransportName(transport) + "-" + Decimal(now) + "-" + Dashes(peer) + "-" + Decimal(sequence)
  }

  /** The sequence number can be read off the end of a session id, so ids with different sequence
      numbers differ whatever the transports, peers and clock readings are. */
  lemma SessionIdTellsSequence(t1: Transport, p1: string, n1: nat, s1: nat, t2: Transport, p2: string, n2: nat, s2: nat)
    requires BuildSessionId(t1, p1, n1, s1) == BuildSessionId(t2, p2, n2, s2)
    ensures s1 == s2
  {
    var a := "ps-" + TransportName(t1) + "-" + Decimal(n1) + "-" + Dashes(p1);
    var b := "ps-" + TransportName(t2) + "-" + Decimal(n2) + "-" + Dashes(p2);
    DecimalNotIn(s1, '-');
    DecimalNotIn(s2, '-');
    assert BuildSessionId(t1, p1, n1, s1) == a + ['-'] + Decimal(s1);
    assert BuildSessionId(t2, p2, n2, s2) == b + ['-'] + Decimal(s2);
    SameTail(a, Decimal(s1), b, Decimal(s2), '-');
    DecimalInjective(s1, s2);
  }

  /** What follows the clock reading in an id. */
  function IdTail(peer: string, sequence: nat): string {
    Dashes(peer) + ['-'] + Decimal(sequence)
  }

  /** An id read part by part. */
  lemma IdSplits(t: Transport, peer: string, now: nat, sequence: nat)
    ensures Split(BuildSessionId(t, peer, now, sequence), '-')
      == ["ps", TransportName(t), Decimal(now)] + Split(IdTail(peer, sequence), '-')
  {
    hide Split, Decimal, Dashes;
    var tail := IdTail(peer, sequence);
    var (name, time) := (TransportName(t), Decimal(now));
    DecimalNotIn(now, '-');
    assert BuildSessionId(t, peer, now, sequence) == "ps" + ['-'] + (name + ['-'] + (time + ['-'] + tail));
    SplitHead("ps", '-', name + ['-'] + (time + ['-'] + tail));
    SplitHead(name, '-', time + ['-'] + tail);
    SplitHead(time, '-', tail);
  }

  /** An id tells the transport, the clock reading, the sequence number and the peer, but for the peer's
      dots, colons and dashes, and nothing else. */
  lemma SessionIdTellsAll(t1: Transport, p1: string, n1: nat, s1: nat, t2: Transport, p2: string, n2: nat, s2: nat)
    ensures BuildSessionId(t1, p1, n1, s1) == BuildSessionId(t2, p2, n2, s2)
      <==> t1 == t2 && n1 == n2 && s1 == s2 && SamePeer(p1, p2)
  {
    hide Split, Decimal, Dashes, BuildSessionId;
    SamePeerDashes(p1, p2);
    if BuildSessionId(t1, p1, n1, s1) == BuildSessionId(t2, p2, n2, s2) {
      SessionIdTellsSequence(t1, p1, n1, s1, t2, p2, n2, s2);
      IdSplits(t1, p1, n1, s1);
      IdSplits(t2, p2, n2, s2);
      var parts := Split(BuildSessionId(t1, p1, n1, s1), '-');
      assert parts[1] == TransportName(t1) == TransportName(t2) && parts[2] == Decimal(n1) == Decimal(n2);
      assert parts[3..] == Split(IdTail(p1, s1), '-') == Split(IdTail(p2, s2), '-');
      JoinSplit(IdTail(p1, s1), '-');
      JoinSplit(IdTail(p2, s2), '-');
      DecimalInjective(n1, n2);
      NamesDiffer(t1, t2);
      var tail := ['-'] + Decimal(s1);
      assert Dashes(p1) + tail == IdTail(p1, s1) && Dashes(p2) + tail == IdTail(p2, s2);
      SameFront(Dashes(p1), Dashes(p2), tail);
    }
    if SamePeer(p1, p2) {
      SameIds(t1, p1, p2, n1, s1);
    }
  }

  lemma SameIds(t: Transport, p: string, q: string, now: nat, sequence: nat)
    requires Dashes(p) == Dashes(q)
    ensures BuildSessionId(t, p, now, sequence) == BuildSessionId(t, q, now, sequence)
  {
  }

  lemma NamesDiffer(t: Transport, u: Transport)
    ensures TransportName(t) == TransportName(u) ==> t == u
  {
    assert "tcp"[0] == 't' && "udp"[0] == 'u' && "quic"[0] == 'q';
  }

  /** The peers differ at most in whether a separator is a dot, a colon or a dash. */
  predicate SamePeer(p: string, q: string) {
    |p| == |q| && forall i :: 0 <= i < |p| ==> p[i] == q[i] || (p[i] in {'.', ':', '-'} && q[i] in {'.', ':', '-'})
  }

  lemma SamePeerDashes(p: string, q: string)
    ensures SamePeer(p, q) <==> Dashes(p) == Dashes(q)
  {
    var (a, b) := (Dashes(p), Dashes(q));
    if a == b {
      forall i | 0 <= i < |p| ensures p[i] == q[i] || (p[i] in {'.', ':', '-'} && q[i] in {'.', ':', '-'}) {
        assert a[i] == b[i];
      }
    }
  }

  // ---------------------------------------------------------------- relay targets

  datatype RelayProtocol = UdpRelay | TcpRelay

  function ProtocolName(p: RelayProtocol): string {
    if p.UdpRelay? then "udp" else "tcp"
  }

  /** Parsing trims and folds case; policy matching only folds case. */
  function ParseProtocol(text: string): Result<RelayProtocol, string> {
    var name := Lower(Trim(text));
    if name == "udp" then Ok(UdpRelay)
    else if name == "tcp" then Ok(TcpRelay)
    else Err("target_protocol_unsupported")
  }

  datatype DataRequest = DataRequest(
    sessionId: Option<string>,
    payload: Option<string>,
    targetAddr: Option<string>,
    targetHost: Option<string>,
    targetPort: Option<nat>,
    targetProtocol: Option<string>,
    target: Option<SessionDataTarget>,
    responseTimeoutMs: Option<nat>)

  predicate HasSessionTarget(request: DataRequest) {
    || request.target.Some?
    || NonBlank(request.targetAddr).Some?
    || NonBlank(request.targetHost).Some?
  }

  function HostPort(parse: string -> Option<Ip>, host: string, port: nat): string {
    if parse(host).Some? && parse(host).value.V6?
    then "[" + host + "]:" + Decimal(port)
    else host + ":" + Decimal(port)
  }

  /** A chosen destination before the name is looked up. */
  datatype Plan = Plan(protocol: RelayProtocol, endpoint: string, policyMatch: Option<TargetMatch>)

  /** Target resolution up to the lookup: an error, no target, or a destination. */
  function PlanTarget(
    parse: string -> Option<Ip>, request: DataRequest, sessionTarget: Option<string>, policy: Option<RoutePolicy>)
    : Result<Option<Plan>, string>
  {
    if policy.Some? then
      if request.target.None? then Err("missing_target")
      else
        var target := request.target.value;
        match ParseProtocol(OrDefault(Or(target.protocol, policy.value.defaultProtocol), "udp"))
        case Err(code) => Err(code)
        case Ok(protocol) =>
          match MatchPolicyTarget(parse, policy.value, target)
          case Err(code) => Err(code)
          case Ok(found) => Ok(Some(Plan(protocol, HostPort(parse, target.host, target.port), Some(found))))
    else
      match ParseProtocol(OrDefault(request.targetProtocol, "udp"))
      case Err(code) => Err(code)
      case Ok(protocol) =>
        if NonBlank(sessionTarget).Some? then Ok(Some(Plan(protocol, NonBlank(sessionTarget).value, None)))
        else if NonBlank(request.targetAddr).Some? then
          Ok(Some(Plan(protocol, NonBlank(request.targetAddr).value, None)))
        else if NonBlank(request.targetHost).None? then Ok(None)
        else if request.targetPort.None? then Err("missing_target_port")
        else Ok(Some(Plan(protocol, HostPort(parse, NonBlank(request.targetHost).value, request.targetPort.value), None)))
  }

  /** Target resolution, case by case. Under a policy only a structured target counts; it is matched and its
      host and port are the destination. Otherwise the bound address, the request's address, and its host
      with its port are tried in this order, and a request that names none has nothing to reach. */
  lemma PlanExactly(
    parse: string -> Option<Ip>, request: DataRequest, sessionTarget: Option<string>, policy: Option<RoutePolicy>)
    ensures
      var plan := PlanTarget(parse, request, sessionTarget, policy);
      var text := if policy.None? then OrDefault(request.targetProtocol, "udp")
                  else if request.target.None? then "udp"
                  else if request.target.value.protocol.Some? then request.target.value.protocol.value
                  else OrDefault(policy.value.defaultProtocol, "udp");
      var protocol := if Lower(Trim(text)) == "tcp" then TcpRelay else UdpRelay;
      if policy.Some? && request.target.None? then plan == Err("missing_target")
      else if Lower(Trim(text)) !in {"udp", "tcp"} then plan == Err("target_protocol_unsupported")
      else if policy.Some? then
        match MatchPolicyTarget(parse, policy.value, request.target.value)
        case Err(code) => plan == Err(code)
        case Ok(found) =>
          plan == Ok(Some(Plan(protocol, HostPort(parse, request.target.value.host, request.target.value.port), Some(found))))
      else if sessionTarget.Some? && !IsBlank(sessionTarget.value) then
        plan == Ok(Some(Plan(protocol, Trim(sessionTarget.value), None)))
      else if request.targetAddr.Some? && !IsBlank(request.targetAddr.value) then
        plan == Ok(Some(Plan(protocol, Trim(request.targetAddr.value), None)))
      else if request.targetHost.None? || IsBlank(request.targetHost.value) then plan == Ok(None)
      else if request.targetPort.None? then plan == Err("missing_target_port")
      else plan == Ok(Some(Plan(protocol, HostPort(parse, Trim(request.targetHost.value), request.targetPort.value), None)))
  {
    hide MatchPolicyTarget, HostPort, Trim, Lower;
    assert "udp" != "tcp" by { assert "udp"[0] != "tcp"[0]; }
  }

  /** Without a bound policy or a bound address, only a request that names a target reaches one. */
  lemma OnlyNamedTargetsResolve(parse: string -> Option<Ip>, request: DataRequest)
    requires PlanTarget(parse, request, None, None).Ok? && PlanTarget(parse, request, None, None).value.Some?
    ensures HasSessionTarget(request)
  {
  }

  /** A session bound to a fixed address only ever resolves to that address, whatever the request
      says; the relay protocol, in contrast, is the request's choice. */
  lemma FixedRouteDecidesAddress(parse: string -> Option<Ip>, request: DataRequest, route: string)
    requires !IsBlank(route)
    ensures
      var r := PlanTarget(parse, request, Some(route), None);
      if ParseProtocol(OrDefault(request.targetProtocol, "udp")).Err? then r == Err("target_protocol_unsupported")
      else r == Ok(Some(Plan(ParseProtocol(OrDefault(request.targetProtocol, "udp")).value, Trim(route), None)))
  {
  }

  /** The protocol of the token's fixed route does not bind the relay: a request can have the bound
      address reached over the other protocol. */
  lemma FixedRouteLeavesProtocolOpen(parse: string -> Option<Ip>, request: DataRequest, route: string)
    requires !IsBlank(route)
    ensures
      && PlanTarget(parse, request.(targetProtocol := Some("tcp")), Some(route), None)
         == Ok(Some(Plan(TcpRelay, Trim(route), None)))
      && PlanTarget(parse, request.(targetProtocol := None), Some(route), None)
         == Ok(Some(Plan(UdpRelay, Trim(route), None)))
  {
    assert Trim("tcp") == "tcp" && Lower("tcp") == "tcp" && Trim("udp") == "udp" && Lower("udp") == "udp" by {
      LowerPlain("tcp");
      LowerPlain("udp");
    }
    assert "tcp" != "udp" by { assert "tcp"[0] != "udp"[0]; }
  }

  lemma LowerPlain(s: string)
    requires forall i :: 0 <= i < |s| ==> 'a' <= s[i] <= 'z'
    ensures Lower(s) == s && Trim(s) == s
  {
    if s != [] {
      assert TrimStart(s) == s;
    }
  }

  /** When resolution succeeds under a policy, the relay protocol is the one whose port range
      admitted the target, although one of the two trims the text and the other does not. */
  lemma PolicyPlanIsAdmitted(
    parse: string -> Option<Ip>, request: DataRequest, sessionTarget: Option<string>, policy: RoutePolicy)
    requires PlanTarget(parse, request, sessionTarget, Some(policy)).Ok?
    ensures
      var plan := PlanTarget(parse, request, sessionTarget, Some(policy)).value;
      && plan.Some? && request.target.Some?
      && plan.value.endpoint == HostPort(parse, request.target.value.host, request.target.value.port)
      && MatchProtocol(policy, request.target.value) == ProtocolName(plan.value.protocol)
      && PolicyAdmits(parse, policy, ProtocolName(plan.value.protocol), request.target.value)
  {
    hide ParseProtocol, PolicyAdmits, ReportsFirst, HostPort, SearchRules;
    var target := request.target.value;
    MatchIsDeclarative(parse, policy, target);
    var text := OrDefault(Or(target.protocol, policy.defaultProtocol), "udp");
    assert MatchProtocol(policy, target) == Lower(text);
    NormalisationsAgree(text);
  }

  lemma NormalisationsAgree(text: string)
    requires Lower(text) in {"udp", "tcp"}
    ensures ParseProtocol(text).Ok? && ProtocolName(ParseProtocol(text).value) == Lower(text)
  {
    LowerHasNoBlanks(text);
  }

  lemma LowerHasNoBlanks(text: string)
    requires Lower(text) in {"udp", "tcp"}
    ensures Trim(text) == text
  {
    var l := Lower(text);
    assert l[0] == LowerChar(text[0]) && l[|l| - 1] == LowerChar(text[|l| - 1]);
    assert !IsWhitespace(text[0]) && !IsWhitespace(text[|text| - 1]);
  }

  // ---------------------------------------------------------------- what a client can reach

  /** Some session data request of a client resolves, under the bound policy or address, to this plan's
      protocol and endpoint. */
  ghost predicate Resolves(
    parse: string -> Option<Ip>, route: Option<string>, policy: Option<RoutePolicy>, protocol: RelayProtocol, endpoint: string)
  {
    exists request :: ResolvesTo(parse, request, route, policy, protocol, endpoint)
  }

  ghost predicate ResolvesTo(
    parse: string -> Option<Ip>, request: DataRequest, route: Option<string>, policy: Option<RoutePolicy>,
    protocol: RelayProtocol, endpoint: string)
  {
    var plan := PlanTarget(parse, request, route, policy);
    plan.Ok? && plan.value.Some? && plan.value.value.protocol == protocol && plan.value.value.endpoint == endpoint
  }

  /** The endpoint is that of a host and port the policy opens to this protocol. */
  ghost predicate PolicyOpensEndpoint(
    parse: string -> Option<Ip>, policy: RoutePolicy, protocol: RelayProtocol, endpoint: string)
  {
    exists host: string, port: nat ::
      endpoint == HostPort(parse, host, port) && PolicyOpens(parse, policy, ProtocolName(protocol), host, port)
  }

  /** Under a policy, the endpoints a client can have relayed to are exactly those of the hosts and
      ports the policy opens. */
  lemma PolicyEndpointsExactly(
    parse: string -> Option<Ip>, route: Option<string>, policy: RoutePolicy, protocol: RelayProtocol, endpoint: string)
    ensures Resolves(parse, route, Some(policy), protocol, endpoint)
      <==> PolicyOpensEndpoint(parse, policy, protocol, endpoint)
  {
    hide PlanTarget, PolicyOpens, HostPort, ProtocolName;
    if PolicyOpensEndpoint(parse, policy, protocol, endpoint) {
      var host: string, port: nat :|
        endpoint == HostPort(parse, host, port) && PolicyOpens(parse, policy, ProtocolName(protocol), host, port);
      OpenEndpointResolves(parse, route, policy, protocol, host, port);
    }
    forall request | ResolvesTo(parse, request, route, Some(policy), protocol, endpoint)
      ensures PolicyOpensEndpoint(parse, policy, protocol, endpoint)
    {
      PolicyPlanIsAdmitted(parse, request, route, policy);
      AdmittedIsOpen(parse, policy, ProtocolName(protocol), request.target.value);
    }
  }

  lemma OpenEndpointResolves(
    parse: string -> Option<Ip>, route: Option<string>, policy: RoutePolicy, protocol: RelayProtocol, host: string, port: nat)
    requires PolicyOpens(parse, policy, ProtocolName(protocol), host, port)
    ensures Resolves(parse, route, Some(policy), protocol, HostPort(parse, host, port))
  {
    hide PolicyOpens, HostPort, PolicyAdmits, ReportsFirst, SearchRules, ParseProtocol, Lower;
    var name := ProtocolName(protocol);
    ReachableExactlyWhenOpen(parse, policy, name, host, port);
    var found: SessionDataTarget :| found.host == host && found.port == port && PolicyAdmits(parse, policy, name, found);
    var target := found.(protocol := Some(name));
    ProtocolIsNotTested(parse, policy, name, found, target);
    LowerName(name);
    NameParses(protocol);
    MatchIsDeclarative(parse, policy, target);
    var request := DataRequest(None, None, None, None, None, None, Some(target), None);
    assert ResolvesTo(parse, request, route, Some(policy), protocol, HostPort(parse, host, port));
  }

  lemma ProtocolIsNotTested(
    parse: string -> Option<Ip>, policy: RoutePolicy, name: string, a: SessionDataTarget, b: SessionDataTarget)
    requires PolicyAdmits(parse, policy, name, a) && b == a.(protocol := b.protocol)
    ensures PolicyAdmits(parse, policy, name, b)
  {
    hide Lower, Trim, HostIs, ContainsText, InSomeCidr, PortAdmitted;
    var i :| 0 <= i < |policy.targets| && RuleAdmits(parse, policy.targets[i], name, a);
    assert RuleAdmits(parse, policy.targets[i], name, b);
  }

  lemma NameParses(protocol: RelayProtocol)
    ensures ParseProtocol(ProtocolName(protocol)) == Ok(protocol)
  {
    LowerPlain(ProtocolName(protocol));
    assert "tcp"[0] != "udp"[0];
  }

  /** A raw tunnel packet states no original domain, so under a policy it reaches only hosts a rule
      names, unless the rule is `any` or lists nothing. */
  lemma RawEndpointsAreNamed(
    parse: string -> Option<Ip>, request: DataRequest, route: Option<string>, policy: RoutePolicy)
    requires request.target.Some? && request.target.value.originalDomain.None?
    requires PlanTarget(parse, request, route, Some(policy)).Ok?
    ensures
      var plan := PlanTarget(parse, request, route, Some(policy)).value.value;
      var target := request.target.value;
      && plan.endpoint == HostPort(parse, target.host, target.port)
      && exists i :: 0 <= i < |policy.targets|
           && RuleOpensPlainly(parse, policy.targets[i], ProtocolName(plan.protocol), target.host, target.port)
  {
    hide PlanTarget, HostPort, RuleOpensPlainly;
    PolicyPlanIsAdmitted(parse, request, route, policy);
    var plan := PlanTarget(parse, request, route, Some(policy)).value.value;
    AdmittedIsOpen(parse, policy, ProtocolName(plan.protocol), request.target.value);
  }

  // ---------------------------------------------------------------- when nothing is limited

  /** A host and port a request can name: trimmed, not blank, and a real port. */
  predicate IsDestination(host: string, port: nat) {
    host != [] && Trim(host) == host && 1 <= port <= 65535
  }

  /** Requests can have every host and port relayed to, over both protocols. */
  ghost predicate EverythingResolves(parse: string -> Option<Ip>, route: Option<string>, policy: Option<RoutePolicy>) {
    forall protocol: RelayProtocol, host: string, port: nat :: IsDestination(host, port) ==>
      Resolves(parse, route, policy, protocol, HostPort(parse, host, port))
  }

  /** On both protocols and every port some rule admits the port and opens every host. */
  ghost predicate OpenOnEveryPort(policy: RoutePolicy) {
    forall protocol: RelayProtocol, port: nat :: 1 <= port <= 65535 ==> OpenOnPort(policy, ProtocolName(protocol), port)
  }

  ghost predicate OpenOnPort(policy: RoutePolicy, protocol: string, port: nat) {
    exists i :: 0 <= i < |policy.targets| && PortAdmitted(policy.targets[i], protocol, port) && OpensAnyHost(policy.targets[i])
  }

  /** Exactly when a session's binding limits nothing: requests can have every host and port relayed to,
      over both protocols, if and only if the session is bound to neither a policy nor an address, or its
      policy is open on every port of both protocols. A bound address is the only destination. */
  lemma EveryEndpointExactlyWhenOpen(parse: string -> Option<Ip>, route: Option<string>, policy: Option<RoutePolicy>)
    requires AddressesAreShort(parse)
    ensures EverythingResolves(parse, route, policy) <==>
      (if policy.Some? then OpenOnEveryPort(policy.value) else NonBlank(route).None?)
    ensures policy.None? && NonBlank(route).Some? ==>
      forall protocol, endpoint :: Resolves(parse, route, policy, protocol, endpoint) <==> endpoint == NonBlank(route).value
  {
    hide EverythingResolves, OpenOnEveryPort, Resolves, AddressesAreShort, Trim;
    if policy.Some? {
      OpenPolicyExactly(parse, route, policy.value);
    } else if NonBlank(route).Some? {
      forall protocol, endpoint
        ensures Resolves(parse, route, None, protocol, endpoint) <==> endpoint == NonBlank(route).value
      {
        OnlyTheRoute(parse, route.value, protocol, endpoint);
      }
      RouteIsOneOfMany(parse, route);
    } else {
      UnboundResolves(parse, route);
    }
  }

  lemma OpenPolicyExactly(parse: string -> Option<Ip>, route: Option<string>, policy: RoutePolicy)
    requires AddressesAreShort(parse)
    ensures EverythingResolves(parse, route, Some(policy)) <==> OpenOnEveryPort(policy)
  {
    hide Resolves, OpenOnPort, HostPort, AddressesAreShort, Trim, ProtocolName;
    if OpenOnEveryPort(policy) {
      OpenPolicyResolves(parse, route, policy);
    }
    if EverythingResolves(parse, route, Some(policy)) {
      forall protocol: RelayProtocol, port: nat | 1 <= port <= 65535 ensures OpenOnPort(policy, ProtocolName(protocol), port) {
        StrangerNeedsOpenPort(parse, route, policy, protocol, port);
      }
    }
  }

  lemma OpenPortOpensHost(parse: string -> Option<Ip>, policy: RoutePolicy, protocol: string, host: string, port: nat)
    requires OpenOnPort(policy, protocol, port) && IsDestination(host, port)
    ensures PolicyOpens(parse, policy, protocol, host, port)
  {
    hide PortAdmitted, OpensAnyHost, NamesHost, Trim;
    var i :| 0 <= i < |policy.targets| && PortAdmitted(policy.targets[i], protocol, port) && OpensAnyHost(policy.targets[i]);
    assert RuleOpens(parse, policy.targets[i], protocol, host, port);
  }

  /** A host no rule names and no notation of an address matches can only be reached through a rule that
      opens every host. */
  lemma StrangerNeedsOpenPort(
    parse: string -> Option<Ip>, route: Option<string>, policy: RoutePolicy, protocol: RelayProtocol, port: nat)
    requires AddressesAreShort(parse) && 1 <= port <= 65535
    requires EverythingResolves(parse, route, Some(policy))
    ensures OpenOnPort(policy, ProtocolName(protocol), port)
  {
    hide Resolves, PortAdmitted, OpensAnyHost, NamesHost, IsBlank, TextsLength, Trim, ProtocolName;
    var stranger := Repeated(46 + TextsLength(policy.targets));
    StrangerIsVisible(|stranger|);
    assert IsDestination(stranger, port);
    var endpoint := HostPort(parse, stranger, port);
    assert Resolves(parse, route, Some(policy), protocol, endpoint);
    PolicyEndpointsExactly(parse, route, policy, protocol, endpoint);
    var host: string, p: nat :| endpoint == HostPort(parse, host, p) && PolicyOpens(parse, policy, ProtocolName(protocol), host, p);
    EndpointTellsStranger(parse, stranger, port, host, p);
    var i :| 0 <= i < |policy.targets| && RuleOpens(parse, policy.targets[i], ProtocolName(protocol), stranger, port);
    StrangerIsUnnamed(parse, policy.targets, i, |stranger|);
  }

  /** The text in front of the port. */
  function Inside(parse: string -> Option<Ip>, host: string): string {
    if parse(host).Some? && parse(host).value.V6? then "[" + host + "]" else host
  }

  lemma HostPortParts(parse: string -> Option<Ip>, host: string, port: nat)
    ensures HostPort(parse, host, port) == Inside(parse, host) + [':'] + Decimal(port)
  {
    assert "]:" == "]" + [':'] && "[" + host + ("]" + [':']) == "[" + host + "]" + [':'];
  }

  lemma EndpointTellsStranger(parse: string -> Option<Ip>, stranger: string, port: nat, host: string, p: nat)
    requires AddressesAreShort(parse) && |stranger| >= 46 && stranger[0] == 'x'
    requires HostPort(parse, stranger, port) == HostPort(parse, host, p)
    ensures host == stranger && p == port
  {
    hide HostPort, AddressesAreShort, Decimal;
    LongIsNoAddress(parse, stranger);
    HostPortParts(parse, stranger, port);
    HostPortParts(parse, host, p);
    PartsAreUnique(stranger, port, Inside(parse, host), p);
    assert ("[" + host + "]")[0] == '[';
  }

  lemma PartsAreUnique(a: string, m: nat, b: string, n: nat)
    requires a + [':'] + Decimal(m) == b + [':'] + Decimal(n)
    ensures a == b && m == n
  {
    hide Decimal;
    DecimalNotIn(m, ':');
    DecimalNotIn(n, ':');
    SameTail(a, Decimal(m), b, Decimal(n), ':');
    DecimalInjective(m, n);
    SameFront(a + [':'], b + [':'], Decimal(n));
    SameFront(a, b, [':']);
  }

  lemma SameFront(a: string, b: string, tail: string)
    requires a + tail == b + tail
    ensures a == b
  {
    assert |a + tail| == |a| + |tail| && |b + tail| == |b| + |tail|;
    assert a == (a + tail)[..|a|] && b == (b + tail)[..|b|];
  }

  lemma LongIsNoAddress(parse: string -> Option<Ip>, text: string)
    requires AddressesAreShort(parse) && |text| > 45
    ensures parse(text).None?
  {
  }

  lemma OnlyTheRoute(parse: string -> Option<Ip>, route: string, protocol: RelayProtocol, endpoint: string)
    requires !IsBlank(route)
    ensures Resolves(parse, Some(route), None, protocol, endpoint) <==> endpoint == Trim(route)
  {
    hide PlanTarget, Trim, ParseProtocol;
    forall request | ResolvesTo(parse, request, Some(route), None, protocol, endpoint) ensures endpoint == Trim(route) {
      FixedRouteDecidesAddress(parse, request, route);
    }
    if endpoint == Trim(route) {
      var request := DataRequest(None, None, None, None, None, Some(ProtocolName(protocol)), None, None);
      NameParses(protocol);
      FixedRouteDecidesAddress(parse, request, route);
      assert ResolvesTo(parse, request, Some(route), None, protocol, endpoint);
    }
  }

  lemma RouteIsOneOfMany(parse: string -> Option<Ip>, route: Option<string>)
    requires NonBlank(route).Some?
    requires forall protocol, endpoint :: Resolves(parse, route, None, protocol, endpoint) ==> endpoint == NonBlank(route).value
    ensures !EverythingResolves(parse, route, None)
  {
    hide Resolves, Trim, HostPort;
    assert IsDestination("x", 1) && IsDestination("x", 2) by { LetterIsVisible(); }
    var (one, two) := (HostPort(parse, "x", 1), HostPort(parse, "x", 2));
    assert one != two by { PortsDiffer(parse); }
    assert !Resolves(parse, route, None, UdpRelay, one) || !Resolves(parse, route, None, UdpRelay, two);
  }

  lemma LetterIsVisible()
    ensures Trim("x") == "x"
  {
  }

  lemma PortsDiffer(parse: string -> Option<Ip>)
    ensures HostPort(parse, "x", 1) != HostPort(parse, "x", 2)
  {
    hide HostPort;
    HostPortParts(parse, "x", 1);
    HostPortParts(parse, "x", 2);
    var (one, two) := (HostPort(parse, "x", 1), HostPort(parse, "x", 2));
    assert Decimal(1) == "1" && Decimal(2) == "2";
    assert one[|one| - 1] == '1' && two[|two| - 1] == '2';
  }

  lemma UnboundResolves(parse: string -> Option<Ip>, route: Option<string>)
    requires NonBlank(route).None?
    ensures EverythingResolves(parse, route, None)
  {
    hide Trim, ParseProtocol, HostPort;
    forall protocol: RelayProtocol, host: string, port: nat | IsDestination(host, port)
      ensures Resolves(parse, route, None, protocol, HostPort(parse, host, port))
    {
      NameParses(protocol);
      var request := DataRequest(None, None, None, Some(host), Some(port), Some(ProtocolName(protocol)), None, None);
      assert ResolvesTo(parse, request, route, None, protocol, HostPort(parse, host, port));
    }
  }

  /** A policy of one `any` rule over all ports of both protocols. */
  function OpenPolicy(id: string, version: nat): RoutePolicy {
    var rule := RouteTarget("all", None, "any", None, [], [], [],
                            [PortRange("udp", 1, 65535), PortRange("tcp", 1, 65535)], None, None, None);
    RoutePolicy(id, version, "dynamic_targets", None, None, [rule], None)
  }

  /** The failing input: such a policy limits nothing. */
  lemma OpenPolicyLimitsNothing(parse: string -> Option<Ip>, route: Option<string>, id: string, version: nat)
    ensures OpenOnEveryPort(OpenPolicy(id, version)) && EverythingResolves(parse, route, Some(OpenPolicy(id, version)))
  {
    hide EverythingResolves, Resolves;
    var policy := OpenPolicy(id, version);
    var rule := policy.targets[0];
    LowerPlain("any");
    forall protocol: RelayProtocol, port: nat | 1 <= port <= 65535 ensures OpenOnPort(policy, ProtocolName(protocol), port) {
      var range := if protocol.UdpRelay? then rule.ports[0] else rule.ports[1];
      assert range in rule.ports && EqIgnoreCase(range.protocol, ProtocolName(protocol));
      assert PortAdmitted(policy.targets[0], ProtocolName(protocol), port) && OpensAnyHost(policy.targets[0]);
    }
    OpenPolicyResolves(parse, route, policy);
  }

  lemma OpenPolicyResolves(parse: string -> Option<Ip>, route: Option<string>, policy: RoutePolicy)
    requires OpenOnEveryPort(policy)
    ensures EverythingResolves(parse, route, Some(policy))
  {
    hide Resolves, OpenOnPort, HostPort, Trim, ProtocolName;
    forall protocol: RelayProtocol, host: string, port: nat | IsDestination(host, port)
      ensures Resolves(parse, route, Some(policy), protocol, HostPort(parse, host, port))
    {
      assert OpenOnPort(policy, ProtocolName(protocol), port);
      OpenPortOpensHost(parse, policy, ProtocolName(protocol), host, port);
      OpenEndpointResolves(parse, route, policy, protocol, host, port);
    }
  }
}
