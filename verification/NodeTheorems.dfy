/** What holds of every run of the node: where relays go, which sessions are shown, that session ids
    are never reused, and which raw replies are sent. */
module NodeTheorems {
  import opened Text
  import opened Cidr
  import opened RoutePolicies
  import opened SessionStores
  import opened Auth
  import opened Session
  import opened NodeSystem
  import opened NodeShape
  import opened NodeSafety
  import opened Utf8
  import Xau1

  // ---------------------------------------------------------------- where relays go

  /** The slot's probe carried a token signed with the node's secret whose claims were usable. */
  ghost predicate HeldToken(n: Node, slot: Slot) {
    && slot.grant.Token?
    && slot.grant.request.token.Some? && n.secret.Some?
    && SignedBy(n.crypto, Trim(slot.grant.request.token.value), n.secret.value, slot.grant.claims)
    && UsableClaims(slot.grant.claims, n.nodeId, slot.grant.at)
  }

  /** The relay was made for this slot's session, whose probe held a token; and where it went depends on
      what that token binds. With a policy hash, the session holds the policy with that hash and the
      endpoint is that of a host and port its rules open; with a fixed route, it is the route's address;
      with neither, the session holds no policy and no address, and the request chose. */
  ghost predicate RelayedUnder(n: Node, slot: Slot, e: NodeSystem.Event)
    requires e.Relayed?
  {
    && ShownBy(slot, e.from) && HeldToken(n, slot)
    && match BindingOf(slot.grant.claims)
       case HashedPolicy(hash) =>
         && e.from.routePolicy.Some? && n.crypto.hashPolicy(e.from.routePolicy.value) == Some(hash)
         && PolicyOpensEndpoint(n.parse, e.from.routePolicy.value, e.protocol, e.endpoint)
       case FixedAddress(address) => e.from.routePolicy.None? && e.endpoint == address
       case Unbound => e.from.routePolicy.None? && e.from.routeTargetAddr.None?
  }

  /** Destination safety over whole runs. Whatever the requests say and however tasks interleave, a
      relay is made only for a session whose probe carried a signed token, and only to a destination
      that token's claims allow. */
  lemma RelaysStayWithinTokens(n: Node, actions: seq<Action>, e: NodeSystem.Event)
    requires e in Reach(n, actions).log && e.Relayed?
    ensures exists k :: 0 <= k < |Reach(n, actions).slots| && RelayedUnder(n, Reach(n, actions).slots[k], e)
  {
    hide Reach, StoreKnown, OwnersOk, AllWellShaped, OpsSafe, PolicyOpensEndpoint;
    var slots := Reach(n, actions).slots;
    ReachIsSafe(n, actions);
    assert EventSafe(n, slots, e);
    var k :| 0 <= k < |slots| && ShownBy(slots[k], e.from) && DestinationAllowed(n, slots[k].grant, e.protocol, e.endpoint);
    assert SlotOk(n, slots[k]);
    var grant := slots[k].grant;
    ProbeIsValidExactlyWhenGenuine(n.crypto, grant.request, n.nodeId, n.secret, grant.at, grant.claims);
    assert RelayedUnder(n, slots[k], e);
  }

  /** Exactly how far a token leaves the node open: requests can have every host and port relayed to, over
      both protocols, if and only if the token carries neither a policy hash nor a route, or the policy it
      hashes is open on every port of both protocols. */
  lemma DestinationIsOpenExactly(n: Node, request: ProbeRequest, claims: Claims, now: nat, identity: ProbeIdentity)
    requires AddressesAreShort(n.parse)
    requires VerifyProbeToken(n.crypto, request, n.nodeId, n.secret, now) == Valid(claims)
    requires IdentityFromClaims(n.crypto, claims, request.routePolicy) == Ok(identity)
    ensures BindingOf(claims).HashedPolicy? ==> request.routePolicy.Some?
    ensures EverythingResolves(n.parse, identity.routeTargetAddr, identity.routePolicy) <==>
      match BindingOf(claims)
      case HashedPolicy(_) => OpenOnEveryPort(request.routePolicy.value)
      case FixedAddress(_) => false
      case Unbound => true
  {
    hide VerifyProbeToken, EverythingResolves, OpenOnEveryPort, AddressesAreShort, Resolves;
    ProbeIsValidExactlyWhenGenuine(n.crypto, request, n.nodeId, n.secret, now, claims);
    EveryEndpointExactlyWhenOpen(n.parse, identity.routeTargetAddr, identity.routePolicy);
  }

  /** Under a hashed policy the session can be made to relay to exactly the endpoints the policy opens. */
  lemma PolicyDecidesDestinations(n: Node, request: ProbeRequest, claims: Claims, now: nat, identity: ProbeIdentity,
                                  protocol: RelayProtocol, endpoint: string)
    requires VerifyProbeToken(n.crypto, request, n.nodeId, n.secret, now) == Valid(claims)
    requires IdentityFromClaims(n.crypto, claims, request.routePolicy) == Ok(identity) && BindingOf(claims).HashedPolicy?
    ensures identity.routePolicy == request.routePolicy && request.routePolicy.Some?
    ensures n.crypto.hashPolicy(request.routePolicy.value) == claims.routePolicyHash
    ensures Resolves(n.parse, identity.routeTargetAddr, identity.routePolicy, protocol, endpoint)
      <==> PolicyOpensEndpoint(n.parse, request.routePolicy.value, protocol, endpoint)
  {
    hide VerifyProbeToken, Resolves, PolicyOpensEndpoint;
    PolicyEndpointsExactly(n.parse, identity.routeTargetAddr, identity.routePolicy.value, protocol, endpoint);
  }

  /** A session opened by a probe without a token is never the source of a relay. */
  lemma AnonymousSessionsNeverRelay(n: Node, actions: seq<Action>, e: NodeSystem.Event)
    requires e in Reach(n, actions).log && e.Relayed?
    ensures e.from.authenticated
  {
    hide Reach, StoreKnown, OwnersOk, AllWellShaped, OpsSafe, DestinationAllowed;
    var slots := Reach(n, actions).slots;
    ReachIsSafe(n, actions);
    RelaysStayWithinTokens(n, actions, e);
    var k :| 0 <= k < |slots| && RelayedUnder(n, slots[k], e);
    assert SlotOk(n, slots[k]);
  }

  // ---------------------------------------------------------------- session ids

  /** The id was built with this sequence number. */
  ghost predicate Numbered(id: string, sequence: nat) {
    exists t: Transport, peer: string, now: nat :: id == BuildSessionId(t, peer, now, sequence)
  }

  ghost predicate IdsOk(core: Core, slots: seq<Slot>) {
    && core.sequence == |slots| % TWO64
    && forall k :: 0 <= k < |slots| ==> Numbered(slots[k].id, (k + 1) % TWO64)
  }

  lemma NextSequence(count: nat)
    ensures (count % TWO64 + 1) % TWO64 == (count + 1) % TWO64
  {
  }

  lemma ExecuteKeepsIds(n: Node, slots: seq<Slot>, owner: nat, core: Core, op: Op, env: Env)
    requires IdsOk(core, slots)
    ensures IdsOk(Execute(n, core, op, env).core, SlotsAfter(slots, owner, Execute(n, core, op, env).events))
  {
    hide VerifyProbeToken, IdentityFromClaims, PlanTarget, IoResult, AfterIo, HasSessionTarget, BuildSessionId,
         AfterOpenData, AfterOpenRaw, AfterPlanData, AfterPlanRaw, ProbeDecision, RelayDataOps, RelayRawOps, EncodeDataOps,
         Numbered, NewSession, AfterRegister;
    var effect := Execute(n, core, op, env);
    var after := SlotsAfter(slots, owner, effect.events);
    if op.TakeSequence? {
      NextSequence(|slots|);
      NumberedByBuilding(op.transport, op.peer, env.idNow, effect.core.sequence);
      assert after[..|slots|] == slots;
    } else {
      assert |after| == |slots| && forall k :: 0 <= k < |slots| ==> after[k].id == slots[k].id;
    }
  }

  lemma NumberedByBuilding(t: Transport, peer: string, now: nat, sequence: nat)
    ensures Numbered(BuildSessionId(t, peer, now, sequence), sequence)
  {
  }

  lemma {:induction false} ReachKeepsIds(n: Node, actions: seq<Action>)
    ensures IdsOk(Reach(n, actions).core, Reach(n, actions).slots)
  {
    hide IdsOk, Execute, SlotsAfter, BindingFails;
    if actions == [] {
      InitialIds();
    } else {
      var last := |actions| - 1;
      var s := Reach(n, actions[..last]);
      ReachKeepsIds(n, actions[..last]);
      match actions[last]
      case Arrive(_, _, _) =>
      case Run(i, env) =>
        if i < |s.tasks| && s.tasks[i] != [] {
          ExecuteKeepsIds(n, s.slots, i, s.core, s.tasks[i][0], env);
        }
      case Purge(_) => PurgeKeepsIds(n, s, actions[last]);
    }
  }

  lemma PurgeKeepsIds(n: Node, s: System, action: Action)
    requires action.Purge? && IdsOk(s.core, s.slots)
    ensures IdsOk(Step(n, s, action).core, Step(n, s, action).slots)
  {
    hide Numbered;
  }

  lemma InitialIds()
    ensures IdsOk(Initial().core, Initial().slots)
  {
  }

  /** Session ids are pairwise distinct in every run of at most 2^64 probes, for every mix of
      transports, peers and clock readings. */
  lemma SessionIdsAreDistinct(n: Node, actions: seq<Action>, j: nat, k: nat)
    requires |Reach(n, actions).slots| <= TWO64 && j < k < |Reach(n, actions).slots|
    ensures Reach(n, actions).slots[j].id != Reach(n, actions).slots[k].id
  {
    hide Reach;
    var slots := Reach(n, actions).slots;
    ReachKeepsIds(n, actions);
    if slots[j].id == slots[k].id {
      DifferentNumbers(slots[j].id, j, k);
    }
  }

  lemma DifferentNumbers(id: string, j: nat, k: nat)
    requires j < k < TWO64
    ensures !Numbered(id, (j + 1) % TWO64) || !Numbered(id, (k + 1) % TWO64)
  {
    hide BuildSessionId;
    if Numbered(id, (j + 1) % TWO64) && Numbered(id, (k + 1) % TWO64) {
      var t1: Transport, p1: string, n1: nat :| id == BuildSessionId(t1, p1, n1, (j + 1) % TWO64);
      var t2: Transport, p2: string, n2: nat :| id == BuildSessionId(t2, p2, n2, (k + 1) % TWO64);
      SessionIdTellsSequence(t1, p1, n1, (j + 1) % TWO64, t2, p2, n2, (k + 1) % TWO64);
      assert false;
    }
  }

  /** Storing a session never overwrites one: the id is not in the store. */
  lemma RegisterNeverOverwrites(n: Node, actions: seq<Action>, i: nat)
    requires |Reach(n, actions).slots| <= TWO64
    requires i < |Reach(n, actions).tasks| && Reach(n, actions).tasks[i] != [] && Reach(n, actions).tasks[i][0].Register?
    ensures Reach(n, actions).tasks[i][0].id !in Reach(n, actions).core.store
  {
    hide Reach, OwnersOk, AllWellShaped, IdentityGranted, SessionGranted, GrantGenuine;
    var s := Reach(n, actions);
    var id := s.tasks[i][0].id;
    ReachIsSafe(n, actions);
    assert OpsSafe(n, s.slots, i, s.tasks[i]);
    assert OpSafe(n, s.slots, i, s.tasks[i][0]);
    var k :| 0 <= k < |s.slots| && OpenSlot(s.slots[k], i, id);
    if id in s.core.store {
      var j :| 0 <= j < |s.slots| && ShownBy(s.slots[j], SnapshotOf(s.core.store[id]));
      assert SlotOk(n, s.slots[j]);
      IdNamesOneSlot(n, actions, j, k);
    }
  }

  lemma IdNamesOneSlot(n: Node, actions: seq<Action>, j: nat, k: nat)
    requires |Reach(n, actions).slots| <= TWO64 && j < |Reach(n, actions).slots| && k < |Reach(n, actions).slots|
    ensures Reach(n, actions).slots[j].id == Reach(n, actions).slots[k].id ==> j == k
  {
    hide Reach;
    if j < k {
      SessionIdsAreDistinct(n, actions, j, k);
    } else if k < j {
      SessionIdsAreDistinct(n, actions, k, j);
    }
  }

  /** Every snapshot shown for an id, at any time in a run, is the one of the probe that was answered
      with that id: identity, policy, route and expiry never change. */
  lemma SnapshotsAreFixedAtProbe(n: Node, actions: seq<Action>, e: NodeSystem.Event, k: nat)
    requires |Reach(n, actions).slots| <= TWO64
    requires e in Reach(n, actions).log && e.Opened?
    requires k < |Reach(n, actions).slots| && Reach(n, actions).slots[k].id == e.snap.sessionId
    ensures
      var slot := Reach(n, actions).slots[k];
      slot.session.Some? && SnapshotOf(slot.session.value) == e.snap && SessionGranted(n, slot.session.value, slot.grant)
  {
    hide Reach, OwnersOk, AllWellShaped, SessionGranted, GrantGenuine, StoreKnown, OpsSafe;
    var slots := Reach(n, actions).slots;
    ReachIsSafe(n, actions);
    assert EventSafe(n, slots, e);
    var j :| 0 <= j < |slots| && ShownBy(slots[j], e.snap);
    assert SlotOk(n, slots[j]);
    IdNamesOneSlot(n, actions, j, k);
  }

  // ---------------------------------------------------------------- raw replies

  /** A raw reply has a known status and a bounded payload, so its encoding never saturates a length. */
  ghost predicate ReplyEncodable(reply: Reply) {
    reply.RawReply? ==> reply.status in Xau1.STATUSES && reply.replyBytes <= Xau1.MAX_RELAY_RESPONSE_BYTES
  }

  ghost predicate OpEncodable(op: Op) {
    op.Respond? ==> ReplyEncodable(op.reply)
  }

  ghost predicate AllEncodable(s: System) {
    && (forall i, p :: 0 <= i < |s.tasks| && 0 <= p < |s.tasks[i]| ==> OpEncodable(s.tasks[i][p]))
    && (forall e :: e in s.log && e.Replied? ==> ReplyEncodable(e.reply))
  }

  lemma PlanErrorsAreStatuses(parse: string -> Option<Ip>, data: DataRequest, route: Option<string>, policy: Option<RoutePolicy>)
    ensures PlanTarget(parse, data, route, policy).Err? ==> PlanTarget(parse, data, route, policy).error in Xau1.STATUSES
  {
    hide HostPort, ParseProtocol, MatchProtocol, PolicyAdmits, ReportsFirst, MatchPolicyTarget;
    ProtocolErrors();
    if policy.Some? && data.target.Some? {
      MatchIsDeclarative(parse, policy.value, data.target.value);
      MatchErrors(parse, policy.value, data.target.value);
    }
  }

  lemma ProtocolErrors()
    ensures forall text :: ParseProtocol(text).Err? ==> ParseProtocol(text).error == "target_protocol_unsupported"
  {
  }

  lemma MatchErrors(parse: string -> Option<Ip>, policy: RoutePolicy, target: SessionDataTarget)
    ensures MatchPolicyTarget(parse, policy, target).Err? ==>
      MatchPolicyTarget(parse, policy, target).error in {"target_protocol_unsupported", "target_not_allowed"}
  {
    hide RuleAdmits, MatchProtocol;
    MatchIsDeclarative(parse, policy, target);
  }

  lemma NextEncodable(n: Node, core: Core, op: Op, env: Env)
    requires OpEncodable(op)
    ensures forall p :: 0 <= p < |Execute(n, core, op, env).next| ==> OpEncodable(Execute(n, core, op, env).next[p])
    ensures forall e :: e in Execute(n, core, op, env).events && e.Replied? ==> ReplyEncodable(e.reply)
  {
    hide VerifyProbeToken, IdentityFromClaims, PlanTarget, IoResult, AfterIo, HasSessionTarget, BuildSessionId,
         ResolveRawOps, OpenDataEffect, ProbeDecision, ReplyEncodable, RelayRawOps, AfterOpenRaw, AfterPlanData, RelayDataOps,
         EncodeDataOps;
    match op
    case StartProbe(t, peer, request) => ProbeNextEncodable(n, t, peer, request, env.verifyNow);
    case OpenData(peer, data) => OpenDataEncodable(n, core, peer, data, env);
    case OpenRaw(transport, peer, raw) => OpenRawEncodable(core, transport, peer, raw, env);
    case ResolveRaw(_, _, _) => ResolveRawEncodable(n, op, env);
    case RelayRaw(_, _, _, _, _) => RelayRawEncodable(op, env);
    case ResolveData(_, _, _, _, _) => DataOpsEncodable(n, op, env);
    case RelayData(_, _, _, _, _, _) => DataOpsEncodable(n, op, env);
    case EncodeData(_, _, _, _, _, _) => DataOpsEncodable(n, op, env);
    case TakeSequence(_, _, _, _) => NotRaw();
    case Respond(reply) => SentEncodable(reply, env);
    case _ =>
  }

  lemma SentEncodable(reply: Reply, env: Env)
    requires ReplyEncodable(reply)
    ensures ReplyEncodable(Sent(reply, env))
  {
  }

  lemma NotRaw()
    ensures forall reply: Reply :: !reply.RawReply? ==> ReplyEncodable(reply)
  {
  }

  lemma ProbeNextEncodable(n: Node, t: Transport, peer: string, request: ProbeRequest, now: nat)
    ensures forall p :: 0 <= p < |ProbeDecision(n, t, peer, request, now)| ==>
      OpEncodable(ProbeDecision(n, t, peer, request, now)[p])
  {
    hide VerifyProbeToken, IdentityFromClaims;
  }

  lemma OpenDataEncodable(n: Node, core: Core, peer: string, data: DataRequest, env: Env)
    ensures forall p :: 0 <= p < |OpenDataEffect(n, core, peer, data, env).next| ==>
      OpEncodable(OpenDataEffect(n, core, peer, data, env).next[p])
    ensures forall e :: e in OpenDataEffect(n, core, peer, data, env).events ==> !e.Replied?
  {
    hide IoResult, AfterIo, HasSessionTarget;
  }

  lemma OpenRawEncodable(core: Core, transport: Transport, peer: string, raw: RawTunnel, env: Env)
    ensures forall p :: 0 <= p < |OpenRawEffect(core, transport, peer, raw, env).next| ==>
      OpEncodable(OpenRawEffect(core, transport, peer, raw, env).next[p])
    ensures forall e :: e in OpenRawEffect(core, transport, peer, raw, env).events ==> !e.Replied?
  {
    hide IoResult, AfterIo;
  }

  lemma ResolveRawEncodable(n: Node, op: Op, env: Env)
    requires op.ResolveRaw?
    ensures forall p :: 0 <= p < |ResolveRawOps(n, op, env)| ==> OpEncodable(ResolveRawOps(n, op, env)[p])
  {
    hide PlanTarget;
    PlanErrorsAreStatuses(n.parse, RawAsData(op.raw), op.snap.routeTargetAddr, op.snap.routePolicy);
  }

  lemma RelayRawEncodable(op: Op, env: Env)
    requires op.RelayRaw?
    ensures forall p :: 0 <= p < |RelayRawOps(op, env)| ==> OpEncodable(RelayRawOps(op, env)[p])
  {
  }

  lemma DataOpsEncodable(n: Node, op: Op, env: Env)
    ensures op.ResolveData? ==> forall p :: 0 <= p < |ResolveDataOps(n, op, env)| ==> OpEncodable(ResolveDataOps(n, op, env)[p])
    ensures op.RelayData? ==> forall p :: 0 <= p < |RelayDataOps(op, env)| ==> OpEncodable(RelayDataOps(op, env)[p])
    ensures op.EncodeData? ==> forall p :: 0 <= p < |EncodeDataOps(op, env)| ==> OpEncodable(EncodeDataOps(op, env)[p])
  {
    hide PlanTarget;
  }

  /** Every raw reply of every run can be encoded without saturating a length field. */
  lemma {:induction false} RawRepliesAreEncodable(n: Node, actions: seq<Action>)
    ensures AllEncodable(Reach(n, actions))
  {
    hide Execute, SlotsAfter, BindingFails, OpEncodable, ReplyEncodable;
    if actions == [] {
    } else {
      var last := |actions| - 1;
      var s := Reach(n, actions[..last]);
      RawRepliesAreEncodable(n, actions[..last]);
      match actions[last]
      case Arrive(transport, peer, message) => ArrivalEncodable(transport, peer, message);
      case Run(i, env) =>
        if i < |s.tasks| && s.tasks[i] != [] {
          NextEncodable(n, s.core, s.tasks[i][0], env);
        }
      case Purge(_) =>
    }
  }

  lemma ArrivalEncodable(transport: Transport, peer: string, message: Message)
    ensures forall p :: 0 <= p < |Arrival(transport, peer, message)| ==> OpEncodable(Arrival(transport, peer, message)[p])
  {
  }

  // ---------------------------------------------------------------- raw replies and their requests

  /** The messages that have arrived, one for every spawned task. */
  function Arrivals(actions: seq<Action>): seq<Message> {
    if actions == [] then []
    else
      var before := Arrivals(actions[..|actions| - 1]);
      match actions[|actions| - 1]
      case Arrive(_, _, message) => before + [message]
      case _ => before
  }

  /** An operation of a handler speaks of the raw packet the handler was given. */
  ghost predicate OpAbout(message: Message, op: Op) {
    && (op.OpenRaw? || op.ResolveRaw? || op.RelayRaw? ==> message == RawMessage(op.raw))
    && (op.Respond? ==> ReplyAbout(message, op.reply))
  }

  ghost predicate ReplyAbout(message: Message, reply: Reply) {
    reply.RawReply? ==> message.RawMessage? && reply.sessionId == message.raw.sessionId
  }

  ghost predicate AllAbout(s: System, messages: seq<Message>) {
    && |s.tasks| == |messages| && |s.log| == |s.doneBy|
    && (forall i :: 0 <= i < |s.tasks| ==> OpsAbout(messages[i], s.tasks[i]))
    && (forall j :: 0 <= j < |s.log| ==> s.doneBy[j] < |messages| && EventAbout(messages[s.doneBy[j]], s.log[j]))
  }

  ghost predicate OpsAbout(message: Message, ops: seq<Op>) {
    forall p :: 0 <= p < |ops| ==> OpAbout(message, ops[p])
  }

  ghost predicate EventAbout(message: Message, e: NodeSystem.Event) {
    e.Replied? ==> ReplyAbout(message, e.reply)
  }

  ghost predicate EffectAbout(message: Message, effect: Effect) {
    && OpsAbout(message, effect.next)
    && forall k :: 0 <= k < |effect.events| ==> EventAbout(message, effect.events[k])
  }

  predicate SpeaksOfNoPacket(op: Op) {
    !op.OpenRaw? && !op.ResolveRaw? && !op.RelayRaw? && (op.Respond? ==> !op.reply.RawReply?)
  }

  lemma PlainEffect(message: Message, effect: Effect)
    requires forall p :: 0 <= p < |effect.next| ==> SpeaksOfNoPacket(effect.next[p])
    requires forall k :: 0 <= k < |effect.events| ==> !effect.events[k].Replied?
    ensures EffectAbout(message, effect)
  {
  }

  lemma ProbeAbout(message: Message, n: Node, core: Core, op: Op, env: Env)
    requires op.StartProbe? || op.TakeSequence?
    ensures EffectAbout(message, Execute(n, core, op, env))
  {
    hide VerifyProbeToken, IdentityFromClaims, BuildSessionId, EffectAbout;
    PlainEffect(message, Execute(n, core, op, env));
  }

  lemma DataAbout(message: Message, n: Node, core: Core, op: Op, env: Env)
    requires op.OpenData? || op.ResolveData? || op.RelayData? || op.EncodeData?
    ensures EffectAbout(message, Execute(n, core, op, env))
  {
    hide EffectAbout, OpenDataEffect, ResolveDataOps, RelayDataOps, EncodeDataOps;
    var effect := Execute(n, core, op, env);
    match op
    case OpenData(peer, data) => OpenDataSpeaks(n, core, peer, data, env); PlainEffect(message, effect);
    case ResolveData(_, _, _, _, _) => ResolveDataSpeaks(n, op, env); PlainEffect(message, effect);
    case _ => RelayDataSpeaks(op, env); PlainEffect(message, effect);
  }

  lemma OpenDataSpeaks(n: Node, core: Core, peer: string, data: DataRequest, env: Env)
    ensures
      var effect := OpenDataEffect(n, core, peer, data, env);
      && (forall p :: 0 <= p < |effect.next| ==> SpeaksOfNoPacket(effect.next[p]))
      && (forall k :: 0 <= k < |effect.events| ==> !effect.events[k].Replied?)
  {
    hide IoResult, AfterIo, HasSessionTarget;
  }

  lemma ResolveDataSpeaks(n: Node, op: Op, env: Env)
    requires op.ResolveData?
    ensures forall p :: 0 <= p < |ResolveDataOps(n, op, env)| ==> SpeaksOfNoPacket(ResolveDataOps(n, op, env)[p])
  {
    hide PlanTarget;
  }

  lemma RelayDataSpeaks(op: Op, env: Env)
    ensures op.RelayData? ==>
      forall p :: 0 <= p < |RelayDataOps(op, env)| ==> SpeaksOfNoPacket(RelayDataOps(op, env)[p])
    ensures op.EncodeData? ==>
      forall p :: 0 <= p < |EncodeDataOps(op, env)| ==> SpeaksOfNoPacket(EncodeDataOps(op, env)[p])
  {
  }

  lemma RawAbout(message: Message, n: Node, core: Core, op: Op, env: Env)
    requires op.OpenRaw? || op.ResolveRaw? || op.RelayRaw?
    requires OpAbout(message, op)
    ensures EffectAbout(message, Execute(n, core, op, env))
  {
    hide PlanTarget, IoResult, AfterIo;
  }

  lemma OtherAbout(message: Message, n: Node, core: Core, op: Op, env: Env)
    requires !IsDecision(op) && OpAbout(message, op)
    ensures EffectAbout(message, Execute(n, core, op, env))
  {
    hide AfterIo, NewSession, AfterRegister;
  }

  lemma ExecuteAbout(message: Message, n: Node, core: Core, op: Op, env: Env)
    requires OpAbout(message, op)
    ensures EffectAbout(message, Execute(n, core, op, env))
  {
    hide Execute, OpAbout, EffectAbout;
    match op
    case StartProbe(_, _, _) => ProbeAbout(message, n, core, op, env);
    case TakeSequence(_, _, _, _) => ProbeAbout(message, n, core, op, env);
    case OpenRaw(_, _, _) => RawAbout(message, n, core, op, env);
    case ResolveRaw(_, _, _) => RawAbout(message, n, core, op, env);
    case RelayRaw(_, _, _, _, _) => RawAbout(message, n, core, op, env);
    case OpenData(_, _) => DataAbout(message, n, core, op, env);
    case ResolveData(_, _, _, _, _) => DataAbout(message, n, core, op, env);
    case RelayData(_, _, _, _, _, _) => DataAbout(message, n, core, op, env);
    case EncodeData(_, _, _, _, _, _) => DataAbout(message, n, core, op, env);
    case _ => OtherAbout(message, n, core, op, env);
  }

  lemma RunAbout(n: Node, s: System, messages: seq<Message>, i: nat, env: Env)
    requires AllAbout(s, messages) && i < |s.tasks| && s.tasks[i] != []
    ensures AllAbout(RunTask(n, s, i, env), messages)
  {
    hide Execute, SlotsAfter, BindingFails, OpAbout, EventAbout;
    ExecuteAbout(messages[i], n, s.core, s.tasks[i][0], env);
  }

  lemma {:induction false} RepliesAnswerTheirPackets(n: Node, actions: seq<Action>)
    ensures AllAbout(Reach(n, actions), Arrivals(actions))
  {
    hide RunTask, OpAbout, EventAbout, Arrival;
    if actions != [] {
      var last := |actions| - 1;
      var s := Reach(n, actions[..last]);
      RepliesAnswerTheirPackets(n, actions[..last]);
      match actions[last]
      case Arrive(transport, peer, message) => ArrivalAbout(transport, peer, message);
      case Run(i, env) =>
        if i < |s.tasks| && s.tasks[i] != [] {
          RunAbout(n, s, Arrivals(actions[..last]), i, env);
        }
      case Purge(_) =>
    }
  }

  lemma ArrivalAbout(transport: Transport, peer: string, message: Message)
    ensures OpsAbout(message, Arrival(transport, peer, message))
  {
  }

  /** Every raw packet that arrived was parsed from a frame; `utf8` encodes a text as bytes. */
  ghost predicate PacketsAreFrames(utf8: string -> seq<byte>, messages: seq<Message>) {
    forall i :: 0 <= i < |messages| && messages[i].RawMessage? ==>
      exists frame :: Xau1.ParseFrame(frame).Ok? && Xau1.ParseFrame(frame).value.sessionId == utf8(messages[i].raw.sessionId)
  }

  /** Both ends of the raw tunnel, over whole runs: whatever raw reply a handler sends, the client
      decodes the frame to the session id of the packet that handler was given, to the handler's status
      and to the payload, of the counted size. */
  lemma ClientReadsEveryRawReply(
    n: Node, actions: seq<Action>, j: nat, utf8: string -> seq<byte>, payload: seq<byte>)
    requires PacketsAreFrames(utf8, Arrivals(actions))
    requires j < |Reach(n, actions).log| && Reach(n, actions).log[j].Replied? && Reach(n, actions).log[j].reply.RawReply?
    requires |payload| == Reach(n, actions).log[j].reply.replyBytes
    ensures |Reach(n, actions).doneBy| == |Reach(n, actions).log| && Reach(n, actions).doneBy[j] < |Arrivals(actions)|
    ensures
      var reply := Reach(n, actions).log[j].reply;
      var message := Arrivals(actions)[Reach(n, actions).doneBy[j]];
      && message.RawMessage? && reply.sessionId == message.raw.sessionId && Xau1.IsAscii(reply.status)
      && Xau1.DecodeReply(Xau1.ReplyFrame(utf8(reply.sessionId), reply.status, payload))
         == Ok(Xau1.RawResponse(Xau1.StatusCode(reply.status), utf8(message.raw.sessionId), Ascii(reply.status), payload))
  {
    hide Reach, Xau1.DecodeReply, Xau1.ReplyFrame, Xau1.ParseFrame, Xau1.StatusCode;
    var s := Reach(n, actions);
    var messages := Arrivals(actions);
    RepliesAnswerTheirPackets(n, actions);
    RawRepliesAreEncodable(n, actions);
    var reply := s.log[j].reply;
    assert s.log[j] in s.log;
    assert EventAbout(messages[s.doneBy[j]], s.log[j]);
    var frame :| Xau1.ParseFrame(frame).Ok? && Xau1.ParseFrame(frame).value.sessionId == utf8(messages[s.doneBy[j]].raw.sessionId);
    Xau1.ReplyRoundTrip(frame, reply.status, payload);
  }
}
