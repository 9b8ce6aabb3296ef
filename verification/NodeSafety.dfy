/** What every reachable state of the node keeps about sessions, and where relays may go. */
module NodeSafety {
  import opened Text
  import opened Cidr
  import opened RoutePolicies
  import opened SessionStores
  import opened Auth
  import opened Session
  import opened NodeSystem
  import opened NodeShape

  // ---------------------------------------------------------------- what a grant binds

  /** A token grant rests on an accepted token. */
  ghost predicate GrantGenuine(n: Node, grant: Grant) {
    match grant
    case Anonymous(request) => true
    case Token(request, claims, at) =>
      VerifyProbeToken(n.crypto, request, n.nodeId, n.secret, at) == Valid(claims)
  }

  /** The identity a grant gives its session. */
  ghost predicate IdentityGranted(n: Node, identity: ProbeIdentity, grant: Grant) {
    match grant
    case Anonymous(request) => identity == IdentityFromRequest(request)
    case Token(request, claims, at) => IdentityFromClaims(n.crypto, claims, request.routePolicy) == Ok(identity)
  }

  /** The session is the one its probe created: identity, policy, route and expiry. */
  ghost predicate SessionGranted(n: Node, session: UdpSession, grant: Grant) {
    exists identity :: IdentityGranted(n, identity, grant)
      && session == NewSession(session.sessionId, identity, session.lastPeer, session.createdAt)
  }

  ghost predicate SlotOk(n: Node, slot: Slot) {
    && GrantGenuine(n, slot.grant)
    && (slot.session.Some? ==> slot.session.value.sessionId == slot.id && SessionGranted(n, slot.session.value, slot.grant))
  }

  /** A snapshot shows a session some probe created. */
  ghost predicate ShownBy(slot: Slot, snap: Snapshot) {
    slot.session.Some? && SnapshotOf(slot.session.value) == snap
  }

  ghost predicate Known(slots: seq<Slot>, snap: Snapshot) {
    exists k :: 0 <= k < |slots| && ShownBy(slots[k], snap)
  }

  /** What a token ties its session to: the policy whose hash it carries, else the address of its
      route, else nothing. */
  datatype Binding = HashedPolicy(hash: string) | FixedAddress(address: string) | Unbound

  function BindingOf(claims: Claims): Binding {
    if claims.routePolicyHash.Some? then HashedPolicy(claims.routePolicyHash.value)
    else if claims.route.Some? then FixedAddress(Trim(claims.route.value.targetAddr))
    else Unbound
  }

  /** A destination the token's claims allow. Under a hashed policy it is the endpoint of a host and port
      that the policy's own rules open; under a fixed address it is that address; a token with neither
      leaves the destination to the request. */
  ghost predicate DestinationAllowed(n: Node, grant: Grant, protocol: RelayProtocol, endpoint: string) {
    && grant.Token?
    && match BindingOf(grant.claims)
       case HashedPolicy(hash) =>
         && grant.request.routePolicy.Some?
         && n.crypto.hashPolicy(grant.request.routePolicy.value) == Some(hash)
         && PolicyOpensEndpoint(n.parse, grant.request.routePolicy.value, protocol, endpoint)
       case FixedAddress(address) => endpoint == address
       case Unbound => true
  }

  ghost predicate RelayAllowed(n: Node, slots: seq<Slot>, snap: Snapshot, protocol: RelayProtocol, endpoint: string) {
    exists k :: 0 <= k < |slots| && ShownBy(slots[k], snap) && DestinationAllowed(n, slots[k].grant, protocol, endpoint)
  }

  // ---------------------------------------------------------------- the invariant

  ghost predicate OpSafe(n: Node, slots: seq<Slot>, owner: nat, op: Op) {
    match op
    case TakeSequence(_, _, identity, grant) => GrantGenuine(n, grant) && IdentityGranted(n, identity, grant)
    case Register(id, identity, _) =>
      exists k :: 0 <= k < |slots| && OpenSlot(slots[k], owner, id) && IdentityGranted(n, identity, slots[k].grant)
    case ResolveData(_, _, data, _, snap) =>
      Known(slots, snap) && (HasSessionTarget(data) || snap.routeTargetAddr.Some? ==> snap.authenticated)
    case RelayData(_, _, _, snap, plan, _) => RelayAllowed(n, slots, snap, plan.protocol, plan.endpoint)
    case ResolveRaw(_, _, snap) => Known(slots, snap) && snap.authenticated
    case RelayRaw(_, _, snap, plan, _) => RelayAllowed(n, slots, snap, UdpRelay, plan.endpoint)
    case _ => true
  }

  ghost predicate OpenSlot(slot: Slot, owner: nat, id: string) {
    slot.owner == owner && slot.id == id && slot.session.None?
  }

  ghost predicate OpsSafe(n: Node, slots: seq<Slot>, owner: nat, ops: seq<Op>) {
    forall p :: 0 <= p < |ops| ==> OpSafe(n, slots, owner, ops[p])
  }

  ghost predicate EventSafe(n: Node, slots: seq<Slot>, e: NodeSystem.Event) {
    match e
    case Opened(snap) => Known(slots, snap)
    case Relayed(snap, protocol, endpoint, _) => RelayAllowed(n, slots, snap, protocol, endpoint)
    case _ => true
  }

  ghost predicate StoreKnown(slots: seq<Slot>, store: Table) {
    forall id :: id in store ==> store[id].sessionId == id && Known(slots, SnapshotOf(store[id]))
  }

  ghost predicate SlotsOk(n: Node, slots: seq<Slot>) {
    forall k :: 0 <= k < |slots| ==> SlotOk(n, slots[k])
  }

  ghost predicate MayTakeSlot(ops: seq<Op>) {
    exists p :: 0 <= p < |ops| && (ops[p].StartProbe? || ops[p].TakeSequence?)
  }

  /** Each task takes at most one slot, and takes it before it can hold a Register. */
  ghost predicate OwnersOk(s: System) {
    && (forall k :: 0 <= k < |s.slots| ==> s.slots[k].owner < |s.tasks|)
    && (forall j, k :: 0 <= j < k < |s.slots| ==> s.slots[j].owner != s.slots[k].owner)
    && (forall i, k :: 0 <= i < |s.tasks| && 0 <= k < |s.slots| && MayTakeSlot(s.tasks[i]) ==> s.slots[k].owner != i)
  }

  ghost predicate Safe(n: Node, s: System) {
    && SlotsOk(n, s.slots)
    && StoreKnown(s.slots, s.core.store)
    && (forall i :: 0 <= i < |s.tasks| ==> OpsSafe(n, s.slots, i, s.tasks[i]))
    && (forall e :: e in s.log ==> EventSafe(n, s.slots, e))
    && OwnersOk(s)
    && AllWellShaped(s)
  }

  ghost predicate AllWellShaped(s: System) {
    forall i :: 0 <= i < |s.tasks| ==> WellShaped(s.tasks[i])
  }

  // ---------------------------------------------------------------- slots only grow

  /** Later slots keep every earlier slot's id, grant and owner, and every session already stored. */
  ghost predicate Grows(was: seq<Slot>, after: seq<Slot>) {
    && |was| <= |after|
    && forall k :: 0 <= k < |was| ==>
         && after[k].id == was[k].id && after[k].grant == was[k].grant && after[k].owner == was[k].owner
         && (was[k].session.Some? ==> after[k].session == was[k].session)
  }

  lemma KnownGrows(n: Node, was: seq<Slot>, after: seq<Slot>, snap: Snapshot, protocol: RelayProtocol, endpoint: string)
    requires Grows(was, after)
    ensures Known(was, snap) ==> Known(after, snap)
    ensures RelayAllowed(n, was, snap, protocol, endpoint) ==> RelayAllowed(n, after, snap, protocol, endpoint)
  {
    if Known(was, snap) {
      var k :| 0 <= k < |was| && ShownBy(was[k], snap);
      assert ShownBy(after[k], snap);
    }
    if RelayAllowed(n, was, snap, protocol, endpoint) {
      var k :| 0 <= k < |was| && ShownBy(was[k], snap) && DestinationAllowed(n, was[k].grant, protocol, endpoint);
      assert ShownBy(after[k], snap) && DestinationAllowed(n, after[k].grant, protocol, endpoint);
    }
  }

  /** An operation other than a Register stays safe when slots grow. */
  lemma OpSafeGrows(n: Node, was: seq<Slot>, after: seq<Slot>, owner: nat, op: Op)
    requires Grows(was, after) && OpSafe(n, was, owner, op)
    requires op.Register? ==> forall k :: 0 <= k < |was| && was[k].owner == owner ==> after[k] == was[k]
    ensures OpSafe(n, after, owner, op)
  {
    match op
    case Register(id, identity, _) =>
      var k :| 0 <= k < |was| && OpenSlot(was[k], owner, id) && IdentityGranted(n, identity, was[k].grant);
      assert OpenSlot(after[k], owner, id) && IdentityGranted(n, identity, after[k].grant);
    case ResolveData(_, _, _, _, snap) => KnownGrows(n, was, after, snap, UdpRelay, "");
    case RelayData(_, _, _, snap, plan, _) => KnownGrows(n, was, after, snap, plan.protocol, plan.endpoint);
    case ResolveRaw(_, _, snap) => KnownGrows(n, was, after, snap, UdpRelay, "");
    case RelayRaw(_, _, snap, plan, _) => KnownGrows(n, was, after, snap, UdpRelay, plan.endpoint);
    case _ =>
  }

  lemma EventSafeGrows(n: Node, was: seq<Slot>, after: seq<Slot>, e: NodeSystem.Event)
    requires Grows(was, after) && EventSafe(n, was, e)
    ensures EventSafe(n, after, e)
  {
    match e
    case Opened(snap) => KnownGrows(n, was, after, snap, UdpRelay, "");
    case Relayed(snap, protocol, endpoint, _) => KnownGrows(n, was, after, snap, protocol, endpoint);
    case _ =>
  }

  lemma StoreKnownGrows(n: Node, was: seq<Slot>, after: seq<Slot>, store: Table)
    requires Grows(was, after) && StoreKnown(was, store)
    ensures StoreKnown(after, store)
  {
    forall id | id in store ensures store[id].sessionId == id && Known(after, SnapshotOf(store[id])) {
      KnownGrows(n, was, after, SnapshotOf(store[id]), UdpRelay, "");
    }
  }

  // ---------------------------------------------------------------- where a resolved relay goes

  /** The heart of destination safety: whatever a request says, a plan made for a known session that
      passed the authentication check goes where the session's token allows. */
  lemma PlanIsAllowed(n: Node, slots: seq<Slot>, snap: Snapshot, data: DataRequest)
    requires SlotsOk(n, slots) && Known(slots, snap)
    requires HasSessionTarget(data) || snap.routeTargetAddr.Some? ==> snap.authenticated
    requires PlanTarget(n.parse, data, snap.routeTargetAddr, snap.routePolicy).Ok?
    requires PlanTarget(n.parse, data, snap.routeTargetAddr, snap.routePolicy).value.Some?
    ensures
      var plan := PlanTarget(n.parse, data, snap.routeTargetAddr, snap.routePolicy).value.value;
      RelayAllowed(n, slots, snap, plan.protocol, plan.endpoint)
  {
    var k :| 0 <= k < |slots| && ShownBy(slots[k], snap);
    var slot := slots[k];
    assert SlotOk(n, slot);
    var identity :| IdentityGranted(n, identity, slot.grant)
      && slot.session.value == NewSession(slot.session.value.sessionId, identity, slot.session.value.lastPeer, slot.session.value.createdAt);
    assert snap.authenticated == identity.credentialValid && snap.routeTargetAddr == identity.routeTargetAddr
      && snap.routePolicy == identity.routePolicy;
    match slot.grant
    case Anonymous(_) =>
      OnlyNamedTargetsResolve(n.parse, data);
      assert false;
    case Token(request, claims, at) =>
      PlanUnderClaims(n, request, claims, at, identity, data);
  }

  lemma PlanUnderClaims(n: Node, request: ProbeRequest, claims: Claims, at: nat, identity: ProbeIdentity, data: DataRequest)
    requires VerifyProbeToken(n.crypto, request, n.nodeId, n.secret, at) == Valid(claims)
    requires IdentityFromClaims(n.crypto, claims, request.routePolicy) == Ok(identity)
    requires PlanTarget(n.parse, data, identity.routeTargetAddr, identity.routePolicy).Ok?
    requires PlanTarget(n.parse, data, identity.routeTargetAddr, identity.routePolicy).value.Some?
    ensures
      var plan := PlanTarget(n.parse, data, identity.routeTargetAddr, identity.routePolicy).value.value;
      DestinationAllowed(n, Token(request, claims, at), plan.protocol, plan.endpoint)
  {
    hide PlanTarget, PolicyOpensEndpoint, VerifyProbeToken, IsBlank;
    ProbeIsValidExactlyWhenGenuine(n.crypto, request, n.nodeId, n.secret, at, claims);
    var plan := PlanTarget(n.parse, data, identity.routeTargetAddr, identity.routePolicy).value.value;
    if claims.routePolicyHash.Some? {
      assert ResolvesTo(n.parse, data, identity.routeTargetAddr, identity.routePolicy, plan.protocol, plan.endpoint);
      PolicyEndpointsExactly(n.parse, identity.routeTargetAddr, identity.routePolicy.value, plan.protocol, plan.endpoint);
    } else if claims.route.Some? {
      FixedRouteDecidesAddress(n.parse, data, claims.route.value.targetAddr);
    }
  }

  /** The raw tunnel always asks for UDP, so its plan is a UDP plan. */
  lemma RawPlanIsUdp(parse: string -> Option<Ip>, raw: RawTunnel, sessionTarget: Option<string>, policy: Option<RoutePolicy>)
    requires PlanTarget(parse, RawAsData(raw), sessionTarget, policy).Ok?
    requires PlanTarget(parse, RawAsData(raw), sessionTarget, policy).value.Some?
    ensures PlanTarget(parse, RawAsData(raw), sessionTarget, policy).value.value.protocol == UdpRelay
  {
    hide MatchPolicyTarget, HostPort, Trim, Lower;
    LowerPlain("udp");
    assert ParseProtocol("udp") == Ok(UdpRelay);
  }

  // ---------------------------------------------------------------- one step keeps the invariant

  ghost predicate OwnersDistinct(slots: seq<Slot>) {
    forall j, k :: 0 <= j < k < |slots| ==> slots[j].owner != slots[k].owner
  }

  ghost predicate Owns(slots: seq<Slot>, owner: nat) {
    exists k :: 0 <= k < |slots| && slots[k].owner == owner
  }

  /** What one operation of task `owner` does to the invariant's parts. */
  ghost predicate EffectSafe(n: Node, slots: seq<Slot>, owner: nat, effect: Effect) {
    var after := SlotsAfter(slots, owner, effect.events);
    && SlotsOk(n, after)
    && Grows(slots, after)
    && (forall k :: 0 <= k < |slots| && slots[k].owner != owner ==> after[k] == slots[k])
    && StoreKnown(after, effect.core.store)
    && OpsSafe(n, after, owner, effect.next)
    && (forall e :: e in effect.events ==> EventSafe(n, after, e))
  }

  predicate PlainOp(op: Op) {
    op.Count? || op.SetLast? || op.CloseIo? || op.Respond? || op.EncodeData?
  }

  /** An effect that leaves slots alone is safe when its store, operations and events are. */
  lemma QuietEffect(n: Node, slots: seq<Slot>, owner: nat, effect: Effect)
    requires SlotsOk(n, slots) && StoreKnown(slots, effect.core.store)
    requires OpsSafe(n, slots, owner, effect.next)
    requires |effect.events| <= 1
    requires forall e :: e in effect.events ==> !e.Granted? && !e.Stored? && EventSafe(n, slots, e)
    ensures EffectSafe(n, slots, owner, effect)
    ensures SlotsAfter(slots, owner, effect.events) == slots
  {
    hide SlotsOk, StoreKnown, OpsSafe, EventSafe;
    if effect.events != [] {
      assert effect.events[0] in effect.events;
    }
  }

  lemma PlainOpsSafe(n: Node, slots: seq<Slot>, owner: nat, ops: seq<Op>)
    requires forall p :: 0 <= p < |ops| ==> PlainOp(ops[p])
    ensures OpsSafe(n, slots, owner, ops)
  {
  }

  lemma IoKeepsStoreKnown(slots: seq<Slot>, store: Table, id: string, peer: string, rx: nat, tx: nat, now: nat)
    requires StoreKnown(slots, store)
    ensures StoreKnown(slots, AfterIo(store, id, peer, rx, tx, now))
    ensures IoResult(store, id, now).Ok? ==> Known(slots, IoResult(store, id, now).value)
  {
  }

  lemma PlainSafe(n: Node, slots: seq<Slot>, owner: nat, core: Core, op: Op, env: Env)
    requires SlotsOk(n, slots) && StoreKnown(slots, core.store) && PlainOp(op)
    ensures EffectSafe(n, slots, owner, Execute(n, core, op, env))
    ensures SlotsAfter(slots, owner, Execute(n, core, op, env).events) == slots
  {
    hide SlotsOk, StoreKnown, OpsSafe, EffectSafe, AfterIo;
    var effect := Execute(n, core, op, env);
    PlainOpsSafe(n, slots, owner, effect.next);
    if op.CloseIo? {
      IoKeepsStoreKnown(slots, core.store, op.id, op.peer, 0, op.tx, env.closeNow);
    }
    QuietEffect(n, slots, owner, effect);
  }

  lemma StartProbeSafe(n: Node, slots: seq<Slot>, owner: nat, core: Core, op: Op, env: Env)
    requires SlotsOk(n, slots) && StoreKnown(slots, core.store) && op.StartProbe?
    ensures EffectSafe(n, slots, owner, Execute(n, core, op, env))
    ensures SlotsAfter(slots, owner, Execute(n, core, op, env).events) == slots
  {
    hide SlotsOk, StoreKnown, OpsSafe, EffectSafe;
    var decision := VerifyProbeToken(n.crypto, op.request, n.nodeId, n.secret, env.verifyNow);
    AfterAuthSafe(n, slots, owner, op.transport, op.peer, op.request, env.verifyNow, decision);
    QuietEffect(n, slots, owner, Execute(n, core, op, env));
  }

  lemma AfterAuthSafe(n: Node, slots: seq<Slot>, owner: nat, t: Transport, peer: string, request: ProbeRequest,
                      now: nat, decision: AuthDecision)
    requires decision == VerifyProbeToken(n.crypto, request, n.nodeId, n.secret, now)
    ensures OpsSafe(n, slots, owner, AfterAuth(n, t, peer, request, now, decision))
  {
    hide VerifyProbeToken, IdentityFromClaims;
  }

  lemma OpenSafe(n: Node, slots: seq<Slot>, owner: nat, core: Core, op: Op, env: Env)
    requires SlotsOk(n, slots) && StoreKnown(slots, core.store) && (op.OpenData? || op.OpenRaw?)
    ensures EffectSafe(n, slots, owner, Execute(n, core, op, env))
    ensures SlotsAfter(slots, owner, Execute(n, core, op, env).events) == slots
  {
    hide SlotsOk, StoreKnown, OpsSafe, EffectSafe, AfterIo, IoResult, AfterOpenData, AfterOpenRaw;
    var effect := Execute(n, core, op, env);
    match op
    case OpenData(peer, data) =>
      var id := NonBlank(data.sessionId);
      if id.Some? && data.payload.Some? && n.payloadBytes(data.payload.value).Some? {
        var bytes := n.payloadBytes(data.payload.value).value;
        var io := IoResult(core.store, id.value, env.lockNow);
        IoKeepsStoreKnown(slots, core.store, id.value, peer, bytes, 0, env.lockNow);
        AfterOpenSafe(n, slots, owner, peer, id.value, data, NoRaw(), bytes, io);
      } else {
        PlainOpsSafe(n, slots, owner, effect.next);
      }
      QuietEffect(n, slots, owner, effect);
    case OpenRaw(transport, peer, raw) =>
      if transport.Tcp? {
        PlainOpsSafe(n, slots, owner, effect.next);
      } else {
        var io := IoResult(core.store, raw.sessionId, env.lockNow);
        IoKeepsStoreKnown(slots, core.store, raw.sessionId, peer, raw.payloadBytes, 0, env.lockNow);
        AfterOpenSafe(n, slots, owner, peer, "", RawAsData(raw), raw, 0, io);
      }
      QuietEffect(n, slots, owner, effect);
  }

  function NoRaw(): RawTunnel {
    RawTunnel("", None, "", 0, 0)
  }

  lemma AfterOpenSafe(n: Node, slots: seq<Slot>, owner: nat, peer: string, id: string, data: DataRequest,
                      raw: RawTunnel, bytes: nat, io: Result<Snapshot, SessionError>)
    requires io.Ok? ==> Known(slots, io.value)
    ensures OpsSafe(n, slots, owner, AfterOpenData(peer, id, data, bytes, io))
    ensures OpsSafe(n, slots, owner, AfterOpenRaw(peer, raw, io))
    ensures forall e :: e in OpenEvents(io) ==> EventSafe(n, slots, e)
  {
    hide Known, HasSessionTarget;
  }

  lemma ResolveDataSafe(n: Node, slots: seq<Slot>, owner: nat, core: Core, op: Op, env: Env)
    requires SlotsOk(n, slots) && StoreKnown(slots, core.store) && op.ResolveData?
    requires OpSafe(n, slots, owner, op)
    ensures EffectSafe(n, slots, owner, Execute(n, core, op, env))
    ensures SlotsAfter(slots, owner, Execute(n, core, op, env).events) == slots
  {
    hide SlotsOk, StoreKnown, EffectSafe, PlanTarget, Known, RelayAllowed, HasSessionTarget;
    var plan := PlanTarget(n.parse, op.data, op.snap.routeTargetAddr, op.snap.routePolicy);
    if plan.Ok? && plan.value.Some? {
      PlanIsAllowed(n, slots, op.snap, op.data);
    }
    QuietEffect(n, slots, owner, Execute(n, core, op, env));
  }

  lemma ResolveRawSafe(n: Node, slots: seq<Slot>, owner: nat, core: Core, op: Op, env: Env)
    requires SlotsOk(n, slots) && StoreKnown(slots, core.store) && op.ResolveRaw?
    requires OpSafe(n, slots, owner, op)
    ensures EffectSafe(n, slots, owner, Execute(n, core, op, env))
    ensures SlotsAfter(slots, owner, Execute(n, core, op, env).events) == slots
  {
    hide SlotsOk, StoreKnown, EffectSafe, PlanTarget, Known, RelayAllowed, HasSessionTarget;
    var plan := PlanTarget(n.parse, RawAsData(op.raw), op.snap.routeTargetAddr, op.snap.routePolicy);
    if plan.Ok? && plan.value.Some? {
      PlanIsAllowed(n, slots, op.snap, RawAsData(op.raw));
      RawPlanIsUdp(n.parse, op.raw, op.snap.routeTargetAddr, op.snap.routePolicy);
    }
    QuietEffect(n, slots, owner, Execute(n, core, op, env));
  }

  lemma RelaySafe(n: Node, slots: seq<Slot>, owner: nat, core: Core, op: Op, env: Env)
    requires SlotsOk(n, slots) && StoreKnown(slots, core.store) && (op.RelayData? || op.RelayRaw?)
    requires OpSafe(n, slots, owner, op)
    ensures EffectSafe(n, slots, owner, Execute(n, core, op, env))
    ensures SlotsAfter(slots, owner, Execute(n, core, op, env).events) == slots
  {
    hide SlotsOk, StoreKnown, EffectSafe, OpsSafe, RelayAllowed;
    var effect := Execute(n, core, op, env);
    PlainOpsSafe(n, slots, owner, effect.next);
    QuietEffect(n, slots, owner, effect);
  }

  lemma TakeSequenceSafe(n: Node, slots: seq<Slot>, owner: nat, core: Core, op: Op, env: Env)
    requires SlotsOk(n, slots) && StoreKnown(slots, core.store) && op.TakeSequence?
    requires OpSafe(n, slots, owner, op)
    ensures EffectSafe(n, slots, owner, Execute(n, core, op, env))
  {
    hide GrantGenuine, IdentityGranted, BuildSessionId;
    var effect := Execute(n, core, op, env);
    var after := SlotsAfter(slots, owner, effect.events);
    var id := effect.events[0].id;
    assert after == slots + [Slot(id, op.grant, owner, None)];
    assert OpenSlot(after[|slots|], owner, id) && IdentityGranted(n, op.identity, after[|slots|].grant);
    StoreKnownGrows(n, slots, after, core.store);
  }

  lemma FillOpenSlot(n: Node, slots: seq<Slot>, owner: nat, k: nat, session: UdpSession)
    requires SlotsOk(n, slots) && OwnersDistinct(slots)
    requires k < |slots| && OpenSlot(slots[k], owner, session.sessionId)
    requires SessionGranted(n, session, slots[k].grant)
    ensures
      var after := FillSlots(slots, owner, session);
      && SlotsOk(n, after) && Grows(slots, after) && Known(after, SnapshotOf(session))
      && (forall j :: 0 <= j < |slots| && slots[j].owner != owner ==> after[j] == slots[j])
  {
    hide GrantGenuine, SessionGranted;
    var after := FillSlots(slots, owner, session);
    assert ShownBy(after[k], SnapshotOf(session));
    forall j | 0 <= j < |slots| ensures SlotOk(n, after[j]) && (j == k || after[j] == slots[j]) {
      assert SlotOk(n, slots[j]);
    }
  }

  lemma RegisterKeepsStoreKnown(slots: seq<Slot>, store: Table, session: UdpSession, now: nat)
    requires StoreKnown(slots, store) && Known(slots, SnapshotOf(session))
    ensures StoreKnown(slots, AfterRegister(store, session, now))
  {
    hide Known;
  }

  lemma RegisterSafe(n: Node, slots: seq<Slot>, owner: nat, core: Core, op: Op, env: Env)
    requires SlotsOk(n, slots) && StoreKnown(slots, core.store) && op.Register? && OwnersDistinct(slots)
    requires OpSafe(n, slots, owner, op)
    ensures EffectSafe(n, slots, owner, Execute(n, core, op, env))
  {
    hide SlotsOk, StoreKnown, OwnersDistinct, IdentityGranted, NewSession, Known, Grows, SessionGranted, AfterRegister,
         FillSlots;
    var effect := Execute(n, core, op, env);
    var session := effect.events[0].session;
    var after := FillSlots(slots, owner, session);
    assert SlotsAfter(slots, owner, effect.events) == after;
    var k :| 0 <= k < |slots| && OpenSlot(slots[k], owner, op.id) && IdentityGranted(n, op.identity, slots[k].grant);
    NewSessionGranted(n, session, op.id, op.identity, op.peer, env.createdNow, slots[k].grant);
    FillOpenSlot(n, slots, owner, k, session);
    StoreKnownGrows(n, slots, after, core.store);
    RegisterKeepsStoreKnown(after, core.store, session, env.lockNow);
  }

  lemma NewSessionGranted(n: Node, session: UdpSession, id: string, identity: ProbeIdentity, peer: string, now: nat, grant: Grant)
    requires session == NewSession(id, identity, peer, now) && IdentityGranted(n, identity, grant)
    ensures session.sessionId == id && SessionGranted(n, session, grant)
  {
  }

  lemma EffectIsSafe(n: Node, slots: seq<Slot>, owner: nat, core: Core, op: Op, env: Env)
    requires SlotsOk(n, slots) && StoreKnown(slots, core.store) && OwnersDistinct(slots)
    requires OpSafe(n, slots, owner, op)
    ensures EffectSafe(n, slots, owner, Execute(n, core, op, env))
    ensures !op.Register? && !op.TakeSequence? ==> SlotsAfter(slots, owner, Execute(n, core, op, env).events) == slots
  {
    hide SlotsOk, StoreKnown, OwnersDistinct, OpSafe, EffectSafe, Execute, SlotsAfter;
    match op
    case StartProbe(_, _, _) => StartProbeSafe(n, slots, owner, core, op, env);
    case TakeSequence(_, _, _, _) => TakeSequenceSafe(n, slots, owner, core, op, env);
    case Register(_, _, _) => RegisterSafe(n, slots, owner, core, op, env);
    case OpenData(_, _) => OpenSafe(n, slots, owner, core, op, env);
    case OpenRaw(_, _, _) => OpenSafe(n, slots, owner, core, op, env);
    case ResolveData(_, _, _, _, _) => ResolveDataSafe(n, slots, owner, core, op, env);
    case ResolveRaw(_, _, _) => ResolveRawSafe(n, slots, owner, core, op, env);
    case RelayData(_, _, _, _, _, _) => RelaySafe(n, slots, owner, core, op, env);
    case RelayRaw(_, _, _, _, _) => RelaySafe(n, slots, owner, core, op, env);
    case _ => PlainSafe(n, slots, owner, core, op, env);
  }

  /** Which slot operations an operation may leave to do. */
  ghost predicate NextSlotOps(op: Op, next: seq<Op>) {
    forall p :: 0 <= p < |next| ==>
      !next[p].StartProbe? && (next[p].TakeSequence? ==> op.StartProbe?) && (next[p].Register? ==> op.TakeSequence?)
  }

  lemma PlainNext(op: Op, next: seq<Op>)
    requires forall p :: 0 <= p < |next| ==> !IsSlotOp(next[p])
    ensures NextSlotOps(op, next)
  {
  }

  lemma NextTakesNoSlot(n: Node, core: Core, op: Op, env: Env)
    ensures NextSlotOps(op, Execute(n, core, op, env).next)
  {
    hide Execute, NextSlotOps;
    match op
    case StartProbe(transport, peer, request) => StartProbeNext(n, core, op, env);
    case TakeSequence(transport, peer, identity, grant) => SequenceNext(n, core, op, env);
    case OpenData(peer, data) => OpenNext(n, core, op, env);
    case OpenRaw(transport, peer, raw) => OpenNext(n, core, op, env);
    case ResolveData(_, _, _, _, _) => ResolveNext(n, core, op, env);
    case ResolveRaw(_, _, _) => ResolveNext(n, core, op, env);
    case _ => OtherNext(n, core, op, env);
  }

  lemma OpenNext(n: Node, core: Core, op: Op, env: Env)
    requires op.OpenData? || op.OpenRaw?
    ensures NextSlotOps(op, Execute(n, core, op, env).next)
  {
    hide IoResult, AfterIo, NextSlotOps, AfterOpenData, AfterOpenRaw;
    AfterOpenNext();
    PlainNext(op, Execute(n, core, op, env).next);
  }

  lemma ResolveNext(n: Node, core: Core, op: Op, env: Env)
    requires op.ResolveData? || op.ResolveRaw?
    ensures NextSlotOps(op, Execute(n, core, op, env).next)
  {
    hide PlanTarget, NextSlotOps, AfterPlanData, AfterPlanRaw;
    AfterPlanNext(op, env);
    PlainNext(op, Execute(n, core, op, env).next);
  }

  lemma OtherNext(n: Node, core: Core, op: Op, env: Env)
    requires op.RelayData? || op.RelayRaw? || op.EncodeData? || !IsDecision(op)
    ensures NextSlotOps(op, Execute(n, core, op, env).next)
  {
    hide NextSlotOps, NewSession, AfterRegister, AfterIo;
    PlainNext(op, Execute(n, core, op, env).next);
  }

  lemma SequenceNext(n: Node, core: Core, op: Op, env: Env)
    requires op.TakeSequence?
    ensures NextSlotOps(op, Execute(n, core, op, env).next)
  {
    hide BuildSessionId;
  }

  lemma StartProbeNext(n: Node, core: Core, op: Op, env: Env)
    requires op.StartProbe?
    ensures NextSlotOps(op, Execute(n, core, op, env).next)
  {
    hide VerifyProbeToken, IdentityFromClaims;
  }

  lemma AfterOpenNext()
    ensures forall peer, id, data, bytes, io, op :: op in AfterOpenData(peer, id, data, bytes, io) ==> !IsSlotOp(op)
    ensures forall peer, raw, io, op :: op in AfterOpenRaw(peer, raw, io) ==> !IsSlotOp(op)
  {
    hide HasSessionTarget;
  }

  lemma AfterPlanNext(op: Op, env: Env)
    ensures op.ResolveData? ==> forall plan, o :: o in AfterPlanData(op, plan, env) ==> !IsSlotOp(o)
    ensures op.ResolveRaw? ==> forall plan, o :: o in AfterPlanRaw(op, plan, env) ==> !IsSlotOp(o)
  {
  }

  lemma SlotChances(ops: seq<Op>, next: seq<Op>)
    requires ops != [] && OneSlotOp(ops) && NextSlotOps(ops[0], next)
    ensures MayTakeSlot(next + ops[1..]) ==> MayTakeSlot(ops) && !ops[0].TakeSequence?
  {
    var all := next + ops[1..];
    if MayTakeSlot(all) {
      var p :| 0 <= p < |all| && (all[p].StartProbe? || all[p].TakeSequence?);
      if p >= |next| {
        assert all[p] == ops[p - |next| + 1];
      }
    }
  }

  /** Only TakeSequence adds a slot, and no operation changes an owner. */
  lemma SlotsAfterOwners(n: Node, slots: seq<Slot>, owner: nat, core: Core, op: Op, env: Env)
    ensures
      var after := SlotsAfter(slots, owner, Execute(n, core, op, env).events);
      && |slots| <= |after| <= |slots| + (if op.TakeSequence? then 1 else 0)
      && (forall k :: 0 <= k < |slots| ==> after[k].owner == slots[k].owner)
      && (forall k :: |slots| <= k < |after| ==> after[k].owner == owner)
  {
    hide VerifyProbeToken, IdentityFromClaims, PlanTarget, IoResult, AfterIo, HasSessionTarget, BuildSessionId,
         AfterOpenData, AfterOpenRaw, AfterPlanData, AfterPlanRaw, ProbeDecision, RelayDataOps, RelayRawOps, EncodeDataOps;
  }

  lemma JoinedOpsSafe(n: Node, slots: seq<Slot>, after: seq<Slot>, owner: nat, next: seq<Op>, ops: seq<Op>)
    requires ops != [] && WellShaped(ops) && OpsSafe(n, slots, owner, ops) && Grows(slots, after)
    requires OpsSafe(n, after, owner, next)
    requires !IsSlotOp(ops[0]) ==> after == slots
    requires IsDecision(ops[0]) || next == []
    ensures OpsSafe(n, after, owner, next + ops[1..])
  {
    hide OpSafe, Grows, RelayPaired;
    var all := next + ops[1..];
    forall p | 0 <= p < |all| ensures OpSafe(n, after, owner, all[p]) {
      if p < |next| {
        assert all[p] == next[p];
      } else {
        assert next == [] && all[p] == ops[p + 1];
        assert IsSlotOp(ops[0]) ==> !ops[p + 1].Register?;
        OpSafeGrows(n, slots, after, owner, ops[p + 1]);
      }
    }
  }

  lemma OthersOpsSafe(n: Node, slots: seq<Slot>, after: seq<Slot>, owner: nat, ops: seq<Op>)
    requires OpsSafe(n, slots, owner, ops) && Grows(slots, after)
    requires forall k :: 0 <= k < |slots| && slots[k].owner == owner ==> after[k] == slots[k]
    ensures OpsSafe(n, after, owner, ops)
  {
    hide OpSafe, Grows;
    forall p | 0 <= p < |ops| ensures OpSafe(n, after, owner, ops[p]) {
      OpSafeGrows(n, slots, after, owner, ops[p]);
    }
  }

  /** The tasks' operations stay safe and well shaped when task i runs its first operation. */
  lemma RunKeepsTasks(n: Node, s: System, i: nat, env: Env)
    requires Safe(n, s) && i < |s.tasks| && s.tasks[i] != []
    ensures
      var t := RunTask(n, s, i, env);
      && AllWellShaped(t)
      && (forall j :: 0 <= j < |t.tasks| ==> OpsSafe(n, t.slots, j, t.tasks[j]))
      && EffectSafe(n, s.slots, i, Execute(n, s.core, s.tasks[i][0], env))
  {
    hide SlotsOk, StoreKnown, OpSafe, Execute, SlotsAfter, WellShaped, Grows, BindingFails, EventSafe;
    var op := s.tasks[i][0];
    var effect := Execute(n, s.core, op, env);
    assert OpsSafe(n, s.slots, i, s.tasks[i]) && OpSafe(n, s.slots, i, s.tasks[i][0]);
    EffectIsSafe(n, s.slots, i, s.core, op, env);
    NextShape(n, s.core, op, env);
    TailShape(s.tasks[i]);
    var t := RunTask(n, s, i, env);
    var rest := s.tasks[i][1..];
    assert effect.next + rest == if effect.next == [] then rest else effect.next;
    JoinedOpsSafe(n, s.slots, t.slots, i, effect.next, s.tasks[i]);
    forall j | 0 <= j < |t.tasks| && j != i ensures OpsSafe(n, t.slots, j, t.tasks[j]) {
      OthersOpsSafe(n, s.slots, t.slots, j, s.tasks[j]);
    }
  }

  lemma RunKeepsOwners(n: Node, s: System, i: nat, env: Env)
    requires Safe(n, s) && i < |s.tasks| && s.tasks[i] != []
    ensures OwnersOk(RunTask(n, s, i, env))
  {
    hide SlotsOk, StoreKnown, OpSafe, BindingFails, EventSafe, OpsSafe, Execute, SlotsAfter, RelayPaired, OneSlotOp,
         DecisionsLast, MayTakeSlot, NextSlotOps;
    var op := s.tasks[i][0];
    var t := RunTask(n, s, i, env);
    NextTakesNoSlot(n, s.core, op, env);
    SlotsAfterOwners(n, s.slots, i, s.core, op, env);
    SlotChances(s.tasks[i], Execute(n, s.core, op, env).next);
    FirstMayTake(s.tasks[i]);
  }

  lemma FirstMayTake(ops: seq<Op>)
    requires ops != []
    ensures ops[0].TakeSequence? ==> MayTakeSlot(ops)
  {
  }

  lemma RunKeepsSafe(n: Node, s: System, i: nat, env: Env)
    requires Safe(n, s) && i < |s.tasks| && s.tasks[i] != []
    ensures Safe(n, RunTask(n, s, i, env))
  {
    hide SlotsOk, StoreKnown, OpsSafe, Execute, SlotsAfter, AllWellShaped, Grows, BindingFails, OwnersOk, EventSafe;
    var t := RunTask(n, s, i, env);
    RunKeepsTasks(n, s, i, env);
    RunKeepsOwners(n, s, i, env);
    forall e | e in t.log ensures EventSafe(n, t.slots, e) {
      if e in s.log {
        EventSafeGrows(n, s.slots, t.slots, e);
      }
    }
  }

  lemma ArriveKeepsSafe(n: Node, s: System, transport: Transport, peer: string, message: Message)
    requires Safe(n, s)
    ensures Safe(n, Step(n, s, Arrive(transport, peer, message)))
  {
    hide SlotsOk, StoreKnown, WellShaped, EventSafe;
    var ops := Arrival(transport, peer, message);
    ArrivalShape(transport, peer, message);
    assert OpsSafe(n, s.slots, |s.tasks|, ops);
  }

  /** Every reachable state is safe. */
  lemma {:induction false} ReachIsSafe(n: Node, actions: seq<Action>)
    ensures Safe(n, Reach(n, actions))
  {
    hide Safe, Step;
    if actions == [] {
      InitialIsSafe(n);
    } else {
      var last := |actions| - 1;
      ReachIsSafe(n, actions[..last]);
      StepKeepsSafe(n, Reach(n, actions[..last]), actions[last]);
    }
  }

  lemma InitialIsSafe(n: Node)
    ensures Safe(n, Initial())
  {
  }

  lemma StepKeepsSafe(n: Node, s: System, action: Action)
    requires Safe(n, s)
    ensures Safe(n, Step(n, s, action))
  {
    hide Safe, RunTask;
    match action
    case Arrive(transport, peer, message) => ArriveKeepsSafe(n, s, transport, peer, message);
    case Run(i, env) =>
      if i < |s.tasks| && s.tasks[i] != [] {
        RunKeepsSafe(n, s, i, env);
      }
    case Purge(now) => PurgeKeepsSafe(n, s, now);
  }

  /** A purge changes only the store, and only by removing sessions. */
  lemma PurgeKeepsSafe(n: Node, s: System, now: nat)
    requires Safe(n, s)
    ensures Safe(n, Step(n, s, Purge(now)))
  {
    hide SlotsOk, EventSafe, OpsSafe, WellShaped, MayTakeSlot, Known;
  }
}
