/** The node as a transition system. Every message is handled by its own task; a task is a list of
    atomic operations (one counter update, one critical section of the store, one lookup, one relay),
    and a run interleaves the operations of all tasks in any order. */
module NodeSystem {
  import opened Text
  import opened Cidr
  import opened RoutePolicies
  import opened SessionStores
  import opened Auth
  import opened Session

  const TWO64: nat := U64_MAX + 1
  const MAX_RELAY_RESPONSE_BYTES: nat := 4096

  // ---------------------------------------------------------------- counters

  datatype Counter =
    | ProbeSessionsTotal | ProbeRejected | AuthMissing | AuthOk | AuthFailed
    | SessionRxPackets | SessionRxBytes | SessionTxPackets | SessionTxBytes | SessionMiss | SessionExpired
    | RelayTxPackets | RelayTxBytes | RelayRxPackets | RelayRxBytes | RelayTimeout | RelayError

  type Stats = map<Counter, nat>

  function Get(stats: Stats, c: Counter): nat {
    if c in stats then stats[c] else 0
  }

  /** An atomic 64-bit fetch-and-add, which wraps around. */
  function FetchAdd(stats: Stats, c: Counter, amount: nat): Stats {
    stats[c := (Get(stats, c) + amount) % TWO64]
  }

  // ---------------------------------------------------------------- messages, replies, environment

  /** The node's fixed identity and the library functions it calls. `payloadBytes` is the decoded
      length of a base64 payload, if it decodes. */
  datatype Node = Node(
    nodeId: Option<nat>,
    secret: Option<string>,
    crypto: Crypto,
    parse: string -> Option<Ip>,
    payloadBytes: string -> Option<nat>)

  datatype RawTunnel = RawTunnel(sessionId: string, targetId: Option<string>, host: string, port: nat, payloadBytes: nat)

  datatype Message = ProbeMessage(probe: ProbeRequest) | DataMessage(data: DataRequest) | RawMessage(raw: RawTunnel) | BadMessage

  datatype Reply =
    | ProbeOk(sessionId: string)
    | ProbeError(code: string)
    | SessionError(code: string)
    | DataOk(sessionId: string, status: string, responseBytes: nat)
    | RawReply(sessionId: string, status: string, replyBytes: nat)
    | Failure

  datatype RelayResult = RelayFailed | RelayTimedOut(sent: nat) | RelayReplied(sent: nat, received: nat)

  /** What the world answers while an operation runs: clock readings, the looked-up address, the
      outcome of the relay, the size of the encoded answer if encoding works, and whether any other
      JSON reply can be encoded. */
  datatype Env = Env(
    verifyNow: nat, idNow: nat, createdNow: nat, lockNow: nat, closeNow: nat,
    address: Option<string>, relay: RelayResult, encodedBytes: Option<nat>, encodes: bool)

  /** The receive buffer bounds what a relay returns. */
  function Received(size: nat): nat {
    if size <= MAX_RELAY_RESPONSE_BYTES then size else MAX_RELAY_RESPONSE_BYTES
  }

  /** What is sent for a reply: JSON replies can fail to encode. A data answer has been encoded before
      it is counted, and a raw reply needs no JSON. */
  function Sent(reply: Reply, env: Env): Reply {
    if (reply.ProbeOk? || reply.ProbeError? || reply.SessionError?) && !env.encodes then Failure else reply
  }

  function RawAsData(raw: RawTunnel): DataRequest {
    DataRequest(Some(raw.sessionId), None, None, None, None, Some("udp"),
                Some(SessionDataTarget(raw.targetId, Some("udp"), raw.host, raw.port, None)),
                Some(DEFAULT_RELAY_TIMEOUT_MS))
  }

  // ---------------------------------------------------------------- operations

  /** How a probe was admitted: without a token, or with a token accepted at a clock reading. */
  datatype Grant = Anonymous(request: ProbeRequest) | Token(request: ProbeRequest, claims: Claims, at: nat)

  datatype Op =
    | Count(counter: Counter, amount: nat)
    | SetLast(id: string)
    | Register(id: string, identity: ProbeIdentity, peer: string)
    | CloseIo(peer: string, id: string, tx: nat)
    | Respond(reply: Reply)
    | StartProbe(transport: Transport, peer: string, request: ProbeRequest)
    | TakeSequence(transport: Transport, peer: string, identity: ProbeIdentity, grant: Grant)
    | OpenData(peer: string, data: DataRequest)
    | ResolveData(peer: string, id: string, data: DataRequest, bytes: nat, snap: Snapshot)
    | RelayData(peer: string, id: string, bytes: nat, snap: Snapshot, plan: Plan, address: string)
    | EncodeData(peer: string, id: string, sessionId: string, bytes: nat, status: string, responseBytes: nat)
    | OpenRaw(transport: Transport, peer: string, raw: RawTunnel)
    | ResolveRaw(peer: string, raw: RawTunnel, snap: Snapshot)
    | RelayRaw(peer: string, raw: RawTunnel, snap: Snapshot, plan: Plan, address: string)

  /** Operations that decide how the handler goes on; they end the list they stand in. */
  predicate IsDecision(op: Op) {
    !(op.Count? || op.SetLast? || op.Register? || op.CloseIo? || op.Respond?)
  }

  datatype Event =
    | Granted(id: string, grant: Grant)
    | Stored(session: UdpSession)
    | Opened(snap: Snapshot)
    | Relayed(from: Snapshot, protocol: RelayProtocol, endpoint: string, address: string)
    | Replied(reply: Reply)

  datatype Core = Core(store: Table, stats: Stats, sequence: nat, last: Option<string>)

  datatype Effect = Effect(core: Core, next: seq<Op>, events: seq<Event>)

  function Arrival(transport: Transport, peer: string, message: Message): seq<Op> {
    match message
    case ProbeMessage(request) => [StartProbe(transport, peer, request)]
    case DataMessage(request) => [OpenData(peer, request)]
    case RawMessage(raw) => [OpenRaw(transport, peer, raw)]
    case BadMessage => [Count(ProbeRejected, 1), Respond(ProbeError("invalid_probe"))]
  }

  function ProbeDecision(n: Node, transport: Transport, peer: string, request: ProbeRequest, now: nat): seq<Op> {
    AfterAuth(n, transport, peer, request, now, VerifyProbeToken(n.crypto, request, n.nodeId, n.secret, now))
  }

  function AfterAuth(
    n: Node, transport: Transport, peer: string, request: ProbeRequest, now: nat, decision: AuthDecision): seq<Op>
  {
    match decision
    case NoToken =>
      [Count(AuthMissing, 1), TakeSequence(transport, peer, IdentityFromRequest(request), Anonymous(request))]
    case Valid(claims) =>
      (match IdentityFromClaims(n.crypto, claims, request.routePolicy)
       case Ok(identity) =>
         [Count(AuthOk, 1), TakeSequence(transport, peer, identity, Token(request, claims, now))]
       case Err(code) =>
         [Count(AuthOk, 1), Count(AuthFailed, 1), Count(ProbeRejected, 1), Respond(ProbeError(code))])
    case Invalid(code) =>
      [Count(AuthFailed, 1), Count(ProbeRejected, 1), Respond(ProbeError(code))]
  }

  function DataError(counter: Counter, code: string): seq<Op> {
    [Count(counter, 1), Respond(SessionError(code))]
  }

  function OpenDataEffect(n: Node, core: Core, peer: string, data: DataRequest, env: Env): Effect {
    var id := NonBlank(data.sessionId);
    if id.None? then Effect(core, DataError(SessionMiss, "missing_session_id"), [])
    else if data.payload.None? then Effect(core, DataError(SessionMiss, "missing_payload"), [])
    else if n.payloadBytes(data.payload.value).None? then Effect(core, DataError(SessionMiss, "invalid_payload"), [])
    else
      var bytes := n.payloadBytes(data.payload.value).value;
      var touched := core.(store := AfterIo(core.store, id.value, peer, bytes, 0, env.lockNow));
      var io := IoResult(core.store, id.value, env.lockNow);
      Effect(touched, AfterOpenData(peer, id.value, data, bytes, io), OpenEvents(io))
  }

  function OpenEvents(io: Result<Snapshot, SessionError>): seq<Event> {
    if io.Ok? then [Opened(io.value)] else []
  }

  function AfterOpenData(peer: string, id: string, data: DataRequest, bytes: nat, io: Result<Snapshot, SessionError>)
    : seq<Op>
  {
    match io
    case Err(Missing) => DataError(SessionMiss, "session_not_found")
    case Err(Expired) => DataError(SessionExpired, "session_expired")
    case Ok(snap) =>
      if (HasSessionTarget(data) || snap.routeTargetAddr.Some?) && !snap.authenticated
      then DataError(RelayError, "relay_auth_required")
      else [ResolveData(peer, id, data, bytes, snap)]
  }

  function ResolveDataOps(n: Node, op: Op, env: Env): seq<Op>
    requires op.ResolveData?
  {
    AfterPlanData(op, PlanTarget(n.parse, op.data, op.snap.routeTargetAddr, op.snap.routePolicy), env)
  }

  function AfterPlanData(op: Op, plan: Result<Option<Plan>, string>, env: Env): seq<Op>
    requires op.ResolveData?
  {
    match plan
    case Err(code) => DataError(RelayError, code)
    case Ok(None) => [EncodeData(op.peer, op.id, op.snap.sessionId, op.bytes, "echo", op.bytes)]
    case Ok(Some(plan)) =>
      if env.address.None? then DataError(RelayError, "invalid_target")
      else [RelayData(op.peer, op.id, op.bytes, op.snap, plan, env.address.value)]
  }

  function RelayDataOps(op: Op, env: Env): seq<Op>
    requires op.RelayData?
  {
    match env.relay
    case RelayFailed => DataError(RelayError, "relay_error")
    case RelayTimedOut(sent) =>
      [Count(RelayTxPackets, 1), Count(RelayTxBytes, sent), Count(RelayTimeout, 1),
       EncodeData(op.peer, op.id, op.snap.sessionId, op.bytes, "upstream_timeout", 0)]
    case RelayReplied(sent, received) =>
      [Count(RelayTxPackets, 1), Count(RelayTxBytes, sent),
       Count(RelayRxPackets, 1), Count(RelayRxBytes, Received(received)),
       EncodeData(op.peer, op.id, op.snap.sessionId, op.bytes, "forwarded", Received(received))]
  }

  function EncodeDataOps(op: Op, env: Env): seq<Op>
    requires op.EncodeData?
  {
    if env.encodedBytes.None? then [Respond(Failure)]
    else
      [CloseIo(op.peer, op.id, env.encodedBytes.value),
       Count(SessionRxPackets, 1), Count(SessionRxBytes, op.bytes),
       Count(SessionTxPackets, 1), Count(SessionTxBytes, env.encodedBytes.value),
       Respond(DataOk(op.sessionId, op.status, op.responseBytes))]
  }

  function RawError(counter: Counter, id: string, status: string): seq<Op> {
    [Count(counter, 1), Respond(RawReply(id, status, 0))]
  }

  function OpenRawEffect(core: Core, transport: Transport, peer: string, raw: RawTunnel, env: Env): Effect {
    if transport.Tcp? then Effect(core, [Respond(RawReply(raw.sessionId, "unsupported_transport", 0))], [])
    else
      var touched := core.(store := AfterIo(core.store, raw.sessionId, peer, raw.payloadBytes, 0, env.lockNow));
      var io := IoResult(core.store, raw.sessionId, env.lockNow);
      Effect(touched, AfterOpenRaw(peer, raw, io), OpenEvents(io))
  }

  function AfterOpenRaw(peer: string, raw: RawTunnel, io: Result<Snapshot, SessionError>): seq<Op> {
    match io
    case Err(Missing) => RawError(SessionMiss, raw.sessionId, "session_not_found")
    case Err(Expired) => RawError(SessionExpired, raw.sessionId, "session_expired")
    case Ok(snap) =>
      if !snap.authenticated then RawError(RelayError, raw.sessionId, "relay_auth_required")
      else [ResolveRaw(peer, raw, snap)]
  }

  function ResolveRawOps(n: Node, op: Op, env: Env): seq<Op>
    requires op.ResolveRaw?
  {
    AfterPlanRaw(op, PlanTarget(n.parse, RawAsData(op.raw), op.snap.routeTargetAddr, op.snap.routePolicy), env)
  }

  function AfterPlanRaw(op: Op, plan: Result<Option<Plan>, string>, env: Env): seq<Op>
    requires op.ResolveRaw?
  {
    match plan
    case Err(code) => RawError(RelayError, op.raw.sessionId, code)
    case Ok(None) => RawError(RelayError, op.raw.sessionId, "missing_target")
    case Ok(Some(plan)) =>
      if env.address.None? then RawError(RelayError, op.raw.sessionId, "invalid_target")
      else [RelayRaw(op.peer, op.raw, op.snap, plan, env.address.value)]
  }

  function RelayRawOps(op: Op, env: Env): seq<Op>
    requires op.RelayRaw?
  {
    match env.relay
    case RelayFailed => RawError(RelayError, op.raw.sessionId, "relay_error")
    case RelayTimedOut(sent) =>
      [Count(RelayTxPackets, 1), Count(RelayTxBytes, sent), Count(RelayTimeout, 1),
       Respond(RawReply(op.raw.sessionId, "upstream_timeout", 0))]
    case RelayReplied(sent, received) =>
      [Count(RelayTxPackets, 1), Count(RelayTxBytes, sent),
       Count(RelayRxPackets, 1), Count(RelayRxBytes, Received(received))]
      + RawForwardedOps(op.peer, op.raw, Received(received))
  }

  function RawForwardedOps(peer: string, raw: RawTunnel, size: nat): seq<Op> {
    [Count(SessionRxPackets, 1), Count(SessionRxBytes, raw.payloadBytes),
     Count(SessionTxPackets, 1), Count(SessionTxBytes, size),
     CloseIo(peer, raw.sessionId, size),
     Respond(RawReply(raw.sessionId, "forwarded", size))]
  }

  /** One atomic operation. The raw relay always uses UDP. */
  function Execute(n: Node, core: Core, op: Op, env: Env): Effect {
    match op
    case Count(c, amount) => Effect(core.(stats := FetchAdd(core.stats, c, amount)), [], [])
    case SetLast(id) => Effect(core.(last := Some(id)), [], [])
    case Register(id, identity, peer) =>
      var session := NewSession(id, identity, peer, env.createdNow);
      Effect(core.(store := AfterRegister(core.store, session, env.lockNow)), [], [Stored(session)])
    case CloseIo(peer, id, tx) =>
      Effect(core.(store := AfterIo(core.store, id, peer, 0, tx, env.closeNow)), [], [])
    case Respond(reply) => Effect(core, [], [Replied(Sent(reply, env))])
    case StartProbe(transport, peer, request) =>
      Effect(core, ProbeDecision(n, transport, peer, request, env.verifyNow), [])
    case TakeSequence(transport, peer, identity, grant) =>
      var sequence := (core.sequence + 1) % TWO64;
      var id := BuildSessionId(transport, peer, env.idNow, sequence);
      Effect(core.(sequence := sequence),
             [Count(ProbeSessionsTotal, 1), SetLast(id), Register(id, identity, peer), Respond(ProbeOk(id))],
             [Granted(id, grant)])
    case OpenData(peer, data) => OpenDataEffect(n, core, peer, data, env)
    case ResolveData(_, _, _, _, _) => Effect(core, ResolveDataOps(n, op, env), [])
    case RelayData(_, _, _, snap, plan, address) =>
      Effect(core, RelayDataOps(op, env), [Relayed(snap, plan.protocol, plan.endpoint, address)])
    case EncodeData(_, _, _, _, _, _) => Effect(core, EncodeDataOps(op, env), [])
    case OpenRaw(transport, peer, raw) => OpenRawEffect(core, transport, peer, raw, env)
    case ResolveRaw(_, _, _) => Effect(core, ResolveRawOps(n, op, env), [])
    case RelayRaw(_, _, snap, plan, address) =>
      Effect(core, RelayRawOps(op, env), [Relayed(snap, UdpRelay, plan.endpoint, address)])
  }

  // ---------------------------------------------------------------- runs

  /** One session id the node has handed out: to whom, by which task, and the session once stored. */
  datatype Slot = Slot(id: string, grant: Grant, owner: nat, session: Option<UdpSession>)

  /** `log` and `doneBy` record what happened and in which task. */
  datatype System = System(
    core: Core,
    tasks: seq<seq<Op>>,
    slots: seq<Slot>,
    log: seq<Event>,
    doneBy: seq<nat>,
    probes: nat,
    bindFailures: nat,
    invalid: nat)

  /** A message arrives, a task takes a step, or a health or control report counts the sessions, which
      purges the store at its clock reading. */
  datatype Action =
    | Arrive(transport: Transport, peer: string, message: Message)
    | Run(task: nat, env: Env)
    | Purge(now: nat)

  function Initial(): System {
    System(Core(map[], map[], 0, None), [], [], [], [], 0, 0, 0)
  }

  function BindingFails(n: Node, request: ProbeRequest, now: nat): bool {
    var decision := VerifyProbeToken(n.crypto, request, n.nodeId, n.secret, now);
    decision.Valid? && BindingError(n.crypto, decision.claims, request.routePolicy).Some?
  }

  function FillSlots(slots: seq<Slot>, owner: nat, session: UdpSession): (r: seq<Slot>)
    ensures |r| == |slots|
    ensures forall k :: 0 <= k < |r| ==>
      r[k] == if slots[k].owner == owner then slots[k].(session := Some(session)) else slots[k]
  {
    seq(|slots|, k requires 0 <= k < |slots| =>
      if slots[k].owner == owner then slots[k].(session := Some(session)) else slots[k])
  }

  function SlotsAfter(slots: seq<Slot>, owner: nat, events: seq<Event>): seq<Slot> {
    if events == [] then slots
    else if events[0].Granted? then slots + [Slot(events[0].id, events[0].grant, owner, None)]
    else if events[0].Stored? then FillSlots(slots, owner, events[0].session)
    else slots
  }

  function RunTask(n: Node, s: System, i: nat, env: Env): System
    requires i < |s.tasks| && s.tasks[i] != []
  {
    var op := s.tasks[i][0];
    var effect := Execute(n, s.core, op, env);
    s.(core := effect.core,
       tasks := s.tasks[i := effect.next + s.tasks[i][1..]],
       slots := SlotsAfter(s.slots, i, effect.events),
       log := s.log + effect.events,
       doneBy := s.doneBy + seq(|effect.events|, k => i),
       probes := s.probes + (if op.StartProbe? then 1 else 0),
       bindFailures := s.bindFailures + (if op.StartProbe? && BindingFails(n, op.request, env.verifyNow) then 1 else 0))
  }

  function Step(n: Node, s: System, action: Action): System {
    match action
    case Arrive(transport, peer, message) =>
      s.(tasks := s.tasks + [Arrival(transport, peer, message)],
         invalid := s.invalid + (if message.BadMessage? then 1 else 0))
    case Run(i, env) =>
      if i < |s.tasks| && s.tasks[i] != [] then RunTask(n, s, i, env) else s
    case Purge(now) => s.(core := s.core.(store := RemoveExpired(s.core.store, now)))
  }

  /** The state after any sequence of arrivals, task steps and purges. */
  function Reach(n: Node, actions: seq<Action>): System {
    if actions == [] then Initial()
    else Step(n, Reach(n, actions[..|actions| - 1]), actions[|actions| - 1])
  }

  predicate Quiescent(s: System) {
    forall i :: 0 <= i < |s.tasks| ==> s.tasks[i] == []
  }
}
