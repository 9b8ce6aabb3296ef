/** What each handler does, case by case: the reply, the counters and the store, as functions of the
    session found, the destination resolved and the outcome of the relay. */
module NodeContracts {
  import opened Text
  import opened RoutePolicies
  import opened SessionStores
  import opened Auth
  import opened Session
  import opened NodeSystem

  /** Exactly these counters have grown, by these amounts, as 64-bit counters do. */
  ghost predicate Grew(before: Stats, after: Stats, amounts: map<Counter, nat>) {
    forall c: Counter :: Get(after, c)
      == if c in amounts then (Get(before, c) + amounts[c]) % 0x1_0000_0000_0000_0000 else Get(before, c)
  }

  lemma GrewNothing(stats: Stats)
    ensures Grew(stats, stats, map[])
  {
  }

  lemma GrewOnce(before: Stats, c: Counter, amount: nat)
    ensures Grew(before, FetchAdd(before, c, amount), map[c := amount])
  {
  }

  lemma GrewTwice(before: Stats, mid: Stats, after: Stats, a: map<Counter, nat>, b: map<Counter, nat>)
    requires Grew(before, mid, a) && Grew(mid, after, b) && a.Keys !! b.Keys
    ensures Grew(before, after, a + b)
  {
  }

  /** Refused: one counter grows by one and the code is answered, if a JSON reply can be encoded. */
  ghost predicate Refused(before: Core, after: Core, store: Table, counter: Counter, answer: Reply, env: Env, reply: Reply) {
    && after.store == store && after.sequence == before.sequence && after.last == before.last
    && Grew(before.stats, after.stats, map[counter := 1])
    && reply == if answer.RawReply? || env.encodes then answer else Failure
  }

  // ---------------------------------------------------------------- session data

  /** The answer: it is encoded, recorded on the session and counted, with what the relay has counted. */
  ghost predicate DataClosed(
    before: Core, after: Core, store: Table, relayed: map<Counter, nat>, peer: string, id: string, sessionId: string, bytes: nat,
    status: string, size: nat, env: Env, reply: Reply)
  {
    && after.sequence == before.sequence && after.last == before.last
    && if env.encodedBytes.None? then reply == Failure && after.store == store && Grew(before.stats, after.stats, relayed)
       else
         && reply == DataOk(sessionId, status, size)
         && after.store == AfterIo(store, id, peer, 0, env.encodedBytes.value, env.closeNow)
         && Grew(before.stats, after.stats,
                 relayed + map[SessionRxPackets := 1, SessionRxBytes := bytes,
                               SessionTxPackets := 1, SessionTxBytes := env.encodedBytes.value])
  }

  /** The receive buffer holds 4096 bytes. */
  function Buffered(size: nat): nat {
    if size <= 4096 then size else 4096
  }

  /** A relay was made: its outcome decides the status, the bytes returned and what is counted. */
  ghost predicate DataRelayed(
    before: Core, after: Core, peer: string, id: string, sessionId: string, bytes: nat, env: Env, reply: Reply)
  {
    match env.relay
    case RelayFailed => Refused(before, after, before.store, RelayError, SessionError("relay_error"), env, reply)
    case RelayTimedOut(sent) =>
      DataClosed(before, after, before.store, map[RelayTxPackets := 1, RelayTxBytes := sent, RelayTimeout := 1],
                 peer, id, sessionId, bytes, "upstream_timeout", 0, env, reply)
    case RelayReplied(sent, received) =>
      DataClosed(before, after, before.store,
                 map[RelayTxPackets := 1, RelayTxBytes := sent, RelayRxPackets := 1, RelayRxBytes := Buffered(received)],
                 peer, id, sessionId, bytes, "forwarded", Buffered(received), env, reply)
  }

  /** The session was found and may be used: an error of resolution, an echo exactly when nothing is to be
      reached, or a relay when the destination was found. */
  ghost predicate DataResolved(
    n: Node, before: Core, after: Core, peer: string, id: string, data: DataRequest, bytes: nat, snap: Snapshot, env: Env,
    reply: Reply)
  {
    match PlanTarget(n.parse, data, snap.routeTargetAddr, snap.routePolicy)
    case Err(code) => Refused(before, after, before.store, RelayError, SessionError(code), env, reply)
    case Ok(None) =>
      DataClosed(before, after, before.store, map[], peer, id, snap.sessionId, bytes, "echo", bytes, env, reply)
    case Ok(Some(_)) =>
      if env.address.None? then Refused(before, after, before.store, RelayError, SessionError("invalid_target"), env, reply)
      else DataRelayed(before, after, peer, id, snap.sessionId, bytes, env, reply)
  }

  /** The request names a destination of its own. */
  predicate NamesTarget(data: DataRequest) {
    || data.target.Some?
    || (data.targetAddr.Some? && !IsBlank(data.targetAddr.value))
    || (data.targetHost.Some? && !IsBlank(data.targetHost.value))
  }

  /** The whole of session data. */
  ghost predicate DataAnswered(n: Node, before: Core, after: Core, peer: string, data: DataRequest, env: Env, reply: Reply) {
    if data.sessionId.None? || IsBlank(data.sessionId.value)
    then Refused(before, after, before.store, SessionMiss, SessionError("missing_session_id"), env, reply)
    else if data.payload.None?
    then Refused(before, after, before.store, SessionMiss, SessionError("missing_payload"), env, reply)
    else if n.payloadBytes(data.payload.value).None?
    then Refused(before, after, before.store, SessionMiss, SessionError("invalid_payload"), env, reply)
    else
      var id := Trim(data.sessionId.value);
      var bytes := n.payloadBytes(data.payload.value).value;
      var touched := before.(store := AfterIo(before.store, id, peer, bytes, 0, env.lockNow));
      match IoResult(before.store, id, env.lockNow)
      case Err(Missing) => Refused(touched, after, touched.store, SessionMiss, SessionError("session_not_found"), env, reply)
      case Err(Expired) => Refused(touched, after, touched.store, SessionExpired, SessionError("session_expired"), env, reply)
      case Ok(snap) =>
        if (NamesTarget(data) || snap.routeTargetAddr.Some?) && !snap.authenticated
        then Refused(touched, after, touched.store, RelayError, SessionError("relay_auth_required"), env, reply)
        else DataResolved(n, touched, after, peer, id, data, bytes, snap, env, reply)
  }

  // ---------------------------------------------------------------- the raw tunnel

  ghost predicate RawRelayed(before: Core, after: Core, peer: string, raw: RawTunnel, env: Env, reply: Reply) {
    && after.sequence == before.sequence && after.last == before.last
    && match env.relay
       case RelayFailed =>
         Refused(before, after, before.store, RelayError, RawReply(raw.sessionId, "relay_error", 0), env, reply)
       case RelayTimedOut(sent) =>
         && reply == RawReply(raw.sessionId, "upstream_timeout", 0) && after.store == before.store
         && Grew(before.stats, after.stats, map[RelayTxPackets := 1, RelayTxBytes := sent, RelayTimeout := 1])
       case RelayReplied(sent, received) =>
         var size := Buffered(received);
         && reply == RawReply(raw.sessionId, "forwarded", size)
         && after.store == AfterIo(before.store, raw.sessionId, peer, 0, size, env.closeNow)
         && Grew(before.stats, after.stats,
                 map[RelayTxPackets := 1, RelayTxBytes := sent, RelayRxPackets := 1, RelayRxBytes := size,
                     SessionRxPackets := 1, SessionRxBytes := raw.payloadBytes, SessionTxPackets := 1, SessionTxBytes := size])
  }

  ghost predicate RawResolved(n: Node, before: Core, after: Core, peer: string, raw: RawTunnel, snap: Snapshot, env: Env, reply: Reply) {
    var target := SessionDataTarget(raw.targetId, Some("udp"), raw.host, raw.port, None);
    var data := DataRequest(Some(raw.sessionId), None, None, None, None, Some("udp"), Some(target), Some(200));
    match PlanTarget(n.parse, data, snap.routeTargetAddr, snap.routePolicy)
    case Err(code) => Refused(before, after, before.store, RelayError, RawReply(raw.sessionId, code, 0), env, reply)
    case Ok(None) => Refused(before, after, before.store, RelayError, RawReply(raw.sessionId, "missing_target", 0), env, reply)
    case Ok(Some(_)) =>
      if env.address.None?
      then Refused(before, after, before.store, RelayError, RawReply(raw.sessionId, "invalid_target", 0), env, reply)
      else RawRelayed(before, after, peer, raw, env, reply)
  }

  /** The whole of a raw tunnel packet. */
  ghost predicate RawAnswered(
    n: Node, before: Core, after: Core, transport: Transport, peer: string, raw: RawTunnel, env: Env, reply: Reply)
  {
    if transport.Tcp? then after == before && reply == RawReply(raw.sessionId, "unsupported_transport", 0)
    else
      var touched := before.(store := AfterIo(before.store, raw.sessionId, peer, raw.payloadBytes, 0, env.lockNow));
      match IoResult(before.store, raw.sessionId, env.lockNow)
      case Err(Missing) =>
        Refused(touched, after, touched.store, SessionMiss, RawReply(raw.sessionId, "session_not_found", 0), env, reply)
      case Err(Expired) =>
        Refused(touched, after, touched.store, SessionExpired, RawReply(raw.sessionId, "session_expired", 0), env, reply)
      case Ok(snap) =>
        if !snap.authenticated
        then Refused(touched, after, touched.store, RelayError, RawReply(raw.sessionId, "relay_auth_required", 0), env, reply)
        else RawResolved(n, touched, after, peer, raw, snap, env, reply)
  }

  // ---------------------------------------------------------------- probes

  /** A probe was admitted: the next sequence number makes its id, one session is stored under it for 30
      seconds, and the id is answered. */
  ghost predicate Admitted(
    before: Core, after: Core, transport: Transport, peer: string, counter: Counter, session: UdpSession, env: Env, reply: Reply)
  {
    && after.sequence == (before.sequence + 1) % 0x1_0000_0000_0000_0000
    && FreshSession(session, BuildSessionId(transport, peer, env.idNow, after.sequence), peer, env.createdNow)
    && after.last == Some(session.sessionId) && after.store == AfterRegister(before.store, session, env.lockNow)
    && Grew(before.stats, after.stats, map[counter := 1, ProbeSessionsTotal := 1])
    && reply == if env.encodes then ProbeOk(session.sessionId) else Failure
  }

  ghost predicate Rejected(before: Core, after: Core, amounts: map<Counter, nat>, code: string, env: Env, reply: Reply) {
    && after.store == before.store && after.sequence == before.sequence && after.last == before.last
    && Grew(before.stats, after.stats, amounts)
    && reply == if env.encodes then ProbeError(code) else Failure
  }

  /** The whole of a probe. */
  ghost predicate ProbeAnswered(
    n: Node, before: Core, after: Core, transport: Transport, peer: string, request: ProbeRequest, env: Env, reply: Reply)
  {
    match VerifyProbeToken(n.crypto, request, n.nodeId, n.secret, env.verifyNow)
    case NoToken =>
      exists session :: OwnedByRequest(SnapshotOf(session), request)
        && Admitted(before, after, transport, peer, AuthMissing, session, env, reply)
    case Invalid(code) => Rejected(before, after, map[AuthFailed := 1, ProbeRejected := 1], code, env, reply)
    case Valid(claims) =>
      match IdentityFromClaims(n.crypto, claims, request.routePolicy)
      case Err(code) => Rejected(before, after, map[AuthOk := 1, AuthFailed := 1, ProbeRejected := 1], code, env, reply)
      case Ok(_) =>
        exists session :: OwnedByClaims(SnapshotOf(session), claims, request.routePolicy)
          && Admitted(before, after, transport, peer, AuthOk, session, env, reply)
  }
}
