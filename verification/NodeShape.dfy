/** Sums over pending operations, and the shape every pending operation list keeps during a run. */
module NodeShape {
  import opened Text
  import opened SessionStores
  import opened Session
  import opened Auth
  import opened NodeSystem

  /** What is added up over pending operations: the amounts of one counter, a balance of several, or
      the steps still to run. */
  datatype Measure = Amount(counter: Counter) | RelayBalance | SessionBalance | RejectBalance | AuthBalance | Steps

  /** The sign with which a balance counts a counter. */
  function Sign(m: Measure, c: Counter): int {
    match m
    case Amount(counter) => if c == counter then 1 else 0
    case RelayBalance => if c.RelayTxPackets? then 1 else if c.RelayRxPackets? || c.RelayTimeout? then -1 else 0
    case SessionBalance => if c.SessionRxPackets? then 1 else if c.SessionTxPackets? then -1 else 0
    case RejectBalance => if c.ProbeRejected? then 1 else if c.AuthFailed? then -1 else 0
    case AuthBalance => if c.AuthMissing? || c.AuthOk? || c.AuthFailed? then 1 else 0
    case Steps => 0
  }

  /** A bound on the steps an operation and all that follows from it can take. */
  function StepBound(op: Op): nat {
    match op
    case StartProbe(_, _, _) => 7
    case TakeSequence(_, _, _, _) => 5
    case OpenData(_, _) => 14
    case ResolveData(_, _, _, _, _) => 13
    case RelayData(_, _, _, _, _, _) => 12
    case EncodeData(_, _, _, _, _, _) => 7
    case OpenRaw(_, _, _) => 13
    case ResolveRaw(_, _, _) => 12
    case RelayRaw(_, _, _, _, _) => 11
    case _ => 1
  }

  function Weight(m: Measure, op: Op): int {
    if m.Steps? then StepBound(op)
    else if !op.Count? then 0
    else if Sign(m, op.counter) == 1 then op.amount
    else if Sign(m, op.counter) == -1 then 0 - op.amount
    else 0
  }

  function SumFrom(m: Measure, ops: seq<Op>, i: nat): int
    decreases |ops| - i
  {
    if i >= |ops| then 0 else Weight(m, ops[i]) + SumFrom(m, ops, i + 1)
  }

  function Sum(m: Measure, ops: seq<Op>): int {
    SumFrom(m, ops, 0)
  }

  lemma {:induction false} SumShift(m: Measure, ops: seq<Op>, i: nat)
    requires ops != []
    ensures SumFrom(m, ops[1..], i) == SumFrom(m, ops, i + 1)
    decreases |ops| - i
  {
    if i + 1 < |ops| {
      SumShift(m, ops, i + 1);
    }
  }

  lemma SumTail(m: Measure, ops: seq<Op>)
    requires ops != []
    ensures Sum(m, ops) == Weight(m, ops[0]) + Sum(m, ops[1..])
  {
    SumShift(m, ops, 0);
  }

  function At(m: Measure, ops: seq<Op>, i: nat): int {
    if i < |ops| then Weight(m, ops[i]) else 0
  }

  /** The sum of a short list, written out. */
  lemma SumOfShort(m: Measure, ops: seq<Op>)
    requires |ops| <= 10
    ensures Sum(m, ops) == At(m, ops, 0) + At(m, ops, 1) + At(m, ops, 2) + At(m, ops, 3) + At(m, ops, 4)
                         + At(m, ops, 5) + At(m, ops, 6) + At(m, ops, 7) + At(m, ops, 8) + At(m, ops, 9)
  {
    assert SumFrom(m, ops, 10) == 0;
    assert SumFrom(m, ops, 9) == At(m, ops, 9);
    assert SumFrom(m, ops, 8) == At(m, ops, 8) + SumFrom(m, ops, 9);
    assert SumFrom(m, ops, 7) == At(m, ops, 7) + SumFrom(m, ops, 8);
    assert SumFrom(m, ops, 6) == At(m, ops, 6) + SumFrom(m, ops, 7);
    assert SumFrom(m, ops, 5) == At(m, ops, 5) + SumFrom(m, ops, 6);
    assert SumFrom(m, ops, 4) == At(m, ops, 4) + SumFrom(m, ops, 5);
    assert SumFrom(m, ops, 3) == At(m, ops, 3) + SumFrom(m, ops, 4);
    assert SumFrom(m, ops, 2) == At(m, ops, 2) + SumFrom(m, ops, 3);
    assert SumFrom(m, ops, 1) == At(m, ops, 1) + SumFrom(m, ops, 2);
  }

  // ---------------------------------------------------------------- shapes

  ghost predicate DecisionsLast(ops: seq<Op>) {
    forall p :: 0 <= p < |ops| - 1 ==> !IsDecision(ops[p])
  }

  predicate IsSlotOp(op: Op) {
    op.StartProbe? || op.TakeSequence? || op.Register?
  }

  /** At most one operation of a list takes or fills a session slot. */
  ghost predicate OneSlotOp(ops: seq<Op>) {
    forall p, q :: 0 <= p < q < |ops| ==> !(IsSlotOp(ops[p]) && IsSlotOp(ops[q]))
  }

  predicate Counts(op: Op, c: Counter) {
    op.Count? && op.counter == c
  }

  predicate IsCompletion(op: Op) {
    Counts(op, RelayRxPackets) || Counts(op, RelayTimeout)
  }

  /** A pending transmission is always followed by its pending completion, and there is at most one
      completion. */
  ghost predicate RelayPaired(ops: seq<Op>) {
    && (forall p, q :: 0 <= p < q < |ops| && IsCompletion(ops[p]) ==> !Counts(ops[q], RelayTxPackets))
    && 0 <= Sum(Amount(RelayTxPackets), ops)
    && Sum(Amount(RelayTxPackets), ops) <= Sum(Amount(RelayRxPackets), ops) + Sum(Amount(RelayTimeout), ops) <= 1
  }

  ghost predicate WellShaped(ops: seq<Op>) {
    DecisionsLast(ops) && OneSlotOp(ops) && RelayPaired(ops)
  }

  lemma ArrivalShape(transport: Transport, peer: string, message: Message)
    ensures WellShaped(Arrival(transport, peer, message))
  {
    hide Sum;
    ShortRelaySums(Arrival(transport, peer, message));
  }

  lemma ShortRelaySums(ops: seq<Op>)
    requires |ops| <= 10
    ensures forall m :: m in {Amount(RelayTxPackets), Amount(RelayRxPackets), Amount(RelayTimeout)} ==>
      Sum(m, ops) == At(m, ops, 0) + At(m, ops, 1) + At(m, ops, 2) + At(m, ops, 3) + At(m, ops, 4)
                   + At(m, ops, 5) + At(m, ops, 6) + At(m, ops, 7) + At(m, ops, 8) + At(m, ops, 9)
  {
    SumOfShort(Amount(RelayTxPackets), ops);
    SumOfShort(Amount(RelayRxPackets), ops);
    SumOfShort(Amount(RelayTimeout), ops);
  }

  /** What each decision leaves to do is well shaped. */
  lemma AfterAuthShape(n: Node, t: Transport, peer: string, request: ProbeRequest, now: nat, d: AuthDecision)
    ensures WellShaped(AfterAuth(n, t, peer, request, now, d))
  {
    hide Sum;
    ShortRelaySums(AfterAuth(n, t, peer, request, now, d));
  }

  lemma ErrorShape(counter: Counter, reply: Reply)
    requires counter !in {RelayTxPackets, RelayRxPackets, RelayTimeout}
    ensures WellShaped([Count(counter, 1), Respond(reply)])
  {
    hide Sum;
    ShortRelaySums([Count(counter, 1), Respond(reply)]);
  }

  lemma SingleShape(op: Op)
    requires !op.Count?
    ensures WellShaped([op])
  {
    hide Sum;
    ShortRelaySums([op]);
  }

  lemma AfterPlanShape(op: Op, plan: Result<Option<Plan>, string>, env: Env)
    ensures op.ResolveData? ==> WellShaped(AfterPlanData(op, plan, env))
    ensures op.ResolveRaw? ==> WellShaped(AfterPlanRaw(op, plan, env))
  {
    hide Sum;
    if op.ResolveData? {
      ShortRelaySums(AfterPlanData(op, plan, env));
    }
    if op.ResolveRaw? {
      ShortRelaySums(AfterPlanRaw(op, plan, env));
    }
  }

  lemma AfterOpenShape(peer: string, id: string, data: DataRequest, raw: RawTunnel, bytes: nat,
                       io: Result<Snapshot, SessionError>)
    ensures WellShaped(AfterOpenData(peer, id, data, bytes, io))
    ensures WellShaped(AfterOpenRaw(peer, raw, io))
  {
    match io
    case Err(Missing) =>
      ErrorShape(SessionMiss, SessionError("session_not_found"));
      ErrorShape(SessionMiss, RawReply(raw.sessionId, "session_not_found", 0));
    case Err(Expired) =>
      ErrorShape(SessionExpired, SessionError("session_expired"));
      ErrorShape(SessionExpired, RawReply(raw.sessionId, "session_expired", 0));
    case Ok(snap) =>
      ErrorShape(RelayError, SessionError("relay_auth_required"));
      ErrorShape(RelayError, RawReply(raw.sessionId, "relay_auth_required", 0));
      SingleShape(ResolveData(peer, id, data, bytes, snap));
      SingleShape(ResolveRaw(peer, raw, snap));
  }

  lemma RelayDataShape(op: Op, env: Env)
    requires op.RelayData?
    ensures WellShaped(RelayDataOps(op, env))
  {
    hide Sum;
    match env.relay
    case RelayFailed => ErrorShape(RelayError, SessionError("relay_error"));
    case RelayTimedOut(_) => ShortRelaySums(RelayDataOps(op, env));
    case RelayReplied(_, _) => ShortRelaySums(RelayDataOps(op, env));
  }

  lemma RelayRawShape(op: Op, env: Env)
    requires op.RelayRaw?
    ensures WellShaped(RelayRawOps(op, env))
  {
    hide Sum;
    match env.relay
    case RelayFailed => ErrorShape(RelayError, RawReply(op.raw.sessionId, "relay_error", 0));
    case RelayTimedOut(_) => ShortRelaySums(RelayRawOps(op, env));
    case RelayReplied(sent, received) =>
      var first := [Count(RelayTxPackets, 1), Count(RelayTxBytes, sent),
                    Count(RelayRxPackets, 1), Count(RelayRxBytes, Received(received))];
      RelayedShape(sent, Received(received));
      RawForwardedShape(op.peer, op.raw, Received(received));
      AppendShape(first, RawForwardedOps(op.peer, op.raw, Received(received)));
  }

  lemma RelayedShape(sent: nat, size: nat)
    ensures WellShaped([Count(RelayTxPackets, 1), Count(RelayTxBytes, sent), Count(RelayRxPackets, 1), Count(RelayRxBytes, size)])
  {
    hide Sum;
    ShortRelaySums([Count(RelayTxPackets, 1), Count(RelayTxBytes, sent), Count(RelayRxPackets, 1), Count(RelayRxBytes, size)]);
  }

  lemma RawForwardedShape(peer: string, raw: RawTunnel, size: nat)
    ensures WellShaped(RawForwardedOps(peer, raw, size))
    ensures forall op :: op in RawForwardedOps(peer, raw, size) ==> !Counts(op, RelayTxPackets) && !IsCompletion(op)
  {
    hide Sum;
    ShortRelaySums(RawForwardedOps(peer, raw, size));
  }

  lemma {:induction false} SumAppend(m: Measure, a: seq<Op>, b: seq<Op>)
    ensures Sum(m, a + b) == Sum(m, a) + Sum(m, b)
  {
    if a == [] {
      assert a + b == b;
    } else {
      SumTail(m, a + b);
      SumTail(m, a);
      SumAppend(m, a[1..], b);
      assert (a + b)[1..] == a[1..] + b;
    }
  }

  lemma AppendShape(a: seq<Op>, b: seq<Op>)
    requires WellShaped(a) && forall op :: op in a ==> !IsDecision(op) && !IsSlotOp(op)
    requires WellShaped(b) && forall op :: op in b ==> !Counts(op, RelayTxPackets) && !IsCompletion(op)
    ensures WellShaped(a + b)
  {
    SumAppend(Amount(RelayTxPackets), a, b);
    SumAppend(Amount(RelayRxPackets), a, b);
    SumAppend(Amount(RelayTimeout), a, b);
    NoneIsZero(RelayTxPackets, b, 0);
    NoneIsZero(RelayRxPackets, b, 0);
    NoneIsZero(RelayTimeout, b, 0);
  }

  lemma EncodeShape(op: Op, env: Env)
    requires op.EncodeData?
    ensures WellShaped(EncodeDataOps(op, env))
  {
    hide Sum;
    ShortRelaySums(EncodeDataOps(op, env));
  }

  lemma SequenceShape(id: string, identity: ProbeIdentity, peer: string)
    ensures WellShaped([Count(ProbeSessionsTotal, 1), SetLast(id), Register(id, identity, peer), Respond(ProbeOk(id))])
  {
    hide Sum;
    ShortRelaySums([Count(ProbeSessionsTotal, 1), SetLast(id), Register(id, identity, peer), Respond(ProbeOk(id))]);
  }

  lemma NothingShape()
    ensures WellShaped([])
  {
    ShortRelaySums([]);
  }

  lemma NextShape(n: Node, core: Core, op: Op, env: Env)
    ensures WellShaped(Execute(n, core, op, env).next)
    ensures !IsDecision(op) ==> Execute(n, core, op, env).next == []
  {
    hide WellShaped, ProbeDecision, OpenDataEffect, OpenRawEffect, ResolveDataOps, ResolveRawOps, RelayDataOps,
         RelayRawOps, EncodeDataOps, BuildSessionId;
    match op
    case StartProbe(transport, peer, request) =>
      StartProbeShape(n, transport, peer, request, env.verifyNow);
    case TakeSequence(transport, peer, identity, grant) =>
      SequenceShape(BuildSessionId(transport, peer, env.idNow, (core.sequence + 1) % TWO64), identity, peer);
    case OpenData(peer, data) =>
      OpenDataShape(n, core, peer, data, env);
    case OpenRaw(transport, peer, raw) =>
      OpenRawShape(core, transport, peer, raw, env);
    case ResolveData(_, _, _, _, _) => ResolveShape(n, op, env);
    case ResolveRaw(_, _, _) => ResolveShape(n, op, env);
    case RelayData(_, _, _, _, _, _) => RelayDataShape(op, env);
    case RelayRaw(_, _, _, _, _) => RelayRawShape(op, env);
    case EncodeData(_, _, _, _, _, _) => EncodeShape(op, env);
    case _ => NothingShape();
  }

  lemma OpenRawShape(core: Core, transport: Transport, peer: string, raw: RawTunnel, env: Env)
    ensures WellShaped(OpenRawEffect(core, transport, peer, raw, env).next)
  {
    var none := DataRequest(None, None, None, None, None, None, None, None);
    AfterOpenShape(peer, "", none, raw, 0, IoResult(core.store, raw.sessionId, env.lockNow));
    SingleShape(Respond(RawReply(raw.sessionId, "unsupported_transport", 0)));
  }

  lemma StartProbeShape(n: Node, t: Transport, peer: string, request: ProbeRequest, now: nat)
    ensures WellShaped(ProbeDecision(n, t, peer, request, now))
  {
    AfterAuthShape(n, t, peer, request, now, VerifyProbeToken(n.crypto, request, n.nodeId, n.secret, now));
  }

  lemma ResolveShape(n: Node, op: Op, env: Env)
    ensures op.ResolveData? ==> WellShaped(ResolveDataOps(n, op, env))
    ensures op.ResolveRaw? ==> WellShaped(ResolveRawOps(n, op, env))
  {
    if op.ResolveData? {
      AfterPlanShape(op, PlanTarget(n.parse, op.data, op.snap.routeTargetAddr, op.snap.routePolicy), env);
    }
    if op.ResolveRaw? {
      AfterPlanShape(op, PlanTarget(n.parse, RawAsData(op.raw), op.snap.routeTargetAddr, op.snap.routePolicy), env);
    }
  }

  lemma OpenDataShape(n: Node, core: Core, peer: string, data: DataRequest, env: Env)
    ensures WellShaped(OpenDataEffect(n, core, peer, data, env).next)
  {
    hide Sum;
    ErrorShape(SessionMiss, SessionError("missing_session_id"));
    ErrorShape(SessionMiss, SessionError("missing_payload"));
    ErrorShape(SessionMiss, SessionError("invalid_payload"));
    var id := NonBlank(data.sessionId);
    if id.Some? && data.payload.Some? && n.payloadBytes(data.payload.value).Some? {
      AfterOpenShape(peer, id.value, data, RawTunnel("", None, "", 0, 0), n.payloadBytes(data.payload.value).value,
                     IoResult(core.store, id.value, env.lockNow));
    }
  }

  lemma {:induction false} NonNegative(c: Counter, ops: seq<Op>, i: nat)
    ensures SumFrom(Amount(c), ops, i) >= 0
    decreases |ops| - i
  {
    if i < |ops| {
      NonNegative(c, ops, i + 1);
    }
  }

  lemma {:induction false} NoneIsZero(c: Counter, ops: seq<Op>, i: nat)
    requires forall q :: i <= q < |ops| ==> !Counts(ops[q], c)
    ensures SumFrom(Amount(c), ops, i) == 0
    decreases |ops| - i
  {
    if i < |ops| {
      NoneIsZero(c, ops, i + 1);
    }
  }

  /** Dropping the operation that has just run keeps the shape. */
  lemma TailShape(ops: seq<Op>)
    requires ops != [] && WellShaped(ops)
    ensures WellShaped(ops[1..])
    ensures IsDecision(ops[0]) ==> ops[1..] == []
  {
    var rest := ops[1..];
    SumTail(Amount(RelayTxPackets), ops);
    SumTail(Amount(RelayRxPackets), ops);
    SumTail(Amount(RelayTimeout), ops);
    NonNegative(RelayTxPackets, rest, 0);
    NonNegative(RelayRxPackets, rest, 0);
    NonNegative(RelayTimeout, rest, 0);
    if IsCompletion(ops[0]) {
      NoneIsZero(RelayTxPackets, rest, 0);
    }
  }
}
