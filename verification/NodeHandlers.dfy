/** The node's handlers as code that changes the shared counters and the session store in place. Each
    handler is proved to do exactly what its operation list does when no other task interferes, so the
    theorems about runs speak about this code. */
module NodeHandlers {
  import opened Text
  import opened SessionStores
  import opened Auth
  import opened Session
  import opened NodeSystem
  import opened NodeShape
  import opened NodeCounters
  import opened NodeContracts
  import opened Checks

  // ---------------------------------------------------------------- an operation list run to its end

  datatype Outcome = Outcome(core: Core, events: seq<NodeSystem.Event>)

  ghost function Drain(n: Node, core: Core, ops: seq<Op>, env: Env): Outcome
    decreases Sum(Steps, ops)
  {
    if ops == [] then Outcome(core, [])
    else
      var effect := Execute(n, core, ops[0], env);
      StepShrinks(n, core, ops, env);
      var rest := Drain(n, effect.core, effect.next + ops[1..], env);
      Outcome(rest.core, effect.events + rest.events)
  }

  /** Running `ops` from `before` ends in `after` and answers `reply` last. */
  ghost predicate Handled(n: Node, before: Core, ops: seq<Op>, env: Env, after: Core, reply: Reply) {
    var outcome := Drain(n, before, ops, env);
    && outcome.core == after
    && outcome.events != [] && outcome.events[|outcome.events| - 1] == Replied(reply)
  }

  /** One more operation in front. */
  lemma HandledStep(n: Node, before: Core, ops: seq<Op>, env: Env, after: Core, reply: Reply)
    requires ops != []
    requires
      var effect := Execute(n, before, ops[0], env);
      Handled(n, effect.core, effect.next + ops[1..], env, after, reply)
    ensures Handled(n, before, ops, env, after, reply)
  {
    hide Execute, Sum;
    var effect := Execute(n, before, ops[0], env);
    var rest := Drain(n, effect.core, effect.next + ops[1..], env);
    var whole := Drain(n, before, ops, env);
    assert whole.events == effect.events + rest.events;
  }

  /** Draining is one of the node's schedules: stepping only task i until it is done has the effects
      Drain says and leaves every other task as it was. */
  lemma {:induction false} DrainIsSchedule(n: Node, s: System, i: nat, env: Env) returns (actions: seq<Action>)
    requires i < |s.tasks|
    ensures AllWork(n, s, actions)
    ensures Continue(n, s, actions).core == Drain(n, s.core, s.tasks[i], env).core
    ensures Continue(n, s, actions).log == s.log + Drain(n, s.core, s.tasks[i], env).events
    ensures Continue(n, s, actions).tasks == s.tasks[i := []]
    decreases Sum(Steps, s.tasks[i])
  {
    hide Execute, Sum, SlotsAfter, BindingFails;
    if s.tasks[i] == [] {
      actions := [];
    } else {
      StepShrinks(n, s.core, s.tasks[i], env);
      var t := RunTask(n, s, i, env);
      var rest := DrainIsSchedule(n, t, i, env);
      actions := [Run(i, env)] + rest;
      assert actions[1..] == rest;
      assert t.tasks[i := []] == s.tasks[i := []];
    }
  }

  // ---------------------------------------------------------------- operations in front of handled ones

  function Added(core: Core, c: Counter, amount: nat): Core {
    core.(stats := FetchAdd(core.stats, c, amount))
  }

  lemma RespondHandled(n: Node, core: Core, reply: Reply, env: Env)
    ensures Handled(n, core, [Respond(reply)], env, core, Sent(reply, env))
  {
    hide Sum;
    var ops := [Respond(reply)];
    assert Drain(n, core, [], env) == Outcome(core, []);
    assert Execute(n, core, ops[0], env).next + ops[1..] == [];
    assert Drain(n, core, ops, env) == Outcome(core, [Replied(Sent(reply, env))]);
  }

  lemma CountHandled(n: Node, before: Core, c: Counter, amount: nat, rest: seq<Op>, env: Env, after: Core, reply: Reply)
    requires Handled(n, Added(before, c, amount), rest, env, after, reply)
    ensures Handled(n, before, [Count(c, amount)] + rest, env, after, reply)
  {
    hide Handled;
    var ops := [Count(c, amount)] + rest;
    assert Execute(n, before, ops[0], env) == Effect(Added(before, c, amount), [], []);
    assert [] + ops[1..] == rest;
    HandledStep(n, before, ops, env, after, reply);
  }

  lemma TwoCountsHandled(n: Node, before: Core, c: Counter, c2: Counter, bytes: nat, rest: seq<Op>, env: Env,
                         after: Core, reply: Reply)
    requires Handled(n, Added(Added(before, c, 1), c2, bytes), rest, env, after, reply)
    ensures Handled(n, before, [Count(c, 1), Count(c2, bytes)] + rest, env, after, reply)
  {
    hide Handled;
    CountHandled(n, Added(before, c, 1), c2, bytes, rest, env, after, reply);
    CountHandled(n, before, c, 1, [Count(c2, bytes)] + rest, env, after, reply);
    assert [Count(c, 1)] + ([Count(c2, bytes)] + rest) == [Count(c, 1), Count(c2, bytes)] + rest;
  }

  lemma ErrorHandled(n: Node, before: Core, c: Counter, reply: Reply, env: Env)
    ensures Handled(n, before, [Count(c, 1), Respond(reply)], env, Added(before, c, 1), Sent(reply, env))
  {
    hide Handled;
    RespondHandled(n, Added(before, c, 1), reply, env);
    CountHandled(n, before, c, 1, [Respond(reply)], env, Added(before, c, 1), Sent(reply, env));
    assert [Count(c, 1)] + [Respond(reply)] == [Count(c, 1), Respond(reply)];
  }

  /** A single operation, handled when what it leaves to do is. */
  lemma DecisionHandled(n: Node, before: Core, op: Op, env: Env, after: Core, reply: Reply)
    requires Handled(n, Execute(n, before, op, env).core, Execute(n, before, op, env).next, env, after, reply)
    ensures Handled(n, before, [op], env, after, reply)
  {
    hide Handled, Execute;
    assert [op][1..] == [];
    assert Execute(n, before, op, env).next + [] == Execute(n, before, op, env).next;
    HandledStep(n, before, [op], env, after, reply);
  }

  // ---------------------------------------------------------------- RuntimeStats

  function Twice(stats: Stats, c: Counter, c2: Counter, bytes: nat): Stats {
    FetchAdd(FetchAdd(stats, c, 1), c2, bytes)
  }

  /** The node's atomics. Each method is a few fetch-and-adds. */
  class RuntimeStats {
    var counters: Stats
    var sequence: nat
    var last: Option<string>

    constructor ()
      ensures counters == map[] && sequence == 0 && last == None
    {
      counters, sequence, last := map[], 0, None;
    }

    method Add(c: Counter, amount: nat)
      modifies `counters
      ensures counters == FetchAdd(old(counters), c, amount)
    {
      counters := counters[c := (Get(counters, c) + amount) % TWO64];
    }

    method NextProbeSequence() returns (next: nat)
      modifies `sequence
      ensures sequence == next == (old(sequence) + 1) % TWO64
    {
      sequence := (sequence + 1) % TWO64;
      next := sequence;
    }

    method RecordProbeSession(id: string)
      modifies `counters, `last
      ensures counters == FetchAdd(old(counters), ProbeSessionsTotal, 1) && last == Some(id)
    {
      Add(ProbeSessionsTotal, 1);
      last := Some(id);
    }

    method RecordUdpSessionRx(bytes: nat)
      modifies `counters
      ensures counters == Twice(old(counters), SessionRxPackets, SessionRxBytes, bytes)
    {
      Add(SessionRxPackets, 1);
      Add(SessionRxBytes, bytes);
    }

    method RecordUdpSessionTx(bytes: nat)
      modifies `counters
      ensures counters == Twice(old(counters), SessionTxPackets, SessionTxBytes, bytes)
    {
      Add(SessionTxPackets, 1);
      Add(SessionTxBytes, bytes);
    }

    method RecordUdpRelayTx(bytes: nat)
      modifies `counters
      ensures counters == Twice(old(counters), RelayTxPackets, RelayTxBytes, bytes)
    {
      Add(RelayTxPackets, 1);
      Add(RelayTxBytes, bytes);
    }

    method RecordUdpRelayRx(bytes: nat)
      modifies `counters
      ensures counters == Twice(old(counters), RelayRxPackets, RelayRxBytes, bytes)
    {
      Add(RelayRxPackets, 1);
      Add(RelayRxBytes, bytes);
    }
  }

  // ---------------------------------------------------------------- probe lists

  function ProbeStored(core: Core, id: string, sequence: nat, identity: ProbeIdentity, peer: string, env: Env): Core {
    Core(AfterRegister(core.store, NewSession(id, identity, peer, env.createdNow), env.lockNow),
         FetchAdd(core.stats, ProbeSessionsTotal, 1), sequence, Some(id))
  }

  lemma SequenceHandled(n: Node, before: Core, t: Transport, peer: string, identity: ProbeIdentity, grant: Grant, env: Env)
    ensures
      var sequence := (before.sequence + 1) % TWO64;
      var id := BuildSessionId(t, peer, env.idNow, sequence);
      Handled(n, before, [TakeSequence(t, peer, identity, grant)], env,
              ProbeStored(before, id, sequence, identity, peer, env), Sent(ProbeOk(id), env))
  {
    hide Handled, Sent, BuildSessionId, NewSession, AfterRegister;
    var sequence := (before.sequence + 1) % TWO64;
    var id := BuildSessionId(t, peer, env.idNow, sequence);
    var reply := ProbeOk(id);
    var after := ProbeStored(before, id, sequence, identity, peer, env);
    var counted := Added(before.(sequence := sequence), ProbeSessionsTotal, 1);
    var named := counted.(last := Some(id));
    RespondHandled(n, after, reply, env);
    var ops := [Register(id, identity, peer), Respond(reply)];
    assert Execute(n, named, ops[0], env).core == after;
    assert Execute(n, named, ops[0], env).next + ops[1..] == [Respond(reply)];
    HandledStep(n, named, ops, env, after, Sent(reply, env));
    var ops2 := [SetLast(id), Register(id, identity, peer), Respond(reply)];
    assert Execute(n, counted, ops2[0], env).next + ops2[1..] == ops;
    HandledStep(n, counted, ops2, env, after, Sent(reply, env));
    CountHandled(n, before.(sequence := sequence), ProbeSessionsTotal, 1, ops2, env, after, Sent(reply, env));
    assert [Count(ProbeSessionsTotal, 1)] + ops2
      == [Count(ProbeSessionsTotal, 1), SetLast(id), Register(id, identity, peer), Respond(reply)];
    DecisionHandled(n, before, TakeSequence(t, peer, identity, grant), env, after, Sent(reply, env));
  }

  // ---------------------------------------------------------------- session data lists

  function Answered(core: Core, op: Op, size: nat, env: Env): Core
    requires op.EncodeData?
  {
    Core(AfterIo(core.store, op.id, op.peer, 0, size, env.closeNow),
         Twice(Twice(core.stats, SessionRxPackets, SessionRxBytes, op.bytes), SessionTxPackets, SessionTxBytes, size),
         core.sequence, core.last)
  }

  lemma EncodeHandled(n: Node, before: Core, op: Op, env: Env)
    requires op.EncodeData? && env.encodedBytes.Some?
    ensures Handled(n, before, [op], env, Answered(before, op, env.encodedBytes.value, env),
                    DataOk(op.sessionId, op.status, op.responseBytes))
  {
    hide Handled, AfterIo, FetchAdd;
    var size := env.encodedBytes.value;
    var reply := DataOk(op.sessionId, op.status, op.responseBytes);
    var after := Answered(before, op, size, env);
    var closed := before.(store := AfterIo(before.store, op.id, op.peer, 0, size, env.closeNow));
    RespondHandled(n, after, reply, env);
    var received := Added(Added(closed, SessionRxPackets, 1), SessionRxBytes, op.bytes);
    TwoCountsHandled(n, received, SessionTxPackets, SessionTxBytes, size, [Respond(reply)], env, after, reply);
    var tail := [Count(SessionTxPackets, 1), Count(SessionTxBytes, size)] + [Respond(reply)];
    TwoCountsHandled(n, closed, SessionRxPackets, SessionRxBytes, op.bytes, tail, env, after, reply);
    var ops := [CloseIo(op.peer, op.id, size)] + ([Count(SessionRxPackets, 1), Count(SessionRxBytes, op.bytes)] + tail);
    assert Execute(n, before, ops[0], env).next + ops[1..] == ops[1..];
    HandledStep(n, before, ops, env, after, reply);
    assert ops == EncodeDataOps(op, env);
    DecisionHandled(n, before, op, env, after, reply);
  }

  lemma RelayDecided(n: Node, before: Core, op: Op, env: Env, after: Core, reply: Reply)
    requires op.RelayData? && Handled(n, before, RelayDataOps(op, env), env, after, reply)
    ensures Handled(n, before, [op], env, after, reply)
  {
    hide Handled, RelayDataOps;
    DecisionHandled(n, before, op, env, after, reply);
  }

  lemma TimeoutHandled(n: Node, before: Core, op: Op, sent: nat, env: Env, after: Core, reply: Reply)
    requires op.RelayData? && env.relay == RelayTimedOut(sent)
    requires
      var counted := Added(Added(Added(before, RelayTxPackets, 1), RelayTxBytes, sent), RelayTimeout, 1);
      Handled(n, counted, [EncodeData(op.peer, op.id, op.snap.sessionId, op.bytes, "upstream_timeout", 0)], env, after, reply)
    ensures Handled(n, before, [op], env, after, reply)
  {
    hide Handled, FetchAdd;
    var last := [EncodeData(op.peer, op.id, op.snap.sessionId, op.bytes, "upstream_timeout", 0)];
    var sentCore := Added(Added(before, RelayTxPackets, 1), RelayTxBytes, sent);
    CountHandled(n, sentCore, RelayTimeout, 1, last, env, after, reply);
    TwoCountsHandled(n, before, RelayTxPackets, RelayTxBytes, sent, [Count(RelayTimeout, 1)] + last, env, after, reply);
    assert RelayDataOps(op, env)
      == [Count(RelayTxPackets, 1), Count(RelayTxBytes, sent)] + ([Count(RelayTimeout, 1)] + last);
    DecisionHandled(n, before, op, env, after, reply);
  }

  lemma ForwardHandled(n: Node, before: Core, op: Op, sent: nat, got: nat, env: Env, after: Core, reply: Reply)
    requires op.RelayData? && env.relay == RelayReplied(sent, got)
    requires
      var sentCore := Added(Added(before, RelayTxPackets, 1), RelayTxBytes, sent);
      var counted := Added(Added(sentCore, RelayRxPackets, 1), RelayRxBytes, Received(got));
      Handled(n, counted, [EncodeData(op.peer, op.id, op.snap.sessionId, op.bytes, "forwarded", Received(got))], env, after, reply)
    ensures Handled(n, before, [op], env, after, reply)
  {
    hide Handled, FetchAdd;
    var last := [EncodeData(op.peer, op.id, op.snap.sessionId, op.bytes, "forwarded", Received(got))];
    var sentCore := Added(Added(before, RelayTxPackets, 1), RelayTxBytes, sent);
    TwoCountsHandled(n, sentCore, RelayRxPackets, RelayRxBytes, Received(got), last, env, after, reply);
    var rest := [Count(RelayRxPackets, 1), Count(RelayRxBytes, Received(got))] + last;
    TwoCountsHandled(n, before, RelayTxPackets, RelayTxBytes, sent, rest, env, after, reply);
    assert RelayDataOps(op, env) == [Count(RelayTxPackets, 1), Count(RelayTxBytes, sent)] + rest;
    DecisionHandled(n, before, op, env, after, reply);
  }

  // ---------------------------------------------------------------- raw tunnel lists

  lemma RawTimeoutHandled(n: Node, before: Core, op: Op, sent: nat, env: Env)
    requires op.RelayRaw? && env.relay == RelayTimedOut(sent)
    ensures
      var counted := Added(Added(Added(before, RelayTxPackets, 1), RelayTxBytes, sent), RelayTimeout, 1);
      Handled(n, before, [op], env, counted, RawReply(op.raw.sessionId, "upstream_timeout", 0))
  {
    hide Handled, FetchAdd;
    var reply := RawReply(op.raw.sessionId, "upstream_timeout", 0);
    var sentCore := Added(Added(before, RelayTxPackets, 1), RelayTxBytes, sent);
    var after := Added(sentCore, RelayTimeout, 1);
    ErrorHandled(n, sentCore, RelayTimeout, reply, env);
    var rest := [Count(RelayTimeout, 1), Respond(reply)];
    TwoCountsHandled(n, before, RelayTxPackets, RelayTxBytes, sent, rest, env, after, reply);
    assert RelayRawOps(op, env) == [Count(RelayTxPackets, 1), Count(RelayTxBytes, sent)] + rest;
    DecisionHandled(n, before, op, env, after, reply);
  }

  function RawClosed(core: Core, op: Op, size: nat, env: Env): Core
    requires op.RelayRaw?
  {
    Core(AfterIo(core.store, op.raw.sessionId, op.peer, 0, size, env.closeNow),
         Twice(Twice(core.stats, SessionRxPackets, SessionRxBytes, op.raw.payloadBytes), SessionTxPackets, SessionTxBytes, size),
         core.sequence, core.last)
  }

  lemma RawAnswerHandled(n: Node, before: Core, op: Op, size: nat, env: Env)
    requires op.RelayRaw?
    ensures Handled(n, before, RawForwardedOps(op.peer, op.raw, size), env, RawClosed(before, op, size, env),
                    RawReply(op.raw.sessionId, "forwarded", size))
  {
    hide Handled, AfterIo, FetchAdd;
    var reply := RawReply(op.raw.sessionId, "forwarded", size);
    var after := RawClosed(before, op, size, env);
    var received := Added(Added(before, SessionRxPackets, 1), SessionRxBytes, op.raw.payloadBytes);
    var sentBack := Added(Added(received, SessionTxPackets, 1), SessionTxBytes, size);
    RespondHandled(n, after, reply, env);
    var ops := [CloseIo(op.peer, op.raw.sessionId, size), Respond(reply)];
    assert Execute(n, sentBack, ops[0], env).next + ops[1..] == [Respond(reply)];
    assert Execute(n, sentBack, ops[0], env).core == after;
    HandledStep(n, sentBack, ops, env, after, reply);
    TwoCountsHandled(n, received, SessionTxPackets, SessionTxBytes, size, ops, env, after, reply);
    var tail := [Count(SessionTxPackets, 1), Count(SessionTxBytes, size)] + ops;
    TwoCountsHandled(n, before, SessionRxPackets, SessionRxBytes, op.raw.payloadBytes, tail, env, after, reply);
    assert RawForwardedOps(op.peer, op.raw, size)
      == [Count(SessionRxPackets, 1), Count(SessionRxBytes, op.raw.payloadBytes)] + tail;
  }

  lemma RawForwardHandled(n: Node, before: Core, op: Op, sent: nat, got: nat, env: Env)
    requires op.RelayRaw? && env.relay == RelayReplied(sent, got)
    ensures
      var sentCore := Added(Added(before, RelayTxPackets, 1), RelayTxBytes, sent);
      var relayed := Added(Added(sentCore, RelayRxPackets, 1), RelayRxBytes, Received(got));
      Handled(n, before, [op], env, RawClosed(relayed, op, Received(got), env),
              RawReply(op.raw.sessionId, "forwarded", Received(got)))
  {
    hide Handled, FetchAdd, RawClosed, RawForwardedOps;
    var size := Received(got);
    var reply := RawReply(op.raw.sessionId, "forwarded", size);
    var sentCore := Added(Added(before, RelayTxPackets, 1), RelayTxBytes, sent);
    var relayed := Added(Added(sentCore, RelayRxPackets, 1), RelayRxBytes, size);
    var after := RawClosed(relayed, op, size, env);
    var last := RawForwardedOps(op.peer, op.raw, size);
    RawAnswerHandled(n, relayed, op, size, env);
    TwoCountsHandled(n, sentCore, RelayRxPackets, RelayRxBytes, size, last, env, after, reply);
    var rest := [Count(RelayRxPackets, 1), Count(RelayRxBytes, size)] + last;
    TwoCountsHandled(n, before, RelayTxPackets, RelayTxBytes, sent, rest, env, after, reply);
    assert RelayRawOps(op, env) == [Count(RelayTxPackets, 1), Count(RelayTxBytes, sent)] + rest;
    DecisionHandled(n, before, op, env, after, reply);
  }

  // ---------------------------------------------------------------- the counters of each outcome

  lemma PairCounts(stats: Stats, c: Counter, c2: Counter, bytes: nat)
    requires c != c2
    ensures Grew(stats, Twice(stats, c, c2, bytes), map[c := 1, c2 := bytes])
  {
    GrewOnce(stats, c, 1);
    GrewOnce(FetchAdd(stats, c, 1), c2, bytes);
    GrewTwice(stats, FetchAdd(stats, c, 1), Twice(stats, c, c2, bytes), map[c := 1], map[c2 := bytes]);
    assert map[c := 1] + map[c2 := bytes] == map[c := 1, c2 := bytes];
  }

  lemma TimeoutCounts(stats: Stats, sent: nat)
    ensures Grew(stats, FetchAdd(Twice(stats, RelayTxPackets, RelayTxBytes, sent), RelayTimeout, 1),
                 map[RelayTxPackets := 1, RelayTxBytes := sent, RelayTimeout := 1])
  {
    hide Grew, FetchAdd;
    var mid := Twice(stats, RelayTxPackets, RelayTxBytes, sent);
    PairCounts(stats, RelayTxPackets, RelayTxBytes, sent);
    GrewOnce(mid, RelayTimeout, 1);
    GrewTwice(stats, mid, FetchAdd(mid, RelayTimeout, 1), map[RelayTxPackets := 1, RelayTxBytes := sent], map[RelayTimeout := 1]);
    assert map[RelayTxPackets := 1, RelayTxBytes := sent] + map[RelayTimeout := 1]
      == map[RelayTxPackets := 1, RelayTxBytes := sent, RelayTimeout := 1];
  }

  lemma ReplyCounts(stats: Stats, sent: nat, got: nat)
    ensures Grew(stats, Twice(Twice(stats, RelayTxPackets, RelayTxBytes, sent), RelayRxPackets, RelayRxBytes, got),
                 map[RelayTxPackets := 1, RelayTxBytes := sent, RelayRxPackets := 1, RelayRxBytes := got])
  {
    hide Grew, FetchAdd;
    var mid := Twice(stats, RelayTxPackets, RelayTxBytes, sent);
    PairCounts(stats, RelayTxPackets, RelayTxBytes, sent);
    PairCounts(mid, RelayRxPackets, RelayRxBytes, got);
    GrewTwice(stats, mid, Twice(mid, RelayRxPackets, RelayRxBytes, got),
              map[RelayTxPackets := 1, RelayTxBytes := sent], map[RelayRxPackets := 1, RelayRxBytes := got]);
    assert map[RelayTxPackets := 1, RelayTxBytes := sent] + map[RelayRxPackets := 1, RelayRxBytes := got]
      == map[RelayTxPackets := 1, RelayTxBytes := sent, RelayRxPackets := 1, RelayRxBytes := got];
  }

  lemma SessionCounts(stats: Stats, bytes: nat, size: nat)
    ensures Grew(stats, Twice(Twice(stats, SessionRxPackets, SessionRxBytes, bytes), SessionTxPackets, SessionTxBytes, size),
                 map[SessionRxPackets := 1, SessionRxBytes := bytes, SessionTxPackets := 1, SessionTxBytes := size])
  {
    hide Grew, FetchAdd;
    var mid := Twice(stats, SessionRxPackets, SessionRxBytes, bytes);
    PairCounts(stats, SessionRxPackets, SessionRxBytes, bytes);
    PairCounts(mid, SessionTxPackets, SessionTxBytes, size);
    GrewTwice(stats, mid, Twice(mid, SessionTxPackets, SessionTxBytes, size),
              map[SessionRxPackets := 1, SessionRxBytes := bytes], map[SessionTxPackets := 1, SessionTxBytes := size]);
    assert map[SessionRxPackets := 1, SessionRxBytes := bytes] + map[SessionTxPackets := 1, SessionTxBytes := size]
      == map[SessionRxPackets := 1, SessionRxBytes := bytes, SessionTxPackets := 1, SessionTxBytes := size];
  }

  lemma ForwardCounts(stats: Stats, sent: nat, got: nat, bytes: nat)
    ensures
      var relayed := Twice(Twice(stats, RelayTxPackets, RelayTxBytes, sent), RelayRxPackets, RelayRxBytes, got);
      Grew(stats, Twice(Twice(relayed, SessionRxPackets, SessionRxBytes, bytes), SessionTxPackets, SessionTxBytes, got),
           map[RelayTxPackets := 1, RelayTxBytes := sent, RelayRxPackets := 1, RelayRxBytes := got,
               SessionRxPackets := 1, SessionRxBytes := bytes, SessionTxPackets := 1, SessionTxBytes := got])
  {
    hide Grew, FetchAdd;
    var relayed := Twice(Twice(stats, RelayTxPackets, RelayTxBytes, sent), RelayRxPackets, RelayRxBytes, got);
    var a := map[RelayTxPackets := 1, RelayTxBytes := sent, RelayRxPackets := 1, RelayRxBytes := got];
    var b := map[SessionRxPackets := 1, SessionRxBytes := bytes, SessionTxPackets := 1, SessionTxBytes := got];
    ReplyCounts(stats, sent, got);
    SessionCounts(relayed, bytes, got);
    GrewTwice(stats, relayed, Twice(Twice(relayed, SessionRxPackets, SessionRxBytes, bytes), SessionTxPackets, SessionTxBytes, got), a, b);
    assert a + b == map[RelayTxPackets := 1, RelayTxBytes := sent, RelayRxPackets := 1, RelayRxBytes := got,
                        SessionRxPackets := 1, SessionRxBytes := bytes, SessionTxPackets := 1, SessionTxBytes := got];
  }

  lemma NamesItsTarget(request: DataRequest)
    ensures HasSessionTarget(request) <==> NamesTarget(request)
  {
  }

  /** An answer after a relay has been counted. */
  lemma ClosedAfterRelay(
    before: Core, mid: Core, after: Core, relayed: map<Counter, nat>, peer: string, id: string, sessionId: string, bytes: nat,
    status: string, size: nat, env: Env, reply: Reply)
    requires mid == before.(stats := mid.stats) && Grew(before.stats, mid.stats, relayed)
    requires relayed.Keys !! {SessionRxPackets, SessionRxBytes, SessionTxPackets, SessionTxBytes}
    requires DataClosed(mid, after, mid.store, map[], peer, id, sessionId, bytes, status, size, env, reply)
    ensures DataClosed(before, after, before.store, relayed, peer, id, sessionId, bytes, status, size, env, reply)
  {
    hide Grew, AfterIo;
    if env.encodedBytes.None? {
      GrewTwice(before.stats, mid.stats, after.stats, relayed, map[]);
      assert relayed + map[] == relayed;
    } else {
      var own := map[SessionRxPackets := 1, SessionRxBytes := bytes, SessionTxPackets := 1, SessionTxBytes := env.encodedBytes.value];
      assert map[] + own == own;
      GrewTwice(before.stats, mid.stats, after.stats, relayed, own);
    }
  }

  // ---------------------------------------------------------------- the handlers

  class NodeRuntime {
    const n: Node
    const stats: RuntimeStats
    const sessions: SessionStore

    constructor (n: Node)
      ensures this.n == n && fresh(stats) && fresh(sessions) && Ready(0) && Shared() == Initial().core
    {
      this.n := n;
      stats := new RuntimeStats();
      sessions := new SessionStore();
    }

    /** The store is consistent and no lock was taken after `now`. */
    ghost predicate Ready(now: nat)
      reads sessions
    {
      sessions.Valid() && NotBefore(sessions.history, now)
    }

    /** The state all tasks share. */
    ghost function Shared(): Core
      reads stats, sessions
    {
      Core(sessions.sessions, stats.counters, stats.sequence, stats.last)
    }

    /** The count made for a health or control report: one purge of the shared store. */
    method CountSessions(now: nat) returns (active: nat)
      requires Ready(now)
      modifies sessions
      ensures Ready(now)
      ensures forall s: System :: s.core == old(Shared()) ==> Step(n, s, Purge(now)).core == Shared()
      ensures active == |UnexpiredIds(old(sessions.history), now)|
    {
      active := sessions.ActiveUdpSessionCount(now);
    }

    method BuildProbeError(code: string, env: Env) returns (reply: Reply)
      requires Ready(env.lockNow)
      modifies stats`counters
      ensures sessions.Valid() && Shared() == Added(old(Shared()), ProbeRejected, 1)
      ensures reply == Sent(ProbeError(code), env)
    {
      stats.Add(ProbeRejected, 1);
      reply := if env.encodes then ProbeError(code) else Failure;
    }

    /** The handler of text that is no message. */
    method RejectMessage(transport: Transport, peer: string, env: Env) returns (reply: Reply)
      requires Ready(env.lockNow)
      modifies stats`counters
      ensures Ready(env.lockNow)
      ensures Handled(n, old(Shared()), Arrival(transport, peer, BadMessage), env, Shared(), reply)
      ensures Rejected(old(Shared()), Shared(), map[ProbeRejected := 1], "invalid_probe", env, reply)
    {
      hide Handled, FetchAdd, Grew;
      GrewOnce(Shared().stats, ProbeRejected, 1);
      ErrorHandled(n, Shared(), ProbeRejected, ProbeError("invalid_probe"), env);
      reply := BuildProbeError("invalid_probe", env);
    }

    method RejectProbe(ghost amounts: map<Counter, nat>, code: string, env: Env, ghost before: Core) returns (reply: Reply)
      requires Ready(env.lockNow) && Shared() == before.(stats := Shared().stats)
      requires Grew(before.stats, Shared().stats, amounts) && ProbeRejected !in amounts
      modifies stats`counters
      ensures Ready(env.lockNow) && Shared() == Added(old(Shared()), ProbeRejected, 1) && reply == Sent(ProbeError(code), env)
      ensures Rejected(before, Shared(), amounts + map[ProbeRejected := 1], code, env, reply)
    {
      hide FetchAdd, Grew;
      GrewOnce(Shared().stats, ProbeRejected, 1);
      GrewTwice(before.stats, Shared().stats, FetchAdd(Shared().stats, ProbeRejected, 1), amounts, map[ProbeRejected := 1]);
      reply := BuildProbeError(code, env);
    }

    /** Names, stores and answers an admitted probe. */
    method AdmitProbe(transport: Transport, peer: string, identity: ProbeIdentity, env: Env, ghost grant: Grant)
      returns (reply: Reply)
      requires Ready(env.lockNow)
      modifies stats, sessions
      ensures Ready(env.lockNow)
      ensures Handled(n, old(Shared()), [TakeSequence(transport, peer, identity, grant)], env, Shared(), reply)
      ensures
        var sequence := (old(Shared()).sequence + 1) % TWO64;
        var id := BuildSessionId(transport, peer, env.idNow, sequence);
        Shared() == ProbeStored(old(Shared()), id, sequence, identity, peer, env) && reply == Sent(ProbeOk(id), env)
    {
      hide Handled, FetchAdd, BuildSessionId, NewSession, AfterRegister;
      SequenceHandled(n, Shared(), transport, peer, identity, grant, env);
      var sequence := stats.NextProbeSequence();
      var id := BuildSessionId(transport, peer, env.idNow, sequence);
      stats.RecordProbeSession(id);
      sessions.RegisterUdpSession(NewSession(id, identity, peer, env.createdNow), env.lockNow);
      reply := if env.encodes then ProbeOk(id) else Failure;
    }

    method BuildProbeResponse(transport: Transport, peer: string, request: ProbeRequest, env: Env) returns (reply: Reply)
      requires Ready(env.lockNow)
      modifies stats, sessions
      ensures Ready(env.lockNow)
      ensures Handled(n, old(Shared()), [StartProbe(transport, peer, request)], env, Shared(), reply)
      ensures ProbeAnswered(n, old(Shared()), Shared(), transport, peer, request, env, reply)
    {
      hide Handled, FetchAdd, VerifyProbeToken, IdentityFromClaims, BuildSessionId, NewSession, AfterRegister, Admitted, Rejected,
           OwnedByClaims, OwnedByRequest, Grew, ProbeAnswered;
      ghost var before := Shared();
      ghost var op := StartProbe(transport, peer, request);
      ghost var grant: Grant;
      var identity: ProbeIdentity;
      var decision := VerifyProbeToken(n.crypto, request, n.nodeId, n.secret, env.verifyNow);
      match decision {
        case NoToken =>
          stats.Add(AuthMissing, 1);
          identity := IdentityFromRequest(request);
          grant := Anonymous(request);
        case Valid(claims) =>
          stats.Add(AuthOk, 1);
          var bound := IdentityFromClaims(n.crypto, claims, request.routePolicy);
          if bound.Err? {
            stats.Add(AuthFailed, 1);
            BindingErrorHandled(n, before, op, claims, bound.error, env);
            PairCounts(before.stats, AuthOk, AuthFailed, 1);
            reply := RejectProbe(map[AuthOk := 1, AuthFailed := 1], bound.error, env, before);
            UnboundProbeAnswers(n, before, Shared(), op, claims, bound.error, env, reply);
            return;
          }
          identity := bound.value;
          grant := Token(request, claims, env.verifyNow);
        case Invalid(code) =>
          stats.Add(AuthFailed, 1);
          InvalidTokenHandled(n, before, op, code, env);
          GrewOnce(before.stats, AuthFailed, 1);
          reply := RejectProbe(map[AuthFailed := 1], code, env, before);
          InvalidProbeAnswers(n, before, Shared(), op, code, env, reply);
          return;
      }
      ghost var admitted := Shared();
      reply := AdmitProbe(transport, peer, identity, env, grant);
      AdmittedHandled(n, before, op, identity, grant, env, admitted, Shared(), reply);
      AdmittedAnswers(n, before, admitted, Shared(), op, identity, env, reply);
    }

    /** The end of the data handler: encode, record the answer, count. */
    method AnswerData(op: Op, env: Env) returns (reply: Reply)
      requires op.EncodeData? && Ready(env.closeNow)
      modifies stats`counters, sessions
      ensures Ready(env.closeNow)
      ensures Handled(n, old(Shared()), [op], env, Shared(), reply)
      ensures DataClosed(old(Shared()), Shared(), old(Shared()).store, map[], op.peer, op.id, op.sessionId, op.bytes, op.status,
                         op.responseBytes, env, reply)
    {
      hide Handled, FetchAdd, Grew, AfterIo;
      GrewNothing(Shared().stats);
      if env.encodedBytes.None? {
        reply := Failure;
        RespondHandled(n, Shared(), Failure, env);
        DecisionHandled(n, Shared(), op, env, Shared(), Failure);
        return;
      }
      EncodeHandled(n, Shared(), op, env);
      var size := env.encodedBytes.value;
      SessionCounts(Shared().stats, op.bytes, size);
      assert map[] + map[SessionRxPackets := 1, SessionRxBytes := op.bytes, SessionTxPackets := 1, SessionTxBytes := size]
        == map[SessionRxPackets := 1, SessionRxBytes := op.bytes, SessionTxPackets := 1, SessionTxBytes := size];
      var ignored := sessions.RecordUdpSessionIo(op.id, op.peer, 0, size, env.closeNow);
      stats.RecordUdpSessionRx(op.bytes);
      stats.RecordUdpSessionTx(size);
      reply := DataOk(op.sessionId, op.status, op.responseBytes);
    }

    /** The relay of a data request whose target was found and looked up. */
    method ForwardData(op: Op, env: Env) returns (reply: Reply)
      requires op.RelayData? && Ready(env.closeNow)
      modifies stats`counters, sessions
      ensures Ready(env.closeNow)
      ensures Handled(n, old(Shared()), [op], env, Shared(), reply)
      ensures DataRelayed(old(Shared()), Shared(), op.peer, op.id, op.snap.sessionId, op.bytes, env, reply)
    {
      hide Handled, FetchAdd, Grew, DataClosed, Refused, Execute;
      match env.relay {
        case RelayFailed =>
          ghost var before := Shared();
          assert RelayDataOps(op, env) == DataError(RelayError, "relay_error");
          reply := FailData(RelayError, "relay_error", env);
          RelayDecided(n, before, op, env, Shared(), reply);
        case RelayTimedOut(sent) => reply := AnswerTimeout(op, sent, env);
        case RelayReplied(sent, got) => reply := AnswerForward(op, sent, got, env);
      }
    }

    /** The relay timed out. */
    method AnswerTimeout(op: Op, sent: nat, env: Env) returns (reply: Reply)
      requires op.RelayData? && env.relay == RelayTimedOut(sent) && Ready(env.closeNow)
      modifies stats`counters, sessions
      ensures Ready(env.closeNow)
      ensures Handled(n, old(Shared()), [op], env, Shared(), reply)
      ensures DataClosed(old(Shared()), Shared(), old(Shared()).store,
                         map[RelayTxPackets := 1, RelayTxBytes := sent, RelayTimeout := 1],
                         op.peer, op.id, op.snap.sessionId, op.bytes, "upstream_timeout", 0, env, reply)
    {
      hide Handled, FetchAdd, Grew, DataClosed;
      ghost var before := Shared();
      stats.RecordUdpRelayTx(sent);
      stats.Add(RelayTimeout, 1);
      TimeoutCounts(before.stats, sent);
      ghost var mid := Shared();
      reply := AnswerData(EncodeData(op.peer, op.id, op.snap.sessionId, op.bytes, "upstream_timeout", 0), env);
      ClosedAfterRelay(before, mid, Shared(), map[RelayTxPackets := 1, RelayTxBytes := sent, RelayTimeout := 1],
                       op.peer, op.id, op.snap.sessionId, op.bytes, "upstream_timeout", 0, env, reply);
      TimeoutHandled(n, before, op, sent, env, Shared(), reply);
    }

    /** The relay got an answer. */
    method AnswerForward(op: Op, sent: nat, got: nat, env: Env) returns (reply: Reply)
      requires op.RelayData? && env.relay == RelayReplied(sent, got) && Ready(env.closeNow)
      modifies stats`counters, sessions
      ensures Ready(env.closeNow)
      ensures Handled(n, old(Shared()), [op], env, Shared(), reply)
      ensures DataClosed(old(Shared()), Shared(), old(Shared()).store,
                         map[RelayTxPackets := 1, RelayTxBytes := sent, RelayRxPackets := 1, RelayRxBytes := Buffered(got)],
                         op.peer, op.id, op.snap.sessionId, op.bytes, "forwarded", Buffered(got), env, reply)
    {
      hide Handled, FetchAdd, Grew, DataClosed;
      ghost var before := Shared();
      var size := Received(got);
      stats.RecordUdpRelayTx(sent);
      stats.RecordUdpRelayRx(size);
      ReplyCounts(before.stats, sent, size);
      ghost var mid := Shared();
      reply := AnswerData(EncodeData(op.peer, op.id, op.snap.sessionId, op.bytes, "forwarded", size), env);
      ClosedAfterRelay(before, mid, Shared(), map[RelayTxPackets := 1, RelayTxBytes := sent, RelayRxPackets := 1, RelayRxBytes := size],
                       op.peer, op.id, op.snap.sessionId, op.bytes, "forwarded", size, env, reply);
      ForwardHandled(n, before, op, sent, got, env, Shared(), reply);
    }

    method FailData(counter: Counter, code: string, env: Env) returns (reply: Reply)
      modifies stats`counters
      ensures Shared() == Added(old(Shared()), counter, 1) && reply == Sent(SessionError(code), env)
      ensures Handled(n, old(Shared()), DataError(counter, code), env, Shared(), reply)
      ensures Refused(old(Shared()), Shared(), old(Shared()).store, counter, SessionError(code), env, reply)
    {
      hide Handled, FetchAdd, Grew;
      GrewOnce(Shared().stats, counter, 1);
      ErrorHandled(n, Shared(), counter, SessionError(code), env);
      stats.Add(counter, 1);
      reply := if env.encodes then SessionError(code) else Failure;
    }

    method BuildSessionDataResponse(peer: string, request: DataRequest, env: Env) returns (reply: Reply)
      requires Ready(env.lockNow) && env.lockNow <= env.closeNow
      modifies stats`counters, sessions
      ensures Ready(env.closeNow)
      ensures Handled(n, old(Shared()), [OpenData(peer, request)], env, Shared(), reply)
      ensures DataAnswered(n, old(Shared()), Shared(), peer, request, env, reply)
    {
      NamesItsTarget(request);
      hide Handled, FetchAdd, Refused, DataResolved, NamesTarget, HasSessionTarget, PlanTarget, IoResult, AfterIo;
      ghost var before := Shared();
      ghost var op := OpenData(peer, request);
      var id := NonBlank(request.sessionId);
      if id.None? {
        reply := FailData(SessionMiss, "missing_session_id", env);
        DecisionHandled(n, before, op, env, Shared(), reply);
        return;
      }
      if request.payload.None? {
        reply := FailData(SessionMiss, "missing_payload", env);
        DecisionHandled(n, before, op, env, Shared(), reply);
        return;
      }
      var bytes := n.payloadBytes(request.payload.value);
      if bytes.None? {
        reply := FailData(SessionMiss, "invalid_payload", env);
        DecisionHandled(n, before, op, env, Shared(), reply);
        return;
      }
      var session := sessions.RecordUdpSessionIo(id.value, peer, bytes.value, 0, env.lockNow);
      ghost var touched := Shared();
      if session.Err? {
        if session.error.Missing? {
          reply := FailData(SessionMiss, "session_not_found", env);
        } else {
          reply := FailData(SessionExpired, "session_expired", env);
        }
      } else if (HasSessionTarget(request) || session.value.routeTargetAddr.Some?) && !session.value.authenticated {
        reply := FailData(RelayError, "relay_auth_required", env);
      } else {
        reply := ResolveAndAnswer(ResolveData(peer, id.value, request, bytes.value, session.value), env);
      }
      assert Execute(n, before, op, env).core == touched;
      DecisionHandled(n, before, op, env, Shared(), reply);
    }

    /** The middle of the data handler: resolve the target, then echo or relay. */
    method ResolveAndAnswer(op: Op, env: Env) returns (reply: Reply)
      requires op.ResolveData? && Ready(env.closeNow)
      modifies stats`counters, sessions
      ensures Ready(env.closeNow)
      ensures Handled(n, old(Shared()), [op], env, Shared(), reply)
      ensures DataResolved(n, old(Shared()), Shared(), op.peer, op.id, op.data, op.bytes, op.snap, env, reply)
    {
      hide Handled, FetchAdd, PlanTarget, Refused, DataClosed, DataRelayed;
      ghost var before := Shared();
      var plan := PlanTarget(n.parse, op.data, op.snap.routeTargetAddr, op.snap.routePolicy);
      if plan.Err? {
        reply := FailData(RelayError, plan.error, env);
      } else if plan.value.None? {
        reply := AnswerData(EncodeData(op.peer, op.id, op.snap.sessionId, op.bytes, "echo", op.bytes), env);
      } else if env.address.None? {
        reply := FailData(RelayError, "invalid_target", env);
      } else {
        reply := ForwardData(RelayData(op.peer, op.id, op.bytes, op.snap, plan.value.value, env.address.value), env);
      }
      DecisionHandled(n, before, op, env, Shared(), reply);
    }

    method FailRaw(counter: Counter, id: string, status: string, env: Env) returns (reply: Reply)
      modifies stats`counters
      ensures Shared() == Added(old(Shared()), counter, 1) && reply == RawReply(id, status, 0)
      ensures Handled(n, old(Shared()), RawError(counter, id, status), env, Shared(), reply)
      ensures Refused(old(Shared()), Shared(), old(Shared()).store, counter, RawReply(id, status, 0), env, reply)
    {
      hide Handled, FetchAdd, Grew;
      GrewOnce(Shared().stats, counter, 1);
      ErrorHandled(n, Shared(), counter, RawReply(id, status, 0), env);
      stats.Add(counter, 1);
      reply := RawReply(id, status, 0);
    }

    /** The raw tunnel's handler; whatever happens, it answers under the session id it was given. */
    method BuildRawUdpTunnelResponse(transport: Transport, peer: string, raw: RawTunnel, env: Env) returns (reply: Reply)
      requires Ready(env.lockNow) && env.lockNow <= env.closeNow
      modifies stats`counters, sessions
      ensures Ready(env.closeNow)
      ensures Handled(n, old(Shared()), [OpenRaw(transport, peer, raw)], env, Shared(), reply)
      ensures RawAnswered(n, old(Shared()), Shared(), transport, peer, raw, env, reply)
      ensures reply.RawReply? && reply.sessionId == raw.sessionId
    {
      hide Handled, FetchAdd, IoResult, AfterIo, Refused, RawResolved;
      ghost var before := Shared();
      ghost var op := OpenRaw(transport, peer, raw);
      if transport.Tcp? {
        reply := RawReply(raw.sessionId, "unsupported_transport", 0);
        RespondHandled(n, before, reply, env);
        DecisionHandled(n, before, op, env, before, reply);
        return;
      }
      var session := sessions.RecordUdpSessionIo(raw.sessionId, peer, raw.payloadBytes, 0, env.lockNow);
      ghost var touched := Shared();
      if session.Err? {
        if session.error.Missing? {
          reply := FailRaw(SessionMiss, raw.sessionId, "session_not_found", env);
        } else {
          reply := FailRaw(SessionExpired, raw.sessionId, "session_expired", env);
        }
      } else if !session.value.authenticated {
        reply := FailRaw(RelayError, raw.sessionId, "relay_auth_required", env);
      } else {
        reply := ResolveAndTunnel(ResolveRaw(peer, raw, session.value), env);
      }
      assert Execute(n, before, op, env).core == touched;
      DecisionHandled(n, before, op, env, Shared(), reply);
    }

    method ResolveAndTunnel(op: Op, env: Env) returns (reply: Reply)
      requires op.ResolveRaw? && Ready(env.closeNow)
      modifies stats`counters, sessions
      ensures Ready(env.closeNow)
      ensures Handled(n, old(Shared()), [op], env, Shared(), reply)
      ensures RawResolved(n, old(Shared()), Shared(), op.peer, op.raw, op.snap, env, reply)
      ensures reply.RawReply? && reply.sessionId == op.raw.sessionId
    {
      hide Handled, FetchAdd, PlanTarget, Refused, RawRelayed;
      ghost var before := Shared();
      var id := op.raw.sessionId;
      var plan := PlanTarget(n.parse, RawAsData(op.raw), op.snap.routeTargetAddr, op.snap.routePolicy);
      if plan.Err? {
        reply := FailRaw(RelayError, id, plan.error, env);
      } else if plan.value.None? {
        reply := FailRaw(RelayError, id, "missing_target", env);
      } else if env.address.None? {
        reply := FailRaw(RelayError, id, "invalid_target", env);
      } else {
        reply := TunnelRaw(RelayRaw(op.peer, op.raw, op.snap, plan.value.value, env.address.value), env);
      }
      DecisionHandled(n, before, op, env, Shared(), reply);
    }

    method TunnelRaw(op: Op, env: Env) returns (reply: Reply)
      requires op.RelayRaw? && Ready(env.closeNow)
      modifies stats`counters, sessions
      ensures Ready(env.closeNow)
      ensures Handled(n, old(Shared()), [op], env, Shared(), reply)
      ensures RawRelayed(old(Shared()), Shared(), op.peer, op.raw, env, reply)
      ensures reply.RawReply? && reply.sessionId == op.raw.sessionId
    {
      hide Handled, FetchAdd, AfterIo, Grew;
      ghost var before := Shared();
      var id := op.raw.sessionId;
      match env.relay {
        case RelayFailed =>
          reply := FailRaw(RelayError, id, "relay_error", env);
          DecisionHandled(n, before, op, env, Shared(), reply);
        case RelayTimedOut(sent) =>
          RawTimeoutHandled(n, before, op, sent, env);
          TimeoutCounts(before.stats, sent);
          stats.RecordUdpRelayTx(sent);
          stats.Add(RelayTimeout, 1);
          reply := RawReply(id, "upstream_timeout", 0);
        case RelayReplied(sent, got) => reply := TunnelForward(op, sent, got, env);
      }
    }

    /** The raw relay got an answer. */
    method TunnelForward(op: Op, sent: nat, got: nat, env: Env) returns (reply: Reply)
      requires op.RelayRaw? && env.relay == RelayReplied(sent, got) && Ready(env.closeNow)
      modifies stats`counters, sessions
      ensures Ready(env.closeNow)
      ensures Handled(n, old(Shared()), [op], env, Shared(), reply)
      ensures RawRelayed(old(Shared()), Shared(), op.peer, op.raw, env, reply)
      ensures reply == RawReply(op.raw.sessionId, "forwarded", Buffered(got))
    {
      hide Handled, FetchAdd, AfterIo, Grew;
      ghost var before := Shared();
      var (id, size) := (op.raw.sessionId, Received(got));
      RawForwardHandled(n, before, op, sent, got, env);
      ForwardCounts(before.stats, sent, size, op.raw.payloadBytes);
      stats.RecordUdpRelayTx(sent);
      stats.RecordUdpRelayRx(size);
      stats.RecordUdpSessionRx(op.raw.payloadBytes);
      stats.RecordUdpSessionTx(size);
      var ignored := sessions.RecordUdpSessionIo(id, op.peer, 0, size, env.closeNow);
      reply := RawReply(id, "forwarded", size);
    }
  }

  // ---------------------------------------------------------------- probe paths

  lemma InvalidTokenHandled(n: Node, before: Core, op: Op, code: string, env: Env)
    requires op.StartProbe? && VerifyProbeToken(n.crypto, op.request, n.nodeId, n.secret, env.verifyNow) == Invalid(code)
    ensures Handled(n, before, [op], env, Added(Added(before, AuthFailed, 1), ProbeRejected, 1), Sent(ProbeError(code), env))
  {
    hide Handled, FetchAdd, VerifyProbeToken;
    var after := Added(Added(before, AuthFailed, 1), ProbeRejected, 1);
    var rest := [Count(ProbeRejected, 1), Respond(ProbeError(code))];
    ErrorHandled(n, Added(before, AuthFailed, 1), ProbeRejected, ProbeError(code), env);
    CountHandled(n, before, AuthFailed, 1, rest, env, after, Sent(ProbeError(code), env));
    assert [Count(AuthFailed, 1)] + rest == Execute(n, before, op, env).next;
    DecisionHandled(n, before, op, env, after, Sent(ProbeError(code), env));
  }

  lemma BindingErrorHandled(n: Node, before: Core, op: Op, claims: Claims, code: string, env: Env)
    requires op.StartProbe? && VerifyProbeToken(n.crypto, op.request, n.nodeId, n.secret, env.verifyNow) == Valid(claims)
    requires IdentityFromClaims(n.crypto, claims, op.request.routePolicy) == Err(code)
    ensures Handled(n, before, [op], env,
      Added(Added(Added(before, AuthOk, 1), AuthFailed, 1), ProbeRejected, 1), Sent(ProbeError(code), env))
  {
    hide Handled, FetchAdd, VerifyProbeToken, IdentityFromClaims;
    var ok := Added(before, AuthOk, 1);
    var failed := Added(ok, AuthFailed, 1);
    var after := Added(failed, ProbeRejected, 1);
    var rest := [Count(ProbeRejected, 1), Respond(ProbeError(code))];
    ErrorHandled(n, failed, ProbeRejected, ProbeError(code), env);
    CountHandled(n, ok, AuthFailed, 1, rest, env, after, Sent(ProbeError(code), env));
    CountHandled(n, before, AuthOk, 1, [Count(AuthFailed, 1)] + rest, env, after, Sent(ProbeError(code), env));
    assert [Count(AuthOk, 1)] + ([Count(AuthFailed, 1)] + rest) == Execute(n, before, op, env).next;
    DecisionHandled(n, before, op, env, after, Sent(ProbeError(code), env));
  }

  lemma AdmittedHandled(n: Node, before: Core, op: Op, identity: ProbeIdentity, grant: Grant, env: Env,
                        admitted: Core, after: Core, reply: Reply)
    requires op.StartProbe?
    requires
      match VerifyProbeToken(n.crypto, op.request, n.nodeId, n.secret, env.verifyNow)
      case NoToken =>
        && identity == IdentityFromRequest(op.request) && grant == Anonymous(op.request)
        && admitted == Added(before, AuthMissing, 1)
      case Valid(claims) =>
        && IdentityFromClaims(n.crypto, claims, op.request.routePolicy) == Ok(identity)
        && grant == Token(op.request, claims, env.verifyNow) && admitted == Added(before, AuthOk, 1)
      case Invalid(_) => false
    requires Handled(n, admitted, [TakeSequence(op.transport, op.peer, identity, grant)], env, after, reply)
    ensures Handled(n, before, [op], env, after, reply)
  {
    hide Handled, FetchAdd, VerifyProbeToken, IdentityFromClaims;
    var rest := [TakeSequence(op.transport, op.peer, identity, grant)];
    var counter := if grant.Anonymous? then AuthMissing else AuthOk;
    CountHandled(n, before, counter, 1, rest, env, after, reply);
    assert [Count(counter, 1)] + rest == Execute(n, before, op, env).next;
    DecisionHandled(n, before, op, env, after, reply);
  }

  lemma ProbeCounts(stats: Stats, c: Counter)
    requires c != ProbeSessionsTotal
    ensures Grew(stats, FetchAdd(FetchAdd(stats, c, 1), ProbeSessionsTotal, 1), map[c := 1, ProbeSessionsTotal := 1])
  {
    hide Grew;
    PairCounts(stats, c, ProbeSessionsTotal, 1);
  }

  lemma UnboundProbeAnswers(n: Node, before: Core, after: Core, op: Op, claims: Claims, code: string, env: Env, reply: Reply)
    requires op.StartProbe? && VerifyProbeToken(n.crypto, op.request, n.nodeId, n.secret, env.verifyNow) == Valid(claims)
    requires IdentityFromClaims(n.crypto, claims, op.request.routePolicy) == Err(code)
    requires Rejected(before, after, map[AuthOk := 1, AuthFailed := 1] + map[ProbeRejected := 1], code, env, reply)
    ensures ProbeAnswered(n, before, after, op.transport, op.peer, op.request, env, reply)
  {
    hide Rejected, VerifyProbeToken, IdentityFromClaims;
    assert map[AuthOk := 1, AuthFailed := 1] + map[ProbeRejected := 1] == map[AuthOk := 1, AuthFailed := 1, ProbeRejected := 1];
  }

  lemma InvalidProbeAnswers(n: Node, before: Core, after: Core, op: Op, code: string, env: Env, reply: Reply)
    requires op.StartProbe? && VerifyProbeToken(n.crypto, op.request, n.nodeId, n.secret, env.verifyNow) == Invalid(code)
    requires Rejected(before, after, map[AuthFailed := 1] + map[ProbeRejected := 1], code, env, reply)
    ensures ProbeAnswered(n, before, after, op.transport, op.peer, op.request, env, reply)
  {
    hide Rejected, VerifyProbeToken;
    assert map[AuthFailed := 1] + map[ProbeRejected := 1] == map[AuthFailed := 1, ProbeRejected := 1];
  }

  /** An admitted probe answers as its case says. */
  lemma AdmittedAnswers(n: Node, before: Core, admitted: Core, after: Core, op: Op, identity: ProbeIdentity, env: Env, reply: Reply)
    requires op.StartProbe?
    requires
      match VerifyProbeToken(n.crypto, op.request, n.nodeId, n.secret, env.verifyNow)
      case NoToken => identity == IdentityFromRequest(op.request) && admitted == Added(before, AuthMissing, 1)
      case Valid(claims) =>
        IdentityFromClaims(n.crypto, claims, op.request.routePolicy) == Ok(identity) && admitted == Added(before, AuthOk, 1)
      case Invalid(_) => false
    requires
      var sequence := (admitted.sequence + 1) % TWO64;
      var id := BuildSessionId(op.transport, op.peer, env.idNow, sequence);
      after == ProbeStored(admitted, id, sequence, identity, op.peer, env) && reply == Sent(ProbeOk(id), env)
    ensures ProbeAnswered(n, before, after, op.transport, op.peer, op.request, env, reply)
  {
    hide VerifyProbeToken, IdentityFromClaims, IdentityFromRequest, BuildSessionId, NewSession, AfterRegister, Grew, FetchAdd,
         OwnedByClaims, OwnedByRequest, FreshSession, Shows, BindingChecks, AllPass, FailsFirst;
    var sequence := (admitted.sequence + 1) % TWO64;
    var id := BuildSessionId(op.transport, op.peer, env.idNow, sequence);
    var session := NewSession(id, identity, op.peer, env.createdNow);
    assert session.sessionId == id by { NewSessionId(id, identity, op.peer, env.createdNow); }
    match VerifyProbeToken(n.crypto, op.request, n.nodeId, n.secret, env.verifyNow)
    case NoToken =>
      ProbeCounts(before.stats, AuthMissing);
      IdentityIsOfRequest(op.request, id, op.peer, env.createdNow);
      assert Admitted(before, after, op.transport, op.peer, AuthMissing, session, env, reply);
    case Valid(claims) =>
      ProbeCounts(before.stats, AuthOk);
      IdentityIsOfClaims(n.crypto, claims, op.request.routePolicy, id, op.peer, env.createdNow);
      assert Admitted(before, after, op.transport, op.peer, AuthOk, session, env, reply);
  }

  lemma NewSessionId(id: string, identity: ProbeIdentity, peer: string, now: nat)
    ensures NewSession(id, identity, peer, now).sessionId == id
  {
  }
}
