/** Conservation laws of the node's counters over whole runs. Counters are 64-bit and wrap around, so
    each law is a congruence modulo 2^64 between counters and what pending operations will still add. */
module NodeCounters {
  import opened Text
  import opened SessionStores
  import opened Auth
  import opened Session
  import opened NodeSystem
  import opened NodeShape
  import opened NodeSafety

  predicate Congruent(x: int, y: int) {
    (x - y) % TWO64 == 0
  }

  /** The counters a measure adds up, each with its sign. */
  function Total(m: Measure, stats: Stats): int {
    match m
    case Amount(c) => Get(stats, c)
    case Steps => 0
    case RelayBalance => Get(stats, RelayTxPackets) - Get(stats, RelayRxPackets) - Get(stats, RelayTimeout)
    case SessionBalance => Get(stats, SessionRxPackets) - Get(stats, SessionTxPackets)
    case RejectBalance => Get(stats, ProbeRejected) - Get(stats, AuthFailed)
    case AuthBalance => Get(stats, AuthMissing) + Get(stats, AuthOk) + Get(stats, AuthFailed)
  }

  function Pending(m: Measure, tasks: seq<seq<Op>>): int {
    if tasks == [] then 0 else Pending(m, tasks[..|tasks| - 1]) + Sum(m, tasks[|tasks| - 1])
  }

  predicate IsBalance(m: Measure) {
    !m.Amount? && !m.Steps?
  }

  /** What a balance owes to the messages handled so far. */
  function Owed(m: Measure, s: System): int
    requires IsBalance(m)
  {
    match m
    case RejectBalance => s.invalid
    case AuthBalance => s.probes + s.bindFailures
    case _ => 0
  }

  /** The law: the counters, completed by what is pending, balance. */
  ghost predicate Balanced(m: Measure, s: System)
    requires IsBalance(m)
  {
    Congruent(Total(m, s.core.stats) + Pending(m, s.tasks), Owed(m, s))
  }

  // ---------------------------------------------------------------- sums over tasks

  lemma {:induction false} PendingUpdate(m: Measure, tasks: seq<seq<Op>>, i: nat, ops: seq<Op>)
    requires i < |tasks|
    ensures Pending(m, tasks[i := ops]) == Pending(m, tasks) - Sum(m, tasks[i]) + Sum(m, ops)
  {
    hide Sum;
    var last := |tasks| - 1;
    var changed := tasks[i := ops];
    if i == last {
      assert changed[..last] == tasks[..last];
    } else {
      PendingUpdate(m, tasks[..last], i, ops);
      assert changed[..last] == tasks[..last][i := ops];
    }
  }

  lemma PendingAppend(m: Measure, tasks: seq<seq<Op>>, ops: seq<Op>)
    ensures Pending(m, tasks + [ops]) == Pending(m, tasks) + Sum(m, ops)
  {
    assert (tasks + [ops])[..|tasks|] == tasks;
  }

  lemma {:induction false} NothingPending(m: Measure, tasks: seq<seq<Op>>)
    requires forall i :: 0 <= i < |tasks| ==> tasks[i] == []
    ensures Pending(m, tasks) == 0
  {
    if tasks != [] {
      NothingPending(m, tasks[..|tasks| - 1]);
      SumOfShort(m, []);
    }
  }

  // ---------------------------------------------------------------- one operation

  lemma SetTotal(m: Measure, stats: Stats, c: Counter, v: nat)
    requires IsBalance(m)
    ensures Total(m, stats[c := v]) == Total(m, stats)
      + (if Sign(m, c) == 1 then v - Get(stats, c) else if Sign(m, c) == -1 then Get(stats, c) - v else 0)
  {
  }

  lemma WrapsAround(x: nat, amount: nat)
    ensures Congruent((x + amount) % TWO64 - x, amount) && Congruent(x - (x + amount) % TWO64, 0 - amount)
  {
  }

  lemma FetchAddTotal(m: Measure, stats: Stats, c: Counter, amount: nat)
    requires IsBalance(m)
    ensures Congruent(Total(m, FetchAdd(stats, c, amount)), Total(m, stats) + Weight(m, Count(c, amount)))
  {
    hide Total, Get, Sign;
    SetTotal(m, stats, c, (Get(stats, c) + amount) % TWO64);
    WrapsAround(Get(stats, c), amount);
  }

  /** What an operation adds to the pending balance, apart from what it counts itself. */
  ghost predicate NextOwes(m: Measure, n: Node, op: Op, env: Env, next: seq<Op>)
    requires IsBalance(m)
  {
    Sum(m, next) == if m.AuthBalance? && op.StartProbe?
                    then 1 + (if BindingFails(n, op.request, env.verifyNow) then 1 else 0)
                    else 0
  }

  lemma SumOfError(m: Measure, counter: Counter, reply: Reply)
    requires IsBalance(m)
    ensures Sum(m, [Count(counter, 1), Respond(reply)]) == Weight(m, Count(counter, 1))
  {
    hide Sum;
    SumOfShort(m, [Count(counter, 1), Respond(reply)]);
  }

  lemma AfterAuthOwes(m: Measure, n: Node, t: Transport, peer: string, request: ProbeRequest, now: nat, d: AuthDecision)
    requires IsBalance(m)
    ensures
      Sum(m, AfterAuth(n, t, peer, request, now, d))
      == if m.AuthBalance?
         then 1 + (if d.Valid? && BindingError(n.crypto, d.claims, request.routePolicy).Some? then 1 else 0)
         else 0
  {
    hide Sum, BindingError;
    SumOfShort(m, AfterAuth(n, t, peer, request, now, d));
  }

  lemma AfterPlanOwes(m: Measure, op: Op, plan: Result<Option<Plan>, string>, env: Env)
    requires IsBalance(m)
    ensures op.ResolveData? ==> Sum(m, AfterPlanData(op, plan, env)) == 0
    ensures op.ResolveRaw? ==> Sum(m, AfterPlanRaw(op, plan, env)) == 0
  {
    hide Sum;
    if op.ResolveData? {
      SumOfShort(m, AfterPlanData(op, plan, env));
    }
    if op.ResolveRaw? {
      SumOfShort(m, AfterPlanRaw(op, plan, env));
    }
  }

  lemma AfterOpenDataOwes(m: Measure, peer: string, id: string, data: DataRequest, bytes: nat, io: Result<Snapshot, SessionError>)
    requires IsBalance(m)
    ensures Sum(m, AfterOpenData(peer, id, data, bytes, io)) == 0
  {
    hide Sum, HasSessionTarget;
    SumOfShort(m, AfterOpenData(peer, id, data, bytes, io));
  }

  lemma OpenDataOwes(m: Measure, n: Node, core: Core, peer: string, data: DataRequest, env: Env)
    requires IsBalance(m)
    ensures Sum(m, OpenDataEffect(n, core, peer, data, env).next) == 0
  {
    hide Sum, IoResult, AfterIo, AfterOpenData;
    SumOfError(m, SessionMiss, SessionError("missing_session_id"));
    SumOfError(m, SessionMiss, SessionError("missing_payload"));
    SumOfError(m, SessionMiss, SessionError("invalid_payload"));
    var id := NonBlank(data.sessionId);
    if id.Some? && data.payload.Some? && n.payloadBytes(data.payload.value).Some? {
      AfterOpenDataOwes(m, peer, id.value, data, n.payloadBytes(data.payload.value).value,
                        IoResult(core.store, id.value, env.lockNow));
    }
  }

  lemma OpenRawOwes(m: Measure, core: Core, transport: Transport, peer: string, raw: RawTunnel, env: Env)
    requires IsBalance(m)
    ensures Sum(m, OpenRawEffect(core, transport, peer, raw, env).next) == 0
  {
    hide Sum, IoResult, AfterIo;
    SumOfShort(m, OpenRawEffect(core, transport, peer, raw, env).next);
  }

  lemma RelayDataOwes(m: Measure, op: Op, env: Env)
    requires IsBalance(m) && op.RelayData?
    ensures Sum(m, RelayDataOps(op, env)) == 0
  {
    hide Sum;
    SumOfShort(m, RelayDataOps(op, env));
  }

  lemma EncodeDataOwes(m: Measure, op: Op, env: Env)
    requires IsBalance(m) && op.EncodeData?
    ensures Sum(m, EncodeDataOps(op, env)) == 0
  {
    hide Sum;
    SumOfShort(m, EncodeDataOps(op, env));
  }

  lemma RelayRawOwes(m: Measure, op: Op, env: Env)
    requires IsBalance(m) && op.RelayRaw?
    ensures Sum(m, RelayRawOps(op, env)) == 0
  {
    hide Sum;
    SumOfShort(m, RelayRawOps(op, env));
  }

  lemma ExecuteOwes(m: Measure, n: Node, core: Core, op: Op, env: Env)
    requires IsBalance(m)
    ensures NextOwes(m, n, op, env, Execute(n, core, op, env).next)
  {
    hide Sum, ProbeDecision, OpenDataEffect, OpenRawEffect, ResolveDataOps, ResolveRawOps, RelayDataOps, RelayRawOps,
         EncodeDataOps, BuildSessionId, VerifyProbeToken, PlanTarget;
    match op
    case StartProbe(t, peer, request) => ProbeOwes(m, n, t, peer, request, env.verifyNow);
    case TakeSequence(_, _, _, _) => SumOfShort(m, Execute(n, core, op, env).next);
    case OpenData(peer, data) => OpenDataOwes(m, n, core, peer, data, env);
    case OpenRaw(transport, peer, raw) => OpenRawOwes(m, core, transport, peer, raw, env);
    case ResolveData(_, _, _, _, _) => ResolveOwes(m, n, op, env);
    case ResolveRaw(_, _, _) => ResolveOwes(m, n, op, env);
    case RelayData(_, _, _, _, _, _) => RelayDataOwes(m, op, env);
    case RelayRaw(_, _, _, _, _) => RelayRawOwes(m, op, env);
    case EncodeData(_, _, _, _, _, _) => EncodeDataOwes(m, op, env);
    case _ => SumOfShort(m, []);
  }

  lemma ProbeOwes(m: Measure, n: Node, t: Transport, peer: string, request: ProbeRequest, now: nat)
    requires IsBalance(m)
    ensures
      Sum(m, ProbeDecision(n, t, peer, request, now))
      == if m.AuthBalance? then 1 + (if BindingFails(n, request, now) then 1 else 0) else 0
  {
    hide Sum, AfterAuth, VerifyProbeToken, BindingError;
    AfterAuthOwes(m, n, t, peer, request, now, VerifyProbeToken(n.crypto, request, n.nodeId, n.secret, now));
  }

  lemma ResolveOwes(m: Measure, n: Node, op: Op, env: Env)
    requires IsBalance(m)
    ensures op.ResolveData? ==> Sum(m, ResolveDataOps(n, op, env)) == 0
    ensures op.ResolveRaw? ==> Sum(m, ResolveRawOps(n, op, env)) == 0
  {
    hide Sum, AfterPlanData, AfterPlanRaw, PlanTarget;
    if op.ResolveData? {
      AfterPlanOwes(m, op, PlanTarget(n.parse, op.data, op.snap.routeTargetAddr, op.snap.routePolicy), env);
    }
    if op.ResolveRaw? {
      AfterPlanOwes(m, op, PlanTarget(n.parse, RawAsData(op.raw), op.snap.routeTargetAddr, op.snap.routePolicy), env);
    }
  }

  lemma ExecuteTotal(m: Measure, n: Node, core: Core, op: Op, env: Env)
    requires IsBalance(m)
    ensures Congruent(Total(m, Execute(n, core, op, env).core.stats), Total(m, core.stats) + Weight(m, op))
  {
    hide ProbeDecision, ResolveDataOps, ResolveRawOps, RelayDataOps, RelayRawOps, EncodeDataOps, BuildSessionId,
         VerifyProbeToken, PlanTarget, Total, AfterOpenData, AfterOpenRaw, IoResult, AfterIo;
    if op.Count? {
      FetchAddTotal(m, core.stats, op.counter, op.amount);
    } else {
      assert Execute(n, core, op, env).core.stats == core.stats;
    }
  }

  // ---------------------------------------------------------------- whole runs

  lemma RunKeepsBalance(m: Measure, n: Node, s: System, i: nat, env: Env)
    requires IsBalance(m) && Balanced(m, s) && i < |s.tasks| && s.tasks[i] != []
    ensures Balanced(m, RunTask(n, s, i, env))
  {
    hide Sum, Total, Execute, Pending, SlotsAfter, BindingFails, Weight;
    var op := s.tasks[i][0];
    var effect := Execute(n, s.core, op, env);
    var rest := s.tasks[i][1..];
    SumTail(m, s.tasks[i]);
    SumAppend(m, effect.next, rest);
    PendingUpdate(m, s.tasks, i, effect.next + rest);
    ExecuteOwes(m, n, s.core, op, env);
    ExecuteTotal(m, n, s.core, op, env);
  }

  lemma ArriveKeepsBalance(m: Measure, n: Node, s: System, transport: Transport, peer: string, message: Message)
    requires IsBalance(m) && Balanced(m, s)
    ensures Balanced(m, Step(n, s, Arrive(transport, peer, message)))
  {
    hide Sum, Total, Pending;
    SumOfShort(m, Arrival(transport, peer, message));
    PendingAppend(m, s.tasks, Arrival(transport, peer, message));
  }

  lemma PurgeKeepsBalance(m: Measure, n: Node, s: System, now: nat)
    requires IsBalance(m) && Balanced(m, s)
    ensures Balanced(m, Step(n, s, Purge(now)))
  {
    hide Sum, Total, Pending;
  }

  /** All four balances hold in every reachable state. */
  lemma {:induction false} ReachIsBalanced(m: Measure, n: Node, actions: seq<Action>)
    requires IsBalance(m)
    ensures Balanced(m, Reach(n, actions))
  {
    hide Balanced, RunTask;
    if actions == [] {
      InitialIsBalanced(m);
    } else {
      var last := |actions| - 1;
      var s := Reach(n, actions[..last]);
      ReachIsBalanced(m, n, actions[..last]);
      match actions[last]
      case Arrive(transport, peer, message) => ArriveKeepsBalance(m, n, s, transport, peer, message);
      case Run(i, env) =>
        if i < |s.tasks| && s.tasks[i] != [] {
          RunKeepsBalance(m, n, s, i, env);
        }
      case Purge(now) => PurgeKeepsBalance(m, n, s, now);
    }
  }

  lemma InitialIsBalanced(m: Measure)
    requires IsBalance(m)
    ensures Balanced(m, Initial())
  {
  }

  // ---------------------------------------------------------------- the laws as a reader states them

  /** A relay is in flight in a task that has counted the transmission and not yet its completion. */
  ghost predicate InFlight(ops: seq<Op>) {
    && Sum(Amount(RelayTxPackets), ops) == 0
    && Sum(Amount(RelayRxPackets), ops) + Sum(Amount(RelayTimeout), ops) == 1
  }

  ghost function CountInFlight(tasks: seq<seq<Op>>): nat {
    if tasks == [] then 0
    else CountInFlight(tasks[..|tasks| - 1]) + (if InFlight(tasks[|tasks| - 1]) then 1 else 0)
  }

  lemma {:induction false} RelaySumSplits(ops: seq<Op>, i: nat)
    ensures SumFrom(RelayBalance, ops, i)
      == SumFrom(Amount(RelayTxPackets), ops, i) - SumFrom(Amount(RelayRxPackets), ops, i) - SumFrom(Amount(RelayTimeout), ops, i)
    decreases |ops| - i
  {
    if i < |ops| {
      RelaySumSplits(ops, i + 1);
    }
  }

  lemma {:induction false} PendingRelays(tasks: seq<seq<Op>>)
    requires forall i :: 0 <= i < |tasks| ==> WellShaped(tasks[i])
    ensures Pending(RelayBalance, tasks) == 0 - CountInFlight(tasks)
  {
    if tasks != [] {
      var ops := tasks[|tasks| - 1];
      PendingRelays(tasks[..|tasks| - 1]);
      RelaySumSplits(ops, 0);
    }
  }

  lemma ExecuteFits(n: Node, core: Core, op: Op, env: Env, c: Counter)
    requires Get(core.stats, c) < TWO64
    ensures Get(Execute(n, core, op, env).core.stats, c) < TWO64
  {
    hide ProbeDecision, ResolveDataOps, ResolveRawOps, RelayDataOps, RelayRawOps, EncodeDataOps,
         BuildSessionId, VerifyProbeToken, PlanTarget, AfterOpenData, AfterOpenRaw, IoResult, AfterIo;
    assert !op.Count? ==> Execute(n, core, op, env).core.stats == core.stats;
  }

  /** Every counter stays a 64-bit value. */
  lemma {:induction false} CountersFit(n: Node, actions: seq<Action>, c: Counter)
    ensures Get(Reach(n, actions).core.stats, c) < TWO64
  {
    hide SlotsAfter, BindingFails, Execute;
    if actions == [] {
    } else {
      var last := |actions| - 1;
      var s := Reach(n, actions[..last]);
      CountersFit(n, actions[..last], c);
      if actions[last].Run? && actions[last].task < |s.tasks| && s.tasks[actions[last].task] != [] {
        ExecuteFits(n, s.core, s.tasks[actions[last].task][0], actions[last].env, c);
      }
    }
  }

  /** In every reachable state, transmissions equal replies plus timeouts plus relays in flight,
      modulo the counters' width; exactly so while the right-hand side fits a counter. */
  lemma RelaysAreConserved(n: Node, actions: seq<Action>)
    ensures
      var s := Reach(n, actions);
      var tx := Get(s.core.stats, RelayTxPackets);
      var done := Get(s.core.stats, RelayRxPackets) + Get(s.core.stats, RelayTimeout) + CountInFlight(s.tasks);
      Congruent(tx, done) && (done < TWO64 ==> tx == done)
  {
    hide Reach, SlotsOk, StoreKnown, OpsSafe, EventSafe, OwnersOk, WellShaped, Get;
    CountersFit(n, actions, RelayTxPackets);
    var s := Reach(n, actions);
    ReachIsBalanced(RelayBalance, n, actions);
    ReachIsSafe(n, actions);
    PendingRelays(s.tasks);
  }

  /** With no work pending: every session packet received was answered, every rejected probe either
      failed authentication or was not a message, and every probe was counted once by authentication
      and once more if its policy could not be bound. */
  lemma QuiescentConservation(n: Node, actions: seq<Action>)
    requires Quiescent(Reach(n, actions))
    ensures
      var s := Reach(n, actions);
      var stats := s.core.stats;
      && Congruent(Get(stats, RelayTxPackets), Get(stats, RelayRxPackets) + Get(stats, RelayTimeout))
      && Congruent(Get(stats, SessionRxPackets), Get(stats, SessionTxPackets))
      && Congruent(Get(stats, ProbeRejected), Get(stats, AuthFailed) + s.invalid)
      && Congruent(Get(stats, AuthMissing) + Get(stats, AuthOk) + Get(stats, AuthFailed), s.probes + s.bindFailures)
  {
    hide Reach, Get, Pending;
    var s := Reach(n, actions);
    ReachIsBalanced(RelayBalance, n, actions);
    ReachIsBalanced(SessionBalance, n, actions);
    ReachIsBalanced(RejectBalance, n, actions);
    ReachIsBalanced(AuthBalance, n, actions);
    NothingPending(RelayBalance, s.tasks);
    NothingPending(SessionBalance, s.tasks);
    NothingPending(RejectBalance, s.tasks);
    NothingPending(AuthBalance, s.tasks);
  }

  // ---------------------------------------------------------------- every task ends

  lemma ExecuteSteps(n: Node, core: Core, op: Op, env: Env)
    ensures Sum(Steps, Execute(n, core, op, env).next) < StepBound(op)
  {
    hide Sum, ProbeDecision, OpenDataEffect, OpenRawEffect, ResolveDataOps, ResolveRawOps, RelayDataOps, RelayRawOps,
         EncodeDataOps, BuildSessionId, VerifyProbeToken, PlanTarget;
    match op
    case StartProbe(t, peer, request) => ProbeSteps(n, t, peer, request, env.verifyNow);
    case TakeSequence(_, _, _, _) => SumOfShort(Steps, Execute(n, core, op, env).next);
    case OpenData(peer, data) => OpenDataSteps(n, core, peer, data, env);
    case OpenRaw(transport, peer, raw) => OpenRawSteps(core, transport, peer, raw, env);
    case ResolveData(_, _, _, _, _) => ResolveSteps(n, op, env);
    case ResolveRaw(_, _, _) => ResolveSteps(n, op, env);
    case RelayData(_, _, _, _, _, _) => RelayDataSteps(op, env);
    case RelayRaw(_, _, _, _, _) => RelayRawSteps(op, env);
    case EncodeData(_, _, _, _, _, _) => EncodeDataSteps(op, env);
    case _ => SumOfShort(Steps, []);
  }

  lemma ProbeSteps(n: Node, t: Transport, peer: string, request: ProbeRequest, now: nat)
    ensures Sum(Steps, ProbeDecision(n, t, peer, request, now)) < 7
  {
    hide Sum, BindingError, VerifyProbeToken;
    SumOfShort(Steps, ProbeDecision(n, t, peer, request, now));
  }

  lemma OpenDataSteps(n: Node, core: Core, peer: string, data: DataRequest, env: Env)
    ensures Sum(Steps, OpenDataEffect(n, core, peer, data, env).next) < 14
  {
    hide Sum, HasSessionTarget, IoResult, AfterIo;
    SumOfShort(Steps, OpenDataEffect(n, core, peer, data, env).next);
  }

  lemma OpenRawSteps(core: Core, transport: Transport, peer: string, raw: RawTunnel, env: Env)
    ensures Sum(Steps, OpenRawEffect(core, transport, peer, raw, env).next) < 13
  {
    hide Sum, IoResult, AfterIo;
    SumOfShort(Steps, OpenRawEffect(core, transport, peer, raw, env).next);
  }

  lemma ResolveSteps(n: Node, op: Op, env: Env)
    ensures op.ResolveData? ==> Sum(Steps, ResolveDataOps(n, op, env)) < 13
    ensures op.ResolveRaw? ==> Sum(Steps, ResolveRawOps(n, op, env)) < 12
  {
    hide Sum, PlanTarget;
    if op.ResolveData? {
      SumOfShort(Steps, ResolveDataOps(n, op, env));
    }
    if op.ResolveRaw? {
      SumOfShort(Steps, ResolveRawOps(n, op, env));
    }
  }

  lemma RelayDataSteps(op: Op, env: Env)
    requires op.RelayData?
    ensures Sum(Steps, RelayDataOps(op, env)) < 12
  {
    hide Sum;
    SumOfShort(Steps, RelayDataOps(op, env));
  }

  lemma EncodeDataSteps(op: Op, env: Env)
    requires op.EncodeData?
    ensures Sum(Steps, EncodeDataOps(op, env)) < 7
  {
    hide Sum;
    SumOfShort(Steps, EncodeDataOps(op, env));
  }

  lemma RelayRawSteps(op: Op, env: Env)
    requires op.RelayRaw?
    ensures Sum(Steps, RelayRawOps(op, env)) < 11
  {
    hide Sum;
    SumOfShort(Steps, RelayRawOps(op, env));
  }

  lemma {:induction false} StepsNonNegative(ops: seq<Op>, i: nat)
    ensures SumFrom(Steps, ops, i) >= 0 && (i < |ops| ==> SumFrom(Steps, ops, i) > 0)
    decreases |ops| - i
  {
    if i < |ops| {
      StepsNonNegative(ops, i + 1);
    }
  }

  /** The list a task holds after a step has fewer steps left. */
  lemma StepShrinks(n: Node, core: Core, ops: seq<Op>, env: Env)
    requires ops != []
    ensures 0 <= Sum(Steps, Execute(n, core, ops[0], env).next + ops[1..]) < Sum(Steps, ops)
  {
    hide Execute;
    var next := Execute(n, core, ops[0], env).next;
    ExecuteSteps(n, core, ops[0], env);
    SumTail(Steps, ops);
    SumAppend(Steps, next, ops[1..]);
    StepsNonNegative(next + ops[1..], 0);
  }

  lemma {:induction false} PendingStepsNonNegative(tasks: seq<seq<Op>>)
    ensures Pending(Steps, tasks) >= 0
  {
    if tasks != [] {
      PendingStepsNonNegative(tasks[..|tasks| - 1]);
      StepsNonNegative(tasks[|tasks| - 1], 0);
    }
  }

  /** The state after more actions, from any state. */
  function Continue(n: Node, s: System, actions: seq<Action>): System
    decreases |actions|
  {
    if actions == [] then s else Continue(n, Step(n, s, actions[0]), actions[1..])
  }

  /** Every action of the run executes an operation of some task, or purges the store. */
  ghost predicate AllWork(n: Node, s: System, actions: seq<Action>)
    decreases |actions|
  {
    actions == [] ||
    ((actions[0].Purge? || (actions[0].Run? && actions[0].task < |s.tasks| && s.tasks[actions[0].task] != []))
     && AllWork(n, Step(n, s, actions[0]), actions[1..]))
  }

  function TaskSteps(actions: seq<Action>): nat {
    if actions == [] then 0 else (if actions[0].Run? then 1 else 0) + TaskSteps(actions[1..])
  }

  /** Without new messages no schedule can keep the node busy: from any state, whatever purges come in
      between, there are at most as many task steps as work was pending, so every schedule reaches
      quiescence. */
  lemma {:induction false} WorkRunsOut(n: Node, s: System, actions: seq<Action>)
    requires AllWork(n, s, actions)
    ensures TaskSteps(actions) + Pending(Steps, Continue(n, s, actions).tasks) <= Pending(Steps, s.tasks)
    ensures 0 <= Pending(Steps, Continue(n, s, actions).tasks)
    decreases |actions|
  {
    hide Execute, SlotsAfter, BindingFails, Pending, Sum;
    PendingStepsNonNegative(Continue(n, s, actions).tasks);
    if actions != [] {
      if actions[0].Run? {
        var i, env := actions[0].task, actions[0].env;
        var next := Execute(n, s.core, s.tasks[i][0], env).next;
        StepShrinks(n, s.core, s.tasks[i], env);
        PendingUpdate(Steps, s.tasks, i, next + s.tasks[i][1..]);
      }
      WorkRunsOut(n, Step(n, s, actions[0]), actions[1..]);
    }
  }
}
