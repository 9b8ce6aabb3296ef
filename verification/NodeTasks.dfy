/** What one handler does in a run, whatever is interleaved with it: a function of the message it was
    given and of what each of its own steps met. */
module NodeTasks {
  import opened Text
  import opened RoutePolicies
  import opened SessionStores
  import opened Auth
  import opened Session
  import opened NodeSystem
  import opened NodeContracts
  import opened NodeTheorems

  // ---------------------------------------------------------------- a task's own steps

  /** What a step met: the shared state before it, and the world's answers. */
  datatype Taken = Taken(core: Core, env: Env)

  datatype Packet = Packet(transport: Transport, peer: string, message: Message)

  /** The messages that have arrived, one for every task. */
  function Packets(actions: seq<Action>): seq<Packet> {
    if actions == [] then []
    else
      var before := Packets(actions[..|actions| - 1]);
      match actions[|actions| - 1]
      case Arrive(transport, peer, message) => before + [Packet(transport, peer, message)]
      case _ => before
  }

  /** The steps task i has taken in a run. */
  function TakenBy(n: Node, actions: seq<Action>, i: nat): seq<Taken> {
    if actions == [] then []
    else
      var before := actions[..|actions| - 1];
      var s := Reach(n, before);
      match actions[|actions| - 1]
      case Run(j, env) =>
        if j == i && i < |s.tasks| && s.tasks[i] != [] then TakenBy(n, before, i) + [Taken(s.core, env)] else TakenBy(n, before, i)
      case _ => TakenBy(n, before, i)
  }

  /** The events of task i in a log. */
  function DoneIn(log: seq<NodeSystem.Event>, doneBy: seq<nat>, i: nat): seq<NodeSystem.Event>
    requires |log| == |doneBy|
  {
    if log == [] then []
    else
      var last := |log| - 1;
      DoneIn(log[..last], doneBy[..last], i) + (if doneBy[last] == i then [log[last]] else [])
  }

  datatype Progress = Progress(ops: seq<Op>, events: seq<NodeSystem.Event>)

  /** The operations left, and the events so far, once a list has taken some steps. */
  function Played(n: Node, ops: seq<Op>, steps: seq<Taken>): Progress {
    if steps == [] then Progress(ops, [])
    else
      var before := Played(n, ops, steps[..|steps| - 1]);
      if before.ops == [] then before
      else
        var effect := Execute(n, steps[|steps| - 1].core, before.ops[0], steps[|steps| - 1].env);
        Progress(effect.next + before.ops[1..], before.events + effect.events)
  }

  /** Every step had something to do. */
  ghost predicate Busy(n: Node, ops: seq<Op>, steps: seq<Taken>) {
    forall k :: 0 <= k < |steps| ==> Played(n, ops, steps[..k]).ops != []
  }

  lemma {:induction false} DoneInAppends(
    log: seq<NodeSystem.Event>, doneBy: seq<nat>, events: seq<NodeSystem.Event>, j: nat, i: nat)
    requires |log| == |doneBy|
    ensures DoneIn(log + events, doneBy + seq(|events|, k => j), i)
      == DoneIn(log, doneBy, i) + (if i == j then events else [])
  {
    if events == [] {
      assert log + events == log && doneBy + seq(|events|, k => j) == doneBy;
    } else {
      var last := |events| - 1;
      var (more, by2) := (log + events, doneBy + seq(|events|, k => j));
      DoneInAppends(log, doneBy, events[..last], j, i);
      assert more[..|more| - 1] == log + events[..last];
      assert by2[..|by2| - 1] == doneBy + seq(|events[..last]|, k => j);
      assert more[|more| - 1] == events[last] && by2[|by2| - 1] == j;
      assert events == events[..last] + [events[last]];
    }
  }

  lemma {:induction false} NothingDone(log: seq<NodeSystem.Event>, doneBy: seq<nat>, i: nat)
    requires |log| == |doneBy| && forall k :: 0 <= k < |doneBy| ==> doneBy[k] != i
    ensures DoneIn(log, doneBy, i) == []
  {
    if log != [] {
      NothingDone(log[..|log| - 1], doneBy[..|log| - 1], i);
    }
  }

  lemma {:induction false} PacketsAreTasks(n: Node, actions: seq<Action>)
    ensures |Reach(n, actions).tasks| == |Packets(actions)|
  {
    hide Execute, SlotsAfter, BindingFails, Arrival;
    if actions != [] {
      PacketsAreTasks(n, actions[..|actions| - 1]);
    }
  }

  lemma {:induction false} NothingTaken(n: Node, actions: seq<Action>, i: nat)
    requires i >= |Packets(actions)|
    ensures TakenBy(n, actions, i) == []
  {
    hide Reach;
    if actions != [] {
      PacketsAreTasks(n, actions[..|actions| - 1]);
      NothingTaken(n, actions[..|actions| - 1], i);
    }
  }

  lemma PlayedMore(n: Node, ops: seq<Op>, steps: seq<Taken>, t: Taken)
    requires Busy(n, ops, steps) && Played(n, ops, steps).ops != []
    ensures Busy(n, ops, steps + [t])
    ensures
      var before := Played(n, ops, steps);
      var effect := Execute(n, t.core, before.ops[0], t.env);
      Played(n, ops, steps + [t]) == Progress(effect.next + before.ops[1..], before.events + effect.events)
  {
    hide Execute;
    var more := steps + [t];
    assert more[..|steps|] == steps;
    forall k | 0 <= k < |more| ensures Played(n, ops, more[..k]).ops != [] {
      assert k < |steps| ==> more[..k] == steps[..k];
    }
  }

  /** What is said of a task that has started. */
  ghost predicate IsPlayed(n: Node, actions: seq<Action>, i: nat)
    requires i < |Packets(actions)|
  {
    var s := Reach(n, actions);
    var packet := Packets(actions)[i];
    var ops := Arrival(packet.transport, packet.peer, packet.message);
    && |s.tasks| == |Packets(actions)| && |s.log| == |s.doneBy|
    && Played(n, ops, TakenBy(n, actions, i)) == Progress(s.tasks[i], DoneIn(s.log, s.doneBy, i))
    && Busy(n, ops, TakenBy(n, actions, i))
  }

  /** A task in a run is its list played over its own steps. */
  lemma {:induction false} TaskIsPlayed(n: Node, actions: seq<Action>, i: nat)
    requires i < |Packets(actions)|
    ensures IsPlayed(n, actions, i)
  {
    hide Packets, IsPlayed;
    assert actions != [] by { NoPackets(); }
    var before := actions[..|actions| - 1];
    PacketsGrow(actions);
    if i == |Packets(before)| {
      TaskStarts(n, actions, i);
    } else {
      TaskIsPlayed(n, before, i);
      TaskGoesOn(n, actions, i);
    }
  }

  lemma NoPackets()
    ensures Packets([]) == []
  {
  }

  lemma PacketsGrow(actions: seq<Action>)
    requires actions != []
    ensures
      var (before, last) := (actions[..|actions| - 1], actions[|actions| - 1]);
      Packets(actions)
        == Packets(before) + (if last.Arrive? then [Packet(last.transport, last.peer, last.message)] else [])
  {
  }

  lemma TaskStarts(n: Node, actions: seq<Action>, i: nat)
    requires actions != [] && i == |Packets(actions[..|actions| - 1])| && i < |Packets(actions)|
    ensures IsPlayed(n, actions, i)
  {
    hide Reach, Arrival, Step, AllAbout, Packets, DoneIn;
    var before := actions[..|actions| - 1];
    PacketsGrow(actions);
    PacketsAreTasks(n, actions);
    PacketsAreTasks(n, before);
    LogIsKept(n, before);
    ReachLast(n, actions);
    NothingTaken(n, before, i);
    NothingDone(Reach(n, before).log, Reach(n, before).doneBy, i);
    ArriveKeepsLog(n, Reach(n, before), actions[|actions| - 1]);
  }

  lemma TaskGoesOn(n: Node, actions: seq<Action>, i: nat)
    requires actions != [] && i < |Packets(actions[..|actions| - 1])| && i < |Packets(actions)|
    requires IsPlayed(n, actions[..|actions| - 1], i)
    ensures IsPlayed(n, actions, i)
  {
    hide Reach, Arrival, Step, DoneIn, AllAbout, Packets, Played, Busy, Execute;
    var before := actions[..|actions| - 1];
    var s := Reach(n, before);
    var last := actions[|actions| - 1];
    PacketsGrow(actions);
    PacketsAreTasks(n, actions);
    ReachLast(n, actions);
    StepPlays(n, s, last, i);
    if last.Run? && last.task == i && s.tasks[i] != [] {
      var packet := Packets(actions)[i];
      PlayedMore(n, Arrival(packet.transport, packet.peer, packet.message), TakenBy(n, before, i), Taken(s.core, last.env));
    }
  }

  lemma ReachLast(n: Node, actions: seq<Action>)
    requires actions != []
    ensures Reach(n, actions) == Step(n, Reach(n, actions[..|actions| - 1]), actions[|actions| - 1])
  {
    hide Step;
  }

  lemma LogIsKept(n: Node, actions: seq<Action>)
    ensures |Reach(n, actions).log| == |Reach(n, actions).doneBy|
    ensures forall k :: 0 <= k < |Reach(n, actions).doneBy| ==> Reach(n, actions).doneBy[k] < |Packets(actions)|
  {
    hide Reach, OpsAbout, EventAbout;
    RepliesAnswerTheirPackets(n, actions);
    PacketsAreTasks(n, actions);
  }

  lemma ArriveKeepsLog(n: Node, s: System, action: Action)
    requires action.Arrive? && |s.log| == |s.doneBy|
    ensures
      var t := Step(n, s, action);
      && t.log == s.log && t.doneBy == s.doneBy && t.tasks[|s.tasks|] == Arrival(action.transport, action.peer, action.message)
  {
  }

  /** One action moves task i by at most its own step. */
  lemma StepPlays(n: Node, s: System, action: Action, i: nat)
    requires i < |s.tasks| && |s.log| == |s.doneBy|
    ensures
      var t := Step(n, s, action);
      && |t.log| == |t.doneBy| && i < |t.tasks|
      && if action.Run? && action.task == i && s.tasks[i] != [] then
           var effect := Execute(n, s.core, s.tasks[i][0], action.env);
           t.tasks[i] == effect.next + s.tasks[i][1..] && DoneIn(t.log, t.doneBy, i) == DoneIn(s.log, s.doneBy, i) + effect.events
         else t.tasks[i] == s.tasks[i] && DoneIn(t.log, t.doneBy, i) == DoneIn(s.log, s.doneBy, i)
  {
    hide Execute, SlotsAfter, BindingFails, DoneIn, Arrival, RemoveExpired;
    if action.Run? && action.task < |s.tasks| && s.tasks[action.task] != [] {
      DoneInAppends(s.log, s.doneBy, Execute(n, s.core, s.tasks[action.task][0], action.env).events, action.task, i);
    }
  }

  // ---------------------------------------------------------------- lists from the front

  lemma {:induction false} PlayedFront(n: Node, ops: seq<Op>, steps: seq<Taken>)
    requires ops != [] && steps != [] && Busy(n, ops, steps)
    ensures
      var effect := Execute(n, steps[0].core, ops[0], steps[0].env);
      var rest := Played(n, effect.next + ops[1..], steps[1..]);
      && Played(n, ops, steps) == Progress(rest.ops, effect.events + rest.events)
      && Busy(n, effect.next + ops[1..], steps[1..])
  {
    hide Execute;
    var last := |steps| - 1;
    var effect := Execute(n, steps[0].core, ops[0], steps[0].env);
    var rest := effect.next + ops[1..];
    if last == 0 {
      assert steps[..0] == [];
    } else {
      BusyPrefix(n, ops, steps, last);
      PlayedFront(n, ops, steps[..last]);
      assert steps[..last][1..] == steps[1..][..last - 1];
      var mid := Played(n, rest, steps[1..][..last - 1]);
      assert Played(n, ops, steps[..last]).ops == mid.ops;
      assert steps[1..][..|steps[1..]| - 1] == steps[1..][..last - 1];
      forall k | 0 <= k < |steps[1..]| ensures Played(n, rest, steps[1..][..k]).ops != [] {
        if k < last - 1 {
          assert steps[1..][..last - 1][..k] == steps[1..][..k];
        }
      }
    }
  }

  lemma BusyPrefix(n: Node, ops: seq<Op>, steps: seq<Taken>, m: nat)
    requires m <= |steps| && Busy(n, ops, steps)
    ensures Busy(n, ops, steps[..m])
  {
    hide Played;
    forall k | 0 <= k < m ensures Played(n, ops, steps[..m][..k]).ops != [] {
      assert steps[..m][..k] == steps[..k];
    }
  }

  /** Operations that only count, or write to the store or the last id. */
  predicate IsQuiet(op: Op) {
    op.Count? || op.CloseIo? || op.SetLast?
  }

  /** Quiet operations and then the reply: nothing happens until the reply is sent, and nothing after. */
  lemma {:induction false} RepliesLast(n: Node, ops: seq<Op>, steps: seq<Taken>)
    requires ops != [] && ops[|ops| - 1].Respond? && Busy(n, ops, steps)
    requires forall p :: 0 <= p < |ops| - 1 ==> IsQuiet(ops[p])
    ensures |steps| <= |ops|
    ensures Played(n, ops, steps).ops == ops[|steps|..]
    ensures Played(n, ops, steps).events == Finally(steps, |ops| - 1, ops[|ops| - 1].reply)
    decreases |ops|
  {
    hide Sent, Finally, Played, Busy, Execute;
    FinallyMeans(steps, |ops| - 1, ops[|ops| - 1].reply);
    if steps == [] {
      NothingPlayed(n, ops);
    } else {
      PlayedFront(n, ops, steps);
      QuietStep(n, steps[0].core, ops[0], steps[0].env);
      assert [] + ops[1..] == ops[1..];
      if |ops| == 1 {
        NothingLeft(n, steps[1..]);
        NothingPlayed(n, []);
      } else {
        RepliesLast(n, ops[1..], steps[1..]);
        FinallyMeans(steps[1..], |ops| - 2, ops[|ops| - 1].reply);
        assert ops[1..][|steps| - 1..] == ops[|steps|..];
      }
    }
  }

  lemma FinallyMeans(t: seq<Taken>, quiet: nat, reply: Reply)
    ensures Finally(t, quiet, reply) == if |t| <= quiet then [] else [Replied(Sent(reply, t[quiet].env))]
  {
  }

  lemma QuietStep(n: Node, core: Core, op: Op, env: Env)
    ensures IsQuiet(op) ==> Execute(n, core, op, env).next == [] && Execute(n, core, op, env).events == []
    ensures op.Respond? ==> Execute(n, core, op, env).next == [] && Execute(n, core, op, env).events == [Replied(Sent(op.reply, env))]
  {
    hide AfterIo;
  }

  lemma SomethingLeft(n: Node, steps: seq<Taken>)
    requires steps != []
    ensures !Busy(n, [], steps)
  {
    assert steps[..0] == [] && Played(n, [], steps[..0]).ops == [];
  }

  lemma NothingLeft(n: Node, steps: seq<Taken>)
    requires Busy(n, [], steps)
    ensures steps == []
  {
    hide Busy;
    if steps != [] {
      SomethingLeft(n, steps);
    }
  }

  // ---------------------------------------------------------------- what a handler does, step by step

  /** The reply is sent after some quiet steps; a JSON reply can fail to encode then. */
  ghost function Finally(t: seq<Taken>, quiet: nat, reply: Reply): seq<NodeSystem.Event> {
    if |t| <= quiet then []
    else if (reply.ProbeOk? || reply.ProbeError? || reply.SessionError?) && !t[quiet].env.encodes then [Replied(Failure)]
    else [Replied(reply)]
  }

  /** The request the raw tunnel makes of a packet. */
  function RawRequest(raw: RawTunnel): DataRequest {
    DataRequest(Some(raw.sessionId), None, None, None, None, Some("udp"),
                Some(SessionDataTarget(raw.targetId, Some("udp"), raw.host, raw.port, None)), Some(200))
  }

  function From(t: seq<Taken>, k: nat): seq<Taken> {
    if k <= |t| then t[k..] else []
  }

  /** The data handler from the encoding of its answer on. */
  ghost function Encoding(t: seq<Taken>, sessionId: string, status: string, size: nat): seq<NodeSystem.Event> {
    if t == [] then []
    else if t[0].env.encodedBytes.None? then Finally(t[1..], 0, Failure)
    else Finally(t[1..], 5, DataOk(sessionId, status, size))
  }

  /** The data handler from its relay on. */
  ghost function Relaying(t: seq<Taken>, snap: Snapshot, plan: Plan, address: string): seq<NodeSystem.Event> {
    if t == [] then []
    else
      [Relayed(snap, plan.protocol, plan.endpoint, address)]
      + match t[0].env.relay
        case RelayFailed => Finally(t[1..], 1, SessionError("relay_error"))
        case RelayTimedOut(_) => Encoding(From(t, 4), snap.sessionId, "upstream_timeout", 0)
        case RelayReplied(_, received) => Encoding(From(t, 5), snap.sessionId, "forwarded", Buffered(received))
  }

  /** The data handler once its session is found and may be used. */
  ghost function Resolving(n: Node, t: seq<Taken>, data: DataRequest, bytes: nat, snap: Snapshot): seq<NodeSystem.Event> {
    if t == [] then []
    else
      match PlanTarget(n.parse, data, snap.routeTargetAddr, snap.routePolicy)
      case Err(code) => Finally(t[1..], 1, SessionError(code))
      case Ok(None) => Encoding(t[1..], snap.sessionId, "echo", bytes)
      case Ok(Some(plan)) =>
        if t[0].env.address.None? then Finally(t[1..], 1, SessionError("invalid_target"))
        else Relaying(t[1..], snap, plan, t[0].env.address.value)
  }

  /** The whole data handler. */
  ghost function DataHandling(n: Node, t: seq<Taken>, data: DataRequest): seq<NodeSystem.Event> {
    if t == [] then []
    else if data.sessionId.None? || IsBlank(data.sessionId.value) then Finally(t[1..], 1, SessionError("missing_session_id"))
    else if data.payload.None? then Finally(t[1..], 1, SessionError("missing_payload"))
    else if n.payloadBytes(data.payload.value).None? then Finally(t[1..], 1, SessionError("invalid_payload"))
    else
      match IoResult(t[0].core.store, Trim(data.sessionId.value), t[0].env.lockNow)
      case Err(Missing) => Finally(t[1..], 1, SessionError("session_not_found"))
      case Err(Expired) => Finally(t[1..], 1, SessionError("session_expired"))
      case Ok(snap) =>
        [Opened(snap)]
        + if (NamesTarget(data) || snap.routeTargetAddr.Some?) && !snap.authenticated
          then Finally(t[1..], 1, SessionError("relay_auth_required"))
          else Resolving(n, t[1..], data, n.payloadBytes(data.payload.value).value, snap)
  }

  lemma EncodingIsPlayed(n: Node, op: Op, t: seq<Taken>)
    requires op.EncodeData? && Busy(n, [op], t)
    ensures Played(n, [op], t).events == Encoding(t, op.sessionId, op.status, op.responseBytes)
  {
    hide Played, Busy, Execute, Finally;
    if t == [] {
      NothingPlayed(n, [op]);
    } else {
      PlayedFront(n, [op], t);
      var ops := EncodeDataOps(op, t[0].env);
      DecisionStep(n, t[0].core, op, t[0].env);
      assert ops + [op][1..] == ops;
      RepliesLast(n, ops, t[1..]);
    }
  }

  lemma NothingPlayed(n: Node, ops: seq<Op>)
    ensures Played(n, ops, []) == Progress(ops, [])
  {
  }

  lemma DecisionStep(n: Node, core: Core, op: Op, env: Env)
    ensures op.EncodeData? ==> Execute(n, core, op, env) == Effect(core, EncodeDataOps(op, env), [])
    ensures op.RelayData? ==>
      Execute(n, core, op, env) == Effect(core, RelayDataOps(op, env), [Relayed(op.snap, op.plan.protocol, op.plan.endpoint, op.address)])
    ensures op.ResolveData? ==> Execute(n, core, op, env) == Effect(core, ResolveDataOps(n, op, env), [])
    ensures op.RelayRaw? ==>
      Execute(n, core, op, env) == Effect(core, RelayRawOps(op, env), [Relayed(op.snap, UdpRelay, op.plan.endpoint, op.address)])
    ensures op.ResolveRaw? ==> Execute(n, core, op, env) == Effect(core, ResolveRawOps(n, op, env), [])
    ensures op.OpenData? ==> Execute(n, core, op, env) == OpenDataEffect(n, core, op.peer, op.data, env)
    ensures op.OpenRaw? ==> Execute(n, core, op, env) == OpenRawEffect(core, op.transport, op.peer, op.raw, env)
    ensures op.StartProbe? ==>
      Execute(n, core, op, env) == Effect(core, ProbeDecision(n, op.transport, op.peer, op.request, env.verifyNow), [])
  {
    hide EncodeDataOps, RelayDataOps, RelayRawOps, ResolveDataOps, ResolveRawOps, OpenDataEffect, OpenRawEffect, ProbeDecision;
  }

  /** Quiet operations in front of a decision. */
  lemma {:induction false} QuietFirst(n: Node, quiet: seq<Op>, rest: seq<Op>, t: seq<Taken>)
    requires rest != [] && Busy(n, quiet + rest, t) && forall p :: 0 <= p < |quiet| ==> IsQuiet(quiet[p])
    ensures Busy(n, rest, From(t, |quiet|))
    ensures Played(n, quiet + rest, t).events == Played(n, rest, From(t, |quiet|)).events
    decreases |quiet|
  {
    hide Played, Busy, Execute;
    var ops := quiet + rest;
    if quiet == [] {
      assert ops == rest && t[0..] == t;
    } else if t == [] {
      NothingPlayed(n, ops);
      NothingPlayed(n, rest);
      NothingBusy(n, rest);
    } else {
      PlayedFront(n, ops, t);
      QuietStep(n, t[0].core, ops[0], t[0].env);
      assert [] + ops[1..] == quiet[1..] + rest;
      QuietFirst(n, quiet[1..], rest, t[1..]);
      assert From(t[1..], |quiet| - 1) == From(t, |quiet|);
    }
  }

  lemma NothingBusy(n: Node, ops: seq<Op>)
    ensures Busy(n, ops, [])
  {
  }

  lemma RelayingIsPlayed(n: Node, op: Op, t: seq<Taken>)
    requires op.RelayData? && Busy(n, [op], t)
    ensures Played(n, [op], t).events == Relaying(t, op.snap, op.plan, op.address)
  {
    hide Played, Busy, Execute, Finally, Encoding;
    if t == [] {
      NothingPlayed(n, [op]);
    } else {
      PlayedFront(n, [op], t);
      var ops := RelayDataOps(op, t[0].env);
      DecisionStep(n, t[0].core, op, t[0].env);
      assert ops + [op][1..] == ops;
      match t[0].env.relay
      case RelayFailed => RepliesLast(n, ops, t[1..]);
      case RelayTimedOut(sent) =>
        var encode := EncodeData(op.peer, op.id, op.snap.sessionId, op.bytes, "upstream_timeout", 0);
        assert ops == ops[..3] + [encode];
        QuietFirst(n, ops[..3], [encode], t[1..]);
        EncodingIsPlayed(n, encode, From(t[1..], 3));
        assert From(t[1..], 3) == From(t, 4);
      case RelayReplied(sent, received) =>
        var encode := EncodeData(op.peer, op.id, op.snap.sessionId, op.bytes, "forwarded", Received(received));
        assert ops == ops[..4] + [encode];
        QuietFirst(n, ops[..4], [encode], t[1..]);
        EncodingIsPlayed(n, encode, From(t[1..], 4));
        assert From(t[1..], 4) == From(t, 5);
    }
  }

  lemma ResolvingIsPlayed(n: Node, op: Op, t: seq<Taken>)
    requires op.ResolveData? && Busy(n, [op], t)
    ensures Played(n, [op], t).events == Resolving(n, t, op.data, op.bytes, op.snap)
  {
    hide Played, Busy, Execute, Finally, Encoding, Relaying, PlanTarget;
    if t == [] {
      NothingPlayed(n, [op]);
    } else {
      PlayedFront(n, [op], t);
      var ops := ResolveDataOps(n, op, t[0].env);
      DecisionStep(n, t[0].core, op, t[0].env);
      assert ops + [op][1..] == ops;
      match PlanTarget(n.parse, op.data, op.snap.routeTargetAddr, op.snap.routePolicy)
      case Err(code) => RepliesLast(n, ops, t[1..]);
      case Ok(None) => EncodingIsPlayed(n, ops[0], t[1..]);
      case Ok(Some(plan)) =>
        if t[0].env.address.None? {
          RepliesLast(n, ops, t[1..]);
        } else {
          RelayingIsPlayed(n, ops[0], t[1..]);
        }
    }
  }

  /** The data handler after it has looked for its session. */
  ghost function DataOpening(n: Node, t: seq<Taken>, data: DataRequest, bytes: nat, io: Result<Snapshot, SessionError>)
    : seq<NodeSystem.Event>
  {
    match io
    case Err(Missing) => Finally(t, 1, SessionError("session_not_found"))
    case Err(Expired) => Finally(t, 1, SessionError("session_expired"))
    case Ok(snap) =>
      if (NamesTarget(data) || snap.routeTargetAddr.Some?) && !snap.authenticated
      then Finally(t, 1, SessionError("relay_auth_required"))
      else Resolving(n, t, data, bytes, snap)
  }

  lemma DataOpeningIsPlayed(
    n: Node, peer: string, id: string, data: DataRequest, bytes: nat, io: Result<Snapshot, SessionError>, t: seq<Taken>)
    requires Busy(n, AfterOpenData(peer, id, data, bytes, io), t)
    ensures Played(n, AfterOpenData(peer, id, data, bytes, io), t).events == DataOpening(n, t, data, bytes, io)
  {
    hide Played, Busy, Finally, Resolving, HasSessionTarget, NamesTarget;
    DataNames(data);
    var ops := AfterOpenData(peer, id, data, bytes, io);
    if |ops| == 1 {
      ResolvingIsPlayed(n, ops[0], t);
    } else {
      RepliesLast(n, ops, t);
    }
  }

  lemma DataIsPlayed(n: Node, peer: string, data: DataRequest, t: seq<Taken>)
    requires Busy(n, [OpenData(peer, data)], t)
    ensures Played(n, [OpenData(peer, data)], t).events == DataHandling(n, t, data)
  {
    hide Played, Busy, Execute, Finally, Resolving, IoResult, AfterIo, AfterOpenData, NamesTarget;
    var op := OpenData(peer, data);
    if t == [] {
      NothingPlayed(n, [op]);
    } else {
      PlayedFront(n, [op], t);
      var effect := OpenDataEffect(n, t[0].core, peer, data, t[0].env);
      DecisionStep(n, t[0].core, op, t[0].env);
      assert effect.next + [op][1..] == effect.next;
      if NonBlank(data.sessionId).None? || data.payload.None? || n.payloadBytes(data.payload.value).None? {
        RepliesLast(n, effect.next, t[1..]);
      } else {
        var id := Trim(data.sessionId.value);
        var bytes := n.payloadBytes(data.payload.value).value;
        DataOpeningIsPlayed(n, peer, id, data, bytes, IoResult(t[0].core.store, id, t[0].env.lockNow), t[1..]);
      }
    }
  }

  lemma DataNames(data: DataRequest)
    ensures HasSessionTarget(data) <==> NamesTarget(data)
  {
  }

  // ---------------------------------------------------------------- the raw tunnel

  ghost function RawRelaying(t: seq<Taken>, raw: RawTunnel, snap: Snapshot, plan: Plan, address: string): seq<NodeSystem.Event> {
    if t == [] then []
    else
      [Relayed(snap, UdpRelay, plan.endpoint, address)]
      + match t[0].env.relay
        case RelayFailed => Finally(t[1..], 1, RawReply(raw.sessionId, "relay_error", 0))
        case RelayTimedOut(_) => Finally(t[1..], 3, RawReply(raw.sessionId, "upstream_timeout", 0))
        case RelayReplied(_, received) => Finally(t[1..], 9, RawReply(raw.sessionId, "forwarded", Buffered(received)))
  }

  ghost function RawResolving(n: Node, t: seq<Taken>, raw: RawTunnel, snap: Snapshot): seq<NodeSystem.Event> {
    if t == [] then []
    else
      match PlanTarget(n.parse, RawRequest(raw), snap.routeTargetAddr, snap.routePolicy)
      case Err(code) => Finally(t[1..], 1, RawReply(raw.sessionId, code, 0))
      case Ok(None) => Finally(t[1..], 1, RawReply(raw.sessionId, "missing_target", 0))
      case Ok(Some(plan)) =>
        if t[0].env.address.None? then Finally(t[1..], 1, RawReply(raw.sessionId, "invalid_target", 0))
        else RawRelaying(t[1..], raw, snap, plan, t[0].env.address.value)
  }

  /** The whole raw handler. */
  ghost function RawHandling(n: Node, t: seq<Taken>, transport: Transport, raw: RawTunnel): seq<NodeSystem.Event> {
    if t == [] then []
    else if transport.Tcp? then Finally(t[1..], 0, RawReply(raw.sessionId, "unsupported_transport", 0))
    else
      match IoResult(t[0].core.store, raw.sessionId, t[0].env.lockNow)
      case Err(Missing) => Finally(t[1..], 1, RawReply(raw.sessionId, "session_not_found", 0))
      case Err(Expired) => Finally(t[1..], 1, RawReply(raw.sessionId, "session_expired", 0))
      case Ok(snap) =>
        [Opened(snap)]
        + if !snap.authenticated then Finally(t[1..], 1, RawReply(raw.sessionId, "relay_auth_required", 0))
          else RawResolving(n, t[1..], raw, snap)
  }

  lemma RawRelayingIsPlayed(n: Node, op: Op, t: seq<Taken>)
    requires op.RelayRaw? && Busy(n, [op], t)
    ensures Played(n, [op], t).events == RawRelaying(t, op.raw, op.snap, op.plan, op.address)
  {
    hide Played, Busy, Execute, Finally;
    if t == [] {
      NothingPlayed(n, [op]);
    } else {
      PlayedFront(n, [op], t);
      var ops := RelayRawOps(op, t[0].env);
      DecisionStep(n, t[0].core, op, t[0].env);
      assert ops + [op][1..] == ops;
      RepliesLast(n, ops, t[1..]);
    }
  }

  lemma RawResolvingIsPlayed(n: Node, op: Op, t: seq<Taken>)
    requires op.ResolveRaw? && Busy(n, [op], t)
    ensures Played(n, [op], t).events == RawResolving(n, t, op.raw, op.snap)
  {
    hide Played, Busy, Execute, Finally, RawRelaying, PlanTarget;
    if t == [] {
      NothingPlayed(n, [op]);
    } else {
      PlayedFront(n, [op], t);
      var ops := ResolveRawOps(n, op, t[0].env);
      DecisionStep(n, t[0].core, op, t[0].env);
      assert ops + [op][1..] == ops;
      if |ops| == 1 {
        RawRelayingIsPlayed(n, ops[0], t[1..]);
      } else {
        RepliesLast(n, ops, t[1..]);
      }
    }
  }

  lemma RawIsPlayed(n: Node, transport: Transport, peer: string, raw: RawTunnel, t: seq<Taken>)
    requires Busy(n, [OpenRaw(transport, peer, raw)], t)
    ensures Played(n, [OpenRaw(transport, peer, raw)], t).events == RawHandling(n, t, transport, raw)
  {
    hide Played, Busy, Execute, Finally, RawResolving, IoResult, AfterIo;
    var op := OpenRaw(transport, peer, raw);
    if t == [] {
      NothingPlayed(n, [op]);
    } else {
      PlayedFront(n, [op], t);
      var effect := OpenRawEffect(t[0].core, transport, peer, raw, t[0].env);
      DecisionStep(n, t[0].core, op, t[0].env);
      assert effect.next + [op][1..] == effect.next;
      if effect.next[0].ResolveRaw? {
        RawResolvingIsPlayed(n, effect.next[0], t[1..]);
      } else {
        RepliesLast(n, effect.next, t[1..]);
      }
    }
  }

  // ---------------------------------------------------------------- probes

  /** An admitted probe: its id is made and granted, then its session stored, then its id answered. */
  ghost function Admitting(t: seq<Taken>, transport: Transport, peer: string, identity: ProbeIdentity, grant: Grant)
    : seq<NodeSystem.Event>
  {
    if t == [] then []
    else
      var id := BuildSessionId(transport, peer, t[0].env.idNow, (t[0].core.sequence + 1) % 0x1_0000_0000_0000_0000);
      [Granted(id, grant)]
      + if |t| <= 3 then []
        else [Stored(NewSession(id, identity, peer, t[3].env.createdNow))] + Finally(From(t, 4), 0, ProbeOk(id))
  }

  /** The whole probe handler. */
  ghost function ProbeHandling(n: Node, t: seq<Taken>, transport: Transport, peer: string, request: ProbeRequest)
    : seq<NodeSystem.Event>
  {
    if t == [] then []
    else
      match VerifyProbeToken(n.crypto, request, n.nodeId, n.secret, t[0].env.verifyNow)
      case NoToken => Admitting(From(t, 2), transport, peer, IdentityFromRequest(request), Anonymous(request))
      case Invalid(code) => Finally(t[1..], 2, ProbeError(code))
      case Valid(claims) =>
        match IdentityFromClaims(n.crypto, claims, request.routePolicy)
        case Ok(identity) =>
          Admitting(From(t, 2), transport, peer, identity, Token(request, claims, t[0].env.verifyNow))
        case Err(code) => Finally(t[1..], 3, ProbeError(code))
  }

  lemma StoredStep(n: Node, core: Core, op: Op, env: Env)
    requires op.Register?
    ensures Execute(n, core, op, env).next == []
    ensures Execute(n, core, op, env).events == [Stored(NewSession(op.id, op.identity, op.peer, env.createdNow))]
  {
    hide NewSession, AfterRegister;
  }

  lemma TakenStep(n: Node, core: Core, op: Op, env: Env)
    requires op.TakeSequence?
    ensures
      var id := BuildSessionId(op.transport, op.peer, env.idNow, (core.sequence + 1) % TWO64);
      && Execute(n, core, op, env).next
         == [Count(ProbeSessionsTotal, 1), SetLast(id), Register(id, op.identity, op.peer), Respond(ProbeOk(id))]
      && Execute(n, core, op, env).events == [Granted(id, op.grant)]
  {
    hide BuildSessionId;
  }

  lemma AdmittingIsPlayed(n: Node, op: Op, t: seq<Taken>)
    requires op.TakeSequence? && Busy(n, [op], t)
    ensures Played(n, [op], t).events == Admitting(t, op.transport, op.peer, op.identity, op.grant)
  {
    hide Played, Busy, Execute, Finally, BuildSessionId, NewSession;
    if t == [] {
      NothingPlayed(n, [op]);
    } else {
      PlayedFront(n, [op], t);
      TakenStep(n, t[0].core, op, t[0].env);
      var id := BuildSessionId(op.transport, op.peer, t[0].env.idNow, (t[0].core.sequence + 1) % TWO64);
      var quiet := [Count(ProbeSessionsTotal, 1), SetLast(id)];
      var rest := [Register(id, op.identity, op.peer), Respond(ProbeOk(id))];
      assert Execute(n, t[0].core, op, t[0].env).next + [op][1..] == quiet + rest;
      QuietFirst(n, quiet, rest, t[1..]);
      assert From(t[1..], 2) == From(t, 3);
      if |t| <= 3 {
        NothingPlayed(n, rest);
      } else {
        PlayedFront(n, rest, From(t, 3));
        StoredStep(n, t[3].core, rest[0], t[3].env);
        assert [] + rest[1..] == [Respond(ProbeOk(id))] && From(t, 3)[1..] == From(t, 4);
        RepliesLast(n, [Respond(ProbeOk(id))], From(t, 4));
      }
    }
  }

  lemma ProbeIsPlayed(n: Node, transport: Transport, peer: string, request: ProbeRequest, t: seq<Taken>)
    requires Busy(n, [StartProbe(transport, peer, request)], t)
    ensures Played(n, [StartProbe(transport, peer, request)], t).events == ProbeHandling(n, t, transport, peer, request)
  {
    hide Played, Busy, Execute, Finally, VerifyProbeToken, IdentityFromClaims, Admitting;
    var op := StartProbe(transport, peer, request);
    if t == [] {
      NothingPlayed(n, [op]);
    } else {
      PlayedFront(n, [op], t);
      var ops := ProbeDecision(n, transport, peer, request, t[0].env.verifyNow);
      DecisionStep(n, t[0].core, op, t[0].env);
      assert ops + [op][1..] == ops;
      if |ops| == 2 {
        assert ops == [ops[0]] + [ops[1]];
        QuietFirst(n, [ops[0]], [ops[1]], t[1..]);
        assert From(t[1..], 1) == From(t, 2);
        AdmittingIsPlayed(n, ops[1], From(t, 2));
      } else {
        RepliesLast(n, ops, t[1..]);
      }
    }
  }

  // ---------------------------------------------------------------- theorems

  /** What a task does, read off its message and what its own steps met. */
  ghost function Handling(n: Node, packet: Packet, t: seq<Taken>): seq<NodeSystem.Event> {
    match packet.message
    case ProbeMessage(request) => ProbeHandling(n, t, packet.transport, packet.peer, request)
    case DataMessage(data) => DataHandling(n, t, data)
    case RawMessage(raw) => RawHandling(n, t, packet.transport, raw)
    case BadMessage => Finally(t, 1, ProbeError("invalid_probe"))
  }

  /** Handlers are isolated. In every run, whatever is interleaved with it, everything a task has done so
      far (the session it was shown, the relay it made, the reply it sent) is decided by its message, the
      session it found, the destination it resolved and the outcome of its relay. */
  lemma TaskDoesAsItsStepsSay(n: Node, actions: seq<Action>, i: nat)
    requires i < |Packets(actions)|
    ensures |Reach(n, actions).log| == |Reach(n, actions).doneBy|
    ensures DoneIn(Reach(n, actions).log, Reach(n, actions).doneBy, i)
      == Handling(n, Packets(actions)[i], TakenBy(n, actions, i))
  {
    hide Reach, Played, Busy, DoneIn, TakenBy, Packets, DataHandling, RawHandling, ProbeHandling, Finally;
    TaskIsPlayed(n, actions, i);
    var packet := Packets(actions)[i];
    var t := TakenBy(n, actions, i);
    match packet.message
    case ProbeMessage(request) => ProbeIsPlayed(n, packet.transport, packet.peer, request, t);
    case DataMessage(data) => DataIsPlayed(n, packet.peer, data, t);
    case RawMessage(raw) => RawIsPlayed(n, packet.transport, packet.peer, raw, t);
    case BadMessage => RepliesLast(n, [Count(ProbeRejected, 1), Respond(ProbeError("invalid_probe"))], t);
  }

  /** The relay a task's first two steps call for: its session was found and may be used, a destination
      was resolved, and its address was looked up. */
  ghost function Called(n: Node, packet: Packet, t: seq<Taken>): Option<NodeSystem.Event> {
    if |t| < 2 then None
    else
      match packet.message
      case DataMessage(data) =>
        if data.sessionId.None? || IsBlank(data.sessionId.value) || data.payload.None? || n.payloadBytes(data.payload.value).None?
        then None
        else
          var io := IoResult(t[0].core.store, Trim(data.sessionId.value), t[0].env.lockNow);
          if io.Err? || ((NamesTarget(data) || io.value.routeTargetAddr.Some?) && !io.value.authenticated) then None
          else FoundRelay(PlanTarget(n.parse, data, io.value.routeTargetAddr, io.value.routePolicy), io.value, t[1].env.address)
      case RawMessage(raw) =>
        if packet.transport.Tcp? then None
        else
          var io := IoResult(t[0].core.store, raw.sessionId, t[0].env.lockNow);
          if io.Err? || !io.value.authenticated then None
          else
            var plan := PlanTarget(n.parse, RawRequest(raw), io.value.routeTargetAddr, io.value.routePolicy);
            UdpOnly(FoundRelay(plan, io.value, t[1].env.address))
      case _ => None
  }

  /** The raw tunnel relays over UDP. */
  ghost function UdpOnly(e: Option<NodeSystem.Event>): Option<NodeSystem.Event>
    requires e.Some? ==> e.value.Relayed?
  {
    if e.Some? then Some(e.value.(protocol := UdpRelay)) else None
  }

  ghost function FoundRelay(plan: Result<Option<Plan>, string>, snap: Snapshot, address: Option<string>): (r: Option<NodeSystem.Event>)
    ensures r.Some? ==> r.value.Relayed?
  {
    if plan.Ok? && plan.value.Some? && address.Some?
    then Some(Relayed(snap, plan.value.value.protocol, plan.value.value.endpoint, address.value))
    else None
  }

  /** Only the event `called` is a relay, and it is there exactly when it was called for and the task has
      gone on. */
  ghost predicate RelaysOnly(events: seq<NodeSystem.Event>, called: Option<NodeSystem.Event>) {
    && (forall e :: e in events && e.Relayed? ==> called == Some(e))
    && (called.Some? ==> called.value in events)
  }

  lemma FinallyRelaysNothing(t: seq<Taken>, quiet: nat, reply: Reply)
    ensures RelaysOnly(Finally(t, quiet, reply), None)
  {
  }

  lemma EncodingRelaysNothing(t: seq<Taken>, sessionId: string, status: string, size: nat)
    ensures RelaysOnly(Encoding(t, sessionId, status, size), None)
  {
  }

  lemma OpenedFirst(snap: Snapshot, rest: seq<NodeSystem.Event>, called: Option<NodeSystem.Event>)
    requires RelaysOnly(rest, called)
    ensures RelaysOnly([Opened(snap)] + rest, called)
  {
  }

  lemma RelayedFirst(e: NodeSystem.Event, rest: seq<NodeSystem.Event>)
    requires RelaysOnly(rest, None)
    ensures RelaysOnly([e] + rest, Some(e))
  {
  }

  lemma RelayingRelays(t: seq<Taken>, snap: Snapshot, plan: Plan, address: string)
    requires t != []
    ensures RelaysOnly(Relaying(t, snap, plan, address), Some(Relayed(snap, plan.protocol, plan.endpoint, address)))
  {
    hide Finally, Encoding, RelaysOnly;
    var rest := Relaying(t, snap, plan, address)[1..];
    match t[0].env.relay {
      case RelayFailed => FinallyRelaysNothing(t[1..], 1, SessionError("relay_error"));
      case RelayTimedOut(_) => EncodingRelaysNothing(From(t, 4), snap.sessionId, "upstream_timeout", 0);
      case RelayReplied(_, received) => EncodingRelaysNothing(From(t, 5), snap.sessionId, "forwarded", Buffered(received));
    }
    RelayedFirst(Relayed(snap, plan.protocol, plan.endpoint, address), rest);
  }

  lemma RawRelayingRelays(t: seq<Taken>, raw: RawTunnel, snap: Snapshot, plan: Plan, address: string)
    requires t != []
    ensures RelaysOnly(RawRelaying(t, raw, snap, plan, address), Some(Relayed(snap, UdpRelay, plan.endpoint, address)))
  {
    hide Finally, RelaysOnly;
    var rest := RawRelaying(t, raw, snap, plan, address)[1..];
    match t[0].env.relay {
      case RelayFailed => FinallyRelaysNothing(t[1..], 1, RawReply(raw.sessionId, "relay_error", 0));
      case RelayTimedOut(_) => FinallyRelaysNothing(t[1..], 3, RawReply(raw.sessionId, "upstream_timeout", 0));
      case RelayReplied(_, received) => FinallyRelaysNothing(t[1..], 9, RawReply(raw.sessionId, "forwarded", Buffered(received)));
    }
    RelayedFirst(Relayed(snap, UdpRelay, plan.endpoint, address), rest);
  }

  lemma ResolvingRelays(n: Node, t: seq<Taken>, data: DataRequest, bytes: nat, snap: Snapshot)
    ensures
      var plan := PlanTarget(n.parse, data, snap.routeTargetAddr, snap.routePolicy);
      RelaysOnly(Resolving(n, t, data, bytes, snap), if |t| < 2 then None else FoundRelay(plan, snap, t[0].env.address))
  {
    hide PlanTarget, Finally, Encoding, Relaying, RelaysOnly;
    NothingRelays();
    if t != [] {
      match PlanTarget(n.parse, data, snap.routeTargetAddr, snap.routePolicy)
      case Err(code) => FinallyRelaysNothing(t[1..], 1, SessionError(code));
      case Ok(None) => EncodingRelaysNothing(t[1..], snap.sessionId, "echo", bytes);
      case Ok(Some(plan)) =>
        if t[0].env.address.None? {
          FinallyRelaysNothing(t[1..], 1, SessionError("invalid_target"));
        } else if |t| < 2 {
          NoRelaying(t[1..], snap, plan, t[0].env.address.value);
        } else {
          RelayingRelays(t[1..], snap, plan, t[0].env.address.value);
        }
    }
  }

  lemma NothingRelays()
    ensures RelaysOnly([], None)
  {
  }

  lemma NoRelaying(t: seq<Taken>, snap: Snapshot, plan: Plan, address: string)
    requires t == []
    ensures Relaying(t, snap, plan, address) == []
  {
  }

  lemma RawResolvingRelays(n: Node, t: seq<Taken>, raw: RawTunnel, snap: Snapshot)
    ensures
      var plan := PlanTarget(n.parse, RawRequest(raw), snap.routeTargetAddr, snap.routePolicy);
      RelaysOnly(RawResolving(n, t, raw, snap), if |t| < 2 then None else UdpOnly(FoundRelay(plan, snap, t[0].env.address)))
  {
    hide PlanTarget, Finally, RawRelaying, RelaysOnly;
    NothingRelays();
    if t != [] {
      match PlanTarget(n.parse, RawRequest(raw), snap.routeTargetAddr, snap.routePolicy)
      case Err(code) => FinallyRelaysNothing(t[1..], 1, RawReply(raw.sessionId, code, 0));
      case Ok(None) => FinallyRelaysNothing(t[1..], 1, RawReply(raw.sessionId, "missing_target", 0));
      case Ok(Some(plan)) =>
        if t[0].env.address.None? {
          FinallyRelaysNothing(t[1..], 1, RawReply(raw.sessionId, "invalid_target", 0));
        } else if |t| < 2 {
          NoRawRelaying(t[1..], raw, snap, plan, t[0].env.address.value);
        } else {
          RawRelayingRelays(t[1..], raw, snap, plan, t[0].env.address.value);
        }
    }
  }

  lemma NoRawRelaying(t: seq<Taken>, raw: RawTunnel, snap: Snapshot, plan: Plan, address: string)
    requires t == []
    ensures RawRelaying(t, raw, snap, plan, address) == []
  {
  }

  lemma DataRelays(n: Node, packet: Packet, t: seq<Taken>)
    requires packet.message.DataMessage?
    ensures RelaysOnly(DataHandling(n, t, packet.message.data), if |t| < 3 then None else Called(n, packet, t))
  {
    hide PlanTarget, Finally, Resolving, FoundRelay, IoResult, NamesTarget, RelaysOnly;
    var data := packet.message.data;
    NothingRelays();
    if t == [] {
    } else if data.sessionId.None? || IsBlank(data.sessionId.value) {
      FinallyRelaysNothing(t[1..], 1, SessionError("missing_session_id"));
    } else if data.payload.None? {
      FinallyRelaysNothing(t[1..], 1, SessionError("missing_payload"));
    } else if n.payloadBytes(data.payload.value).None? {
      FinallyRelaysNothing(t[1..], 1, SessionError("invalid_payload"));
    } else {
      match IoResult(t[0].core.store, Trim(data.sessionId.value), t[0].env.lockNow)
      case Err(Missing) => FinallyRelaysNothing(t[1..], 1, SessionError("session_not_found"));
      case Err(Expired) => FinallyRelaysNothing(t[1..], 1, SessionError("session_expired"));
      case Ok(snap) =>
        if (NamesTarget(data) || snap.routeTargetAddr.Some?) && !snap.authenticated {
          FinallyRelaysNothing(t[1..], 1, SessionError("relay_auth_required"));
          OpenedFirst(snap, Finally(t[1..], 1, SessionError("relay_auth_required")), None);
        } else {
          var bytes := n.payloadBytes(data.payload.value).value;
          var called := if |t[1..]| < 2 then None
                        else FoundRelay(PlanTarget(n.parse, data, snap.routeTargetAddr, snap.routePolicy), snap, t[1..][0].env.address);
          ResolvingRelays(n, t[1..], data, bytes, snap);
          OpenedFirst(snap, Resolving(n, t[1..], data, bytes, snap), called);
        }
    }
  }

  lemma RawRelays(n: Node, packet: Packet, t: seq<Taken>)
    requires packet.message.RawMessage?
    ensures RelaysOnly(RawHandling(n, t, packet.transport, packet.message.raw), if |t| < 3 then None else Called(n, packet, t))
  {
    hide PlanTarget, Finally, RawResolving, FoundRelay, IoResult, RelaysOnly;
    var raw := packet.message.raw;
    NothingRelays();
    if t == [] {
    } else if packet.transport.Tcp? {
      FinallyRelaysNothing(t[1..], 0, RawReply(raw.sessionId, "unsupported_transport", 0));
    } else {
      match IoResult(t[0].core.store, raw.sessionId, t[0].env.lockNow)
      case Err(Missing) => FinallyRelaysNothing(t[1..], 1, RawReply(raw.sessionId, "session_not_found", 0));
      case Err(Expired) => FinallyRelaysNothing(t[1..], 1, RawReply(raw.sessionId, "session_expired", 0));
      case Ok(snap) =>
        if !snap.authenticated {
          FinallyRelaysNothing(t[1..], 1, RawReply(raw.sessionId, "relay_auth_required", 0));
          OpenedFirst(snap, Finally(t[1..], 1, RawReply(raw.sessionId, "relay_auth_required", 0)), None);
        } else {
          var plan := PlanTarget(n.parse, RawRequest(raw), snap.routeTargetAddr, snap.routePolicy);
          var called := if |t[1..]| < 2 then None else UdpOnly(FoundRelay(plan, snap, t[1..][0].env.address));
          RawResolvingRelays(n, t[1..], raw, snap);
          OpenedFirst(snap, RawResolving(n, t[1..], raw, snap), called);
        }
    }
  }

  lemma ProbeRelays(n: Node, t: seq<Taken>, transport: Transport, peer: string, request: ProbeRequest)
    ensures RelaysOnly(ProbeHandling(n, t, transport, peer, request), None)
  {
    hide VerifyProbeToken, IdentityFromClaims, Finally, NewSession, BuildSessionId;
    forall u: seq<Taken>, quiet: nat, reply: Reply ensures RelaysOnly(Finally(u, quiet, reply), None) {
      FinallyRelaysNothing(u, quiet, reply);
    }
  }

  lemma {:induction false} DoneInHolds(log: seq<NodeSystem.Event>, doneBy: seq<nat>, i: nat, e: NodeSystem.Event)
    requires |log| == |doneBy|
    ensures e in DoneIn(log, doneBy, i) <==> exists j :: 0 <= j < |log| && log[j] == e && doneBy[j] == i
  {
    if log != [] {
      var last := |log| - 1;
      DoneInHolds(log[..last], doneBy[..last], i, e);
      if j :| 0 <= j < |log| && log[j] == e && doneBy[j] == i {
        assert j < last ==> log[..last][j] == e && doneBy[..last][j] == i;
      }
    }
  }

  /** A relay is made exactly when it is called for. In every run, a task that has taken its third step has
      made the relay its session, its resolution and its lookup called for, and no task makes any other. */
  lemma RelayedExactlyWhenCalled(n: Node, actions: seq<Action>, i: nat, e: NodeSystem.Event)
    requires i < |Packets(actions)| && e.Relayed?
    ensures |Reach(n, actions).log| == |Reach(n, actions).doneBy|
    ensures
      var s := Reach(n, actions);
      var t := TakenBy(n, actions, i);
      (exists j :: 0 <= j < |s.log| && s.log[j] == e && s.doneBy[j] == i)
        <==> |t| >= 3 && Called(n, Packets(actions)[i], t) == Some(e)
  {
    hide Reach, TakenBy, Packets, DataHandling, RawHandling, ProbeHandling, Finally, DoneIn, Called;
    TaskDoesAsItsStepsSay(n, actions, i);
    var s := Reach(n, actions);
    var packet := Packets(actions)[i];
    var t := TakenBy(n, actions, i);
    DoneInHolds(s.log, s.doneBy, i, e);
    match packet.message
    case DataMessage(data) => DataRelays(n, packet, t);
    case RawMessage(raw) => RawRelays(n, packet, t);
    case ProbeMessage(request) =>
      ProbeRelays(n, t, packet.transport, packet.peer, request);
      NotCalled(n, packet, t);
    case BadMessage =>
      FinallyRelaysNothing(t, 1, ProbeError("invalid_probe"));
      NotCalled(n, packet, t);
  }

  lemma NotCalled(n: Node, packet: Packet, t: seq<Taken>)
    requires !packet.message.DataMessage? && !packet.message.RawMessage?
    ensures Called(n, packet, t).None?
  {
  }
}
