/** The store of a whole run: what every handler and every purge did to it, as one history, and what
    that means for the sessions the node has handed out. */
module NodeHistory {
  import opened Text
  import opened SessionStores
  import opened Auth
  import opened Session
  import opened NodeSystem
  import opened NodeShape
  import opened NodeSafety
  import opened NodeTheorems
  import opened NodeContracts
  import opened NodeTasks
  import opened Checks

  // ---------------------------------------------------------------- the history of a run

  /** What one operation does to the store, if anything. */
  function StoreEvent(n: Node, op: Op, env: Env): Option<SessionStores.Event> {
    match op
    case Register(id, identity, peer) => Some(Registered(NewSession(id, identity, peer, env.createdNow), env.lockNow))
    case CloseIo(peer, id, tx) => Some(Io(id, peer, 0, tx, env.closeNow))
    case OpenData(peer, data) =>
      if NonBlank(data.sessionId).None? || data.payload.None? || n.payloadBytes(data.payload.value).None? then None
      else Some(Io(NonBlank(data.sessionId).value, peer, n.payloadBytes(data.payload.value).value, 0, env.lockNow))
    case OpenRaw(transport, peer, raw) =>
      if transport.Tcp? then None else Some(Io(raw.sessionId, peer, raw.payloadBytes, 0, env.lockNow))
    case _ => None
  }

  function ActionEvent(n: Node, s: System, action: Action): Option<SessionStores.Event> {
    match action
    case Arrive(_, _, _) => None
    case Run(i, env) => if i < |s.tasks| && s.tasks[i] != [] then StoreEvent(n, s.tasks[i][0], env) else None
    case Purge(now) => Some(Counted(now))
  }

  function Extended(h: History, e: Option<SessionStores.Event>): History {
    if e.Some? then h + [e.value] else h
  }

  /** All that happened to the store in a run, in the order its lock was taken. */
  function StoreHistory(n: Node, actions: seq<Action>): History {
    if actions == [] then []
    else
      var before := actions[..|actions| - 1];
      Extended(StoreHistory(n, before), ActionEvent(n, Reach(n, before), actions[|actions| - 1]))
  }

  function Applied(m: Table, e: SessionStores.Event): Table {
    match e
    case Registered(session, at) => AfterRegister(m, session, at)
    case Io(id, peer, rx, tx, at) => AfterIo(m, id, peer, rx, tx, at)
    case Counted(at) => RemoveExpired(m, at)
  }

  lemma ExecuteApplies(n: Node, core: Core, op: Op, env: Env)
    ensures Execute(n, core, op, env).core.store
      == if StoreEvent(n, op, env).Some? then Applied(core.store, StoreEvent(n, op, env).value) else core.store
  {
    hide AfterIo, AfterRegister, RemoveExpired, NewSession, IoResult, VerifyProbeToken, ProbeDecision, ResolveDataOps,
         ResolveRawOps, RelayDataOps, RelayRawOps, EncodeDataOps, BuildSessionId, AfterOpenData, AfterOpenRaw;
  }

  lemma StepApplies(n: Node, s: System, action: Action)
    ensures Step(n, s, action).core.store
      == if ActionEvent(n, s, action).Some? then Applied(s.core.store, ActionEvent(n, s, action).value) else s.core.store
  {
    hide Execute, StoreEvent, Applied, SlotsAfter, BindingFails, RemoveExpired, Arrival;
    match action
    case Arrive(_, _, _) =>
    case Run(i, env) =>
      if i < |s.tasks| && s.tasks[i] != [] {
        ExecuteApplies(n, s.core, s.tasks[i][0], env);
      }
    case Purge(now) => assert Applied(s.core.store, Counted(now)) == RemoveExpired(s.core.store, now) by { CountApplies(s.core.store, now); }
  }

  lemma CountApplies(m: Table, now: nat)
    ensures Applied(m, Counted(now)) == RemoveExpired(m, now)
  {
  }

  lemma AppliedRefines(m: Table, h: History, e: SessionStores.Event)
    requires Refines(m, h) && Ordered(h + [e])
    ensures Ordered(h) && NotBefore(h, e.at) && Refines(Applied(m, e), h + [e])
  {
    hide Refines, AfterRegister, AfterIo, RemoveExpired;
    PrefixOrdered(h, e);
    match e
    case Registered(session, at) => RegisterRefines(m, h, session, at);
    case Io(id, peer, rx, tx, at) => IoRefines(m, h, id, peer, rx, tx, at);
    case Counted(at) => CountRefines(m, h, at);
  }

  lemma PrefixOrdered(h: History, e: SessionStores.Event)
    requires Ordered(h + [e])
    ensures Ordered(h) && NotBefore(h, e.at)
  {
    var g := h + [e];
    assert forall i :: 0 <= i < |h| ==> g[i] == h[i];
    assert g[|h|] == e;
  }

  /** In every run the node's store is the history's view: it holds exactly the sessions that were
      registered and not yet taken out by a purge or a refusal, with what was recorded on them. */
  lemma {:induction false} StoreFollowsHistory(n: Node, actions: seq<Action>)
    requires Ordered(StoreHistory(n, actions))
    ensures Refines(Reach(n, actions).core.store, StoreHistory(n, actions))
  {
    hide Step, ActionEvent, Refines, Ordered, Applied;
    if actions == [] {
      NothingRefines();
    } else {
      var before := actions[..|actions| - 1];
      var s := Reach(n, before);
      var e := ActionEvent(n, s, actions[|actions| - 1]);
      StepApplies(n, s, actions[|actions| - 1]);
      if e.Some? {
        PrefixOrdered(StoreHistory(n, before), e.value);
        StoreFollowsHistory(n, before);
        AppliedRefines(s.core.store, StoreHistory(n, before), e.value);
      } else {
        StoreFollowsHistory(n, before);
      }
    }
  }

  lemma NothingRefines()
    ensures Refines(map[], [])
  {
  }

  // ---------------------------------------------------------------- the history and the slots

  /** The sessions of the history are those of the filled slots. */
  ghost predicate SlotsRecorded(slots: seq<Slot>, h: History) {
    && (forall id :: Current(h, id).Some? ==> Known(slots, SnapshotOf(Current(h, id).value)))
    && (forall k :: 0 <= k < |slots| && slots[k].session.Some? ==> Current(h, slots[k].id).Some?)
  }

  lemma CurrentAfter(h: History, e: SessionStores.Event, id: string)
    ensures Current(h, id).Some? ==> Current(h + [e], id).Some?
    ensures !e.Registered? && Current(h + [e], id).Some? ==>
      Current(h, id).Some? && SnapshotOf(Current(h + [e], id).value) == SnapshotOf(Current(h, id).value)
    ensures e.Registered? ==> Current(h + [e], id) == if e.session.sessionId == id then Some(e.session) else Current(h, id)
  {
    assert (h + [e])[..|h|] == h;
  }

  /** An event that registers nothing. */
  lemma OtherEventRecorded(slots: seq<Slot>, h: History, e: SessionStores.Event)
    requires SlotsRecorded(slots, h) && !e.Registered?
    ensures SlotsRecorded(slots, h + [e])
  {
    hide Known, Current;
    forall id ensures Current(h + [e], id).Some? ==> Known(slots, SnapshotOf(Current(h + [e], id).value)) {
      CurrentAfter(h, e, id);
    }
    forall k | 0 <= k < |slots| && slots[k].session.Some? ensures Current(h + [e], slots[k].id).Some? {
      CurrentAfter(h, e, slots[k].id);
    }
  }

  lemma GrownRecorded(n: Node, slots: seq<Slot>, after: seq<Slot>, h: History)
    requires SlotsRecorded(slots, h) && Grows(slots, after)
    requires forall k :: 0 <= k < |after| && after[k].session.Some? ==> k < |slots| && slots[k].session.Some?
    ensures SlotsRecorded(after, h)
  {
    hide Current, Known;
    forall id | Current(h, id).Some? ensures Known(after, SnapshotOf(Current(h, id).value)) {
      KnownGrows(n, slots, after, SnapshotOf(Current(h, id).value), UdpRelay, "");
    }
  }

  lemma RegisterRecorded(n: Node, slots: seq<Slot>, owner: nat, h: History, session: UdpSession, at: nat, k: nat)
    requires SlotsRecorded(slots, h) && k < |slots| && OpenSlot(slots[k], owner, session.sessionId)
    requires forall j :: 0 <= j < |slots| && slots[j].owner == owner ==> j == k
    requires Grows(slots, FillSlots(slots, owner, session))
    ensures SlotsRecorded(FillSlots(slots, owner, session), h + [Registered(session, at)])
  {
    hide Current, Known;
    var after := FillSlots(slots, owner, session);
    var e := Registered(session, at);
    assert Known(after, SnapshotOf(session)) by { ShownIsKnown(after, k, SnapshotOf(session)); }
    forall id | Current(h + [e], id).Some? ensures Known(after, SnapshotOf(Current(h + [e], id).value)) {
      CurrentAfter(h, e, id);
      if id != session.sessionId {
        KnownGrows(n, slots, after, SnapshotOf(Current(h, id).value), UdpRelay, "");
      }
    }
    forall j | 0 <= j < |after| && after[j].session.Some? ensures Current(h + [e], after[j].id).Some? {
      CurrentAfter(h, e, after[j].id);
    }
  }

  lemma ShownIsKnown(slots: seq<Slot>, k: nat, snap: Snapshot)
    requires k < |slots| && ShownBy(slots[k], snap)
    ensures Known(slots, snap)
  {
  }

  lemma RunRecorded(n: Node, s: System, i: nat, env: Env, h: History)
    requires Safe(n, s) && SlotsRecorded(s.slots, h) && i < |s.tasks| && s.tasks[i] != []
    ensures SlotsRecorded(RunTask(n, s, i, env).slots, Extended(h, StoreEvent(n, s.tasks[i][0], env)))
  {
    hide SlotsRecorded, SlotsOk, StoreKnown, Grows, BindingFails, WellShaped, NewSession, IdentityGranted, EventSafe,
         Execute, SlotsAfter;
    var op := s.tasks[i][0];
    var effect := Execute(n, s.core, op, env);
    RunKeepsTasks(n, s, i, env);
    assert OpsSafe(n, s.slots, i, s.tasks[i]) && OpSafe(n, s.slots, i, op);
    if op.Register? {
      var k :| 0 <= k < |s.slots| && OpenSlot(s.slots[k], i, op.id) && IdentityGranted(n, op.identity, s.slots[k].grant);
      var session := NewSession(op.id, op.identity, op.peer, env.createdNow);
      RegisterFills(n, s.slots, i, s.core, op, env);
      RegisterRecorded(n, s.slots, i, h, session, env.lockNow, k);
    } else {
      OtherFillsNone(n, s.slots, i, s.core, op, env);
      GrownRecorded(n, s.slots, SlotsAfter(s.slots, i, effect.events), h);
      var e := StoreEvent(n, op, env);
      if e.Some? {
        OtherEventRecorded(SlotsAfter(s.slots, i, effect.events), h, e.value);
      }
    }
  }

  lemma RegisterFills(n: Node, slots: seq<Slot>, owner: nat, core: Core, op: Op, env: Env)
    requires op.Register?
    ensures
      var session := NewSession(op.id, op.identity, op.peer, env.createdNow);
      && session.sessionId == op.id
      && SlotsAfter(slots, owner, Execute(n, core, op, env).events) == FillSlots(slots, owner, session)
  {
    hide AfterRegister;
  }

  lemma OtherFillsNone(n: Node, slots: seq<Slot>, owner: nat, core: Core, op: Op, env: Env)
    requires !op.Register?
    ensures
      var after := SlotsAfter(slots, owner, Execute(n, core, op, env).events);
      forall k :: 0 <= k < |after| && after[k].session.Some? ==> k < |slots| && slots[k].session.Some?
  {
    hide AfterIo, ProbeDecision, ResolveDataOps, ResolveRawOps, RelayDataOps, RelayRawOps, EncodeDataOps, BuildSessionId,
         AfterOpenData, AfterOpenRaw, IoResult;
  }

  lemma {:induction false} ReachIsRecorded(n: Node, actions: seq<Action>)
    ensures SlotsRecorded(Reach(n, actions).slots, StoreHistory(n, actions))
  {
    hide RunTask, SlotsRecorded, StoreEvent, RemoveExpired, Safe, Arrival;
    if actions == [] {
      assert SlotsRecorded([], []) by { NothingRecorded(); }
    } else {
      var before := actions[..|actions| - 1];
      var s := Reach(n, before);
      ReachIsRecorded(n, before);
      match actions[|actions| - 1]
      case Arrive(_, _, _) =>
      case Run(i, env) =>
        if i < |s.tasks| && s.tasks[i] != [] {
          ReachIsSafe(n, before);
          RunRecorded(n, s, i, env, StoreHistory(n, before));
        }
      case Purge(now) => OtherEventRecorded(s.slots, StoreHistory(n, before), Counted(now));
    }
  }

  lemma NothingRecorded()
    ensures SlotsRecorded([], [])
  {
  }

  // ---------------------------------------------------------------- where a session comes from

  /** The slot was granted, and its session stored, by the task that owns it. */
  ghost predicate SlotLogged(s: System, slot: Slot)
    requires |s.log| == |s.doneBy|
  {
    && Granted(slot.id, slot.grant) in DoneIn(s.log, s.doneBy, slot.owner)
    && (slot.session.Some? ==> Stored(slot.session.value) in DoneIn(s.log, s.doneBy, slot.owner))
  }

  ghost predicate SlotsLogged(s: System) {
    |s.log| == |s.doneBy| && forall k :: 0 <= k < |s.slots| ==> SlotLogged(s, s.slots[k])
  }

  lemma StepLogsSlots(n: Node, s: System, action: Action)
    requires SlotsLogged(s)
    ensures SlotsLogged(Step(n, s, action))
  {
    hide Execute, BindingFails, DoneIn, Arrival, RemoveExpired;
    var t := Step(n, s, action);
    if action.Run? && action.task < |s.tasks| && s.tasks[action.task] != [] {
      var (i, events) := (action.task, Execute(n, s.core, s.tasks[action.task][0], action.env).events);
      forall k | 0 <= k < |t.slots| ensures SlotLogged(t, t.slots[k]) {
        DoneInAppends(s.log, s.doneBy, events, i, t.slots[k].owner);
      }
    }
  }

  lemma {:induction false} ReachLogsSlots(n: Node, actions: seq<Action>)
    ensures SlotsLogged(Reach(n, actions))
  {
    hide Step, SlotLogged;
    if actions != [] {
      ReachLogsSlots(n, actions[..|actions| - 1]);
      StepLogsSlots(n, Reach(n, actions[..|actions| - 1]), actions[|actions| - 1]);
    }
  }

  /** The session was made by this probe: its id names the transport, the peer and the clock reading, it
      was created when it was stored, it lasts 30 seconds, and it carries what the accepted claims say or,
      without a token, what the request says. */
  ghost predicate MadeByProbe(n: Node, packet: Packet, t: seq<Taken>, session: UdpSession) {
    && packet.message.ProbeMessage? && |t| >= 6
    && FreshSession(session,
                    BuildSessionId(packet.transport, packet.peer, t[2].env.idNow,
                                   (t[2].core.sequence + 1) % 0x1_0000_0000_0000_0000),
                    packet.peer, t[5].env.createdNow)
    && Shows(SnapshotOf(session), session)
    && var request := packet.message.probe;
       match VerifyProbeToken(n.crypto, request, n.nodeId, n.secret, t[0].env.verifyNow)
       case NoToken => OwnedByRequest(SnapshotOf(session), request)
       case Valid(claims) =>
         AllPass(BindingChecks(n.crypto, claims, request.routePolicy)) && OwnedByClaims(SnapshotOf(session), claims, request.routePolicy)
       case Invalid(_) => false
  }

  lemma FinallyStoresNothing(t: seq<Taken>, quiet: nat, reply: Reply)
    ensures forall e :: e in Finally(t, quiet, reply) ==> e.Replied?
  {
  }

  lemma AdmittingStores(t: seq<Taken>, transport: Transport, peer: string, identity: ProbeIdentity, grant: Grant, session: UdpSession)
    requires Stored(session) in Admitting(t, transport, peer, identity, grant)
    ensures |t| >= 4
    ensures
      var id := BuildSessionId(transport, peer, t[0].env.idNow, (t[0].core.sequence + 1) % 0x1_0000_0000_0000_0000);
      session == NewSession(id, identity, peer, t[3].env.createdNow)
  {
    hide Finally, BuildSessionId, NewSession;
    if |t| >= 4 {
      var id := BuildSessionId(transport, peer, t[0].env.idNow, (t[0].core.sequence + 1) % 0x1_0000_0000_0000_0000);
      FinallyStoresNothing(From(t, 4), 0, ProbeOk(id));
    }
  }

  lemma HandlingStores(n: Node, packet: Packet, t: seq<Taken>, session: UdpSession)
    requires Stored(session) in Handling(n, packet, t)
    ensures MadeByProbe(n, packet, t, session)
  {
    hide DataHandling, RawHandling, Finally, Admitting, VerifyProbeToken, IdentityFromClaims, NewSession, BuildSessionId, AllPass,
         BindingChecks, OwnedByClaims, OwnedByRequest, FreshSession, Shows, IdentityFromRequest, FailsFirst;
    match packet.message
    case DataMessage(data) =>
      DataStoresNothing(n, t, data, session);
      assert false;
    case RawMessage(raw) =>
      RawStoresNothing(n, t, packet.transport, raw, session);
      assert false;
    case BadMessage =>
      FinallyStoresNothing(t, 1, ProbeError("invalid_probe"));
      assert false;
    case ProbeMessage(request) =>
      match VerifyProbeToken(n.crypto, request, n.nodeId, n.secret, t[0].env.verifyNow)
      case NoToken =>
        AdmittingStores(From(t, 2), packet.transport, packet.peer, IdentityFromRequest(request), Anonymous(request), session);
        IdentityIsOfRequest(request, BuildSessionId(packet.transport, packet.peer, t[2].env.idNow, (t[2].core.sequence + 1) % TWO64),
                            packet.peer, t[5].env.createdNow);
      case Invalid(code) =>
        FinallyStoresNothing(t[1..], 2, ProbeError(code));
        assert false;
      case Valid(claims) =>
        match IdentityFromClaims(n.crypto, claims, request.routePolicy)
        case Err(code) =>
          FinallyStoresNothing(t[1..], 3, ProbeError(code));
          assert false;
        case Ok(identity) =>
          AdmittingStores(From(t, 2), packet.transport, packet.peer, identity, Token(request, claims, t[0].env.verifyNow), session);
          var id := BuildSessionId(packet.transport, packet.peer, t[2].env.idNow, (t[2].core.sequence + 1) % TWO64);
          IdentityIsOfClaims(n.crypto, claims, request.routePolicy, id, packet.peer, t[5].env.createdNow);
  }

  ghost predicate StoresNothing(events: seq<NodeSystem.Event>) {
    forall e :: e in events ==> !e.Stored?
  }

  lemma FinallyStores()
    ensures forall u: seq<Taken>, quiet: nat, reply: Reply :: StoresNothing(Finally(u, quiet, reply))
  {
  }

  lemma RelayingStoresNothing(t: seq<Taken>, snap: Snapshot, plan: Plan, address: string)
    ensures StoresNothing(Relaying(t, snap, plan, address))
  {
    hide Finally;
    FinallyStores();
  }

  lemma ResolvingStoresNothing(n: Node, t: seq<Taken>, data: DataRequest, bytes: nat, snap: Snapshot)
    ensures StoresNothing(Resolving(n, t, data, bytes, snap))
  {
    hide Finally, Relaying, PlanTarget, StoresNothing;
    FinallyStores();
    assert StoresNothing([]) by { NoEvents(); }
    forall u: seq<Taken>, plan: Plan, address: string ensures StoresNothing(Relaying(u, snap, plan, address)) {
      RelayingStoresNothing(u, snap, plan, address);
    }
  }

  lemma NoEvents()
    ensures StoresNothing([])
  {
  }

  lemma DataStoresNothing(n: Node, t: seq<Taken>, data: DataRequest, session: UdpSession)
    ensures Stored(session) !in DataHandling(n, t, data)
  {
    hide Finally, Resolving, PlanTarget, IoResult, NamesTarget;
    FinallyStores();
    forall u: seq<Taken>, bytes: nat, snap: Snapshot ensures StoresNothing(Resolving(n, u, data, bytes, snap)) {
      ResolvingStoresNothing(n, u, data, bytes, snap);
    }
  }

  lemma RawResolvingStoresNothing(n: Node, t: seq<Taken>, raw: RawTunnel, snap: Snapshot)
    ensures StoresNothing(RawResolving(n, t, raw, snap))
  {
    hide Finally, PlanTarget;
    FinallyStores();
  }

  lemma RawStoresNothing(n: Node, t: seq<Taken>, transport: Transport, raw: RawTunnel, session: UdpSession)
    ensures Stored(session) !in RawHandling(n, t, transport, raw)
  {
    hide Finally, RawResolving, IoResult;
    FinallyStores();
    forall u: seq<Taken>, snap: Snapshot ensures StoresNothing(RawResolving(n, u, raw, snap)) {
      RawResolvingStoresNothing(n, u, raw, snap);
    }
  }

  /** Every session of every run was made by the probe of the task that owns its slot. */
  lemma SessionsComeFromProbes(n: Node, actions: seq<Action>, k: nat)
    requires k < |Reach(n, actions).slots| && Reach(n, actions).slots[k].session.Some?
    ensures Reach(n, actions).slots[k].owner < |Packets(actions)|
    ensures
      var slot := Reach(n, actions).slots[k];
      MadeByProbe(n, Packets(actions)[slot.owner], TakenBy(n, actions, slot.owner), slot.session.value)
      && slot.session.value.sessionId == slot.id
  {
    hide Reach, TakenBy, Packets, DoneIn, Handling, MadeByProbe, SessionGranted, GrantGenuine, StoreKnown, OpsSafe, EventSafe, AllWellShaped;
    var slot := Reach(n, actions).slots[k];
    ReachIsSafe(n, actions);
    PacketsAreTasks(n, actions);
    ReachLogsSlots(n, actions);
    TaskDoesAsItsStepsSay(n, actions, slot.owner);
    assert SlotLogged(Reach(n, actions), slot);
    HandlingStores(n, Packets(actions)[slot.owner], TakenBy(n, actions, slot.owner), slot.session.value);
    assert SlotOk(n, slot);
  }

  // ---------------------------------------------------------------- how long a session lasts

  ghost predicate LiveSlot(slot: Slot, id: string, t: nat) {
    slot.id == id && slot.session.Some? && t < slot.session.value.createdAt + 30
  }

  lemma LiveUntilExpiry(n: Node, actions: seq<Action>, k: nat)
    requires k < |Reach(n, actions).slots| && Reach(n, actions).slots[k].session.Some?
    ensures
      var session := Reach(n, actions).slots[k].session.value;
      session.expiresAt == session.createdAt + 30 && Shows(SnapshotOf(session), session)
  {
    hide Reach, TakenBy, Packets, BuildSessionId, VerifyProbeToken, Shows;
    SessionsComeFromProbes(n, actions, k);
  }

  /** Sessions last 30 seconds. After any run in which the store's clock did not run backwards, with
      whatever purges, probes and packets in between, a packet for an id is accepted at time t if and only
      if a probe was given that id, its session was stored, and t is less than 30 seconds after the
      session's creation; and the packet is then shown that session. */
  lemma ServedExactlyUntilExpiry(n: Node, actions: seq<Action>, id: string, t: nat)
    requires Ordered(StoreHistory(n, actions)) && NotBefore(StoreHistory(n, actions), t)
    requires |Reach(n, actions).slots| <= TWO64
    ensures
      var s := Reach(n, actions);
      var io := IoResult(s.core.store, id, t);
      && (io.Ok? <==> exists k :: 0 <= k < |s.slots| && LiveSlot(s.slots[k], id, t))
      && (forall k :: 0 <= k < |s.slots| && LiveSlot(s.slots[k], id, t) ==> io.Ok? && Shows(io.value, s.slots[k].session.value))
  {
    hide Reach, StoreHistory, Refines, IoResult, Ordered, Current, NotBefore, Safe, Shows;
    var s := Reach(n, actions);
    var h := StoreHistory(n, actions);
    StoreFollowsHistory(n, actions);
    ReachIsRecorded(n, actions);
    IoRefines(s.core.store, h, id, "", 0, 0, t);
    if Current(h, id).Some? {
      CurrentIsOneSlot(n, actions, id);
    }
    forall k | 0 <= k < |s.slots| && s.slots[k].session.Some?
      ensures s.slots[k].session.value.expiresAt == s.slots[k].session.value.createdAt + 30
      ensures Shows(SnapshotOf(s.slots[k].session.value), s.slots[k].session.value)
    {
      LiveUntilExpiry(n, actions, k);
    }
    forall k | 0 <= k < |s.slots| && LiveSlot(s.slots[k], id, t)
      ensures Current(h, id).Some? && SnapshotOf(s.slots[k].session.value) == SnapshotOf(Current(h, id).value)
    {
      assert Current(h, s.slots[k].id).Some?;
    }
  }

  /** The filled slot of an id shows what the history has recorded. */
  lemma CurrentIsOneSlot(n: Node, actions: seq<Action>, id: string)
    requires |Reach(n, actions).slots| <= TWO64 && Current(StoreHistory(n, actions), id).Some?
    ensures
      var slots := Reach(n, actions).slots;
      var snap := SnapshotOf(Current(StoreHistory(n, actions), id).value);
      && (exists k :: 0 <= k < |slots| && slots[k].id == id && ShownBy(slots[k], snap))
      && (forall k :: 0 <= k < |slots| && slots[k].id == id ==> ShownBy(slots[k], snap))
  {
    hide Reach, StoreHistory, StoreKnown, OpsSafe, EventSafe, OwnersOk, AllWellShaped, SessionGranted, GrantGenuine;
    var slots := Reach(n, actions).slots;
    var current := Current(StoreHistory(n, actions), id).value;
    ReachIsRecorded(n, actions);
    ReachIsSafe(n, actions);
    var j :| 0 <= j < |slots| && ShownBy(slots[j], SnapshotOf(current));
    assert SlotOk(n, slots[j]);
    forall k | 0 <= k < |slots| && slots[k].id == id ensures k == j {
      IdNamesOneSlot(n, actions, j, k);
    }
  }
}
