/** The node's session store: a locked map from session ids to sessions with a time to live. */
module SessionStores {
  import opened Text
  import opened RoutePolicies

  const U64_MAX: nat := 0xFFFF_FFFF_FFFF_FFFF

  datatype UdpSession = UdpSession(
    sessionId: string,
    userId: Option<nat>,
    deviceId: Option<string>,
    gameId: Option<nat>,
    regionId: Option<nat>,
    authenticated: bool,
    intentId: Option<string>,
    routeTargetAddr: Option<string>,
    routePolicy: Option<RoutePolicy>,
    routePolicyId: Option<string>,
    routePolicyHash: Option<string>,
    createdAt: nat,
    expiresAt: nat,
    lastSeenAt: nat,
    lastPeer: string,
    rxBytes: nat,
    txBytes: nat)

  datatype Snapshot = Snapshot(
    sessionId: string,
    userId: Option<nat>,
    deviceId: Option<string>,
    gameId: Option<nat>,
    regionId: Option<nat>,
    authenticated: bool,
    intentId: Option<string>,
    routeTargetAddr: Option<string>,
    routePolicy: Option<RoutePolicy>,
    routePolicyId: Option<string>,
    routePolicyHash: Option<string>,
    createdAt: nat,
    expiresAt: nat)

  datatype SessionError = Missing | Expired

  function SnapshotOf(s: UdpSession): Snapshot {
    Snapshot(s.sessionId, s.userId, s.deviceId, s.gameId, s.regionId, s.authenticated, s.intentId,
             s.routeTargetAddr, s.routePolicy, s.routePolicyId, s.routePolicyHash, s.createdAt, s.expiresAt)
  }

  function SaturatingAdd(a: nat, b: nat): nat {
    if a + b <= U64_MAX then a + b else U64_MAX
  }

  // ---------------------------------------------------------------- operations on the map

  type Table = map<string, UdpSession>

  function RemoveExpired(m: Table, now: nat): Table {
    map id | id in m && m[id].expiresAt > now :: m[id]
  }

  function AfterRegister(m: Table, session: UdpSession, now: nat): Table {
    RemoveExpired(m, now)[session.sessionId := session]
  }

  function Touched(s: UdpSession, peer: string, rx: nat, tx: nat, now: nat): UdpSession {
    s.(lastSeenAt := now, lastPeer := peer,
       rxBytes := SaturatingAdd(s.rxBytes, rx), txBytes := SaturatingAdd(s.txBytes, tx))
  }

  function IoResult(m: Table, id: string, now: nat): Result<Snapshot, SessionError> {
    if id !in m then Err(Missing)
    else if m[id].expiresAt <= now then Err(Expired)
    else Ok(SnapshotOf(m[id]))
  }

  function AfterIo(m: Table, id: string, peer: string, rx: nat, tx: nat, now: nat): Table {
    if id !in m then m
    else if m[id].expiresAt <= now then m - {id}
    else m[id := Touched(m[id], peer, rx, tx, now)]
  }

  // ---------------------------------------------------------------- the history specification

  /** What callers did to the store, in the order the lock was taken. */
  datatype Event =
    | Registered(session: UdpSession, at: nat)
    | Io(id: string, peer: string, rx: nat, tx: nat, at: nat)
    | Counted(at: nat)

  type History = seq<Event>

  /** The session of an id as its callers see it: the last registration, changed by every I/O that
      came before its expiry. Nothing is ever removed from this view. */
  ghost function Current(h: History, id: string): (s: Option<UdpSession>)
    ensures s.Some? ==> s.value.sessionId == id
  {
    if h == [] then None
    else
      var before := Current(h[..|h| - 1], id);
      match h[|h| - 1]
      case Registered(session, _) => if session.sessionId == id then Some(session) else before
      case Io(ioId, peer, rx, tx, at) =>
        if ioId == id && before.Some? && before.value.expiresAt > at
        then Some(Touched(before.value, peer, rx, tx, at)) else before
      case Counted(_) => before
  }

  /** Some purge or refused I/O at or after its expiry has taken the session out of the map. */
  ghost predicate Gone(h: History, id: string) {
    if h == [] then false
    else
      var past := h[..|h| - 1];
      var lapsed := Current(past, id).Some? && Current(past, id).value.expiresAt <= h[|h| - 1].at;
      match h[|h| - 1]
      case Registered(session, _) => session.sessionId != id && (Gone(past, id) || lapsed)
      case Io(ioId, _, _, _, _) => Gone(past, id) || (ioId == id && lapsed)
      case Counted(_) => Gone(past, id) || lapsed
  }

  /** The clock does not run backwards between lock acquisitions. */
  ghost predicate Ordered(h: History) {
    forall i, j :: 0 <= i <= j < |h| ==> h[i].at <= h[j].at
  }

  ghost predicate NotBefore(h: History, now: nat) {
    forall i :: 0 <= i < |h| ==> h[i].at <= now
  }

  /** I/O on id at time t meets a registration that has not expired. */
  ghost predicate Unexpired(h: History, id: string, t: nat) {
    Current(h, id).Some? && Current(h, id).value.expiresAt > t
  }

  ghost function RegisteredIds(h: History): set<string> {
    set i | 0 <= i < |h| && h[i].Registered? :: h[i].session.sessionId
  }

  ghost function UnexpiredIds(h: History, t: nat): set<string> {
    set id | id in RegisteredIds(h) && Unexpired(h, id, t)
  }

  /** The map holds exactly the sessions that were registered and not yet taken out. */
  ghost predicate Refines(m: Table, h: History) {
    forall id :: if Current(h, id).Some? && !Gone(h, id)
                 then id in m && m[id] == Current(h, id).value
                 else id !in m
  }

  /** A snapshot shows the session's own fields. */
  ghost predicate Shows(snap: Snapshot, s: UdpSession) {
    && snap.sessionId == s.sessionId && snap.userId == s.userId && snap.deviceId == s.deviceId && snap.gameId == s.gameId
    && snap.regionId == s.regionId && snap.authenticated == s.authenticated && snap.intentId == s.intentId
    && snap.routeTargetAddr == s.routeTargetAddr && snap.routePolicy == s.routePolicy
    && snap.routePolicyId == s.routePolicyId && snap.routePolicyHash == s.routePolicyHash
    && snap.createdAt == s.createdAt && snap.expiresAt == s.expiresAt
  }

  /** An accepted I/O records when it came and from where, adds its bytes as far as the counters reach,
      and leaves the rest of the session alone. */
  ghost predicate Recorded(was: UdpSession, peer: string, rx: nat, tx: nat, now: nat, s: UdpSession) {
    && s.lastSeenAt == now && s.lastPeer == peer
    && s.rxBytes == (if was.rxBytes + rx < 0x1_0000_0000_0000_0000 then was.rxBytes + rx else 0xFFFF_FFFF_FFFF_FFFF)
    && s.txBytes == (if was.txBytes + tx < 0x1_0000_0000_0000_0000 then was.txBytes + tx else 0xFFFF_FFFF_FFFF_FFFF)
    && s == was.(lastSeenAt := s.lastSeenAt, lastPeer := s.lastPeer, rxBytes := s.rxBytes, txBytes := s.txBytes)
  }

  class SessionStore {
    var sessions: Table
    ghost var history: History

    ghost predicate Valid()
      reads this
    {
      Ordered(history) && Refines(sessions, history)
    }

    constructor ()
      ensures Valid() && sessions == map[] && history == []
    {
      sessions := map[];
      history := [];
    }

    method RegisterUdpSession(session: UdpSession, now: nat)
      requires Valid() && NotBefore(history, now)
      modifies this
      ensures Valid() && history == old(history) + [Registered(session, now)]
      ensures sessions == AfterRegister(old(sessions), session, now)
    {
      RegisterRefines(sessions, history, session, now);
      sessions := RemoveExpired(sessions, now);
      sessions := sessions[session.sessionId := session];
      history := history + [Registered(session, now)];
    }

    /** Succeeds exactly when the id's last registration has not expired; a refusal says Expired only
        while the lapsed session is still in the map. */
    method RecordUdpSessionIo(id: string, peer: string, rx: nat, tx: nat, now: nat)
      returns (r: Result<Snapshot, SessionError>)
      requires Valid() && NotBefore(history, now)
      modifies this
      ensures Valid() && history == old(history) + [Io(id, peer, rx, tx, now)]
      ensures sessions == AfterIo(old(sessions), id, peer, rx, tx, now) && r == IoResult(old(sessions), id, now)
      ensures r.Ok? <==> Unexpired(old(history), id, now)
      ensures r.Ok? ==> r.value == SnapshotOf(Current(old(history), id).value)
      ensures r == Err(Expired) <==>
        Current(old(history), id).Some? && !Unexpired(old(history), id, now) && !Gone(old(history), id)
      ensures r.Ok? ==> id in old(sessions) && id in sessions && Shows(r.value, old(sessions)[id])
      ensures r.Ok? ==> Recorded(old(sessions)[id], peer, rx, tx, now, sessions[id])
      ensures forall other :: other != id ==>
        if other in old(sessions) then other in sessions && sessions[other] == old(sessions)[other] else other !in sessions
    {
      IoRefines(sessions, history, id, peer, rx, tx, now);
      history := history + [Io(id, peer, rx, tx, now)];
      if id !in sessions {
        return Err(Missing);
      }
      var session := sessions[id];
      if session.expiresAt <= now {
        sessions := sessions - {id};
        return Err(Expired);
      }
      session := session.(lastSeenAt := now);
      session := session.(lastPeer := peer);
      session := session.(rxBytes := SaturatingAdd(session.rxBytes, rx));
      session := session.(txBytes := SaturatingAdd(session.txBytes, tx));
      sessions := sessions[id := session];
      r := Ok(SnapshotOf(session));
    }

    /** The count is the number of ids with an unexpired registration. */
    method ActiveUdpSessionCount(now: nat) returns (n: nat)
      requires Valid() && NotBefore(history, now)
      modifies this
      ensures Valid() && history == old(history) + [Counted(now)]
      ensures sessions == RemoveExpired(old(sessions), now)
      ensures n == |UnexpiredIds(old(history), now)|
    {
      CountRefines(sessions, history, now);
      sessions := RemoveExpired(sessions, now);
      history := history + [Counted(now)];
      n := |sessions|;
    }
  }

  // ---------------------------------------------------------------- refinement lemmas

  /** A session leaves the map only after it has expired. */
  lemma {:induction false} GoneIsLapsed(h: History, id: string)
    requires Ordered(h) && Gone(h, id)
    ensures Current(h, id).Some? && Current(h, id).value.expiresAt <= h[|h| - 1].at
  {
    var past := h[..|h| - 1];
    if Gone(past, id) {
      GoneIsLapsed(past, id);
      assert h[|h| - 2].at <= h[|h| - 1].at;
    }
  }

  lemma GoneMeansExpired(h: History, id: string, now: nat)
    requires Ordered(h) && NotBefore(h, now)
    ensures Gone(h, id) ==> Current(h, id).Some? && Current(h, id).value.expiresAt <= now
  {
    if Gone(h, id) {
      GoneIsLapsed(h, id);
    }
  }

  lemma ExtendOrdered(h: History, e: Event)
    requires Ordered(h) && NotBefore(h, e.at)
    ensures Ordered(h + [e]) && (h + [e])[..|h|] == h
  {
  }

  lemma RegisterRefines(m: Table, h: History, session: UdpSession, now: nat)
    requires Ordered(h) && NotBefore(h, now) && Refines(m, h)
    ensures Ordered(h + [Registered(session, now)])
    ensures Refines(AfterRegister(m, session, now), h + [Registered(session, now)])
  {
    var g := h + [Registered(session, now)];
    ExtendOrdered(h, Registered(session, now));
    forall id
      ensures if Current(g, id).Some? && !Gone(g, id)
              then id in AfterRegister(m, session, now) && AfterRegister(m, session, now)[id] == Current(g, id).value
              else id !in AfterRegister(m, session, now)
    {
      assert if Current(h, id).Some? && !Gone(h, id) then id in m && m[id] == Current(h, id).value else id !in m;
    }
  }

  lemma IoRefines(m: Table, h: History, id: string, peer: string, rx: nat, tx: nat, now: nat)
    requires Ordered(h) && NotBefore(h, now) && Refines(m, h)
    ensures Ordered(h + [Io(id, peer, rx, tx, now)])
    ensures Refines(AfterIo(m, id, peer, rx, tx, now), h + [Io(id, peer, rx, tx, now)])
    ensures IoResult(m, id, now).Ok? <==> Unexpired(h, id, now)
    ensures IoResult(m, id, now).Ok? ==> IoResult(m, id, now).value == SnapshotOf(Current(h, id).value)
    ensures IoResult(m, id, now) == Err(Expired) <==>
      Current(h, id).Some? && !Unexpired(h, id, now) && !Gone(h, id)
  {
    var g := h + [Io(id, peer, rx, tx, now)];
    ExtendOrdered(h, Io(id, peer, rx, tx, now));
    GoneMeansExpired(h, id, now);
    assert if Current(h, id).Some? && !Gone(h, id) then id in m && m[id] == Current(h, id).value else id !in m;
    forall k
      ensures if Current(g, k).Some? && !Gone(g, k)
              then k in AfterIo(m, id, peer, rx, tx, now)
                && AfterIo(m, id, peer, rx, tx, now)[k] == Current(g, k).value
              else k !in AfterIo(m, id, peer, rx, tx, now)
    {
      assert if Current(h, k).Some? && !Gone(h, k) then k in m && m[k] == Current(h, k).value else k !in m;
    }
  }

  lemma CountRefines(m: Table, h: History, now: nat)
    requires Ordered(h) && NotBefore(h, now) && Refines(m, h)
    ensures Ordered(h + [Counted(now)])
    ensures Refines(RemoveExpired(m, now), h + [Counted(now)])
    ensures RemoveExpired(m, now).Keys == UnexpiredIds(h, now)
    ensures |RemoveExpired(m, now)| == |UnexpiredIds(h, now)|
  {
    var g := h + [Counted(now)];
    ExtendOrdered(h, Counted(now));
    forall id
      ensures if Current(g, id).Some? && !Gone(g, id)
              then id in RemoveExpired(m, now) && RemoveExpired(m, now)[id] == Current(g, id).value
              else id !in RemoveExpired(m, now)
      ensures id in RemoveExpired(m, now) <==> id in UnexpiredIds(h, now)
    {
      assert if Current(h, id).Some? && !Gone(h, id) then id in m && m[id] == Current(h, id).value else id !in m;
      GoneMeansExpired(h, id, now);
      CurrentIsRegistered(h, id);
    }
    assert RemoveExpired(m, now).Keys == UnexpiredIds(h, now);
    assert |RemoveExpired(m, now)| == |RemoveExpired(m, now).Keys|;
  }

  lemma {:induction false} CurrentIsRegistered(h: History, id: string)
    ensures Current(h, id).Some? <==> id in RegisteredIds(h)
  {
    if h != [] {
      var past := h[..|h| - 1];
      CurrentIsRegistered(past, id);
      assert h == past + [h[|h| - 1]];
      assert RegisteredIds(h) == RegisteredIds(past)
        + if h[|h| - 1].Registered? then {h[|h| - 1].session.sessionId} else {};
    }
  }

  // ---------------------------------------------------------------- consequences of the specification

  /** Once refused, an id is refused at every later time until it is registered again. */
  lemma {:induction false} RefusedForever(h: History, more: History, id: string, t: nat, later: nat)
    requires t <= later && !Unexpired(h, id, t)
    requires forall i :: 0 <= i < |more| && more[i].Registered? ==> more[i].session.sessionId != id
    ensures !Unexpired(h + more, id, later)
    ensures Current(h + more, id).Some? ==>
      Current(h, id).Some? && Current(h + more, id).value.expiresAt == Current(h, id).value.expiresAt
  {
    if more == [] {
      assert h + more == h;
    } else {
      var last := |more| - 1;
      RefusedForever(h, more[..last], id, t, later);
      assert (h + more)[..|h + more| - 1] == h + more[..last];
    }
  }

  /** The fixed part of a session never changes between registrations: every snapshot handed out
      carries what the registration said. */
  lemma {:induction false} SnapshotIsRegistration(h: History, more: History, session: UdpSession, at: nat)
    requires forall i :: 0 <= i < |more| && more[i].Registered? ==> more[i].session.sessionId != session.sessionId
    ensures
      var now := Current(h + [Registered(session, at)] + more, session.sessionId);
      now.Some? && SnapshotOf(now.value) == SnapshotOf(session)
  {
    var start := h + [Registered(session, at)];
    if more == [] {
      assert start + more == start && start[..|start| - 1] == h;
    } else {
      var last := |more| - 1;
      SnapshotIsRegistration(h, more[..last], session, at);
      assert (start + more)[..|start + more| - 1] == start + more[..last];
    }
  }

  /** The amounts an id received while unexpired, summed from its registration on. */
  ghost function AcceptedRx(session: UdpSession, more: History): nat {
    if more == [] then 0
    else
      AcceptedRx(session, more[..|more| - 1])
      + match more[|more| - 1]
        case Io(id, _, rx, _, at) => if id == session.sessionId && session.expiresAt > at then rx else 0
        case _ => 0
  }

  ghost function AcceptedTx(session: UdpSession, more: History): nat {
    if more == [] then 0
    else
      AcceptedTx(session, more[..|more| - 1])
      + match more[|more| - 1]
        case Io(id, _, _, tx, at) => if id == session.sessionId && session.expiresAt > at then tx else 0
        case _ => 0
  }

  /** Both byte counters are the saturated sums of the accepted amounts, whatever their order. */
  lemma {:induction false} CountersAreSaturatedSums(h: History, more: History, session: UdpSession, at: nat)
    requires forall i :: 0 <= i < |more| && more[i].Registered? ==> more[i].session.sessionId != session.sessionId
    requires session.rxBytes <= U64_MAX && session.txBytes <= U64_MAX
    ensures
      var now := Current(h + [Registered(session, at)] + more, session.sessionId);
      && now.Some?
      && now.value.rxBytes == SaturatingAdd(session.rxBytes, AcceptedRx(session, more))
      && now.value.txBytes == SaturatingAdd(session.txBytes, AcceptedTx(session, more))
  {
    var start := h + [Registered(session, at)];
    if more == [] {
      assert start + more == start && start[..|start| - 1] == h;
    } else {
      var last := |more| - 1;
      CountersAreSaturatedSums(h, more[..last], session, at);
      SnapshotIsRegistration(h, more[..last], session, at);
      assert (start + more)[..|start + more| - 1] == start + more[..last];
    }
  }

  /** A purge never turns a success into a refusal, nor a refusal into a success: it only changes
      which refusal is reported. */
  lemma PurgeOnlyRelabelsRefusals(m: Table, now: nat, id: string, later: nat)
    requires now <= later
    ensures
      var before := IoResult(m, id, later);
      var after := IoResult(RemoveExpired(m, now), id, later);
      after == before || (before == Err(Expired) && after == Err(Missing) && m[id].expiresAt <= now)
  {
  }
}
