/** The node's configuration in memory: remote configurations are laid over the bound listener. */
module RuntimeConfigs {
  import opened Text
  import opened ConfigFile

  datatype Remote = Remote(revision: nat, network: NetworkConfig)

  datatype ApplyResult = ApplyResult(applied: bool, restartRequired: bool, previousRevision: nat, currentRevision: nat)

  datatype State = State(revision: nat, network: Option<NetworkConfig>, restartRequired: bool)

  /** The listener endpoint a process binds once. */
  datatype Listener = Listener(serverIp: string, listenIp: Option<string>, serverPort: Port)

  function ListenerOf(n: NetworkConfig): Listener {
    Listener(n.serverIp, n.listenIp, n.serverPort)
  }

  function WithListener(n: NetworkConfig, l: Listener): NetworkConfig {
    n.(serverIp := l.serverIp, listenIp := l.listenIp, serverPort := l.serverPort)
  }

  function ListenerChanged(current: NetworkConfig, remote: NetworkConfig): bool {
    current.serverIp != remote.serverIp || current.listenIp != remote.listenIp || current.serverPort != remote.serverPort
  }

  /** A process starts with the file's revision, at least 1, and the file's network. */
  function Started(revision: nat, network: Option<NetworkConfig>): State {
    State(if revision < 1 then 1 else revision, network, false)
  }

  class RuntimeConfig {
    var revision: nat
    var network: Option<NetworkConfig>
    var restartRequired: bool
    ghost const start: State
    ghost var seen: seq<Remote>

    constructor (revision: nat, network: Option<NetworkConfig>)
      ensures Valid() && Value() == Started(revision, network) == start && seen == []
    {
      this.revision := if revision < 1 then 1 else revision;
      this.network := network;
      restartRequired := false;
      start := Started(revision, network);
      seen := [];
    }

    function Value(): State
      reads this
    {
      State(revision, network, restartRequired)
    }

    /** The state is what the configurations seen since the start call for. */
    ghost predicate Valid()
      reads this
    {
      !start.restartRequired && Called(start, seen, Value())
    }

    method ApplyRemoteNetworkConfig(remoteRevision: nat, remote: NetworkConfig) returns (r: ApplyResult)
      requires Valid()
      modifies this
      ensures Valid() && seen == old(seen) + [Remote(remoteRevision, remote)]
      ensures r.applied <==> remoteRevision > old(revision)
      ensures r == ApplyResult(r.applied, restartRequired, old(revision), revision)
      ensures revision == if r.applied then remoteRevision else old(revision)
      ensures Value() == Applied(old(Value()), Remote(remoteRevision, remote))
    {
      hide Called;
      ApplyKeepsCalled(start, seen, Value(), Remote(remoteRevision, remote));
      seen := seen + [Remote(remoteRevision, remote)];
      var previousRevision := revision;
      if remoteRevision <= previousRevision {
        return ApplyResult(false, restartRequired, previousRevision, previousRevision);
      }
      var next := if network.Some? then network.value else remote;
      var changed := ListenerChanged(next, remote);
      if !changed {
        next := next.(serverIp := remote.serverIp);
        next := next.(listenIp := remote.listenIp);
        next := next.(serverPort := remote.serverPort);
      }
      next := next.(relayServerIp := remote.relayServerIp);
      next := next.(relayServerPort := remote.relayServerPort);
      next := next.(isSupportIpv6 := remote.isSupportIpv6);
      next := next.(disableQuic := remote.disableQuic);
      next := next.(area := remote.area);
      next := next.(bandwidthQuality := remote.bandwidthQuality);
      next := next.(tag := remote.tag);
      next := next.(operatorIps := remote.operatorIps);
      revision := remoteRevision;
      network := Some(next);
      restartRequired := restartRequired || changed;
      assert Value() == Applied(old(Value()), Remote(remoteRevision, remote));
      r := ApplyResult(true, restartRequired, previousRevision, remoteRevision);
    }
  }

  /** One step on values: a newer revision replaces everything but the listener. */
  function Applied(s: State, remote: Remote): State {
    if remote.revision <= s.revision then s
    else
      var current := if s.network.Some? then s.network.value else remote.network;
      State(remote.revision, Some(WithListener(remote.network, ListenerOf(current))),
            s.restartRequired || ListenerOf(current) != ListenerOf(remote.network))
  }

  // ---------------------------------------------------------------- what any sequence of remotes calls for

  /** The configurations that were newer than everything before them. */
  function Records(revision: nat, seen: seq<Remote>): seq<Remote> {
    if seen == [] then []
    else
      var before := Records(revision, seen[..|seen| - 1]);
      var newest := if before == [] then revision else before[|before| - 1].revision;
      if seen[|seen| - 1].revision > newest then before + [seen[|seen| - 1]] else before
  }

  /** The endpoint bound: that of the start's network, or else of the first configuration applied. */
  function Bound(start: State, records: seq<Remote>): Listener
    requires start.network.Some? || records != []
  {
    if start.network.Some? then ListenerOf(start.network.value) else ListenerOf(records[0].network)
  }

  /** The state that a start and the configurations seen since then call for. */
  ghost predicate Called(start: State, seen: seq<Remote>, now: State) {
    var records := Records(start.revision, seen);
    && (forall r :: r in seen ==> r.revision <= now.revision)
    && (records == [] ==> now.revision == start.revision && now.network == start.network
                          && now.restartRequired == start.restartRequired)
    && (records != [] ==>
          var last := records[|records| - 1];
          && now.revision == last.revision > start.revision
          && now.network == Some(WithListener(last.network, Bound(start, records)))
          && (now.restartRequired <==>
                start.restartRequired || exists r :: r in records && ListenerOf(r.network) != Bound(start, records)))
  }

  lemma ApplyKeepsCalled(start: State, seen: seq<Remote>, now: State, remote: Remote)
    requires Called(start, seen, now)
    ensures Called(start, seen + [remote], Applied(now, remote))
  {
    var records := Records(start.revision, seen);
    var longer := seen + [remote];
    assert longer[..|longer| - 1] == seen;
    if remote.revision > now.revision {
      var more := Records(start.revision, longer);
      assert more == records + [remote];
      assert Bound(start, more) == if records == [] then Bound(start, [remote]) else Bound(start, records);
    }
  }

  function Replay(start: State, seen: seq<Remote>): State {
    if seen == [] then start else Applied(Replay(start, seen[..|seen| - 1]), seen[|seen| - 1])
  }

  /** After any sequence of remote configurations: the revision is the largest seen, the network is the
      last newer configuration with the first bound listener, and a restart is asked for exactly when
      some applied configuration wanted another listener. */
  lemma {:induction false} ReplayIsCalled(start: State, seen: seq<Remote>)
    ensures Called(start, seen, Replay(start, seen))
  {
    if seen != [] {
      ReplayIsCalled(start, seen[..|seen| - 1]);
      ApplyKeepsCalled(start, seen[..|seen| - 1], Replay(start, seen[..|seen| - 1]), seen[|seen| - 1]);
      assert seen == seen[..|seen| - 1] + [seen[|seen| - 1]];
    }
  }

  function Newest(revision: nat, records: seq<Remote>): nat {
    if records == [] then revision else records[|records| - 1].revision
  }

  lemma NewestIsCurrent(start: State, seen: seq<Remote>)
    ensures Replay(start, seen).revision == Newest(start.revision, Records(start.revision, seen))
  {
    ReplayIsCalled(start, seen);
  }

  lemma {:induction false} RecordsIncrease(revision: nat, seen: seq<Remote>, i: nat, j: nat)
    requires i < j < |Records(revision, seen)|
    ensures Records(revision, seen)[i].revision < Records(revision, seen)[j].revision
  {
    if seen != [] {
      var before := Records(revision, seen[..|seen| - 1]);
      if j < |before| {
        RecordsIncrease(revision, seen[..|seen| - 1], i, j);
      } else if i < |before| - 1 {
        RecordsIncrease(revision, seen[..|seen| - 1], i, |before| - 1);
      }
    }
  }

  /** Only records matter: every stale or repeated configuration can be left out. */
  lemma {:induction false} OnlyRecordsMatter(start: State, seen: seq<Remote>)
    ensures Replay(start, Records(start.revision, seen)) == Replay(start, seen)
  {
    hide Applied;
    if seen != [] {
      var past := seen[..|seen| - 1];
      var records := Records(start.revision, past);
      var last := seen[|seen| - 1];
      OnlyRecordsMatter(start, past);
      NewestIsCurrent(start, past);
      StaleIsIgnored(Replay(start, past), last);
      assert (records + [last])[..|records|] == records;
    }
  }

  lemma StaleIsIgnored(s: State, remote: Remote)
    ensures remote.revision <= s.revision ==> Applied(s, remote) == s
  {
  }

  /** The listener never moves while the process lives. */
  lemma ListenerStaysBound(start: State, seen: seq<Remote>, more: seq<Remote>)
    requires Replay(start, seen).network.Some?
    ensures Replay(start, seen + more).network.Some?
    ensures ListenerOf(Replay(start, seen + more).network.value) == ListenerOf(Replay(start, seen).network.value)
    ensures Replay(start, seen).revision <= Replay(start, seen + more).revision
    ensures Replay(start, seen).restartRequired ==> Replay(start, seen + more).restartRequired
  {
    if more == [] {
      assert seen + more == seen;
    } else {
      var last := |more| - 1;
      ListenerStaysBound(start, seen, more[..last]);
      assert (seen + more)[..|seen + more| - 1] == seen + more[..last];
    }
  }
}
