/** The configuration protocol between the control plane and one node: administrators bump revisions,
    the node polls, writes its file, applies in memory and reports back; messages may be delayed,
    repeated or lost, and the node may crash and restart at any point. */
module ConfigProtocol {
  import opened Text
  import opened ConfigFile
  import opened RuntimeConfigs

  const U64_MAX: nat := 0xFFFF_FFFF_FFFF_FFFF

  /** The node's row in the control plane and its revision history. */
  datatype Server = Server(revision: nat, network: NetworkConfig, history: map<nat, NetworkConfig>)

  /** A running node process: its configuration in memory, and a configuration it has written to the
      file and not yet applied. */
  datatype Process = Process(memory: State, pending: Option<Remote>)

  /** `published` records the network the server had at every revision it has ever shown. It exists to
      state the theorems. */
  datatype System = System(
    server: Server,
    published: map<nat, NetworkConfig>,
    document: Entries,
    process: Option<Process>,
    responses: set<Remote>,
    reported: set<nat>)

  datatype Action =
    | AdminUpdate(network: NetworkConfig)
    | Poll
    | Persist(response: Remote, after: Entries)
    | Apply
    | Discard(response: Remote)
    | Report
    | ReceiveReport(revision: nat, active: bool)
    | ReceiveHandshake(revision: nat)
    | Crash
    | Restart

  function Greatest(a: nat, b: nat): nat {
    if a >= b then a else b
  }

  /** The server takes the greater revision. A raised revision keeps the network under a new number. */
  function Raise(s: System, revision: nat): System {
    if revision <= s.server.revision then s
    else s.(server := s.server.(revision := revision), published := s.published[revision := s.server.network])
  }

  /** The history insert fails on an existing key, and the whole update with it. */
  predicate CanUpdate(server: Server) {
    server.revision < U64_MAX && server.revision + 1 !in server.history
  }

  /** A response the process will write: it is newer than its memory, and nothing waits to be applied. */
  predicate CanPersist(s: System, response: Remote) {
    && s.process.Some? && s.process.value.pending.None? && response in s.responses
    && response.revision > s.process.value.memory.revision
  }

  /** What a start takes from a readable file. */
  function FromFile(document: Entries): State
    requires LoadRevision(document).Some? && LoadNetwork(document).Some?
  {
    Started(LoadRevision(document).value, LoadNetwork(document).value)
  }

  ghost function Step(s: System, action: Action): System {
    match action
    case AdminUpdate(network) =>
      if !CanUpdate(s.server) then s
      else
        var next := s.server.revision + 1;
        s.(server := Server(next, network, s.server.history[next := network]), published := s.published[next := network])
    case Poll => s.(responses := s.responses + {Remote(Greatest(s.server.revision, 1), s.server.network)})
    case Persist(response, after) =>
      if CanPersist(s, response) && IsWritten(s.document, response.revision, response.network, after)
      then s.(document := after, process := Some(s.process.value.(pending := Some(response))))
      else s
    case Apply =>
      if s.process.Some? && s.process.value.pending.Some?
      then s.(process := Some(Process(Applied(s.process.value.memory, s.process.value.pending.value), None)))
      else s
    case Discard(response) =>
      if s.process.Some? && s.process.value.pending.None? && response in s.responses
         && response.revision <= s.process.value.memory.revision
      then s.(process := Some(s.process.value.(memory := Applied(s.process.value.memory, response))))
      else s
    case Report =>
      if s.process.Some? then s.(reported := s.reported + {s.process.value.memory.revision}) else s
    case ReceiveReport(revision, active) =>
      if revision in s.reported && active then Raise(s, revision) else s
    case ReceiveHandshake(revision) =>
      if revision in s.reported then Raise(s, Greatest(revision, 1)) else s
    case Crash => s.(process := None)
    case Restart =>
      if s.process.None? && LoadRevision(s.document).Some? && LoadNetwork(s.document).Some?
      then s.(process := Some(Process(FromFile(s.document), None)))
      else s
  }

  // ---------------------------------------------------------------- the invariant

  /** Equal apart from the listener and from blank optional texts. */
  predicate SameConfig(a: NetworkConfig, b: NetworkConfig) {
    WithListener(Normalised(a), ListenerOf(b)) == WithListener(Normalised(b), ListenerOf(b))
  }

  /** The server's row is what it published last; every row of its history is what it published then.
      Any history is allowed, also one with gaps. */
  ghost predicate ServerOk(s: System) {
    && s.server.revision in s.published && s.published[s.server.revision] == s.server.network
    && (forall k :: k in s.published ==> 1 <= k <= s.server.revision)
    && (forall k :: k in s.server.history ==> k in s.published && s.server.history[k] == s.published[k])
  }

  ghost predicate MessagesOk(s: System) {
    && (forall r :: r in s.responses ==> r.revision in s.published && s.published[r.revision] == r.network)
    && (forall r :: r in s.reported ==> r <= s.server.revision)
  }

  /** The file holds, up to the listener, a configuration the server published under the file's number. */
  ghost predicate FileHolds(s: System, k: nat) {
    && k in s.published && LoadRevision(s.document) == Some(Saturated(k))
    && LoadNetwork(s.document).Some? && LoadNetwork(s.document).value.Some?
    && SameConfig(LoadNetwork(s.document).value.value, s.published[k])
  }

  ghost predicate FilePublished(s: System) {
    exists k :: k in s.published && FileHolds(s, k)
  }

  /** The same, with the listener: the file's network is exactly what writing the published one gives. */
  ghost predicate FileHoldsExactly(s: System, k: nat) {
    && k in s.published && LoadRevision(s.document) == Some(Saturated(k))
    && LoadNetwork(s.document) == Some(Some(Normalised(s.published[k])))
  }

  ghost predicate FileExact(s: System) {
    exists k :: k in s.published && FileHoldsExactly(s, k)
  }

  /** The process holds a configuration the server published under its revision, up to the listener it
      has bound and up to the cap of the file's number. */
  ghost predicate MemoryHolds(s: System, memory: State, k: nat) {
    && k in s.published && Saturated(k) <= memory.revision <= k
    && memory.network.Some? && SameConfig(memory.network.value, s.published[k])
  }

  ghost predicate MemoryPublished(s: System) {
    s.process.Some? ==> exists k :: k in s.published && MemoryHolds(s, s.process.value.memory, k)
  }

  /** The process and the file: memory is not ahead of the file, and level with it when nothing waits. */
  ghost predicate InStep(s: System) {
    && LoadRevision(s.document).Some?
    && (s.process.Some? ==>
          var (file, p) := (LoadRevision(s.document).value, s.process.value);
          && Saturated(p.memory.revision) <= file
          && (p.pending.None? ==> file <= p.memory.revision)
          && (p.pending.Some? ==> p.pending.value in s.responses && file == Saturated(p.pending.value.revision)
                                  && p.memory.revision < p.pending.value.revision))
  }

  ghost predicate Agrees(s: System) {
    ServerOk(s) && MessagesOk(s) && FilePublished(s) && MemoryPublished(s) && InStep(s)
  }

  /** A node that has not started yet: no process and no messages, a readable file, and a server with
      any history, for instance of edits made before the node was installed or reinstalled. */
  ghost predicate Fresh(s: System) {
    && s.process == None && s.responses == {} && s.reported == {}
    && LoadRevision(s.document).Some? && LoadNetwork(s.document).Some?
  }

  /** A fresh node whose file matches what the server published. */
  ghost predicate Installed(s: System) {
    Fresh(s) && ServerOk(s) && FilePublished(s)
  }

  // ---------------------------------------------------------------- one step

  lemma SameConfigFacts(a: NetworkConfig, l: Listener)
    ensures SameConfig(WithListener(a, l), a) && SameConfig(Normalised(a), a)
  {
    NormalisedIsFixed(a);
  }

  /** Nothing published is ever forgotten. */
  lemma PublishedGrows(s: System, action: Action)
    requires ServerOk(s)
    ensures s.server.revision <= Step(s, action).server.revision
    ensures forall k :: k in s.published ==> k in Step(s, action).published && Step(s, action).published[k] == s.published[k]
  {
    hide IsWritten, LoadRevision, LoadNetwork, Applied;
  }

  lemma EditKeepsServer(s: System, network: NetworkConfig)
    requires ServerOk(s) && MessagesOk(s)
    ensures ServerOk(Step(s, AdminUpdate(network))) && MessagesOk(Step(s, AdminUpdate(network)))
  {
  }

  /** A number the server already has does not move it. */
  lemma StaleNumbersDoNothing(s: System, revision: nat, active: bool)
    requires ServerOk(s) && MessagesOk(s)
    ensures Step(s, ReceiveReport(revision, active)) == s && Step(s, ReceiveHandshake(revision)) == s
  {
  }

  lemma PollKeepsServer(s: System)
    requires ServerOk(s) && MessagesOk(s)
    ensures ServerOk(Step(s, Poll)) && MessagesOk(Step(s, Poll))
  {
  }

  predicate NodeSide(action: Action) {
    action.Persist? || action.Apply? || action.Discard? || action.Report? || action.Crash? || action.Restart?
  }

  /** The node's own steps leave server and responses alone. */
  lemma NodeSideKeepsServer(s: System, action: Action)
    requires NodeSide(action)
    ensures Step(s, action).server == s.server && Step(s, action).published == s.published
    ensures Step(s, action).responses == s.responses
    ensures s.reported <= Step(s, action).reported
    ensures forall r :: r in Step(s, action).reported ==>
      r in s.reported || (s.process.Some? && r == s.process.value.memory.revision)
  {
    hide IsWritten, LoadRevision, LoadNetwork, Applied, FromFile;
  }

  lemma StepKeepsServer(s: System, action: Action)
    requires Agrees(s)
    ensures ServerOk(Step(s, action)) && MessagesOk(Step(s, action))
  {
    hide Step, FilePublished, InStep, SameConfig;
    match action
    case AdminUpdate(network) => EditKeepsServer(s, network);
    case Poll => PollKeepsServer(s);
    case ReceiveReport(revision, active) => StaleNumbersDoNothing(s, revision, active);
    case ReceiveHandshake(revision) => StaleNumbersDoNothing(s, revision, true);
    case _ => NodeSideKeepsServer(s, action);
  }

  /** A write that happens puts a published configuration into the file. */
  lemma PersistHolds(s: System, response: Remote, after: Entries)
    requires ServerOk(s) && MessagesOk(s) && CanPersist(s, response)
    requires IsWritten(s.document, response.revision, response.network, after)
    ensures FileHoldsExactly(Step(s, Persist(response, after)), response.revision)
    ensures FileHolds(Step(s, Persist(response, after)), response.revision)
  {
    hide IsWritten, LoadRevision, LoadNetwork, Normalised, SameConfig;
    PersistThenLoad(s.document, response.revision, response.network, after);
    SameConfigFacts(response.network, ListenerOf(response.network));
  }

  lemma OnlyWritesChangeTheFile(s: System, action: Action)
    ensures Step(s, action).document == s.document
      || (action.Persist? && CanPersist(s, action.response) && Step(s, action).document == action.after
          && IsWritten(s.document, action.response.revision, action.response.network, action.after))
  {
    hide IsWritten, LoadRevision, LoadNetwork, Applied, FromFile;
  }

  lemma StepKeepsFile(s: System, action: Action)
    requires ServerOk(s) && MessagesOk(s)
    ensures FilePublished(s) ==> FilePublished(Step(s, action))
    ensures FileExact(s) ==> FileExact(Step(s, action))
  {
    hide Step, IsWritten, LoadRevision, LoadNetwork, Normalised, SameConfig;
    PublishedGrows(s, action);
    OnlyWritesChangeTheFile(s, action);
    var t := Step(s, action);
    if t.document != s.document {
      PersistHolds(s, action.response, action.after);
      assert FileHolds(t, action.response.revision) && FileHoldsExactly(t, action.response.revision);
    } else {
      if FilePublished(s) {
        var k :| k in s.published && FileHolds(s, k);
        assert FileHolds(t, k);
      }
      if FileExact(s) {
        var k :| k in s.published && FileHoldsExactly(s, k);
        assert FileHoldsExactly(t, k);
      }
    }
  }

  /** A start takes over what the file holds. */
  lemma RestartHolds(s: System, k: nat)
    requires FileHolds(s, k)
    ensures MemoryHolds(s, FromFile(s.document), k)
  {
    hide LoadRevision, LoadNetwork, SameConfig;
  }

  /** Applying a published configuration makes it the one in memory, whatever listener is bound. */
  lemma ApplyHolds(s: System, memory: State, response: Remote)
    requires response.revision in s.published && s.published[response.revision] == response.network
    requires memory.revision < response.revision && memory.network.Some?
    ensures MemoryHolds(s, Applied(memory, response), response.revision)
  {
    hide SameConfig, WithListener, Normalised;
    SameConfigFacts(response.network, ListenerOf(memory.network.value));
  }

  lemma StepKeepsMemory(s: System, action: Action)
    requires Agrees(s)
    ensures MemoryPublished(Step(s, action))
  {
    hide Step, LoadRevision, LoadNetwork, SameConfig, Applied, FromFile;
    var t := Step(s, action);
    PublishedGrows(s, action);
    MemoryMoves(s, action);
    if t.process.Some? {
      if s.process.Some? && t.process.value.memory == s.process.value.memory {
        var k :| k in s.published && MemoryHolds(s, s.process.value.memory, k);
        assert MemoryHolds(t, t.process.value.memory, k);
      } else if action.Apply? {
        var k :| k in s.published && MemoryHolds(s, s.process.value.memory, k);
        ApplyHolds(s, s.process.value.memory, s.process.value.pending.value);
        assert MemoryHolds(t, t.process.value.memory, s.process.value.pending.value.revision);
      } else {
        var k :| k in s.published && FileHolds(s, k);
        RestartHolds(s, k);
        assert MemoryHolds(t, t.process.value.memory, k);
      }
    }
  }

  /** The memory of a process changes only by applying what it wrote, and starts from the file. */
  lemma MemoryMoves(s: System, action: Action)
    ensures
      var t := Step(s, action);
      t.process.Some? ==>
        || (s.process.Some? && t.process.value.memory == s.process.value.memory)
        || (action.Apply? && s.process.Some? && s.process.value.pending.Some?
            && t.process.value.memory == Applied(s.process.value.memory, s.process.value.pending.value))
        || (action.Restart? && LoadRevision(s.document).Some? && LoadNetwork(s.document).Some?
            && t.process.value.memory == FromFile(s.document))
  {
    hide IsWritten, LoadRevision, LoadNetwork, FromFile;
  }

  lemma StepKeepsInStep(s: System, action: Action)
    requires Agrees(s)
    ensures InStep(Step(s, action))
  {
    hide LoadRevision, LoadNetwork, SameConfig, ServerOk, MessagesOk, IsWritten, FilePublished, WithListener;
    match action
    case Persist(response, after) =>
      if Step(s, action) != s {
        PersistThenLoad(s.document, response.revision, response.network, after);
      }
    case AdminUpdate(_) =>
    case Apply =>
    case Restart =>
    case Poll =>
    case _ =>
  }

  lemma StepKeepsAgrees(s: System, action: Action)
    requires Agrees(s)
    ensures Agrees(Step(s, action))
  {
    hide ServerOk, MessagesOk, FilePublished, MemoryPublished, InStep, FileExact, Step;
    StepKeepsServer(s, action);
    StepKeepsFile(s, action);
    StepKeepsMemory(s, action);
    StepKeepsInStep(s, action);
  }

  // ---------------------------------------------------------------- runs

  ghost function Reach(start: System, actions: seq<Action>): System {
    if actions == [] then start else Step(Reach(start, actions[..|actions| - 1]), actions[|actions| - 1])
  }

  /** Agreement is kept by every run from every state that agrees. */
  lemma {:induction false} ReachAgrees(start: System, actions: seq<Action>)
    requires Agrees(start)
    ensures Agrees(Reach(start, actions))
    ensures FileExact(start) ==> FileExact(Reach(start, actions))
  {
    hide ServerOk, MessagesOk, FilePublished, MemoryPublished, InStep, FileExact, Step;
    if actions != [] {
      var last := |actions| - 1;
      ReachAgrees(start, actions[..last]);
      StepKeepsAgrees(Reach(start, actions[..last]), actions[last]);
      StepKeepsFile(Reach(start, actions[..last]), actions[last]);
    }
  }

  lemma InstalledAgrees(start: System)
    requires Installed(start)
    ensures Agrees(start)
  {
    hide LoadRevision, LoadNetwork, SameConfig;
  }

  // ---------------------------------------------------------------- what a reader gets

  /** Memory is never ahead of the file, nor the file of the server. The file holds the configuration
      the server published under the file's revision, and memory that of its own revision up to the
      bound listener. */
  lemma RevisionsAreOrdered(start: System, actions: seq<Action>)
    requires Installed(start)
    ensures
      var s := Reach(start, actions);
      && LoadRevision(s.document).Some? && LoadRevision(s.document).value <= s.server.revision
      && (s.process.Some? ==> s.process.value.memory.revision <= s.server.revision)
      && (s.process.Some? ==> Saturated(s.process.value.memory.revision) <= LoadRevision(s.document).value)
      && (LoadRevision(s.document).value < I64_MAX ==> FileHolds(s, LoadRevision(s.document).value))
      && (LoadRevision(s.document).value < I64_MAX && FileExact(start) ==> FileHoldsExactly(s, LoadRevision(s.document).value))
      && (s.process.Some? && s.process.value.memory.revision < I64_MAX ==>
            MemoryHolds(s, s.process.value.memory, s.process.value.memory.revision))
  {
    hide Reach, LoadRevision, LoadNetwork, SameConfig, Normalised, FileHolds, FileHoldsExactly, MemoryHolds;
    InstalledAgrees(start);
    ReachAgrees(start, actions);
    NumbersNameConfigurations(Reach(start, actions));
  }

  /** Below the cap a number names the configuration itself. */
  lemma NumbersNameConfigurations(s: System)
    requires Agrees(s)
    ensures LoadRevision(s.document).Some? && LoadRevision(s.document).value <= s.server.revision
    ensures LoadRevision(s.document).value < I64_MAX ==> FileHolds(s, LoadRevision(s.document).value)
    ensures LoadRevision(s.document).value < I64_MAX && FileExact(s) ==> FileHoldsExactly(s, LoadRevision(s.document).value)
    ensures s.process.Some? ==> s.process.value.memory.revision <= s.server.revision
    ensures s.process.Some? && s.process.value.memory.revision < I64_MAX ==>
      MemoryHolds(s, s.process.value.memory, s.process.value.memory.revision)
  {
    hide LoadRevision, LoadNetwork, SameConfig, Normalised, WithListener;
    var k :| k in s.published && FileHolds(s, k);
    if FileExact(s) {
      var h :| h in s.published && FileHoldsExactly(s, h);
    }
    if s.process.Some? {
      var h :| h in s.published && MemoryHolds(s, s.process.value.memory, h);
    }
  }

  /** No revision goes back: the server's never, the file's never, and a process's own never. */
  lemma RevisionsOnlyGrow(start: System, actions: seq<Action>, action: Action)
    requires Installed(start)
    ensures
      var s := Reach(start, actions);
      var t := Step(s, action);
      && s.server.revision <= t.server.revision
      && LoadRevision(s.document).Some? && LoadRevision(t.document).Some?
      && LoadRevision(s.document).value <= LoadRevision(t.document).value
      && (s.process.Some? && t.process.Some? ==> s.process.value.memory.revision <= t.process.value.memory.revision)
  {
    hide Reach, LoadNetwork, LoadRevision, SameConfig, Normalised, IsWritten, Step, FilePublished;
    var s := Reach(start, actions);
    InstalledAgrees(start);
    ReachAgrees(start, actions);
    StepKeepsInStep(s, action);
    PublishedGrows(s, action);
    OnlyWritesChangeTheFile(s, action);
    MemoryMoves(s, action);
    if Step(s, action).document != s.document {
      PersistThenLoad(s.document, action.response.revision, action.response.network, action.after);
    }
    RestartNeedsNoProcess(s, action);
  }

  lemma RestartNeedsNoProcess(s: System, action: Action)
    ensures action.Restart? && s.process.Some? ==> Step(s, action) == s
  {
    hide LoadRevision, LoadNetwork;
  }

  /** Reports and handshakes never move the server's revision. */
  lemma GreatestNeverRaises(start: System, actions: seq<Action>, revision: nat, active: bool)
    requires Installed(start)
    ensures Step(Reach(start, actions), ReceiveReport(revision, active)) == Reach(start, actions)
    ensures Step(Reach(start, actions), ReceiveHandshake(revision)) == Reach(start, actions)
  {
    hide Reach, Step, LoadRevision, LoadNetwork, SameConfig;
    InstalledAgrees(start);
    ReachAgrees(start, actions);
    StaleNumbersDoNothing(Reach(start, actions), revision, active);
  }

  /** The history insert of an administrator's update never collides with an existing revision, however
      many revisions the history already had. */
  lemma HistoryNeverCollides(start: System, actions: seq<Action>)
    requires Installed(start)
    ensures Reach(start, actions).server.revision + 1 !in Reach(start, actions).server.history
  {
    hide Reach, LoadRevision, LoadNetwork, SameConfig;
    InstalledAgrees(start);
    ReachAgrees(start, actions);
  }

  /** No revision is skipped: every revision since the start was made by an edit and has its history row. */
  lemma {:induction false} NoRevisionIsSkipped(start: System, actions: seq<Action>, k: nat)
    requires Installed(start)
    requires start.server.revision < k <= Reach(start, actions).server.revision
    ensures k in Reach(start, actions).server.history && k in Reach(start, actions).published
  {
    hide Step, LoadRevision, LoadNetwork, SameConfig, Installed;
    if actions != [] {
      var last := |actions| - 1;
      var s := Reach(start, actions[..last]);
      GreatestNeverRaises(start, actions[..last], if actions[last].ReceiveReport? || actions[last].ReceiveHandshake? then actions[last].revision else 0, true);
      if k <= s.server.revision {
        NoRevisionIsSkipped(start, actions[..last], k);
      }
      HistoryGrows(s, actions[last], k);
    }
  }

  lemma HistoryGrows(s: System, action: Action, k: nat)
    requires action.ReceiveReport? || action.ReceiveHandshake? ==>
      Step(s, ReceiveReport(action.revision, true)) == s && Step(s, ReceiveHandshake(action.revision)) == s
    ensures k <= s.server.revision && k in s.server.history && k in s.published ==>
      k in Step(s, action).server.history && k in Step(s, action).published
    ensures s.server.revision < k <= Step(s, action).server.revision ==>
      k in Step(s, action).server.history && k in Step(s, action).published
  {
    hide LoadRevision, LoadNetwork, IsWritten, Applied;
  }

  /** The network of the last edit that was accepted, or the one at the start. */
  ghost function LastEdit(start: System, actions: seq<Action>): NetworkConfig {
    if actions == [] then start.server.network
    else
      var (before, last) := (actions[..|actions| - 1], actions[|actions| - 1]);
      if last.AdminUpdate? && CanUpdate(Reach(start, before).server) then last.network else LastEdit(start, before)
  }

  ghost function Edits(start: System, actions: seq<Action>): nat {
    if actions == [] then 0
    else
      var (before, last) := (actions[..|actions| - 1], actions[|actions| - 1]);
      Edits(start, before) + (if last.AdminUpdate? && CanUpdate(Reach(start, before).server) then 1 else 0)
  }

  /** The server holds what was last asked for: in every run, its network is that of the last accepted edit,
      its revision has grown by one for each, and what is offered under that revision is that network. */
  lemma {:induction false} LastEditHolds(start: System, actions: seq<Action>)
    requires Installed(start)
    ensures
      var s := Reach(start, actions);
      && s.server.network == LastEdit(start, actions)
      && s.server.revision == start.server.revision + Edits(start, actions)
      && s.server.revision in s.published && s.published[s.server.revision] == LastEdit(start, actions)
  {
    hide LoadRevision, LoadNetwork, IsWritten, Applied, FilePublished, MemoryPublished, InStep, Step;
    InstalledAgrees(start);
    ReachAgrees(start, actions);
    if actions != [] {
      var before := actions[..|actions| - 1];
      LastEditHolds(start, before);
      ReachAgrees(start, before);
      EditStep(Reach(start, before), actions[|actions| - 1]);
    }
  }

  lemma EditStep(s: System, action: Action)
    requires ServerOk(s) && MessagesOk(s)
    ensures action.AdminUpdate? && CanUpdate(s.server) ==>
      Step(s, action).server.network == action.network && Step(s, action).server.revision == s.server.revision + 1
    ensures !(action.AdminUpdate? && CanUpdate(s.server)) ==>
      Step(s, action).server.network == s.server.network && Step(s, action).server.revision == s.server.revision
  {
    hide LoadRevision, LoadNetwork, IsWritten, Applied;
  }

  /** One undisturbed poll is enough: afterwards file and memory are at the server's revision. */
  lemma OnePollCatchesUp(start: System, actions: seq<Action>, after: Entries)
    requires Installed(start)
    requires Reach(start, actions).process.Some? && Reach(start, actions).process.value.pending.None?
    requires Reach(start, actions).process.value.memory.revision < Reach(start, actions).server.revision
    requires IsWritten(Reach(start, actions).document, Reach(start, actions).server.revision,
                       Reach(start, actions).server.network, after)
    ensures
      var s := Reach(start, actions);
      var response := Remote(s.server.revision, s.server.network);
      var t := Step(Step(Step(s, Poll), Persist(response, after)), Apply);
      && t.server == s.server && t.process.Some? && t.process.value.pending.None?
      && t.process.value.memory.revision == s.server.revision && FileHoldsExactly(t, s.server.revision)
      && MemoryHolds(t, t.process.value.memory, s.server.revision)
  {
    hide Reach, LoadRevision, LoadNetwork, SameConfig, Normalised, IsWritten, Applied, FileHolds, FileHoldsExactly, MemoryHolds;
    var s := Reach(start, actions);
    InstalledAgrees(start);
    ReachAgrees(start, actions);
    PollThenPersist(s, after);
  }

  lemma PollThenPersist(s: System, after: Entries)
    requires Agrees(s) && s.process.Some? && s.process.value.pending.None?
    requires s.process.value.memory.revision < s.server.revision
    requires IsWritten(s.document, s.server.revision, s.server.network, after)
    ensures
      var response := Remote(s.server.revision, s.server.network);
      var t := Step(Step(Step(s, Poll), Persist(response, after)), Apply);
      && t.server == s.server && t.process.Some? && t.process.value.pending.None?
      && t.process.value.memory.revision == s.server.revision && FileHoldsExactly(t, s.server.revision)
      && MemoryHolds(t, t.process.value.memory, s.server.revision)
  {
    hide LoadRevision, LoadNetwork, SameConfig, Normalised, IsWritten, FilePublished, InStep, WithListener;
    var response := Remote(s.server.revision, s.server.network);
    var polled := Step(s, Poll);
    PollKeepsServer(s);
    PersistHolds(polled, response, after);
    var written := Step(polled, Persist(response, after));
    var k :| k in s.published && MemoryHolds(s, s.process.value.memory, k);
    ApplyHolds(written, s.process.value.memory, response);
  }

  // ---------------------------------------------------------------- exactly when it works

  /** Every number in circulation is at most the server's revision. */
  ghost predicate NobodyAhead(s: System) {
    && (LoadRevision(s.document).Some? ==> LoadRevision(s.document).value <= s.server.revision)
    && (forall r :: r in s.responses ==> r.revision <= s.server.revision)
    && (forall r :: r in s.reported ==> r <= s.server.revision)
    && (s.process.Some? ==> s.process.value.memory.revision <= s.server.revision)
    && (s.process.Some? && s.process.value.pending.Some? ==> s.process.value.pending.value.revision <= s.server.revision)
    && s.server.revision >= 1
  }

  lemma StepKeepsNobodyAhead(s: System, action: Action)
    requires NobodyAhead(s)
    ensures NobodyAhead(Step(s, action))
  {
    hide IsWritten, LoadRevision, LoadNetwork;
    if action.Persist? && Step(s, action) != s {
      PersistThenLoad(s.document, action.response.revision, action.response.network, action.after);
    }
  }

  lemma {:induction false} ReachKeepsNobodyAhead(start: System, actions: seq<Action>)
    requires NobodyAhead(start)
    ensures NobodyAhead(Reach(start, actions))
  {
    hide NobodyAhead, Step;
    if actions != [] {
      var last := |actions| - 1;
      ReachKeepsNobodyAhead(start, actions[..last]);
      StepKeepsNobodyAhead(Reach(start, actions[..last]), actions[last]);
    }
  }

  /** A report or a handshake leaves the server as it is. */
  ghost predicate LeavesServer(s: System, action: Action) {
    action.ReceiveReport? || action.ReceiveHandshake? ==> Step(s, action).server == s.server
  }

  /** For every node before its first start, whatever the server's state: in every run no report and no
      handshake moves the server's revision, if and only if the file is not ahead of the server. */
  lemma ServerIsLeftAloneExactly(start: System)
    requires Fresh(start)
    ensures (forall actions, action :: LeavesServer(Reach(start, actions), action))
      <==> LoadRevision(start.document).value <= start.server.revision
  {
    hide LoadRevision, LoadNetwork, Reach;
    if LoadRevision(start.document).value <= start.server.revision {
      forall actions, action ensures LeavesServer(Reach(start, actions), action) {
        ReachKeepsNobodyAhead(start, actions);
        NumbersLeaveServer(Reach(start, actions), action);
      }
    } else {
      AheadIsReported(start);
      var bad := ReceiveHandshake(LoadRevision(start.document).value);
      assert !LeavesServer(Reach(start, [Restart, Report]), bad);
    }
  }

  lemma NumbersLeaveServer(s: System, action: Action)
    requires NobodyAhead(s)
    ensures LeavesServer(s, action)
  {
  }

  lemma AheadIsReported(start: System)
    requires Fresh(start) && LoadRevision(start.document).value > start.server.revision
    ensures !LeavesServer(Reach(start, [Restart, Report]), ReceiveHandshake(LoadRevision(start.document).value))
  {
    hide LoadRevision, LoadNetwork;
    TwoSteps(start, Restart, Report);
  }

  lemma TwoSteps(start: System, a: Action, b: Action)
    ensures Reach(start, [a]) == Step(start, a) && Reach(start, [a, b]) == Step(Step(start, a), b)
  {
    hide Step;
    assert [a][..0] == [] && [a, b][..1] == [a];
    assert Reach(start, []) == start;
  }

  /** For every node before its first start: the process holds, in every run, a configuration the server
      published under its revision, if and only if the file does at the start; and the file's network is
      in every run exactly the server's at the file's revision, if and only if it is so at the start.
      When the first holds, every run keeps all of agreement. */
  lemma AgreementExactly(start: System)
    requires Fresh(start) && ServerOk(start)
    ensures (forall actions :: MemoryPublished(Reach(start, actions))) <==> FilePublished(start)
    ensures (forall actions :: Agrees(Reach(start, actions))) <==> FilePublished(start)
    ensures (forall actions :: Agrees(Reach(start, actions)) && FileExact(Reach(start, actions))) <==> FileExact(start)
  {
    hide Agrees, FilePublished, FileExact, MemoryPublished, Reach, ServerOk, Step;
    ExactIsPublished(start);
    if FilePublished(start) {
      InstalledAgrees(start);
      forall actions ensures Agrees(Reach(start, actions)) && MemoryPublished(Reach(start, actions)) {
        ReachAgrees(start, actions);
        AgreesHasMemory(Reach(start, actions));
      }
      if FileExact(start) {
        forall actions ensures FileExact(Reach(start, actions)) {
          ReachAgrees(start, actions);
        }
      }
    } else {
      StartShowsTheFile(start);
      TwoSteps(start, Restart, Report);
      AgreesHasMemory(Reach(start, [Restart]));
    }
    NoSteps(start);
  }

  lemma NoSteps(start: System)
    ensures Reach(start, []) == start
  {
  }

  lemma AgreesHasMemory(s: System)
    ensures Agrees(s) ==> MemoryPublished(s) && FilePublished(s)
  {
  }

  lemma ExactIsPublished(s: System)
    ensures FileExact(s) ==> FilePublished(s)
  {
    hide LoadRevision, LoadNetwork, SameConfig, Normalised;
    if FileExact(s) {
      var k :| k in s.published && FileHoldsExactly(s, k);
      SameConfigFacts(s.published[k], ListenerOf(s.published[k]));
      assert FileHolds(s, k);
    }
  }

  /** The first start of a node shows in memory what the file holds. */
  lemma StartShowsTheFile(start: System)
    requires Fresh(start)
    ensures MemoryPublished(Step(start, Restart)) ==> FilePublished(start)
  {
    hide LoadRevision, LoadNetwork, SameConfig;
    var t := Step(start, Restart);
    if MemoryPublished(t) {
      var k :| k in t.published && MemoryHolds(t, t.process.value.memory, k);
      assert FileHolds(start, k);
    }
  }

  // ---------------------------------------------------------------- how it fails

  /** A file ahead of the server breaks agreement: the first handshake drags the server to a revision
      it never published, and from then on the node refuses the configuration the server offers. */
  lemma MismatchedBootstrapDisagrees(s: System, ahead: nat)
    requires Fresh(s) && s.server.revision >= 1
    requires LoadRevision(s.document) == Some(ahead) && ahead > s.server.revision
    ensures
      var up := Step(Step(Step(s, Restart), Report), ReceiveHandshake(ahead));
      var offer := Remote(ahead, s.server.network);
      && up.server.revision == ahead && up.server.history == s.server.history
      && offer in Step(up, Poll).responses
      && (forall after :: Step(Step(up, Poll), Persist(offer, after)) == Step(up, Poll))
      && Step(Step(up, Poll), Discard(offer)).process == up.process
  {
    hide LoadRevision, LoadNetwork, IsWritten;
  }

  /** What a node that starts level with or ahead of the server has while nobody edits. */
  ghost predicate Stuck(start: System, s: System)
    requires Fresh(start)
  {
    && s.document == start.document && s.server.network == start.server.network
    && s.server.revision <= Greatest(start.server.revision, LoadRevision(start.document).value)
    && (forall r :: r in s.responses ==> r.revision <= LoadRevision(start.document).value)
    && (forall r :: r in s.reported ==> r == LoadRevision(start.document).value)
    && (s.process.Some? ==> s.process.value == Process(FromFile(start.document), None))
  }

  lemma StepKeepsStuck(start: System, s: System, action: Action)
    requires Fresh(start) && LoadRevision(start.document).value >= start.server.revision
    requires Stuck(start, s) && !action.AdminUpdate?
    ensures Stuck(start, Step(s, action))
  {
    hide LoadRevision, LoadNetwork, IsWritten;
  }

  /** A file at or ahead of the server's revision is never corrected by polling: without an edit, file
      and memory stay what they were in every run, whatever network the server has. So a file at the
      same revision with another network is refused the server's own for as long as nobody edits. */
  lemma {:induction false} OnlyEditsCorrectTheFile(start: System, actions: seq<Action>)
    requires Fresh(start) && LoadRevision(start.document).value >= start.server.revision
    requires forall i :: 0 <= i < |actions| ==> !actions[i].AdminUpdate?
    ensures Stuck(start, Reach(start, actions))
  {
    hide Step, LoadRevision, LoadNetwork;
    if actions != [] {
      var last := |actions| - 1;
      OnlyEditsCorrectTheFile(start, actions[..last]);
      StepKeepsStuck(start, Reach(start, actions[..last]), actions[last]);
    }
  }
}
