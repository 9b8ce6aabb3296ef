/** One configuration poll on the node, as code over the file and the configuration in memory. It is
    proved to take exactly the steps of the configuration protocol, so the agreement theorems speak
    about this code. */
module ConfigSync {
  import opened Text
  import opened ConfigFile
  import opened RuntimeConfigs
  import opened ConfigProtocol

  /** The protocol state `s` shows this file and this memory, with nothing written but not applied. */
  ghost predicate Shows(s: System, root: Entries, memory: State) {
    s.document == root && s.process.Some? && s.process.value.memory == memory && s.process.value.pending.None?
  }

  /** The protocol steps of a poll that ends well. */
  ghost function Polled(s: System, response: Remote, root: Entries): System
    requires s.process.Some?
  {
    if response.revision > s.process.value.memory.revision then Step(Step(s, Persist(response, root)), Apply)
    else Step(s, Discard(response))
  }

  /** Handles one response: write the file first, then apply in memory; when writing fails, neither
      changes. */
  method FetchAndApplyConfig(file: File, runtime: RuntimeConfig, response: Remote, ghost s: System) returns (ok: bool)
    requires runtime.Valid() && Shows(s, file.root, runtime.Value()) && response in s.responses
    modifies file, runtime
    ensures runtime.Valid()
    ensures ok <==> response.revision <= old(runtime.revision) || Writable(old(file.root), response.network)
    ensures !ok ==> file.root == old(file.root) && runtime.Value() == old(runtime.Value())
    ensures ok ==> Shows(Polled(s, response, file.root), file.root, runtime.Value())
  {
    hide Writable, IsWritten, Applied;
    var shouldApply := response.revision > runtime.revision;
    if shouldApply {
      var persisted := file.PersistRemoteNetworkConfig(response.revision, response.network);
      if !persisted {
        return false;
      }
    }
    var result := runtime.ApplyRemoteNetworkConfig(response.revision, response.network);
    ok := true;
  }

  /** So a poll by this code keeps agreement, from any state a run of the protocol can reach. */
  lemma PollKeepsAgreement(start: System, actions: seq<Action>, response: Remote, root: Entries)
    requires Installed(start) && Reach(start, actions).process.Some?
    ensures Agrees(Polled(Reach(start, actions), response, root))
  {
    hide Reach, Agrees, Step, Installed;
    var s := Reach(start, actions);
    InstalledAgrees(start);
    ReachAgrees(start, actions);
    StepKeepsAgrees(s, Persist(response, root));
    StepKeepsAgrees(Step(s, Persist(response, root)), Apply);
    StepKeepsAgrees(s, Discard(response));
  }
}
