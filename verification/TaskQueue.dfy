/** The queue of remote tasks: administrators insert, nodes claim one task at a time, execute it, and
    post a result. Each database transaction is one step; responses and results may be lost. */
module TaskQueue {
  import opened Text

  datatype Status = Pending | Running | Succeeded | Failed | Canceled

  datatype Row = Row(nodeId: nat, taskType: string, status: Status, message: Option<string>, output: Option<string>,
                     error: Option<string>)

  /** The table and the next automatic id. */
  datatype Tasks = Tasks(rows: map<nat, Row>, nextId: nat)

  predicate Terminal(s: Status) {
    s.Succeeded? || s.Failed? || s.Canceled?
  }

  predicate Open(s: Status) {
    s.Pending? || s.Running?
  }

  function Progress(s: Status): nat {
    match s
    case Pending => 0
    case Running => 1
    case _ => 2
  }

  ghost predicate TableOk(t: Tasks) {
    t.nextId >= 1 && forall id :: id in t.rows ==> 1 <= id < t.nextId
  }

  predicate PendingFor(t: Tasks, nodeId: nat, id: nat) {
    id in t.rows && t.rows[id].nodeId == nodeId && t.rows[id].status.Pending?
  }

  // ---------------------------------------------------------------- statements on values

  function Inserted(t: Tasks, nodeId: nat, taskType: string, message: Option<string>): Tasks {
    Tasks(t.rows[t.nextId := Row(nodeId, taskType, Pending, message, None, None)], t.nextId + 1)
  }

  /** The least pending id of a node, looked for from `from` on. */
  function FirstPending(t: Tasks, nodeId: nat, from: nat): (r: Option<nat>)
    ensures r.Some? ==> PendingFor(t, nodeId, r.value) && from <= r.value < t.nextId
    ensures r.Some? ==> forall id :: from <= id < r.value ==> !PendingFor(t, nodeId, id)
    ensures r.None? ==> forall id :: from <= id < t.nextId ==> !PendingFor(t, nodeId, id)
    decreases t.nextId - from
  {
    if from >= t.nextId then None
    else if PendingFor(t, nodeId, from) then Some(from)
    else FirstPending(t, nodeId, from + 1)
  }

  function Claimed(t: Tasks, nodeId: nat): Tasks {
    var id := FirstPending(t, nodeId, 0);
    if id.None? then t else t.(rows := t.rows[id.value := t.rows[id.value].(status := Running)])
  }

  /** A result as a node posts it. */
  datatype TaskResult = TaskResult(nodeId: nat, id: nat, status: string, message: Option<string>, output: Option<string>)

  function ResultStatus(text: string): Option<Status> {
    if Trim(text) == "succeeded" then Some(Succeeded)
    else if Trim(text) == "failed" then Some(Failed)
    else None
  }

  function Shortened(text: Option<string>, size: nat): Option<string> {
    if NonBlank(text).None? then None
    else if |NonBlank(text).value| <= size then NonBlank(text)
    else Some(NonBlank(text).value[..size])
  }

  predicate Accepts(t: Tasks, r: TaskResult) {
    && r.id > 0 && ResultStatus(r.status).Some?
    && r.id in t.rows && t.rows[r.id].nodeId == r.nodeId && Open(t.rows[r.id].status)
  }

  function Finished(t: Tasks, r: TaskResult): Tasks
    requires Accepts(t, r)
  {
    var row := t.rows[r.id];
    var status := ResultStatus(r.status).value;
    var message := Shortened(r.message, 512);
    t.(rows := t.rows[r.id := row.(status := status,
                                   message := if message.Some? then message else row.message,
                                   output := Shortened(r.output, 4096),
                                   error := if status.Failed? then message else None)])
  }

  // ---------------------------------------------------------------- what a result does, in its own terms

  /** A text as it is kept: trimmed, cut to a size, and nothing when it was blank. */
  ghost predicate KeptText(posted: Option<string>, size: nat, kept: Option<string>) {
    if posted.None? || IsBlank(posted.value) then kept.None?
    else
      && kept.Some? && kept.value <= Trim(posted.value)
      && |kept.value| == if |Trim(posted.value)| <= size then |Trim(posted.value)| else size
  }

  /** The posted status is known and the row is an open one of the node that posts. */
  ghost predicate MayStore(rows: map<nat, Row>, r: TaskResult) {
    && r.id > 0 && Trim(r.status) in {"succeeded", "failed"}
    && r.id in rows && rows[r.id].nodeId == r.nodeId && rows[r.id].status in {Pending, Running}
  }

  /** The row takes the posted status, the output, the message unless it is blank, and the message as
      its error only when the task failed; no other row changes. */
  ghost predicate Stored(before: map<nat, Row>, r: TaskResult, after: map<nat, Row>) {
    && r.id in before && after.Keys == before.Keys
    && (forall id :: id in before && id != r.id ==> after[id] == before[id])
    && var (was, row) := (before[r.id], after[r.id]);
       && row.nodeId == was.nodeId && row.taskType == was.taskType
       && (row.status == Succeeded <==> Trim(r.status) == "succeeded")
       && (row.status == Failed <==> Trim(r.status) == "failed")
       && (row.status == Failed || row.error == None)
       && (row.status == Failed ==> KeptText(r.message, 512, row.error))
       && KeptText(r.output, 4096, row.output)
       && (if r.message.None? || IsBlank(r.message.value) then row.message == was.message
           else KeptText(r.message, 512, row.message))
  }

  lemma ShortenedIsKept(text: Option<string>, size: nat)
    ensures KeptText(text, size, Shortened(text, size))
  {
  }

  lemma AcceptedMayStore(t: Tasks, r: TaskResult)
    ensures Accepts(t, r) <==> MayStore(t.rows, r)
  {
  }

  lemma FinishedIsStored(t: Tasks, r: TaskResult)
    requires Accepts(t, r)
    ensures Stored(t.rows, r, Finished(t, r).rows) && Finished(t, r).nextId == t.nextId
  {
    hide Shortened, KeptText, Trim;
    ShortenedIsKept(r.message, 512);
    ShortenedIsKept(r.output, 4096);
    ShortenedNone(r.message);
    assert "succeeded" != "failed" by { assert |"succeeded"| != |"failed"|; }
  }

  lemma ShortenedNone(text: Option<string>)
    ensures Shortened(text, 512).Some? <==> text.Some? && !IsBlank(text.value)
  {
  }

  // ---------------------------------------------------------------- the table as the handlers change it

  class TaskTable {
    var rows: map<nat, Row>
    var nextId: nat

    constructor ()
      ensures Value() == Tasks(map[], 1)
    {
      rows, nextId := map[], 1;
    }

    function Value(): Tasks
      reads this
    {
      Tasks(rows, nextId)
    }

    method InsertAdminNodeTask(nodeId: nat, taskType: string, message: Option<string>) returns (id: nat)
      requires TableOk(Value())
      modifies this
      ensures TableOk(Value()) && Value() == Inserted(old(Value()), nodeId, taskType, message)
      ensures id == old(nextId) && id !in old(rows) && nextId == id + 1
      ensures rows == old(rows)[id := Row(nodeId, taskType, Pending, message, None, None)]
    {
      id := nextId;
      rows := rows[id := Row(nodeId, taskType, Pending, message, None, None)];
      nextId := nextId + 1;
    }

    /** Claims the least pending id, if there is one. */
    method ClaimNextNodeTask(nodeId: nat) returns (task: Option<(nat, Row)>)
      requires TableOk(Value())
      modifies this
      ensures TableOk(Value()) && Value() == Claimed(old(Value()), nodeId)
      ensures task.None? <==> forall id :: id in old(rows) ==> !PendingFor(old(Value()), nodeId, id)
      ensures task.Some? ==>
        && PendingFor(old(Value()), nodeId, task.value.0)
        && (forall id :: PendingFor(old(Value()), nodeId, id) ==> task.value.0 <= id)
        && task.value.1 == old(rows)[task.value.0].(status := Running)
      ensures rows == if task.None? then old(rows) else old(rows)[task.value.0 := task.value.1]
      ensures nextId == old(nextId)
    {
      var id := FirstPending(Value(), nodeId, 0);
      if id.None? {
        return None;
      }
      rows := rows[id.value := rows[id.value].(status := Running)];
      task := Some((id.value, rows[id.value]));
    }

    method UpdateNodeTaskResult(r: TaskResult) returns (stored: bool)
      requires TableOk(Value())
      modifies this
      ensures TableOk(Value()) && stored == Accepts(old(Value()), r)
      ensures Value() == if stored then Finished(old(Value()), r) else old(Value())
      ensures stored <==> MayStore(old(rows), r)
      ensures if stored then Stored(old(rows), r, rows) else rows == old(rows)
      ensures nextId == old(nextId)
    {
      hide ResultStatus, Shortened, MayStore, Stored;
      AcceptedMayStore(Value(), r);
      if Accepts(Value(), r) {
        FinishedIsStored(Value(), r);
      }
      if r.id == 0 {
        return false;
      }
      var status := ResultStatus(r.status);
      if status.None? || r.id !in rows || rows[r.id].nodeId != r.nodeId || !Open(rows[r.id].status) {
        return false;
      }
      var message := Shortened(r.message, 512);
      var row := rows[r.id];
      row := row.(status := status.value);
      row := row.(message := if message.Some? then message else row.message);
      row := row.(output := Shortened(r.output, 4096));
      row := row.(error := if status.value.Failed? then message else None);
      rows := rows[r.id := row];
      stored := true;
    }
  }

  // ---------------------------------------------------------------- the protocol

  datatype Claim = Claim(nodeId: nat, id: nat)

  /** The table, and what is under way: claims whose response the node has not had, results the server
      has not had. `claims`, `executed`, `lost` and `sent` record all claims made, those executed, those
      whose response was lost, and all results posted. */
  datatype System = System(
    tasks: Tasks,
    created: nat,
    claims: seq<Claim>,
    inFlight: set<Claim>,
    executed: seq<Claim>,
    lost: set<Claim>,
    results: set<TaskResult>,
    sent: set<TaskResult>)

  datatype Action =
    | Create(nodeId: nat, taskType: string, message: Option<string>)
    | Poll(nodeId: nat)
    | Execute(claim: Claim, result: TaskResult)
    | LoseResponse(claim: Claim)
    | LoseResult(result: TaskResult)
    | ReceiveResult(result: TaskResult)

  /** The statuses a node reports. */
  const NODE_STATUSES := {"succeeded", "failed"}

  function Initial(): System {
    System(Tasks(map[], 1), 0, [], {}, [], {}, {}, {})
  }

  function ResultOf(result: TaskResult): Claim {
    Claim(result.nodeId, result.id)
  }

  function Step(s: System, action: Action): System {
    match action
    case Create(nodeId, taskType, message) =>
      s.(tasks := Inserted(s.tasks, nodeId, taskType, message), created := s.created + 1)
    case Poll(nodeId) =>
      var id := FirstPending(s.tasks, nodeId, 0);
      if id.None? then s
      else s.(tasks := Claimed(s.tasks, nodeId), claims := s.claims + [Claim(nodeId, id.value)],
              inFlight := s.inFlight + {Claim(nodeId, id.value)})
    case Execute(claim, result) =>
      if claim in s.inFlight && ResultOf(result) == claim && result.status in NODE_STATUSES
      then s.(inFlight := s.inFlight - {claim}, executed := s.executed + [claim],
              results := s.results + {result}, sent := s.sent + {result})
      else s
    case LoseResponse(claim) =>
      if claim in s.inFlight then s.(inFlight := s.inFlight - {claim}, lost := s.lost + {claim}) else s
    case LoseResult(result) => s.(results := s.results - {result})
    case ReceiveResult(result) =>
      if result in s.results && Accepts(s.tasks, result) then s.(tasks := Finished(s.tasks, result)) else s
  }

  function Reach(actions: seq<Action>): System {
    if actions == [] then Initial() else Step(Reach(actions[..|actions| - 1]), actions[|actions| - 1])
  }

  // ---------------------------------------------------------------- the invariant

  ghost predicate NeverCanceled(t: Tasks) {
    forall id :: id in t.rows ==> !t.rows[id].status.Canceled?
  }

  /** Ids are handed out 1, 2, 3, ... */
  ghost predicate Counted(s: System) {
    s.tasks.nextId == s.created + 1 && forall id :: id in s.tasks.rows <==> 1 <= id <= s.created
  }

  /** Every claim is of a row of its node that is no longer pending, below all pending rows of the node. */
  ghost predicate ClaimsOk(s: System) {
    && (forall k :: 0 <= k < |s.claims| ==> ClaimOk(s.tasks, s.claims[k]))
    && (forall j, k :: 0 <= j < k < |s.claims| && s.claims[j].nodeId == s.claims[k].nodeId ==> s.claims[j].id < s.claims[k].id)
  }

  ghost predicate ClaimOk(t: Tasks, c: Claim) {
    && c.id in t.rows && t.rows[c.id].nodeId == c.nodeId && !t.rows[c.id].status.Pending?
    && forall id :: PendingFor(t, c.nodeId, id) ==> c.id < id
  }

  /** A handed-out task is in flight, executed or lost, and executed at most once. */
  ghost predicate ExecutedOk(s: System) {
    && (forall c :: c in s.inFlight ==> c in s.claims && c !in s.executed)
    && (forall c :: c in s.executed ==> c in s.claims)
    && (forall j, k :: 0 <= j < k < |s.executed| ==> s.executed[j] != s.executed[k])
  }

  /** Every running row was claimed; every claim is in flight, lost or executed, and never two of them;
      exactly the executed claims have a result, which the server can read. */
  ghost predicate FatesOk(s: System) {
    && (forall id :: id in s.tasks.rows && s.tasks.rows[id].status.Running? ==> Claim(s.tasks.rows[id].nodeId, id) in s.claims)
    && (forall c :: c in s.claims ==> c in s.inFlight || c in s.executed || c in s.lost)
    && (forall c :: c in s.lost ==> c in s.claims && c !in s.inFlight && c !in s.executed)
    && (forall c :: c in s.executed ==> exists r :: r in s.sent && ResultOf(r) == c)
    && (forall r :: r in s.sent ==> ResultOf(r) in s.executed && r.status in NODE_STATUSES)
    && s.results <= s.sent
  }

  ghost predicate Good(s: System) {
    TableOk(s.tasks) && NeverCanceled(s.tasks) && Counted(s) && ClaimsOk(s) && ExecutedOk(s) && FatesOk(s)
  }

  lemma ClaimSurvives(t: Tasks, u: Tasks, c: Claim)
    requires ClaimOk(t, c)
    requires c.id in u.rows && u.rows[c.id].nodeId == t.rows[c.id].nodeId && !u.rows[c.id].status.Pending?
    requires forall id :: id in u.rows && u.rows[id].status.Pending? ==>
      id > c.id || (id in t.rows && t.rows[id].nodeId == u.rows[id].nodeId && t.rows[id].status.Pending?)
    ensures ClaimOk(u, c)
  {
    forall id: nat | PendingFor(u, c.nodeId, id) ensures c.id < id {
      assert id > c.id || PendingFor(t, c.nodeId, id);
    }
  }

  lemma CreateKeepsGood(s: System, nodeId: nat, taskType: string, message: Option<string>)
    requires Good(s)
    ensures Good(Step(s, Create(nodeId, taskType, message)))
  {
    var t := Step(s, Create(nodeId, taskType, message));
    assert FatesOk(t) by { CreateKeepsFates(s, nodeId, taskType, message); }
    forall k | 0 <= k < |t.claims| ensures ClaimOk(t.tasks, t.claims[k]) {
      ClaimSurvives(s.tasks, t.tasks, s.claims[k]);
    }
  }

  lemma CreateKeepsFates(s: System, nodeId: nat, taskType: string, message: Option<string>)
    requires FatesOk(s) && TableOk(s.tasks)
    ensures FatesOk(Step(s, Create(nodeId, taskType, message)))
  {
  }

  /** A new claim is in flight. */
  lemma PollKeepsFates(s: System, nodeId: nat)
    requires Good(s)
    ensures FatesOk(Step(s, Poll(nodeId)))
  {
    var id := FirstPending(s.tasks, nodeId, 0);
    if id.Some? {
      var c := Claim(nodeId, id.value);
      forall k | 0 <= k < |s.claims| ensures s.claims[k] != c {
        assert ClaimOk(s.tasks, s.claims[k]);
      }
    }
  }

  lemma ResultKeepsFates(s: System, result: TaskResult)
    requires FatesOk(s)
    ensures FatesOk(Step(s, ReceiveResult(result)))
  {
    hide ResultStatus, Shortened;
    ResultStatusIsFinal(result.status);
  }

  lemma PollKeepsGood(s: System, nodeId: nat)
    requires Good(s)
    ensures Good(Step(s, Poll(nodeId)))
  {
    hide FatesOk;
    PollKeepsFates(s, nodeId);
    var id := FirstPending(s.tasks, nodeId, 0);
    if id.Some? {
      var t := Step(s, Poll(nodeId));
      forall k | 0 <= k < |s.claims| ensures ClaimOk(t.tasks, s.claims[k]) {
        ClaimSurvives(s.tasks, t.tasks, s.claims[k]);
      }
      forall j: nat | PendingFor(t.tasks, nodeId, j) ensures id.value < j {
        assert PendingFor(s.tasks, nodeId, j);
      }
      assert ClaimOk(t.tasks, Claim(nodeId, id.value));
      forall k | 0 <= k < |s.claims| ensures s.claims[k] != Claim(nodeId, id.value) {
        assert ClaimOk(s.tasks, s.claims[k]);
      }
      forall k | 0 <= k < |s.claims| && s.claims[k].nodeId == nodeId ensures s.claims[k].id < id.value {
        assert ClaimOk(s.tasks, s.claims[k]);
      }
    }
  }

  lemma ResultKeepsGood(s: System, result: TaskResult)
    requires Good(s)
    ensures Good(Step(s, ReceiveResult(result)))
  {
    hide ResultStatus, Shortened, FatesOk;
    ResultStatusIsFinal(result.status);
    ResultKeepsFates(s, result);
    var t := Step(s, ReceiveResult(result));
    forall k | 0 <= k < |t.claims| ensures ClaimOk(t.tasks, t.claims[k]) {
      ClaimSurvives(s.tasks, t.tasks, s.claims[k]);
    }
  }

  lemma ResultStatusIsFinal(text: string)
    ensures ResultStatus(text).Some? ==> ResultStatus(text).value.Succeeded? || ResultStatus(text).value.Failed?
  {
  }

  lemma {:induction false} ReachIsGood(actions: seq<Action>)
    ensures Good(Reach(actions))
  {
    hide Good, Step;
    if actions == [] {
      InitialIsGood();
    } else {
      var s := Reach(actions[..|actions| - 1]);
      ReachIsGood(actions[..|actions| - 1]);
      match actions[|actions| - 1]
      case Create(nodeId, taskType, message) => CreateKeepsGood(s, nodeId, taskType, message);
      case Poll(nodeId) => PollKeepsGood(s, nodeId);
      case ReceiveResult(result) => ResultKeepsGood(s, result);
      case Execute(claim, result) => ExecuteKeepsGood(s, claim, result);
      case LoseResponse(claim) => LoseKeepsGood(s, claim);
      case LoseResult(result) => LoseResultKeepsGood(s, result);
    }
  }

  lemma InitialIsGood()
    ensures Good(Initial())
  {
  }

  lemma ExecuteKeepsGood(s: System, claim: Claim, result: TaskResult)
    requires Good(s)
    ensures Good(Step(s, Execute(claim, result)))
  {
    hide TableOk, NeverCanceled, ClaimOk;
  }

  lemma LoseResultKeepsGood(s: System, result: TaskResult)
    requires Good(s)
    ensures Good(Step(s, LoseResult(result)))
  {
    hide TableOk, NeverCanceled, ClaimOk;
  }

  lemma LoseKeepsGood(s: System, claim: Claim)
    requires Good(s)
    ensures Good(Step(s, LoseResponse(claim)))
  {
    hide TableOk, NeverCanceled, ClaimOk;
  }

  // ---------------------------------------------------------------- theorems

  /** A node's claims come in strictly increasing id order, so no task is handed out twice. */
  lemma ClaimsIncrease(actions: seq<Action>, j: nat, k: nat)
    requires j < k < |Reach(actions).claims| && Reach(actions).claims[j].nodeId == Reach(actions).claims[k].nodeId
    ensures Reach(actions).claims[j].id < Reach(actions).claims[k].id
  {
    hide Reach;
    ReachIsGood(actions);
  }

  /** A task is executed at most once, by the node it was created for, and only after it was claimed,
      however many responses and results are lost. */
  lemma ExecutedAtMostOnce(actions: seq<Action>, j: nat, k: nat)
    requires j < |Reach(actions).executed| && k < |Reach(actions).executed|
    requires Reach(actions).executed[j].id == Reach(actions).executed[k].id
    ensures j == k
    ensures
      var s := Reach(actions);
      s.executed[j].id in s.tasks.rows && s.tasks.rows[s.executed[j].id].nodeId == s.executed[j].nodeId
      && !s.tasks.rows[s.executed[j].id].status.Pending?
  {
    hide Reach, TableOk, NeverCanceled, Counted;
    ReachIsGood(actions);
    var s := Reach(actions);
    assert s.executed[j] in s.executed && s.executed[k] in s.executed;
    var a :| 0 <= a < |s.claims| && s.claims[a] == s.executed[j];
    var b :| 0 <= b < |s.claims| && s.claims[b] == s.executed[k];
    assert ClaimOk(s.tasks, s.claims[a]) && ClaimOk(s.tasks, s.claims[b]);
    assert s.executed[j] == s.executed[k];
  }

  // ---------------------------------------------------------------- tasks that stay running

  /** The state after more actions. */
  function Continue(s: System, actions: seq<Action>): System {
    if actions == [] then s else Step(Continue(s, actions[..|actions| - 1]), actions[|actions| - 1])
  }

  lemma {:induction false} ReachAppends(actions: seq<Action>, more: seq<Action>)
    ensures Reach(actions + more) == Continue(Reach(actions), more)
  {
    hide Step;
    if more == [] {
      assert actions + more == actions;
    } else {
      var last := |more| - 1;
      assert (actions + more)[..|actions + more| - 1] == actions + more[..last];
      ReachAppends(actions, more[..last]);
    }
  }

  predicate IsRunning(t: Tasks, id: nat) {
    id in t.rows && t.rows[id].status.Running?
  }

  /** Neither the response of the claim nor any result of it can still arrive. */
  ghost predicate Silent(s: System, c: Claim) {
    c !in s.inFlight && forall r :: r in s.results ==> ResultOf(r) != c
  }

  /** The row is running and will not be heard of. */
  ghost predicate Stuck(s: System, c: Claim) {
    IsRunning(s.tasks, c.id) && s.tasks.rows[c.id].nodeId == c.nodeId && Silent(s, c)
  }

  lemma StepKeepsStuck(s: System, action: Action, c: Claim)
    requires TableOk(s.tasks) && Stuck(s, c)
    ensures Stuck(Step(s, action), c)
  {
    hide ResultStatus, Shortened;
  }

  lemma {:induction false} StuckForever(actions: seq<Action>, more: seq<Action>, c: Claim)
    requires Stuck(Reach(actions), c)
    ensures Stuck(Reach(actions + more), c)
  {
    hide Reach, Stuck, Step;
    ReachAppends(actions, more);
    if more == [] {
      assert actions + more == actions;
    } else {
      var last := |more| - 1;
      StuckForever(actions, more[..last], c);
      ReachAppends(actions, more[..last]);
      ReachIsGood(actions + more[..last]);
      StepKeepsStuck(Reach(actions + more[..last]), more[last], c);
    }
  }

  lemma NodeStatusIsKnown(status: string)
    requires status in NODE_STATUSES
    ensures ResultStatus(status).Some?
  {
    assert Trim("succeeded") == "succeeded" && Trim("failed") == "failed";
  }

  /** A result on its way finishes its running row. */
  lemma ResultFinishes(s: System, r: TaskResult)
    requires Good(s) && r in s.results && IsRunning(s.tasks, r.id) && s.tasks.rows[r.id].nodeId == r.nodeId
    ensures !IsRunning(Step(s, ReceiveResult(r)).tasks, r.id)
  {
    hide ResultStatus, Shortened, ClaimsOk, ExecutedOk, Counted;
    NodeStatusIsKnown(r.status);
    ResultStatusIsFinal(r.status);
  }

  /** A claim in flight can still be executed, and its result finish the row. */
  lemma ClaimFinishes(s: System, c: Claim)
    requires Good(s) && c in s.inFlight && IsRunning(s.tasks, c.id) && s.tasks.rows[c.id].nodeId == c.nodeId
    ensures
      var r := TaskResult(c.nodeId, c.id, "succeeded", None, None);
      !IsRunning(Step(Step(s, Execute(c, r)), ReceiveResult(r)).tasks, c.id)
  {
    hide Good, ResultStatus;
    var r := TaskResult(c.nodeId, c.id, "succeeded", None, None);
    ExecuteKeepsGood(s, c, r);
    ResultFinishes(Step(s, Execute(c, r)), r);
  }

  lemma FinishingRun(actions: seq<Action>, c: Claim) returns (more: seq<Action>)
    requires
      var s := Reach(actions);
      IsRunning(s.tasks, c.id) && s.tasks.rows[c.id].nodeId == c.nodeId && !Silent(s, c)
    ensures !IsRunning(Reach(actions + more).tasks, c.id)
  {
    hide Reach, Step, Good;
    var s := Reach(actions);
    ReachIsGood(actions);
    if c in s.inFlight {
      var r := TaskResult(c.nodeId, c.id, "succeeded", None, None);
      ClaimFinishes(s, c);
      more := [Execute(c, r), ReceiveResult(r)];
      assert more[..1] == [Execute(c, r)] && more[..1][..0] == [];
      assert Continue(s, more[..1]) == Step(Continue(s, more[..1][..0]), Execute(c, r));
    } else {
      var r :| r in s.results && ResultOf(r) == c;
      ResultFinishes(s, r);
      more := [ReceiveResult(r)];
      assert more[..0] == [];
    }
    ReachAppends(actions, more);
  }

  /** Which tasks are lost. A running row stays running in every continuation of the run exactly when the
      response that handed it out was lost, or it was executed and every result posted for it was lost:
      a row is claimed once, and nothing claims it again. */
  lemma RunningForeverExactly(actions: seq<Action>, id: nat)
    requires IsRunning(Reach(actions).tasks, id)
    ensures
      var s := Reach(actions);
      var c := Claim(s.tasks.rows[id].nodeId, id);
      && c in s.claims
      && ((forall more :: IsRunning(Reach(actions + more).tasks, id))
          <==> c in s.lost || (c in s.executed && forall r :: r in s.sent && ResultOf(r) == c ==> r !in s.results))
  {
    hide Reach, TableOk, NeverCanceled, Counted, ClaimsOk;
    var s := Reach(actions);
    var c := Claim(s.tasks.rows[id].nodeId, id);
    ReachIsGood(actions);
    if Silent(s, c) {
      forall more ensures IsRunning(Reach(actions + more).tasks, id) {
        StuckForever(actions, more, c);
      }
    } else {
      var more := FinishingRun(actions, c);
    }
    assert c in s.claims;
    assert Silent(s, c) <==> c in s.lost || (c in s.executed && forall r :: r in s.sent && ResultOf(r) == c ==> r !in s.results)
      by { SilentExactly(s, c); }
  }

  lemma SilentExactly(s: System, c: Claim)
    requires ExecutedOk(s) && FatesOk(s) && c in s.claims
    ensures Silent(s, c)
      <==> c in s.lost || (c in s.executed && forall r :: r in s.sent && ResultOf(r) == c ==> r !in s.results)
  {
  }

  /** A step never moves a row backwards, and never touches a finished row at all. */
  lemma RowsOnlyAdvance(actions: seq<Action>, action: Action, id: nat)
    requires id in Reach(actions).tasks.rows
    ensures
      var before := Reach(actions).tasks.rows[id];
      && id in Step(Reach(actions), action).tasks.rows
      && var after := Step(Reach(actions), action).tasks.rows[id];
         && Progress(before.status) <= Progress(after.status)
         && after.nodeId == before.nodeId && after.taskType == before.taskType
         && (Terminal(before.status) ==> after == before)
  {
    hide Reach, Shortened, ResultStatus, NeverCanceled, ClaimsOk, ExecutedOk, FatesOk;
    ReachIsGood(actions);
    if action.ReceiveResult? {
      ResultStatusIsFinal(action.result.status);
    }
  }

  /** The action stores, in row id, a result with this status that a node posted and that was not lost. */
  ghost predicate Answering(s: System, action: Action, id: nat, status: string) {
    && action.ReceiveResult? && action.result in s.results && action.result.id == id
    && MayStore(s.tasks.rows, action.result) && Trim(action.result.status) == status
  }

  ghost predicate AnsweredWith(actions: seq<Action>, id: nat, status: string) {
    exists a :: 0 <= a < |actions| && Answering(Reach(actions[..a]), actions[a], id, status)
  }

  lemma AnsweredGrows(actions: seq<Action>, id: nat, status: string)
    requires actions != []
    ensures
      var (before, last) := (actions[..|actions| - 1], actions[|actions| - 1]);
      AnsweredWith(actions, id, status) <==> AnsweredWith(before, id, status) || Answering(Reach(before), last, id, status)
  {
    hide Reach, Answering;
    var last := |actions| - 1;
    assert forall a :: 0 <= a < last ==> actions[..last][..a] == actions[..a];
    if AnsweredWith(actions[..last], id, status) {
      var a :| 0 <= a < last && Answering(Reach(actions[..last][..a]), actions[..last][a], id, status);
      assert Answering(Reach(actions[..a]), actions[a], id, status);
    }
    if AnsweredWith(actions, id, status) {
      var a :| 0 <= a < |actions| && Answering(Reach(actions[..a]), actions[a], id, status);
      assert a < last ==> Answering(Reach(actions[..last][..a]), actions[..last][a], id, status);
    }
  }

  predicate HadStatus(s: System, id: nat, status: Status) {
    id in s.tasks.rows && s.tasks.rows[id].status == status
  }

  /** One step changes whether a row has succeeded or failed only by storing a result that says so. */
  lemma StepReports(s: System, action: Action, id: nat)
    requires Good(s) && id in Step(s, action).tasks.rows
    ensures
      var after := Step(s, action).tasks.rows[id].status;
      && (after.Succeeded? <==> HadStatus(s, id, Succeeded) || Answering(s, action, id, "succeeded"))
      && (after.Failed? <==> HadStatus(s, id, Failed) || Answering(s, action, id, "failed"))
  {
    hide Trim, ClaimsOk, ExecutedOk, FatesOk, Counted, Stored, Accepts, Finished;
    if action.ReceiveResult? {
      AcceptedMayStore(s.tasks, action.result);
      if Accepts(s.tasks, action.result) {
        StoredStatus(s.tasks, action.result, id);
      }
    }
  }

  lemma StoredStatus(t: Tasks, r: TaskResult, id: nat)
    requires Accepts(t, r)
    ensures Finished(t, r).rows.Keys == t.rows.Keys
    ensures id in t.rows && id != r.id ==> Finished(t, r).rows[id] == t.rows[id]
    ensures r.id in t.rows
    ensures Finished(t, r).rows[r.id].status == Succeeded <==> Trim(r.status) == "succeeded"
    ensures Finished(t, r).rows[r.id].status == Failed <==> Trim(r.status) == "failed"
  {
    hide KeptText, Trim, Accepts, Finished;
    FinishedIsStored(t, r);
  }

  lemma {:induction false} NotAnsweredBefore(actions: seq<Action>, id: nat, status: string)
    requires id !in Reach(actions).tasks.rows
    ensures !AnsweredWith(actions, id, status)
  {
    hide AnsweredWith, Trim;
    if actions == [] {
      assert !AnsweredWith([], id, status) by { NothingAnswered(id, status); }
    } else {
      var before := actions[..|actions| - 1];
      AnsweredGrows(actions, id, status);
      if id in Reach(before).tasks.rows {
        RowsOnlyAdvance(before, actions[|actions| - 1], id);
        assert false;
      } else {
        NotAnsweredBefore(before, id, status);
      }
    }
  }

  lemma NothingAnswered(id: nat, status: string)
    ensures !AnsweredWith([], id, status)
  {
  }

  /** A finished row says what its node reported. In every run a row has succeeded (failed) exactly when
      the server has stored in it a result that the node posted with that status. */
  lemma {:induction false} RowsHoldReportedStatus(actions: seq<Action>, id: nat)
    requires id in Reach(actions).tasks.rows
    ensures Reach(actions).tasks.rows[id].status.Succeeded? <==> AnsweredWith(actions, id, "succeeded")
    ensures Reach(actions).tasks.rows[id].status.Failed? <==> AnsweredWith(actions, id, "failed")
  {
    hide Step, AnsweredWith, Answering;
    if actions != [] {
      var before := actions[..|actions| - 1];
      ReachIsGood(before);
      AnsweredGrows(actions, id, "succeeded");
      AnsweredGrows(actions, id, "failed");
      StepReports(Reach(before), actions[|actions| - 1], id);
      if id in Reach(before).tasks.rows {
        RowsHoldReportedStatus(before, id);
      } else {
        NotAnsweredBefore(before, id, "succeeded");
        NotAnsweredBefore(before, id, "failed");
      }
    }
  }

  ghost function WithStatus(t: Tasks, status: Status): set<nat> {
    set id | id in t.rows && t.rows[id].status == status
  }

  ghost function Numbers(n: nat): (r: set<nat>)
    ensures |r| == n && forall id :: id in r <==> 1 <= id <= n
  {
    if n == 0 then {} else Numbers(n - 1) + {n}
  }

  /** Nothing is lost: what was created is pending, running, succeeded or failed; never canceled. */
  lemma CreatedIsAccountedFor(actions: seq<Action>)
    ensures
      var t := Reach(actions).tasks;
      && Reach(actions).created
         == |WithStatus(t, Pending)| + |WithStatus(t, Running)| + |WithStatus(t, Succeeded)| + |WithStatus(t, Failed)|
      && WithStatus(t, Canceled) == {}
  {
    hide Reach, ClaimsOk, ExecutedOk, FatesOk, WithStatus;
    ReachIsGood(actions);
    var s := Reach(actions);
    StatusesPartition(s.tasks);
    assert s.tasks.rows.Keys == Numbers(s.created);
  }

  lemma StatusesCover(t: Tasks)
    requires NeverCanceled(t)
    ensures WithStatus(t, Canceled) == {}
    ensures WithStatus(t, Pending) + WithStatus(t, Running) + (WithStatus(t, Succeeded) + WithStatus(t, Failed)) == t.rows.Keys
  {
  }

  lemma StatusesDiffer(t: Tasks, a: Status, b: Status)
    requires a != b
    ensures WithStatus(t, a) !! WithStatus(t, b)
  {
  }

  lemma StatusesPartition(t: Tasks)
    requires NeverCanceled(t)
    ensures WithStatus(t, Canceled) == {}
    ensures |WithStatus(t, Pending)| + |WithStatus(t, Running)| + |WithStatus(t, Succeeded)| + |WithStatus(t, Failed)|
      == |t.rows.Keys|
  {
    hide WithStatus, NeverCanceled;
    StatusesCover(t);
    StatusesDiffer(t, Pending, Running);
    StatusesDiffer(t, Pending, Succeeded);
    StatusesDiffer(t, Pending, Failed);
    StatusesDiffer(t, Running, Succeeded);
    StatusesDiffer(t, Running, Failed);
    StatusesDiffer(t, Succeeded, Failed);
    Disjoint(WithStatus(t, Pending), WithStatus(t, Running));
    Disjoint(WithStatus(t, Succeeded), WithStatus(t, Failed));
    Disjoint(WithStatus(t, Pending) + WithStatus(t, Running), WithStatus(t, Succeeded) + WithStatus(t, Failed));
  }

  lemma Disjoint(a: set<nat>, b: set<nat>)
    requires a !! b
    ensures |a + b| == |a| + |b|
  {
  }
}
