/** Alert passes that run at the same time. A pass reads the node rows once and then commits one
    statement after the other, so passes and administrators' decisions interleave freely, and a pass
    can act on rows that are out of date. */
module AlertPasses {
  import opened Text
  import opened HealthAlerts

  // ---------------------------------------------------------------- the transition system

  /** The table, and what each pass has still to commit. */
  datatype System = System(rows: Alerts, passes: seq<seq<Statement>>)

  /** A pass reads the nodes and the clock, commits its next statement, or is given up after a database
      error; or an administrator decides. */
  datatype Action =
    | Begin(nodes: seq<NodeRow>, now: nat)
    | Next(pass: nat)
    | Abandon(pass: nat)
    | Decision(nodeId: nat, key: AlertKey, status: AlertStatus)

  /** What an action commits. No administrator can set a row to resolved. */
  function Performed(s: System, action: Action): seq<Statement> {
    match action
    case Next(p) => if p < |s.passes| && s.passes[p] != [] then [s.passes[p][0]] else []
    case Decision(n, key, status) => if status.Resolved? then [] else [Decide(n, key, status)]
    case _ => []
  }

  function Queues(s: System, action: Action): seq<seq<Statement>> {
    match action
    case Begin(nodes, now) => s.passes + [PassOver(nodes, now)]
    case Next(p) => if p < |s.passes| && s.passes[p] != [] then s.passes[p := s.passes[p][1..]] else s.passes
    case Abandon(p) => if p < |s.passes| then s.passes[p := []] else s.passes
    case Decision(_, _, _) => s.passes
  }

  function Step(s: System, action: Action): System {
    System(Run(s.rows, Performed(s, action)), Queues(s, action))
  }

  function After(s: System, actions: seq<Action>): System {
    if actions == [] then s else Step(After(s, actions[..|actions| - 1]), actions[|actions| - 1])
  }

  /** The statements a run commits, in order. */
  function Trace(s: System, actions: seq<Action>): seq<Statement> {
    if actions == [] then []
    else
      var before := actions[..|actions| - 1];
      Trace(s, before) + Performed(After(s, before), actions[|actions| - 1])
  }

  lemma {:induction false} RowsFollowTrace(s: System, actions: seq<Action>)
    ensures After(s, actions).rows == Run(s.rows, Trace(s, actions))
  {
    hide Performed, Queues, Run;
    if actions == [] {
      assert Run(s.rows, []) == s.rows by { EmptyPass(s.rows, 0); }
    } else {
      var before := actions[..|actions| - 1];
      RowsFollowTrace(s, before);
      RunAppends(s.rows, Trace(s, before), Performed(After(s, before), actions[|actions| - 1]));
    }
  }

  lemma {:induction false} AfterAppends(s: System, a: seq<Action>, b: seq<Action>)
    ensures After(s, a + b) == After(After(s, a), b)
    ensures Trace(s, a + b) == Trace(s, a) + Trace(After(s, a), b)
  {
    hide Step, Performed;
    if b == [] {
      assert a + b == a;
    } else {
      var last := |b| - 1;
      assert (a + b)[..|a + b| - 1] == a + b[..last];
      AfterAppends(s, a, b[..last]);
    }
  }

  // ---------------------------------------------------------------- one row

  predicate Active(row: Option<Alert>) {
    row.Some? && !row.value.status.Resolved?
  }

  /** The row is there when step i comes. */
  ghost predicate Present(row: Option<Alert>, steps: seq<RowStep>, i: int)
    requires i <= |steps|
  {
    row.Some? || exists j :: 0 <= j < i && steps[j].Raise?
  }

  /** Step i leaves the row unresolved; step -1 is the start. */
  ghost predicate Opens(row: Option<Alert>, steps: seq<RowStep>, i: int)
    requires -1 <= i < |steps|
  {
    if i == -1 then Active(row) else steps[i].Raise? || (steps[i].Put? && Present(row, steps, i))
  }

  ghost predicate LastWordOpens(row: Option<Alert>, steps: seq<RowStep>) {
    exists i :: -1 <= i < |steps| && Opens(row, steps, i) && forall j :: i < j < |steps| ==> !steps[j].Clear?
  }

  ghost predicate NoneSetResolved(steps: seq<RowStep>) {
    forall i :: 0 <= i < |steps| && steps[i].Put? ==> !steps[i].status.Resolved?
  }

  lemma {:induction false} PresentExactly(row: Option<Alert>, steps: seq<RowStep>)
    ensures RowRun(row, steps).Some? <==> Present(row, steps, |steps|)
  {
    if steps != [] {
      var last := |steps| - 1;
      PresentExactly(row, steps[..last]);
      assert steps[last].Raise? ==> Present(row, steps, |steps|);
      if Present(row, steps[..last], last) && row.None? {
        var j :| 0 <= j < last && steps[..last][j].Raise?;
        assert steps[j].Raise?;
      }
      if Present(row, steps, |steps|) && row.None? && !steps[last].Raise? {
        var j :| 0 <= j < |steps| && steps[j].Raise?;
        assert steps[..last][j].Raise?;
      }
    }
  }

  lemma OpensInPrefix(row: Option<Alert>, steps: seq<RowStep>, m: nat, i: int)
    requires m <= |steps| && -1 <= i < m
    ensures Opens(row, steps[..m], i) <==> Opens(row, steps, i)
  {
    if i >= 0 {
      assert steps[..m][i] == steps[i];
      assert forall j :: 0 <= j < i ==> steps[..m][j] == steps[j];
    }
  }

  lemma LastWordOfPrefix(row: Option<Alert>, steps: seq<RowStep>)
    requires steps != [] && !steps[|steps| - 1].Clear? && !Opens(row, steps, |steps| - 1)
    ensures LastWordOpens(row, steps) <==> LastWordOpens(row, steps[..|steps| - 1])
  {
    hide Opens;
    var last := |steps| - 1;
    var before := steps[..last];
    if LastWordOpens(row, steps) {
      var i :| -1 <= i < |steps| && Opens(row, steps, i) && forall j :: i < j < |steps| ==> !steps[j].Clear?;
      OpensInPrefix(row, steps, last, i);
      assert forall j :: i < j < last ==> before[j] == steps[j];
    }
    if LastWordOpens(row, before) {
      var i :| -1 <= i < |before| && Opens(row, before, i) && forall j :: i < j < |before| ==> !before[j].Clear?;
      OpensInPrefix(row, steps, last, i);
      assert forall j :: i < j < last ==> !before[j].Clear? && before[j] == steps[j];
    }
  }

  /** The last word decides. After any steps, a row is unresolved exactly when some step opened it, or it
      was open at the start, and no step cleared it after that. */
  lemma {:induction false} LastWordDecides(row: Option<Alert>, steps: seq<RowStep>)
    requires NoneSetResolved(steps)
    ensures Active(RowRun(row, steps)) <==> LastWordOpens(row, steps)
  {
    if steps == [] {
      assert Opens(row, steps, -1) <==> Active(row);
    } else {
      var last := |steps| - 1;
      assert forall i :: 0 <= i < last ==> steps[..last][i] == steps[i];
      LastWordDecides(row, steps[..last]);
      PresentExactly(row, steps[..last]);
      if steps[last].Clear? {
        assert forall i :: -1 <= i < |steps| && Opens(row, steps, i) ==> i < last;
      } else if Opens(row, steps, last) {
        SamePresence(row, steps);
        assert LastWordOpens(row, steps);
      } else {
        SamePresence(row, steps);
        LastWordOfPrefix(row, steps);
      }
    }
  }

  lemma SamePresence(row: Option<Alert>, steps: seq<RowStep>)
    requires steps != []
    ensures Present(row, steps[..|steps| - 1], |steps| - 1) <==> Present(row, steps, |steps| - 1)
  {
    var last := |steps| - 1;
    assert forall j :: 0 <= j < last ==> steps[..last][j] == steps[j];
  }

  /** A decision survives exactly while nothing clears the row. */
  lemma {:induction false} DecidedSurvives(row: Alert, steps: seq<RowStep>)
    requires row.status.Acknowledged? || row.status.Ignored?
    requires forall i :: 0 <= i < |steps| ==> !steps[i].Put?
    ensures RowRun(Some(row), steps).Some? && RowRun(Some(row), steps).value.status in {row.status, Open, Resolved}
    ensures RowRun(Some(row), steps).value.status == row.status <==> forall i :: 0 <= i < |steps| ==> !steps[i].Clear?
  {
    if steps != [] {
      var last := |steps| - 1;
      assert forall i :: 0 <= i < last ==> steps[..last][i] == steps[i];
      DecidedSurvives(row, steps[..last]);
    }
  }

  // ---------------------------------------------------------------- steps and the statements they come from

  lemma {:induction false} StepsComeFromTrace(trace: seq<Statement>, n: nat, key: AlertKey, i: nat)
    requires i < |RowSteps(trace, n, key)|
    ensures exists st :: st in trace && EffectOn(st, n, key) == Some(RowSteps(trace, n, key)[i])
  {
    hide EffectOn;
    var before := trace[..|trace| - 1];
    if i < |RowSteps(before, n, key)| {
      StepsComeFromTrace(before, n, key, i);
      var st :| st in before && EffectOn(st, n, key) == Some(RowSteps(before, n, key)[i]);
      assert st in trace;
    } else {
      assert trace[|trace| - 1] in trace;
    }
  }

  lemma {:induction false} TraceShowsInSteps(trace: seq<Statement>, st: Statement, n: nat, key: AlertKey)
    requires st in trace && EffectOn(st, n, key).Some?
    ensures EffectOn(st, n, key).value in RowSteps(trace, n, key)
  {
    hide EffectOn;
    var before := trace[..|trace| - 1];
    if st in before {
      TraceShowsInSteps(before, st, n, key);
    } else {
      assert trace == before + [trace[|trace| - 1]];
    }
  }

  ghost predicate Clears(st: Statement, n: nat, key: AlertKey) {
    st.ResolveMissing? && st.nodeId == n && !HasKey(st.specs, key)
  }

  predicate DecidesOn(action: Action, n: nat, key: AlertKey) {
    action.Decision? && action.nodeId == n && action.key == key
  }

  ghost predicate DecidesNothing(pass: seq<Statement>) {
    forall q :: 0 <= q < |pass| ==> !pass[q].Decide?
  }

  ghost predicate QueuesDecideNothing(passes: seq<seq<Statement>>) {
    forall p :: 0 <= p < |passes| ==> DecidesNothing(passes[p])
  }

  lemma {:induction false} PassDecidesNothing(nodes: seq<NodeRow>, now: nat)
    ensures DecidesNothing(PassOver(nodes, now))
  {
    hide PassOf;
    if nodes != [] {
      var last := |nodes| - 1;
      PassDecidesNothing(nodes[..last], now);
      NodePassDecidesNothing(nodes[last], now);
      var before := PassOver(nodes[..last], now);
      var pass := PassOver(nodes, now);
      assert forall q :: 0 <= q < |pass| ==>
        pass[q] == if q < |before| then before[q] else PassOf(nodes[last], now)[q - |before|];
    }
  }

  lemma NodePassDecidesNothing(node: NodeRow, now: nat)
    ensures DecidesNothing(PassOf(node, now))
  {
    hide SpecsOf;
  }

  lemma {:induction false} PassesDecideNothing(s: System, actions: seq<Action>)
    requires QueuesDecideNothing(s.passes)
    ensures QueuesDecideNothing(After(s, actions).passes)
  {
    hide Performed, PassOver, Run;
    if actions != [] {
      var last := |actions| - 1;
      PassesDecideNothing(s, actions[..last]);
      if actions[last].Begin? {
        PassDecidesNothing(actions[last].nodes, actions[last].now);
      }
    }
  }

  lemma PerformedDecision(s: System, action: Action, st: Statement)
    requires QueuesDecideNothing(s.passes) && st in Performed(s, action) && st.Decide?
    ensures !st.status.Resolved? && DecidesOn(action, st.nodeId, st.key)
  {
  }

  lemma {:induction false} DecidesComeFromActions(s: System, actions: seq<Action>, st: Statement)
    requires st in Trace(s, actions) && st.Decide?
    requires QueuesDecideNothing(s.passes)
    ensures !st.status.Resolved? && exists a :: 0 <= a < |actions| && DecidesOn(actions[a], st.nodeId, st.key)
  {
    hide Performed, QueuesDecideNothing, DecidesOn, After;
    var last := |actions| - 1;
    var before := actions[..last];
    if st in Trace(s, before) {
      DecidesComeFromActions(s, before, st);
      var a :| 0 <= a < |before| && DecidesOn(before[a], st.nodeId, st.key);
      assert actions[a] == before[a];
    } else {
      PassesDecideNothing(s, before);
      PerformedDecision(After(s, before), actions[last], st);
    }
  }

  // ---------------------------------------------------------------- which reads a statement rests on

  /** Some pass of the run read this row of the node at this time. */
  ghost predicate WasRead(actions: seq<Action>, node: NodeRow, now: nat) {
    exists b :: 0 <= b < |actions| && actions[b].Begin? && actions[b].now == now && node in actions[b].nodes
  }

  ghost predicate RestsOnRead(actions: seq<Action>, st: Statement) {
    st.Decide? || exists node, now :: WasRead(actions, node, now) && st in PassOf(node, now)
  }

  ghost predicate AllRest(actions: seq<Action>, trace: seq<Statement>) {
    forall k :: 0 <= k < |trace| ==> RestsOnRead(actions, trace[k])
  }

  lemma ReadsGrow(actions: seq<Action>, action: Action, trace: seq<Statement>)
    requires AllRest(actions, trace)
    ensures AllRest(actions + [action], trace)
  {
    hide PassOf;
    forall k | 0 <= k < |trace| ensures RestsOnRead(actions + [action], trace[k]) {
      assert RestsOnRead(actions, trace[k]);
      if !trace[k].Decide? {
        var node, now :| WasRead(actions, node, now) && trace[k] in PassOf(node, now);
        var b :| 0 <= b < |actions| && actions[b].Begin? && actions[b].now == now && node in actions[b].nodes;
        assert (actions + [action])[b] == actions[b];
        assert WasRead(actions + [action], node, now);
      }
    }
  }

  lemma {:induction false} PassRests(actions: seq<Action>, nodes: seq<NodeRow>, now: nat)
    requires forall i :: 0 <= i < |nodes| ==> WasRead(actions, nodes[i], now)
    ensures AllRest(actions, PassOver(nodes, now))
  {
    hide PassOf, WasRead;
    if nodes != [] {
      var last := |nodes| - 1;
      PassRests(actions, nodes[..last], now);
      var pass := PassOf(nodes[last], now);
      forall k | 0 <= k < |pass| ensures RestsOnRead(actions, pass[k]) {
        assert WasRead(actions, nodes[last], now) && pass[k] in PassOf(nodes[last], now);
      }
    }
  }

  lemma BeginRests(actions: seq<Action>, nodes: seq<NodeRow>, now: nat)
    ensures AllRest(actions + [Begin(nodes, now)], PassOver(nodes, now))
  {
    hide PassOver;
    var more := actions + [Begin(nodes, now)];
    assert more[|actions|] == Begin(nodes, now);
    forall i | 0 <= i < |nodes| ensures WasRead(more, nodes[i], now) {
    }
    PassRests(more, nodes, now);
  }

  /** Every statement of a pass, committed or still to come, rests on a row some pass has read. */
  lemma {:induction false} StatementsRestOnReads(rows: Alerts, actions: seq<Action>)
    ensures AllRest(actions, Trace(System(rows, []), actions))
    ensures forall p :: 0 <= p < |After(System(rows, []), actions).passes| ==>
      AllRest(actions, After(System(rows, []), actions).passes[p])
  {
    hide RestsOnRead, PassOver, Run;
    if actions != [] {
      var last := |actions| - 1;
      var before := actions[..last];
      var s := After(System(rows, []), before);
      assert actions == before + [actions[last]];
      StatementsRestOnReads(rows, before);
      ReadsGrow(before, actions[last], Trace(System(rows, []), before));
      forall p | 0 <= p < |s.passes| ensures AllRest(actions, s.passes[p]) {
        ReadsGrow(before, actions[last], s.passes[p]);
      }
      match actions[last]
      case Begin(nodes, now) => BeginRests(before, nodes, now);
      case Next(p) =>
      case Abandon(p) =>
      case Decision(n, key, status) => DecisionRests(actions, Decide(n, key, status));
    }
  }

  lemma DecisionRests(actions: seq<Action>, st: Statement)
    requires st.Decide?
    ensures RestsOnRead(actions, st)
  {
  }

  // ---------------------------------------------------------------- theorems

  /** Whether an alert is unresolved after any interleaving, read off the committed statements. */
  lemma UnresolvedExactly(rows: Alerts, actions: seq<Action>, n: nat, key: AlertKey)
    ensures Active(Find(After(System(rows, []), actions).rows, n, key))
      <==> LastWordOpens(Find(rows, n, key), RowSteps(Trace(System(rows, []), actions), n, key))
  {
    hide Find, Active, LastWordOpens, RowSteps, After, Trace, Run;
    var s := System(rows, []);
    var steps := RowSteps(Trace(s, actions), n, key);
    RowsFollowTrace(s, actions);
    RowFollowsItsSteps(rows, Trace(s, actions), n, key);
    forall i | 0 <= i < |steps| && steps[i].Put? ensures !steps[i].status.Resolved? {
      StepsComeFromTrace(Trace(s, actions), n, key, i);
      var st :| st in Trace(s, actions) && EffectOn(st, n, key) == Some(steps[i]);
      DecidesComeFromActions(s, actions, st);
    }
    LastWordDecides(Find(rows, n, key), steps);
  }

  /** With no further decision on it, an acknowledgement or a decision to ignore survives any
      interleaving of passes exactly when no committed statement resolves its row. */
  lemma DecisionSurvivesExactly(s: System, actions: seq<Action>, n: nat, key: AlertKey)
    requires Find(s.rows, n, key).Some? && Find(s.rows, n, key).value.status in {Acknowledged, Ignored}
    requires QueuesDecideNothing(s.passes)
    requires forall a :: 0 <= a < |actions| ==> !DecidesOn(actions[a], n, key)
    ensures Find(After(s, actions).rows, n, key).Some?
    ensures Find(After(s, actions).rows, n, key).value.status == Find(s.rows, n, key).value.status
      <==> forall st :: st in Trace(s, actions) ==> !Clears(st, n, key)
  {
    hide Find, RowSteps, After, Trace, Run;
    var trace := Trace(s, actions);
    var steps := RowSteps(trace, n, key);
    RowsFollowTrace(s, actions);
    RowFollowsItsSteps(s.rows, trace, n, key);
    forall i | 0 <= i < |steps| ensures !steps[i].Put? {
      StepsComeFromTrace(trace, n, key, i);
      var st :| st in trace && EffectOn(st, n, key) == Some(steps[i]);
      if st.Decide? {
        DecidesComeFromActions(s, actions, st);
      }
    }
    DecidedSurvives(Find(s.rows, n, key).value, steps);
    forall st | st in trace && Clears(st, n, key) ensures exists i :: 0 <= i < |steps| && steps[i].Clear? {
      TraceShowsInSteps(trace, st, n, key);
      var i :| 0 <= i < |steps| && steps[i] == Clear;
    }
    forall i | 0 <= i < |steps| && steps[i].Clear? ensures exists st :: st in trace && Clears(st, n, key) {
      StepsComeFromTrace(trace, n, key, i);
      var st :| st in trace && EffectOn(st, n, key) == Some(steps[i]);
      assert Clears(st, n, key);
    }
  }

  /** So a decision is only ever lost to a pass that read the node while the condition was not due. If
      the condition was due in every row read of the node, however old, the decision survives. */
  lemma DecisionSurvivesDueReads(rows: Alerts, actions: seq<Action>, more: seq<Action>, n: nat, key: AlertKey)
    requires
      var s := After(System(rows, []), actions);
      Find(s.rows, n, key).Some? && Find(s.rows, n, key).value.status in {Acknowledged, Ignored}
    requires forall a :: 0 <= a < |more| ==> !DecidesOn(more[a], n, key)
    requires forall node, now :: WasRead(actions + more, node, now) && node.id == n ==> Due(node, now, key).Some?
    ensures Find(After(System(rows, []), actions + more).rows, n, key).Some?
    ensures Find(After(System(rows, []), actions + more).rows, n, key).value.status
      == Find(After(System(rows, []), actions).rows, n, key).value.status
  {
    hide Find, After, Trace, Due, PassOf, WasRead;
    var start := System(rows, []);
    var s := After(start, actions);
    AfterAppends(start, actions, more);
    PassesDecideNothing(start, actions);
    StatementsRestOnReads(rows, actions + more);
    forall st | st in Trace(s, more) ensures !Clears(st, n, key) {
      var k :| 0 <= k < |Trace(s, more)| && Trace(s, more)[k] == st;
      var whole := Trace(start, actions + more);
      assert whole[|Trace(start, actions)| + k] == st;
      assert RestsOnRead(actions + more, st);
      if st.ResolveMissing? && st.nodeId == n {
        var node, now :| WasRead(actions + more, node, now) && st in PassOf(node, now);
        ResolveHasDueKeys(node, now, st, key);
      }
    }
    DecisionSurvivesExactly(s, more, n, key);
  }

  lemma ResolveHasDueKeys(node: NodeRow, now: nat, st: Statement, key: AlertKey)
    requires st in PassOf(node, now) && st.ResolveMissing?
    ensures st.nodeId == node.id && (HasKey(st.specs, key) <==> Due(node, now, key).Some?)
  {
    hide Due, SpecsOf, HasKey;
    SpecsTellDue(node, now, key);
  }

  /** The statements on one node. */
  function OnNode(trace: seq<Statement>, n: nat): seq<Statement> {
    if trace == [] then []
    else
      OnNode(trace[..|trace| - 1], n) + (if trace[|trace| - 1].nodeId == n then [trace[|trace| - 1]] else [])
  }

  lemma {:induction false} OnlyItsNodeMatters(trace: seq<Statement>, n: nat, key: AlertKey)
    ensures RowSteps(OnNode(trace, n), n, key) == RowSteps(trace, n, key)
  {
    hide HasKey;
    if trace != [] {
      var before := trace[..|trace| - 1];
      OnlyItsNodeMatters(before, n, key);
      var st := trace[|trace| - 1];
      if st.nodeId == n {
        assert OnNode(trace, n)[..|OnNode(trace, n)| - 1] == OnNode(before, n);
      } else {
        assert OnNode(trace, n) == OnNode(before, n);
      }
    }
  }

  /** The next undisturbed pass restores the fixed point. From any state, whatever stale passes have
      done to it, if the statements committed on a node are those of one pass, with statements on other
      nodes in between, the node's rows follow what that pass read: unresolved alerts are those due. */
  lemma UndisturbedPassRestores(s: System, actions: seq<Action>, node: NodeRow, now: nat)
    requires OnNode(Trace(s, actions), node.id) == PassOf(node, now)
    ensures forall key ::
      && Find(After(s, actions).rows, node.id, key) == Reconciled(Find(s.rows, node.id, key), Due(node, now, key))
      && (Active(Find(After(s, actions).rows, node.id, key)) <==> Due(node, now, key).Some?)
  {
    hide After, Trace, PassOf, Due, Find, Run;
    RowsFollowTrace(s, actions);
    forall key ensures Find(After(s, actions).rows, node.id, key) == Reconciled(Find(s.rows, node.id, key), Due(node, now, key)) {
      RowFollowsItsSteps(s.rows, Trace(s, actions), node.id, key);
      OnlyItsNodeMatters(Trace(s, actions), node.id, key);
      PassSteps(node, now, key);
      OneStep(Find(s.rows, node.id, key), Due(node, now, key));
    }
  }

  /** A statement of a pass that sees the same conditions due, or a decision on a condition that is. */
  ghost predicate Agrees(st: Statement, node: NodeRow, now: nat) {
    match st
    case Upsert(_, spec) => Due(node, now, spec.key).Some?
    case ResolveMissing(_, specs) => forall key :: HasKey(specs, key) <==> Due(node, now, key).Some?
    case Decide(_, key, _) => Due(node, now, key).Some?
  }

  /** Passes that agree on what is due do not disturb one another: once each due alert has been upserted
      and one of the passes has resolved the others, in whatever order, unresolved alerts are those due. */
  lemma AgreeingPassesSettle(rows: Alerts, trace: seq<Statement>, node: NodeRow, now: nat, key: AlertKey)
    requires forall st :: st in trace && st.nodeId == node.id ==> Agrees(st, node, now)
    requires forall st :: st in trace && st.Decide? ==> !st.status.Resolved?
    requires exists st :: st in trace && st.nodeId == node.id && st.ResolveMissing?
    requires Due(node, now, key).Some? ==> exists st :: st in trace && st.Upsert? && st.nodeId == node.id && st.spec.key == key
    ensures Active(Find(Run(rows, trace), node.id, key)) <==> Due(node, now, key).Some?
  {
    hide Due, Run, RowSteps, Find, RowRun;
    var row := Find(rows, node.id, key);
    var steps := RowSteps(trace, node.id, key);
    RowFollowsItsSteps(rows, trace, node.id, key);
    forall i | 0 <= i < |steps|
      ensures steps[i].Clear? <==> Due(node, now, key).None?
      ensures steps[i].Put? ==> !steps[i].status.Resolved?
    {
      StepsComeFromTrace(trace, node.id, key, i);
      var st :| st in trace && EffectOn(st, node.id, key) == Some(steps[i]);
      assert Agrees(st, node, now);
    }
    LastWordDecides(row, steps);
    if Due(node, now, key).Some? {
      var st :| st in trace && st.Upsert? && st.nodeId == node.id && st.spec.key == key;
      TraceShowsInSteps(trace, st, node.id, key);
      var i :| 0 <= i < |steps| && steps[i] == Raise(st.spec.severity);
      assert Opens(row, steps, i);
    } else {
      var st :| st in trace && st.nodeId == node.id && st.ResolveMissing?;
      assert Agrees(st, node, now) && EffectOn(st, node.id, key) == Some(Clear);
      TraceShowsInSteps(trace, st, node.id, key);
      OnlyClears(row, steps);
    }
  }

  lemma OnlyClears(row: Option<Alert>, steps: seq<RowStep>)
    requires steps != [] && forall i :: 0 <= i < |steps| ==> steps[i].Clear?
    ensures !LastWordOpens(row, steps)
  {
    forall i | -1 <= i < |steps| && Opens(row, steps, i) ensures exists j :: i < j < |steps| && steps[j].Clear? {
      assert i == -1 && steps[0].Clear?;
    }
  }

  // ---------------------------------------------------------------- what a stale pass can do

  lemma NextCommits(s: System, p: nat)
    requires p < |s.passes| && s.passes[p] != []
    ensures Performed(s, Next(p)) == [s.passes[p][0]]
    ensures Step(s, Next(p)).passes == s.passes[p := s.passes[p][1..]]
  {
    hide Run;
  }

  /** Any pass can be run to its end, with nothing in between. */
  lemma {:induction false} RunToEnd(s: System, p: nat) returns (actions: seq<Action>)
    requires p < |s.passes|
    ensures forall a :: 0 <= a < |actions| ==> actions[a].Next?
    ensures After(s, actions).passes == s.passes[p := []] && Trace(s, actions) == s.passes[p]
    decreases |s.passes[p]|
  {
    hide Step, Performed, After, Trace;
    if s.passes[p] == [] {
      actions := [];
      NoAction(s);
    } else {
      var t := Step(s, Next(p));
      NextCommits(s, p);
      var rest := RunToEnd(t, p);
      actions := [Next(p)] + rest;
      OneAction(s, Next(p));
      AfterAppends(s, [Next(p)], rest);
      assert [s.passes[p][0]] + s.passes[p][1..] == s.passes[p];
      assert t.passes[p := []] == s.passes[p := []];
    }
  }

  lemma NoAction(s: System)
    ensures After(s, []) == s && Trace(s, []) == []
  {
  }

  lemma OneAction(s: System, action: Action)
    ensures After(s, [action]) == Step(s, action) && Trace(s, [action]) == Performed(s, action)
  {
    hide Step, Performed;
    assert [action][..0] == [];
    NoAction(s);
  }

  lemma BeginQueues(s: System, node: NodeRow, now: nat)
    ensures Step(s, Begin([node], now)) == System(s.rows, s.passes + [PassOf(node, now)])
  {
    hide PassOf;
    assert [node][..0] == [] && [] + PassOf(node, now) == PassOf(node, now);
    assert PassOver([node], now) == PassOf(node, now);
  }

  /** A stale pass can undo a newer one. Whatever the state, if one pass read a node when a condition was
      not due, and another then read it when it was, there is a run in which both passes end and the
      alert that is due is resolved, whatever decision stood on it. */
  lemma StalePassResolvesDue(s: System, stale: NodeRow, at: nat, node: NodeRow, now: nat, key: AlertKey)
      returns (nexts: seq<Action>)
    requires stale.id == node.id && Due(stale, at, key).None? && Due(node, now, key).Some?
    ensures forall a :: 0 <= a < |nexts| ==> nexts[a].Next?
    ensures
      var t := After(s, [Begin([stale], at)] + ([Begin([node], now)] + nexts));
      && t.passes == s.passes + [[], []]
      && Find(t.rows, node.id, key).Some? && Find(t.rows, node.id, key).value.status.Resolved?
  {
    hide Step, After, Trace, PassOf, Due, Find, Run;
    var both := System(s.rows, s.passes + [PassOf(stale, at)] + [PassOf(node, now)]);
    BeginQueues(s, stale, at);
    BeginQueues(Step(s, Begin([stale], at)), node, now);
    OneAction(s, Begin([stale], at));
    OneAction(Step(s, Begin([stale], at)), Begin([node], now));
    var first := RunToEnd(both, |s.passes| + 1);
    var second := RunToEnd(After(both, first), |s.passes|);
    nexts := first + second;
    AfterAppends(s, [Begin([stale], at)], [Begin([node], now)] + nexts);
    AfterAppends(Step(s, Begin([stale], at)), [Begin([node], now)], nexts);
    AfterAppends(both, first, second);
    RowsFollowTrace(both, first);
    RowsFollowTrace(After(both, first), second);
    PassReconciles(s.rows, node, now);
    PassReconciles(Run(s.rows, PassOf(node, now)), stale, at);
    assert After(both, first + second).passes == s.passes + [[], []];
  }
}
