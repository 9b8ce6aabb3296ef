/** Node health alerts: the alert conditions of a node, and the reconciliation of the alert table with
    them. Titles, messages and time stamps are not modelled. */
module HealthAlerts {
  import opened Text

  datatype AlertKey = NodeStatus | ReportMissing | ReportStale | ReportSlow | ReportStatus | ListenerDown | SshFailed

  datatype Severity = Warning | Critical

  datatype AlertStatus = Open | Acknowledged | Ignored | Resolved

  datatype Spec = Spec(key: AlertKey, severity: Severity)

  datatype Alert = Alert(severity: Severity, status: AlertStatus)

  /** One row per node and key. */
  type Alerts = map<(nat, AlertKey), Alert>

  datatype NodeRow = NodeRow(
    id: nat,
    status: string,
    lastReportAt: Option<nat>,
    latestReportStatus: Option<string>,
    listenerFlags: Option<(Option<bool>, Option<bool>)>,
    sshHost: Option<string>,
    sshAuthStatus: Option<string>)

  // ---------------------------------------------------------------- conditions

  function Planned(node: NodeRow): bool {
    node.status in {"pending_install", "disabled", "draining"}
  }

  function ReportAge(node: NodeRow, now: nat): nat
    requires node.lastReportAt.Some?
  {
    if now >= node.lastReportAt.value then now - node.lastReportAt.value else 0
  }

  /** When a key is due, with which severity: the meaning the specs are checked against. */
  function Due(node: NodeRow, now: nat, key: AlertKey): Option<Severity> {
    match key
    case NodeStatus =>
      if node.status == "online" then None else if Planned(node) then Some(Warning) else Some(Critical)
    case ReportMissing =>
      if node.lastReportAt.Some? then None else if Planned(node) then Some(Warning) else Some(Critical)
    case ReportStale =>
      if node.lastReportAt.Some? && ReportAge(node, now) > 180 then Some(Critical) else None
    case ReportSlow =>
      if node.lastReportAt.Some? && 90 < ReportAge(node, now) <= 180 then Some(Warning) else None
    case ReportStatus =>
      if node.latestReportStatus.None? || node.latestReportStatus.value == "ready" then None
      else if node.latestReportStatus.value == "degraded" then Some(Warning)
      else Some(Critical)
    case ListenerDown =>
      if node.status == "online" && node.listenerFlags.Some?
         && (node.listenerFlags.value.0 == Some(false) || node.listenerFlags.value.1 == Some(false))
      then Some(Critical) else None
    case SshFailed =>
      if node.sshHost.Some? && node.sshAuthStatus == Some("failed") then Some(Warning) else None
  }

  predicate DistinctKeys(specs: seq<Spec>) {
    forall i, j :: 0 <= i < j < |specs| ==> specs[i].key != specs[j].key
  }

  /** The specs are, key by key, what is due. */
  ghost predicate SpecsAre(specs: seq<Spec>, due: AlertKey -> Option<Severity>) {
    && DistinctKeys(specs)
    && (forall i :: 0 <= i < |specs| ==> due(specs[i].key) == Some(specs[i].severity))
    && (forall key :: due(key).Some? ==> Spec(key, due(key).value) in specs)
  }

  /** The part of Due that concerns the first m keys, in the order in which they are pushed. */
  function Rank(key: AlertKey): nat {
    match key
    case NodeStatus => 0
    case ReportMissing => 1
    case ReportStale => 2
    case ReportSlow => 3
    case ReportStatus => 4
    case ListenerDown => 5
    case SshFailed => 6
  }

  function DueUpTo(node: NodeRow, now: nat, m: nat): AlertKey -> Option<Severity> {
    key => if Rank(key) < m then Due(node, now, key) else None
  }

  lemma PushKeepsSpecs(node: NodeRow, now: nat, specs: seq<Spec>, key: AlertKey)
    requires SpecsAre(specs, DueUpTo(node, now, Rank(key)))
    ensures
      var due := Due(node, now, key);
      SpecsAre(Pushed(specs, due, key), DueUpTo(node, now, Rank(key) + 1))
  {
    hide Due;
    var due := Due(node, now, key);
    var more := Pushed(specs, due, key);
    forall i | 0 <= i < |specs| ensures specs[i].key != key {
      assert DueUpTo(node, now, Rank(key))(specs[i].key) == Some(specs[i].severity);
    }
    var next := DueUpTo(node, now, Rank(key) + 1);
    forall k | next(k).Some? ensures Spec(k, next(k).value) in more {
      assert Rank(k) == Rank(key) ==> k == key;
      assert k != key ==> DueUpTo(node, now, Rank(key))(k).Some?;
    }
  }

  const KEYS: seq<AlertKey> := [NodeStatus, ReportMissing, ReportStale, ReportSlow, ReportStatus, ListenerDown, SshFailed]

  function Pushed(specs: seq<Spec>, due: Option<Severity>, key: AlertKey): seq<Spec> {
    if due.Some? then specs + [Spec(key, due.value)] else specs
  }

  /** The specs of the first m keys, in order. */
  function SpecsUpTo(node: NodeRow, now: nat, m: nat): seq<Spec>
    requires m <= 7
  {
    if m == 0 then [] else Pushed(SpecsUpTo(node, now, m - 1), Due(node, now, KEYS[m - 1]), KEYS[m - 1])
  }

  function SpecsOf(node: NodeRow, now: nat): seq<Spec> {
    SpecsUpTo(node, now, 7)
  }

  lemma NextSpecs(node: NodeRow, now: nat, key: AlertKey)
    ensures Rank(key) < 7
    ensures SpecsUpTo(node, now, Rank(key) + 1) == Pushed(SpecsUpTo(node, now, Rank(key)), Due(node, now, key), key)
  {
    hide Due, Pushed;
  }

  lemma {:induction false} SpecsUpToAre(node: NodeRow, now: nat, m: nat)
    requires m <= 7
    ensures SpecsAre(SpecsUpTo(node, now, m), DueUpTo(node, now, m))
  {
    hide Due, SpecsAre;
    if m == 0 {
      NothingDue(node, now);
    } else {
      SpecsUpToAre(node, now, m - 1);
      PushKeepsSpecs(node, now, SpecsUpTo(node, now, m - 1), KEYS[m - 1]);
    }
  }

  lemma SpecsOfAre(node: NodeRow, now: nat)
    ensures SpecsAre(SpecsOf(node, now), key => Due(node, now, key))
  {
    hide Due, SpecsUpTo;
    SpecsUpToAre(node, now, 7);
    assert forall key :: DueUpTo(node, now, 7)(key) == Due(node, now, key);
  }

  /** The alerts a node deserves, pushed one condition after the other: exactly one spec for every key
      that is due, and no other. */
  method BuildNodeHealthAlertSpecs(node: NodeRow, now: nat) returns (alerts: seq<Spec>)
    ensures SpecsAre(alerts, key => Due(node, now, key))
    ensures alerts == SpecsOf(node, now)
  {
    hide SpecsAre, SpecsUpTo;
    alerts := [];
    assert SpecsUpTo(node, now, 0) == [] by { NoSpecs(node, now); }
    if node.status != "online" {
      alerts := alerts + [Spec(NodeStatus, if Planned(node) then Warning else Critical)];
    }
    NextSpecs(node, now, NodeStatus);
    assert alerts == SpecsUpTo(node, now, 1);
    NextSpecs(node, now, ReportMissing);
    NextSpecs(node, now, ReportStale);
    NextSpecs(node, now, ReportSlow);
    if node.lastReportAt.None? {
      alerts := alerts + [Spec(ReportMissing, if Planned(node) then Warning else Critical)];
    } else {
      var age := ReportAge(node, now);
      if age > 180 {
        alerts := alerts + [Spec(ReportStale, Critical)];
      } else if age > 90 {
        alerts := alerts + [Spec(ReportSlow, Warning)];
      }
    }
    assert alerts == SpecsUpTo(node, now, 4);
    NextSpecs(node, now, ReportStatus);
    if node.latestReportStatus.Some? {
      if node.latestReportStatus.value != "ready" {
        alerts := alerts + [Spec(ReportStatus, if node.latestReportStatus.value == "degraded" then Warning else Critical)];
      }
    }
    assert alerts == SpecsUpTo(node, now, 5);
    NextSpecs(node, now, ListenerDown);
    if node.status == "online" && node.listenerFlags.Some? {
      var (udp, tcp) := node.listenerFlags.value;
      if udp == Some(false) || tcp == Some(false) {
        alerts := alerts + [Spec(ListenerDown, Critical)];
      }
    }
    assert alerts == SpecsUpTo(node, now, 6);
    NextSpecs(node, now, SshFailed);
    if node.sshHost.Some? && node.sshAuthStatus == Some("failed") {
      alerts := alerts + [Spec(SshFailed, Warning)];
    }
    SpecsOfAre(node, now);
  }

  lemma NoSpecs(node: NodeRow, now: nat)
    ensures SpecsUpTo(node, now, 0) == []
  {
  }

  lemma NothingDue(node: NodeRow, now: nat)
    ensures SpecsAre([], DueUpTo(node, now, 0))
  {
  }

  // ---------------------------------------------------------------- reconciliation

  /** A row after an upsert of a due alert. */
  function Raised(before: Option<Alert>, severity: Severity): Alert {
    Alert(severity, if before.None? || before.value.status.Resolved? then Open else before.value.status)
  }

  function Find(rows: Alerts, nodeId: nat, key: AlertKey): Option<Alert> {
    if (nodeId, key) in rows then Some(rows[(nodeId, key)]) else None
  }

  /** What becomes of one row of a reconciled node. */
  function Reconciled(before: Option<Alert>, due: Option<Severity>): Option<Alert> {
    if due.Some? then Some(Raised(before, due.value))
    else if before.Some? then Some(before.value.(status := Resolved))
    else None
  }

  /** The table after one node's reconciliation: its rows follow what is due, all others are kept. */
  ghost predicate NodeReconciled(before: Alerts, node: NodeRow, now: nat, after: Alerts) {
    && (forall key :: Find(after, node.id, key) == Reconciled(Find(before, node.id, key), Due(node, now, key)))
    && (forall n: nat, key :: n != node.id ==> Find(after, n, key) == Find(before, n, key))
  }

  // ---------------------------------------------------------------- statements

  /** What is committed to the table at once. A pass is many statements and no transaction. */
  datatype Statement =
    | Upsert(nodeId: nat, spec: Spec)
    | ResolveMissing(nodeId: nat, specs: seq<Spec>)
    | Decide(nodeId: nat, key: AlertKey, status: AlertStatus)

  function Execute(rows: Alerts, st: Statement): Alerts {
    match st
    case Upsert(n, spec) => rows[(n, spec.key) := Raised(Find(rows, n, spec.key), spec.severity)]
    case ResolveMissing(n, specs) =>
      map k | k in rows :: if Missing(n, specs, k) then rows[k].(status := Resolved) else rows[k]
    case Decide(n, key, status) =>
      if (n, key) in rows then rows[(n, key) := rows[(n, key)].(status := status)] else rows
  }

  function Run(rows: Alerts, trace: seq<Statement>): Alerts {
    if trace == [] then rows else Execute(Run(rows, trace[..|trace| - 1]), trace[|trace| - 1])
  }

  lemma {:induction false} RunAppends(rows: Alerts, a: seq<Statement>, b: seq<Statement>)
    ensures Run(rows, a + b) == Run(Run(rows, a), b)
  {
    hide Execute;
    if b == [] {
      assert a + b == a;
    } else {
      var last := |b| - 1;
      assert (a + b)[..|a + b| - 1] == a + b[..last];
      RunAppends(rows, a, b[..last]);
    }
  }

  function Upserts(nodeId: nat, specs: seq<Spec>): (r: seq<Statement>)
    ensures |r| == |specs|
  {
    seq(|specs|, i requires 0 <= i < |specs| => Upsert(nodeId, specs[i]))
  }

  /** The statements of one node's pass, with the specs of the row that was read. */
  function PassOf(node: NodeRow, now: nat): seq<Statement> {
    Upserts(node.id, SpecsOf(node, now)) + [ResolveMissing(node.id, SpecsOf(node, now))]
  }

  function PassOver(nodes: seq<NodeRow>, now: nat): seq<Statement> {
    if nodes == [] then [] else PassOver(nodes[..|nodes| - 1], now) + PassOf(nodes[|nodes| - 1], now)
  }

  class AlertTable {
    var rows: Alerts

    constructor ()
      ensures rows == map[]
    {
      rows := map[];
    }

    /** INSERT ... ON DUPLICATE KEY UPDATE. */
    method UpsertHealthAlert(nodeId: nat, spec: Spec)
      modifies this
      ensures rows == old(rows)[(nodeId, spec.key) := Raised(Find(old(rows), nodeId, spec.key), spec.severity)]
      ensures rows == Execute(old(rows), Upsert(nodeId, spec))
      ensures (nodeId, spec.key) in rows && rows[(nodeId, spec.key)].severity == spec.severity
      ensures rows[(nodeId, spec.key)].status
        == if (nodeId, spec.key) in old(rows) && old(rows)[(nodeId, spec.key)].status in {Open, Acknowledged, Ignored}
           then old(rows)[(nodeId, spec.key)].status else Open
    {
      if (nodeId, spec.key) in rows {
        var row := rows[(nodeId, spec.key)];
        row := row.(severity := spec.severity);
        row := row.(status := if row.status == Resolved then Open else row.status);
        rows := rows[(nodeId, spec.key) := row];
      } else {
        rows := rows[(nodeId, spec.key) := Alert(spec.severity, Open)];
      }
    }

    /** One UPDATE: every open, acknowledged or ignored row of the node without a spec is resolved. */
    method ResolveMissingHealthAlerts(nodeId: nat, specs: seq<Spec>)
      modifies this
      ensures rows == map k | k in old(rows) :: if Missing(nodeId, specs, k) then old(rows)[k].(status := Resolved) else old(rows)[k]
      ensures rows == Execute(old(rows), ResolveMissing(nodeId, specs))
    {
      rows := map k | k in rows :: if Missing(nodeId, specs, k) then rows[k].(status := Resolved) else rows[k];
    }

    method ReconcileNode(node: NodeRow, now: nat)
      modifies this
      ensures NodeReconciled(old(rows), node, now, rows)
      ensures rows == Run(old(rows), PassOf(node, now))
    {
      hide Due, Raised, SpecsUpTo, Execute;
      var specs := BuildNodeHealthAlertSpecs(node, now);
      ghost var before := rows;
      for i := 0 to |specs|
        invariant rows == Run(before, Upserts(node.id, specs)[..i])
      {
        assert Upserts(node.id, specs)[..i + 1][..i] == Upserts(node.id, specs)[..i];
        UpsertHealthAlert(node.id, specs[i]);
      }
      assert Upserts(node.id, specs)[..|specs|] == Upserts(node.id, specs) == PassOf(node, now)[..|specs|];
      ResolveMissingHealthAlerts(node.id, specs);
      PassReconciles(before, node, now);
    }

    /** The whole pass, when it runs alone: every listed node is reconciled and no other node's rows
        change. */
    method ReconcileNodeHealthAlerts(nodes: seq<NodeRow>, now: nat)
      requires forall i, j :: 0 <= i < j < |nodes| ==> nodes[i].id != nodes[j].id
      modifies this
      ensures rows == Run(old(rows), PassOver(nodes, now))
      ensures forall i, key :: 0 <= i < |nodes| ==>
        Find(rows, nodes[i].id, key) == Reconciled(Find(old(rows), nodes[i].id, key), Due(nodes[i], now, key))
      ensures forall n: nat, key :: (forall i :: 0 <= i < |nodes| ==> nodes[i].id != n) ==>
        Find(rows, n, key) == Find(old(rows), n, key)
    {
      hide Due, Reconciled, Find, Run, PassOf;
      assert PassOver(nodes[..0], now) == [] && Run(rows, []) == rows by { EmptyPass(rows, now); }
      for k := 0 to |nodes|
        invariant rows == Run(old(rows), PassOver(nodes[..k], now))
        invariant forall i, key :: 0 <= i < k ==>
          Find(rows, nodes[i].id, key) == Reconciled(Find(old(rows), nodes[i].id, key), Due(nodes[i], now, key))
        invariant forall n: nat, key :: (forall i :: 0 <= i < k ==> nodes[i].id != n) ==>
          Find(rows, n, key) == Find(old(rows), n, key)
      {
        RunAppends(old(rows), PassOver(nodes[..k], now), PassOf(nodes[k], now));
        assert nodes[..k + 1][..k] == nodes[..k];
        ReconcileNode(nodes[k], now);
      }
      assert nodes[..|nodes|] == nodes;
    }

    /** An administrator opens, acknowledges or ignores an alert. */
    method UpdateHealthAlertStatus(nodeId: nat, key: AlertKey, status: AlertStatus) returns (found: bool)
      requires !status.Resolved?
      modifies this
      ensures found <==> (nodeId, key) in old(rows)
      ensures rows == if found then old(rows)[(nodeId, key) := old(rows)[(nodeId, key)].(status := status)] else old(rows)
      ensures rows == Execute(old(rows), Decide(nodeId, key, status))
    {
      found := (nodeId, key) in rows;
      if found {
        rows := rows[(nodeId, key) := rows[(nodeId, key)].(status := status)];
      }
    }
  }

  predicate HasKey(specs: seq<Spec>, key: AlertKey) {
    exists i :: 0 <= i < |specs| && specs[i].key == key
  }

  predicate Missing(nodeId: nat, specs: seq<Spec>, k: (nat, AlertKey)) {
    k.0 == nodeId && !HasKey(specs, k.1)
  }

  lemma EmptyPass(rows: Alerts, now: nat)
    ensures PassOver([], now) == [] && Run(rows, []) == rows
  {
  }

  // ---------------------------------------------------------------- what statements do to one row

  /** What a statement does to one row. */
  datatype RowStep = Raise(severity: Severity) | Clear | Put(status: AlertStatus)

  function EffectOn(st: Statement, n: nat, key: AlertKey): Option<RowStep> {
    match st
    case Upsert(m, spec) => if m == n && spec.key == key then Some(Raise(spec.severity)) else None
    case ResolveMissing(m, specs) => if m == n && !HasKey(specs, key) then Some(Clear) else None
    case Decide(m, k, status) => if m == n && k == key then Some(Put(status)) else None
  }

  function RowAfter(row: Option<Alert>, step: RowStep): Option<Alert> {
    match step
    case Raise(severity) => Some(Raised(row, severity))
    case Clear => if row.Some? then Some(row.value.(status := Resolved)) else None
    case Put(status) => if row.Some? then Some(row.value.(status := status)) else None
  }

  function RowRun(row: Option<Alert>, steps: seq<RowStep>): Option<Alert> {
    if steps == [] then row else RowAfter(RowRun(row, steps[..|steps| - 1]), steps[|steps| - 1])
  }

  function AsSteps(step: Option<RowStep>): seq<RowStep> {
    if step.Some? then [step.value] else []
  }

  function RowSteps(trace: seq<Statement>, n: nat, key: AlertKey): seq<RowStep> {
    if trace == [] then []
    else RowSteps(trace[..|trace| - 1], n, key) + AsSteps(EffectOn(trace[|trace| - 1], n, key))
  }

  lemma ExecuteOnRow(rows: Alerts, st: Statement, n: nat, key: AlertKey)
    ensures Find(Execute(rows, st), n, key)
      == if EffectOn(st, n, key).Some? then RowAfter(Find(rows, n, key), EffectOn(st, n, key).value) else Find(rows, n, key)
  {
    hide Raised, HasKey;
  }

  lemma MoreSteps(row: Option<Alert>, steps: seq<RowStep>, step: Option<RowStep>)
    ensures RowRun(row, steps + AsSteps(step))
      == if step.Some? then RowAfter(RowRun(row, steps), step.value) else RowRun(row, steps)
  {
    hide RowAfter;
    assert step.Some? ==> (steps + [step.value])[..|steps|] == steps;
    assert steps + [] == steps;
  }

  /** Rows are independent: what becomes of one is decided by the steps that concern it, in order. */
  lemma {:induction false} RowFollowsItsSteps(rows: Alerts, trace: seq<Statement>, n: nat, key: AlertKey)
    ensures Find(Run(rows, trace), n, key) == RowRun(Find(rows, n, key), RowSteps(trace, n, key))
  {
    hide Execute, EffectOn, RowAfter, Find;
    if trace != [] {
      var before := trace[..|trace| - 1];
      RowFollowsItsSteps(rows, before, n, key);
      ExecuteOnRow(Run(rows, before), trace[|trace| - 1], n, key);
      MoreSteps(Find(rows, n, key), RowSteps(before, n, key), EffectOn(trace[|trace| - 1], n, key));
    }
  }

  /** Upserts of distinct keys raise each row at most once. */
  lemma {:induction false} UpsertSteps(n: nat, specs: seq<Spec>, m: nat, key: AlertKey, i: nat)
    requires DistinctKeys(specs) && m <= |specs|
    requires HasKey(specs, key) ==> i < |specs| && specs[i].key == key
    ensures RowSteps(Upserts(n, specs)[..m], n, key)
      == if HasKey(specs, key) && i < m then [Raise(specs[i].severity)] else []
  {
    if m > 0 {
      UpsertSteps(n, specs, m - 1, key, i);
      assert Upserts(n, specs)[..m][..m - 1] == Upserts(n, specs)[..m - 1];
      assert specs[m - 1].key == key ==> HasKey(specs, key);
    }
  }

  lemma SpecsTellDue(node: NodeRow, now: nat, key: AlertKey)
    ensures HasKey(SpecsOf(node, now), key) <==> Due(node, now, key).Some?
    ensures Due(node, now, key).Some? ==> Spec(key, Due(node, now, key).value) in SpecsOf(node, now)
    ensures DistinctKeys(SpecsOf(node, now))
  {
    hide Due, SpecsOf;
    SpecsOfAre(node, now);
    var due := (k => Due(node, now, k));
    assert due(key) == Due(node, now, key);
    if due(key).Some? {
      var i :| 0 <= i < |SpecsOf(node, now)| && SpecsOf(node, now)[i] == Spec(key, due(key).value);
      assert HasKey(SpecsOf(node, now), key);
    }
  }

  /** A node's own pass does one thing to each of its rows: raise it when due, clear it otherwise. */
  lemma PassSteps(node: NodeRow, now: nat, key: AlertKey)
    ensures RowSteps(PassOf(node, now), node.id, key)
      == if Due(node, now, key).Some? then [Raise(Due(node, now, key).value)] else [Clear]
  {
    hide Due, SpecsOf, HasKey, DistinctKeys;
    var specs := SpecsOf(node, now);
    SpecsTellDue(node, now, key);
    var i: nat := 0;
    if Due(node, now, key).Some? {
      i :| 0 <= i < |specs| && specs[i] == Spec(key, Due(node, now, key).value);
    }
    UpsertSteps(node.id, specs, |specs|, key, i);
    assert PassOf(node, now)[..|specs|] == Upserts(node.id, specs) == Upserts(node.id, specs)[..|specs|];
  }

  lemma {:induction false} OtherNodesSteps(trace: seq<Statement>, n: nat, key: AlertKey)
    requires forall st :: st in trace ==> st.nodeId != n
    ensures RowSteps(trace, n, key) == []
  {
    if trace != [] {
      OtherNodesSteps(trace[..|trace| - 1], n, key);
      assert trace[|trace| - 1] in trace;
    }
  }

  lemma PassReconciles(before: Alerts, node: NodeRow, now: nat)
    ensures NodeReconciled(before, node, now, Run(before, PassOf(node, now)))
  {
    hide Due, PassOf, Find, Raised;
    forall key ensures Find(Run(before, PassOf(node, now)), node.id, key) == Reconciled(Find(before, node.id, key), Due(node, now, key)) {
      RowFollowsItsSteps(before, PassOf(node, now), node.id, key);
      PassSteps(node, now, key);
      OneStep(Find(before, node.id, key), Due(node, now, key));
    }
    forall n: nat, key | n != node.id ensures Find(Run(before, PassOf(node, now)), n, key) == Find(before, n, key) {
      RowFollowsItsSteps(before, PassOf(node, now), n, key);
      OwnStatements(node, now);
      OtherNodesSteps(PassOf(node, now), n, key);
    }
  }

  lemma OneStep(row: Option<Alert>, due: Option<Severity>)
    ensures RowRun(row, if due.Some? then [Raise(due.value)] else [Clear]) == Reconciled(row, due)
  {
    assert [Clear][..0] == [];
    assert due.Some? ==> [Raise(due.value)][..0] == [];
  }

  lemma OwnStatements(node: NodeRow, now: nat)
    ensures forall st :: st in PassOf(node, now) ==> st.nodeId == node.id
  {
    hide SpecsOf;
  }

  // ---------------------------------------------------------------- theorems

  /** After reconciling, the alerts of a node that are not resolved are exactly those due, and
      reconciling again with the same conditions changes nothing. */
  lemma ReconciliationIsFixedPoint(before: Alerts, node: NodeRow, now: nat, after: Alerts, again: Alerts)
    requires NodeReconciled(before, node, now, after) && NodeReconciled(after, node, now, again)
    ensures again == after
    ensures forall key :: (Find(after, node.id, key).Some? && !Find(after, node.id, key).value.status.Resolved?)
                          <==> Due(node, now, key).Some?
    ensures forall key :: Due(node, now, key).Some? ==> Find(after, node.id, key).value.severity == Due(node, now, key).value
  {
    hide Due;
    forall k | k in after || k in again ensures k in after && k in again && after[k] == again[k] {
      assert Find(again, k.0, k.1) == Find(after, k.0, k.1);
    }
  }

  /** What repeated reconciliations make of one row, given what was due each time. */
  function Replay(row: Option<Alert>, due: seq<Option<Severity>>): Option<Alert> {
    if due == [] then row else Reconciled(Replay(row, due[..|due| - 1]), due[|due| - 1])
  }

  /** An acknowledgement, or a decision to ignore, survives exactly while the condition persists; once
      the condition has lapsed it does not come back by itself. */
  lemma {:induction false} DecisionSurvivesWhileDue(row: Alert, due: seq<Option<Severity>>)
    requires row.status.Acknowledged? || row.status.Ignored?
    ensures Replay(Some(row), due).Some?
    ensures Replay(Some(row), due).value.status == row.status <==> forall i :: 0 <= i < |due| ==> due[i].Some?
    ensures Replay(Some(row), due).value.status in {row.status, Open, Resolved}
  {
    if due != [] {
      var last := |due| - 1;
      DecisionSurvivesWhileDue(row, due[..last]);
      assert forall i :: 0 <= i < last ==> due[..last][i] == due[i];
      if forall i :: 0 <= i < |due| ==> due[i].Some? {
        assert forall i :: 0 <= i < last ==> due[..last][i].Some?;
      } else if due[last].Some? {
        var i :| 0 <= i < |due| && due[i].None?;
        assert due[..last][i].None?;
      }
    }
  }
}
