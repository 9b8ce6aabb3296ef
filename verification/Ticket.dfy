/** Acceleration tickets end to end: the control plane validates a route policy and signs a ticket, an
    honest client passes it on, and the node checks the token and binds the policy. */
module Ticket {
  import opened Text
  import opened Utf8
  import opened Cidr
  import opened RoutePolicies
  import opened Auth
  import opened Session
  import opened Checks

  // ---------------------------------------------------------------- route policy validation

  datatype Binding = Binding(policy: RoutePolicy, hash: string)

  const MODES: set<string> := {"dynamic_targets"}
  const HOST_TYPES: set<string> := {"domain", "ipv4", "ipv6", "cidr", "observed_ip", "steam_sdr", "any"}

  function NormalizeRequiredText(value: string, maxLen: nat): Result<string, string> {
    var text := Trim(value);
    if text == [] || |text| > maxLen then Err("invalid_field") else Ok(text)
  }

  function NormalPort(p: PortRange): Result<PortRange, string> {
    var protocol := Lower(Trim(p.protocol));
    if protocol !in {"udp", "tcp"} then Err("invalid_route_policy")
    else if p.from == 0 || p.to == 0 || p.from > p.to then Err("invalid_route_policy")
    else Ok(p.(protocol := protocol))
  }

  function NormalPorts(ports: seq<PortRange>): (r: Result<seq<PortRange>, string>)
    ensures r.Ok? ==> |r.value| == |ports|
  {
    if ports == [] then Ok([])
    else
      match NormalPorts(ports[..|ports| - 1])
      case Err(e) => Err(e)
      case Ok(before) =>
        match NormalPort(ports[|ports| - 1])
        case Err(e) => Err(e)
        case Ok(port) => Ok(before + [port])
  }

  function NormalTarget(t: RouteTarget): Result<RouteTarget, string> {
    var id := NormalizeRequiredText(t.targetId, 128);
    var hostType := NormalizeRequiredText(t.hostType, 32);
    if id.Err? then Err(id.error)
    else if hostType.Err? then Err(hostType.error)
    else if Lower(hostType.value) !in HOST_TYPES then Err("invalid_route_policy")
    else if t.host.Some? && NormalizeRequiredText(t.host.value, 255).Err? then Err("invalid_field")
    else if |t.ports| == 0 || |t.ports| > 32 then Err("invalid_route_policy")
    else
      match NormalPorts(t.ports)
      case Err(e) => Err(e)
      case Ok(ports) =>
        Ok(t.(targetId := id.value, hostType := Lower(hostType.value),
              host := if t.host.None? then None else Some(NormalizeRequiredText(t.host.value, 255).value),
              ports := ports))
  }

  function NormalTargets(targets: seq<RouteTarget>): (r: Result<seq<RouteTarget>, string>)
    ensures r.Ok? ==> |r.value| == |targets|
  {
    if targets == [] then Ok([])
    else
      match NormalTargets(targets[..|targets| - 1])
      case Err(e) => Err(e)
      case Ok(before) =>
        match NormalTarget(targets[|targets| - 1])
        case Err(e) => Err(e)
        case Ok(target) => Ok(before + [target])
  }

  function NormalHead(policy: RoutePolicy): Result<RoutePolicy, string> {
    var id := NormalizeRequiredText(policy.policyId, 128);
    var mode := NormalizeRequiredText(policy.mode, 32);
    if id.Err? then Err(id.error)
    else if policy.policyVersion == 0 then Err("invalid_route_policy")
    else if mode.Err? then Err(mode.error)
    else if Lower(mode.value) !in MODES then Err("invalid_route_policy")
    else if policy.defaultProtocol.Some? && Lower(Trim(policy.defaultProtocol.value)) !in {"udp", "tcp"}
    then Err("invalid_route_policy")
    else if |policy.targets| == 0 || |policy.targets| > 128 then Err("invalid_route_policy")
    else
      Ok(policy.(policyId := id.value, mode := Lower(mode.value),
                 defaultProtocol := if policy.defaultProtocol.None? then None
                                    else Some(Lower(Trim(policy.defaultProtocol.value)))))
  }

  /** The whole decision. `hashPolicy` has no value when the policy cannot be encoded. */
  function Validated(hashPolicy: RoutePolicy -> Option<string>, policy: RoutePolicy): Result<Binding, string> {
    match NormalHead(policy)
    case Err(e) => Err(e)
    case Ok(head) =>
      match NormalTargets(policy.targets)
      case Err(e) => Err(e)
      case Ok(targets) =>
        var result := head.(targets := targets);
        if hashPolicy(result).None? then Err("internal") else Ok(Binding(result, hashPolicy(result).value))
  }

  // ---------------------------------------------------------------- what validation means

  /** A required text: not blank, and not too long once trimmed. */
  predicate TextFits(value: string, maxLen: nat) {
    1 <= |Trim(value)| <= maxLen
  }

  predicate PortFits(p: PortRange) {
    Lower(Trim(p.protocol)) in {"udp", "tcp"} && 1 <= p.from <= p.to
  }

  /** A range as it is kept. */
  function PortKept(p: PortRange): PortRange {
    PortRange(Lower(Trim(p.protocol)), p.from, p.to)
  }

  /** What is checked of one rule, in order. */
  ghost function TargetChecks(t: RouteTarget): seq<Check> {
    [Check(TextFits(t.targetId, 128), "invalid_field"),
     Check(TextFits(t.hostType, 32), "invalid_field"),
     Check(Lower(Trim(t.hostType)) in {"domain", "ipv4", "ipv6", "cidr", "observed_ip", "steam_sdr", "any"}, "invalid_route_policy"),
     Check(t.host.Some? ==> TextFits(t.host.value, 255), "invalid_field"),
     Check(1 <= |t.ports| <= 32, "invalid_route_policy"),
     Check(forall k :: 0 <= k < |t.ports| ==> PortFits(t.ports[k]), "invalid_route_policy")]
  }

  ghost function TargetsChecks(targets: seq<RouteTarget>): seq<Check> {
    if targets == [] then []
    else TargetsChecks(targets[..|targets| - 1]) + TargetChecks(targets[|targets| - 1])
  }

  /** What is checked of a policy before its rules, in order. */
  ghost function HeadChecks(policy: RoutePolicy): seq<Check> {
    [Check(TextFits(policy.policyId, 128), "invalid_field"),
     Check(policy.policyVersion > 0, "invalid_route_policy"),
     Check(TextFits(policy.mode, 32), "invalid_field"),
     Check(Lower(Trim(policy.mode)) == "dynamic_targets", "invalid_route_policy"),
     Check(policy.defaultProtocol.Some? ==> Lower(Trim(policy.defaultProtocol.value)) in {"udp", "tcp"}, "invalid_route_policy"),
     Check(1 <= |policy.targets| <= 128, "invalid_route_policy")]
  }

  ghost function PolicyChecks(policy: RoutePolicy): seq<Check> {
    HeadChecks(policy) + TargetsChecks(policy.targets)
  }

  /** A rule as it is kept: texts trimmed, type and protocols in lower case, everything else unchanged. */
  ghost predicate TargetKept(from: RouteTarget, to: RouteTarget) {
    && to.targetId == Trim(from.targetId) && to.hostType == Lower(Trim(from.hostType))
    && to.host == (if from.host.None? then None else Some(Trim(from.host.value)))
    && |to.ports| == |from.ports|
    && (forall k :: 0 <= k < |to.ports| ==>
          && to.ports[k].protocol == Lower(Trim(from.ports[k].protocol))
          && to.ports[k].from == from.ports[k].from && to.ports[k].to == from.ports[k].to)
    && to.purpose == from.purpose && to.resolvedIps == from.resolvedIps && to.observedIps == from.observedIps
    && to.cidrs == from.cidrs && to.allowClientObservedIp == from.allowClientObservedIp
    && to.resolveTtlSec == from.resolveTtlSec && to.required == from.required
  }

  ghost predicate PolicyKept(from: RoutePolicy, to: RoutePolicy) {
    && to.policyId == Trim(from.policyId) && to.policyVersion == from.policyVersion && to.mode == Lower(Trim(from.mode))
    && to.defaultProtocol == (if from.defaultProtocol.None? then None else Some(Lower(Trim(from.defaultProtocol.value))))
    && to.dnsStrategy == from.dnsStrategy && to.capture == from.capture
    && |to.targets| == |from.targets|
    && forall k :: 0 <= k < |to.targets| ==> TargetKept(from.targets[k], to.targets[k])
  }

  lemma NormalPortMeans(p: PortRange)
    ensures NormalPort(p) == if PortFits(p) then Ok(PortKept(p)) else Err("invalid_route_policy")
  {
    hide Trim, Lower;
  }

  /** The policy that is kept can be encoded and hashed. */
  ghost predicate KeptHasHash(hashPolicy: RoutePolicy -> Option<string>, policy: RoutePolicy) {
    exists kept :: PolicyKept(policy, kept) && hashPolicy(kept).Some?
  }

  lemma {:induction false} NormalPortsMean(ports: seq<PortRange>)
    ensures NormalPorts(ports).Ok? <==> forall k :: 0 <= k < |ports| ==> PortFits(ports[k])
    ensures NormalPorts(ports).Err? ==> NormalPorts(ports).error == "invalid_route_policy"
    ensures NormalPorts(ports).Ok? ==> forall k :: 0 <= k < |ports| ==> NormalPorts(ports).value[k] == PortKept(ports[k])
  {
    hide NormalPort, PortFits, PortKept;
    if ports != [] {
      var last := |ports| - 1;
      NormalPortsMean(ports[..last]);
      NormalPortMeans(ports[last]);
      assert forall k :: 0 <= k < last ==> ports[..last][k] == ports[k];
    }
  }

  lemma NormalTargetMeans(t: RouteTarget)
    ensures Decided(TargetChecks(t), NormalTarget(t))
    ensures NormalTarget(t).Ok? ==> TargetKept(t, NormalTarget(t).value)
  {
    hide Trim, Lower, NormalPorts, PortFits, AllPass, FailsFirst;
    NormalPortsMean(t.ports);
    var checks := TargetChecks(t);
    SixChecks(checks);
  }

  lemma {:induction false} NormalTargetsMean(targets: seq<RouteTarget>)
    ensures Decided(TargetsChecks(targets), NormalTargets(targets))
    ensures NormalTargets(targets).Ok? ==>
      forall k :: 0 <= k < |targets| ==> TargetKept(targets[k], NormalTargets(targets).value[k])
  {
    hide NormalTarget, TargetChecks, TargetKept, AllPass, FailsFirst;
    if targets == [] {
      assert AllPass([]) by { NoChecks(); }
    } else {
      var last := |targets| - 1;
      NormalTargetsMean(targets[..last]);
      NormalTargetMeans(targets[last]);
      JoinedDecided(TargetsChecks(targets[..last]), TargetChecks(targets[last]),
                    NormalTargets(targets[..last]), NormalTarget(targets[last]), NormalTargets(targets));
    }
  }

  lemma NormalHeadMeans(policy: RoutePolicy)
    ensures Decided(HeadChecks(policy), NormalHead(policy))
    ensures NormalHead(policy).Ok? ==> PolicyKept(policy.(targets := []), NormalHead(policy).value.(targets := []))
  {
    hide Trim, Lower, AllPass, FailsFirst;
    var checks := HeadChecks(policy);
    SixChecks(checks);
  }

  lemma KeptIsUnique(policy: RoutePolicy, a: RoutePolicy, b: RoutePolicy)
    requires PolicyKept(policy, a) && PolicyKept(policy, b)
    ensures a == b
  {
    hide Trim, Lower;
    forall k | 0 <= k < |a.targets| ensures a.targets[k] == b.targets[k] {
      assert TargetKept(policy.targets[k], a.targets[k]) && TargetKept(policy.targets[k], b.targets[k]);
      assert a.targets[k].ports == b.targets[k].ports;
    }
  }

  /** Validation accepts a policy exactly when every check passes and the result can be hashed, keeps
      every rule, and otherwise reports the first check that fails. */
  lemma ValidatedMeans(hashPolicy: RoutePolicy -> Option<string>, policy: RoutePolicy)
    ensures
      match Validated(hashPolicy, policy)
      case Ok(binding) =>
        AllPass(PolicyChecks(policy)) && PolicyKept(policy, binding.policy) && hashPolicy(binding.policy) == Some(binding.hash)
      case Err(code) =>
        || FailsFirst(PolicyChecks(policy), code)
        || (code == "internal" && AllPass(PolicyChecks(policy)) && forall kept :: PolicyKept(policy, kept) ==> hashPolicy(kept).None?)
  {
    hide NormalHead, NormalTargets, HeadChecks, TargetsChecks, AllPass, FailsFirst, TargetKept;
    NormalHeadMeans(policy);
    NormalTargetsMean(policy.targets);
    if NormalHead(policy).Ok? && NormalTargets(policy.targets).Ok? {
      PassJoined(HeadChecks(policy), TargetsChecks(policy.targets));
      var result := NormalHead(policy).value.(targets := NormalTargets(policy.targets).value);
      assert PolicyKept(policy, result);
      forall kept | PolicyKept(policy, kept) ensures kept == result {
        KeptIsUnique(policy, kept, result);
      }
    } else {
      FailJoined(HeadChecks(policy), TargetsChecks(policy.targets), Validated(hashPolicy, policy).error);
    }
  }

  method NormalizePorts(ports: seq<PortRange>) returns (r: Result<seq<PortRange>, string>)
    ensures r == NormalPorts(ports)
    ensures r.Ok? <==> forall k :: 0 <= k < |ports| ==> PortFits(ports[k])
    ensures r.Err? ==> r.error == "invalid_route_policy"
    ensures r.Ok? ==> |r.value| == |ports|
    ensures r.Ok? ==> forall k :: 0 <= k < |ports| ==>
      r.value[k] == PortRange(Lower(Trim(ports[k].protocol)), ports[k].from, ports[k].to)
  {
    hide NormalPort, PortFits, Trim, Lower;
    NormalPortsMean(ports);
    var done := ports;
    for k := 0 to |ports|
      invariant |done| == |ports| && done[k..] == ports[k..]
      invariant NormalPorts(ports[..k]) == Ok(done[..k])
    {
      assert ports[..k + 1][..k] == ports[..k] && done[k] == done[k..][0] && ports[k] == ports[k..][0];
      var port := NormalPort(done[k]);
      if port.Err? {
        PortErrorStays(ports, k + 1);
        return Err(port.error);
      }
      done := done[k := port.value];
      assert done[..k + 1] == done[..k] + [port.value];
    }
    assert ports[..|ports|] == ports && done[..|ports|] == done;
    r := Ok(done);
  }

  lemma {:induction false} PortErrorStays(ports: seq<PortRange>, k: nat)
    requires k <= |ports| && NormalPorts(ports[..k]).Err?
    ensures NormalPorts(ports) == NormalPorts(ports[..k])
  {
    if k == |ports| {
      assert ports[..k] == ports;
    } else {
      var last := |ports| - 1;
      assert ports[..last][..k] == ports[..k];
      PortErrorStays(ports[..last], k);
    }
  }

  lemma {:induction false} TargetErrorStays(targets: seq<RouteTarget>, k: nat)
    requires k <= |targets| && NormalTargets(targets[..k]).Err?
    ensures NormalTargets(targets) == NormalTargets(targets[..k])
  {
    hide NormalTarget;
    if k == |targets| {
      assert targets[..k] == targets;
    } else {
      var last := |targets| - 1;
      assert targets[..last][..k] == targets[..k];
      TargetErrorStays(targets[..last], k);
    }
  }

  method NormalizeTarget(target: RouteTarget) returns (r: Result<RouteTarget, string>)
    ensures r == NormalTarget(target)
    ensures Decided(TargetChecks(target), r) && (r.Ok? ==> TargetKept(target, r.value))
  {
    hide NormalizeRequiredText, NormalPorts, Lower, TargetChecks, TargetKept, Decided;
    NormalTargetMeans(target);
    var t := target;
    var id := NormalizeRequiredText(t.targetId, 128);
    if id.Err? { return Err(id.error); }
    t := t.(targetId := id.value);
    var hostType := NormalizeRequiredText(t.hostType, 32);
    if hostType.Err? { return Err(hostType.error); }
    t := t.(hostType := Lower(hostType.value));
    if t.hostType !in HOST_TYPES { return Err("invalid_route_policy"); }
    if t.host.Some? {
      var host := NormalizeRequiredText(t.host.value, 255);
      if host.Err? {
        RequiredTextError(t.host.value, 255);
        return Err(host.error);
      }
      t := t.(host := Some(host.value));
    }
    if t.ports == [] || |t.ports| > 32 { return Err("invalid_route_policy"); }
    var ports := NormalizePorts(t.ports);
    if ports.Err? { return Err(ports.error); }
    r := Ok(t.(ports := ports.value));
  }

  lemma RequiredTextError(value: string, maxLen: nat)
    requires NormalizeRequiredText(value, maxLen).Err?
    ensures NormalizeRequiredText(value, maxLen) == Err("invalid_field")
  {
  }

  lemma AcceptedExactly(hashPolicy: RoutePolicy -> Option<string>, policy: RoutePolicy)
    ensures
      var r := Validated(hashPolicy, policy);
      && (r.Ok? <==> AllPass(PolicyChecks(policy)) && KeptHasHash(hashPolicy, policy))
      && (r.Ok? ==> PolicyKept(policy, r.value.policy) && hashPolicy(r.value.policy) == Some(r.value.hash))
      && (r.Err? ==> FailsFirst(PolicyChecks(policy), r.error) || (r.error == "internal" && AllPass(PolicyChecks(policy))))
  {
    hide Validated, PolicyChecks, AllPass, FailsFirst, PolicyKept;
    ValidatedMeans(hashPolicy, policy);
    FirstFailureIsNoPass(PolicyChecks(policy));
  }

  lemma NoTargets()
    ensures NormalTargets([]) == Ok([])
  {
  }

  lemma OneMoreTarget(given: seq<RouteTarget>, k: nat)
    requires k < |given| && NormalTargets(given[..k]).Ok?
    ensures NormalTargets(given[..k + 1])
      == match NormalTarget(given[k])
         case Err(e) => Err(e)
         case Ok(target) => Ok(NormalTargets(given[..k]).value + [target])
  {
    hide NormalTarget;
    assert given[..k + 1][..k] == given[..k];
  }

  /** The loop over the rules, each rewritten in place. */
  method NormalizeTargets(given: seq<RouteTarget>) returns (r: Result<seq<RouteTarget>, string>)
    ensures r == NormalTargets(given)
  {
    hide NormalTarget, NormalTargets, Decided, TargetChecks, TargetKept;
    assert NormalTargets(given[..0]) == Ok([]) by { NoTargets(); }
    var targets := given;
    for k := 0 to |targets|
      invariant |targets| == |given| && targets[k..] == given[k..]
      invariant NormalTargets(given[..k]) == Ok(targets[..k])
    {
      assert targets[k] == targets[k..][0] && given[k] == given[k..][0];
      var target := NormalizeTarget(targets[k]);
      OneMoreTarget(given, k);
      if target.Err? {
        TargetErrorStays(given, k + 1);
        return Err(target.error);
      }
      targets := targets[k := target.value];
      assert targets[..k + 1] == targets[..k] + [target.value];
    }
    assert given[..|targets|] == given && targets[..|targets|] == targets;
    r := Ok(targets);
  }

  /** Accepted exactly when every check passes and the result can be hashed; then every rule is kept. A
      refusal reports the first check that fails. */
  method ValidateRoutePolicy(hashPolicy: RoutePolicy -> Option<string>, policy: RoutePolicy)
    returns (r: Result<Binding, string>)
    ensures r == Validated(hashPolicy, policy)
    ensures r.Ok? <==> AllPass(PolicyChecks(policy)) && KeptHasHash(hashPolicy, policy)
    ensures r.Ok? ==> PolicyKept(policy, r.value.policy) && hashPolicy(r.value.policy) == Some(r.value.hash)
    ensures r.Err? ==> FailsFirst(PolicyChecks(policy), r.error) || (r.error == "internal" && AllPass(PolicyChecks(policy)))
  {
    hide NormalTargets, NormalHead, PolicyChecks, AllPass, FailsFirst, PolicyKept, KeptHasHash;
    AcceptedExactly(hashPolicy, policy);
    var head := NormalHead(policy);
    if head.Err? { return Err(head.error); }
    var targets := NormalizeTargets(policy.targets);
    if targets.Err? { return Err(targets.error); }
    var result := head.value.(targets := targets.value);
    var hash := hashPolicy(result);
    if hash.None? { return Err("internal"); }
    r := Ok(Binding(result, hash.value));
  }

  // ---------------------------------------------------------------- validation and matching

  predicate Trimmed(text: string) {
    Trim(text) == text
  }

  /** No text of the rule that matching looks at has white space at its ends. */
  predicate TrimmedTarget(t: RouteTarget) {
    && Trimmed(t.targetId) && Trimmed(t.hostType) && (t.host.Some? ==> Trimmed(t.host.value))
    && forall k :: 0 <= k < |t.ports| ==> Trimmed(t.ports[k].protocol)
  }

  predicate TrimmedPolicy(policy: RoutePolicy) {
    && Trimmed(policy.policyId) && (policy.defaultProtocol.Some? ==> Trimmed(policy.defaultProtocol.value))
    && forall k :: 0 <= k < |policy.targets| ==> TrimmedTarget(policy.targets[k])
  }

  lemma KeptAdmitsPort(from: RouteTarget, to: RouteTarget, protocol: string, port: nat)
    requires TargetKept(from, to) && TrimmedTarget(from)
    ensures PortAdmitted(to, protocol, port) <==> PortAdmitted(from, protocol, port)
  {
    hide Trim, Lower;
    forall k | 0 <= k < |to.ports|
      ensures EqIgnoreCase(to.ports[k].protocol, protocol) <==> EqIgnoreCase(from.ports[k].protocol, protocol)
      ensures to.ports[k].from == from.ports[k].from && to.ports[k].to == from.ports[k].to
    {
      LowerIdempotent(from.ports[k].protocol);
    }
    if PortAdmitted(to, protocol, port) {
      var k :| 0 <= k < |to.ports| && EqIgnoreCase(to.ports[k].protocol, protocol) && to.ports[k].from <= port <= to.ports[k].to;
      assert from.ports[k] in from.ports;
    }
    if PortAdmitted(from, protocol, port) {
      var k :| 0 <= k < |from.ports| && EqIgnoreCase(from.ports[k].protocol, protocol) && from.ports[k].from <= port <= from.ports[k].to;
      assert to.ports[k] in to.ports;
    }
  }

  lemma KeptAdmits(parse: string -> Option<Ip>, from: RouteTarget, to: RouteTarget, protocol: string, target: SessionDataTarget)
    requires TargetKept(from, to) && TrimmedTarget(from)
    ensures to.targetId == from.targetId
    ensures RuleAdmits(parse, to, protocol, target) <==> RuleAdmits(parse, from, protocol, target)
  {
    hide PortAdmitted, Trim, Lower, HostIs, ContainsText, InSomeCidr;
    KeptAdmitsPort(from, to, protocol, target.port);
    LowerIdempotent(from.hostType);
    assert to.host == from.host;
  }

  lemma {:induction false} KeptSearch(
    parse: string -> Option<Ip>, from: RoutePolicy, to: RoutePolicy, protocol: string, target: SessionDataTarget, i: nat)
    requires PolicyKept(from, to) && TrimmedPolicy(from) && i <= |from.targets|
    ensures SearchRules(parse, to, protocol, target, i) == SearchRules(parse, from, protocol, target, i)
    decreases |from.targets| - i
  {
    hide RuleAdmits, TargetKept, TrimmedTarget, Trim, Lower;
    if i < |from.targets| {
      KeptAdmits(parse, from.targets[i], to.targets[i], protocol, target);
      SearchStep(parse, from, protocol, target, i);
      SearchStep(parse, to, protocol, target, i);
      KeptSearch(parse, from, to, protocol, target, i + 1);
    }
  }

  /** Validation keeps what a policy means: when its texts have no white space at their ends, whatever
      their case, matching answers for every target as it did before. */
  lemma ValidationKeepsMatching(
    hashPolicy: RoutePolicy -> Option<string>, parse: string -> Option<Ip>, policy: RoutePolicy, target: SessionDataTarget)
    requires Validated(hashPolicy, policy).Ok? && TrimmedPolicy(policy)
    ensures MatchPolicyTarget(parse, Validated(hashPolicy, policy).value.policy, target) == MatchPolicyTarget(parse, policy, target)
  {
    hide Validated, SearchRules, PolicyChecks, AllPass, Trim, Lower;
    ValidatedMeans(hashPolicy, policy);
    var kept := Validated(hashPolicy, policy).value.policy;
    if policy.defaultProtocol.Some? {
      LowerIdempotent(policy.defaultProtocol.value);
    }
    KeptSearch(parse, policy, kept, MatchProtocol(policy, target), target, 0);
  }

  // ---------------------------------------------------------------- idempotence

  lemma RequiredTextIsFixed(value: string, maxLen: nat)
    requires NormalizeRequiredText(value, maxLen).Ok?
    ensures
      var text := NormalizeRequiredText(value, maxLen).value;
      && NormalizeRequiredText(text, maxLen) == Ok(text)
      && NormalizeRequiredText(Lower(text), maxLen) == Ok(Lower(text)) && Lower(Lower(text)) == Lower(text)
  {
    TrimIdempotent(value);
    TrimLowerTrim(value);
    LowerIdempotent(Trim(value));
  }

  lemma NormalPortIsFixed(p: PortRange)
    requires NormalPort(p).Ok?
    ensures NormalPort(NormalPort(p).value) == NormalPort(p)
  {
    TrimLowerTrim(p.protocol);
    LowerIdempotent(Trim(p.protocol));
  }

  lemma {:induction false} NormalPortsAreFixed(ports: seq<PortRange>)
    requires NormalPorts(ports).Ok?
    ensures NormalPorts(NormalPorts(ports).value) == NormalPorts(ports)
  {
    hide NormalPort;
    if ports != [] {
      var last := |ports| - 1;
      NormalPortsAreFixed(ports[..last]);
      NormalPortIsFixed(ports[last]);
      var fixed := NormalPorts(ports).value;
      assert fixed[..last] == NormalPorts(ports[..last]).value;
    }
  }

  lemma NormalTargetIsFixed(t: RouteTarget)
    requires NormalTarget(t).Ok?
    ensures NormalTarget(NormalTarget(t).value) == NormalTarget(t)
  {
    hide NormalizeRequiredText, NormalPorts, Lower;
    RequiredTextIsFixed(t.targetId, 128);
    RequiredTextIsFixed(t.hostType, 32);
    if t.host.Some? {
      RequiredTextIsFixed(t.host.value, 255);
    }
    NormalPortsAreFixed(t.ports);
  }

  lemma {:induction false} NormalTargetsAreFixed(targets: seq<RouteTarget>)
    requires NormalTargets(targets).Ok?
    ensures NormalTargets(NormalTargets(targets).value) == NormalTargets(targets)
  {
    hide NormalTarget;
    if targets != [] {
      var last := |targets| - 1;
      NormalTargetsAreFixed(targets[..last]);
      NormalTargetIsFixed(targets[last]);
      var fixed := NormalTargets(targets).value;
      assert fixed[..last] == NormalTargets(targets[..last]).value;
    }
  }

  lemma NormalHeadIsFixed(policy: RoutePolicy, targets: seq<RouteTarget>)
    requires NormalHead(policy).Ok? && |targets| == |policy.targets|
    ensures
      var result := NormalHead(policy).value.(targets := targets);
      NormalHead(result) == Ok(result)
  {
    hide NormalizeRequiredText, Lower, Trim;
    RequiredTextIsFixed(policy.policyId, 128);
    RequiredTextIsFixed(policy.mode, 32);
    if policy.defaultProtocol.Some? {
      TrimLowerTrim(policy.defaultProtocol.value);
      LowerIdempotent(Trim(policy.defaultProtocol.value));
    }
  }

  /** Submitting a validated policy again yields the same policy and the same hash. */
  lemma ValidationIsIdempotent(hashPolicy: RoutePolicy -> Option<string>, policy: RoutePolicy)
    requires Validated(hashPolicy, policy).Ok?
    ensures Validated(hashPolicy, Validated(hashPolicy, policy).value.policy) == Validated(hashPolicy, policy)
  {
    hide NormalHead, NormalTargets;
    var targets := NormalTargets(policy.targets).value;
    NormalTargetsAreFixed(policy.targets);
    NormalHeadIsFixed(policy, targets);
  }

  /** The policy that limits nothing passes validation unchanged, so it can be hashed into a ticket. */
  lemma OpenPolicyValidates(hashPolicy: RoutePolicy -> Option<string>, id: string, version: nat)
    requires NormalizeRequiredText(id, 128) == Ok(id) && version > 0 && hashPolicy(OpenPolicy(id, version)).Some?
    ensures Validated(hashPolicy, OpenPolicy(id, version))
      == Ok(Binding(OpenPolicy(id, version), hashPolicy(OpenPolicy(id, version)).value))
  {
    hide NormalizeRequiredText, NormalHead, NormalTarget;
    var policy := OpenPolicy(id, version);
    OpenHeadIsNormal(id, version);
    OpenTargetIsNormal(policy.targets[0]);
    OneTargetIsNormal(policy.targets[0]);
    assert policy.targets == [policy.targets[0]] && policy.(targets := policy.targets) == policy;
  }

  lemma OpenHeadIsNormal(id: string, version: nat)
    requires NormalizeRequiredText(id, 128) == Ok(id) && version > 0
    ensures NormalHead(OpenPolicy(id, version)) == Ok(OpenPolicy(id, version))
  {
    hide NormalizeRequiredText, Lower, Trim;
    PlainTextIsNormal("dynamic_targets", 32);
  }

  lemma OpenTargetIsNormal(rule: RouteTarget)
    requires rule == OpenPolicy("", 0).targets[0]
    ensures NormalTarget(rule) == Ok(rule)
  {
    hide NormalizeRequiredText, NormalPorts, Lower;
    PlainTextIsNormal("all", 128);
    PlainTextIsNormal("any", 32);
    OpenPortsAreNormal(rule.ports);
  }

  lemma OpenPortsAreNormal(ports: seq<PortRange>)
    requires ports == [PortRange("udp", 1, 65535), PortRange("tcp", 1, 65535)]
    ensures NormalPorts(ports) == Ok(ports)
  {
    hide NormalPort;
    assert NormalPort(ports[0]) == Ok(ports[0]) by { OpenPortIsNormal(ports[0]); }
    assert NormalPort(ports[1]) == Ok(ports[1]) by { OpenPortIsNormal(ports[1]); }
    OneMoreNormalPort([], ports[0]);
    OneMoreNormalPort([ports[0]], ports[1]);
    assert [] + [ports[0]] == [ports[0]] && [ports[0]] + [ports[1]] == ports;
  }

  lemma OneMoreNormalPort(ports: seq<PortRange>, port: PortRange)
    requires NormalPorts(ports) == Ok(ports) && NormalPort(port) == Ok(port)
    ensures NormalPorts(ports + [port]) == Ok(ports + [port])
  {
    hide NormalPort;
    assert (ports + [port])[..|ports|] == ports;
  }

  lemma OneTargetIsNormal(target: RouteTarget)
    requires NormalTarget(target) == Ok(target)
    ensures NormalTargets([target]) == Ok([target])
  {
    hide NormalTarget;
    assert [target][..0] == [] && [] + [target] == [target];
  }

  lemma OpenPortIsNormal(range: PortRange)
    requires range.protocol in {"udp", "tcp"} && range.from == 1 && range.to == 65535
    ensures NormalPort(range) == Ok(range)
  {
    hide Lower, Trim;
    PlainTextIsNormal(range.protocol, 3);
  }

  lemma PlainTextIsNormal(text: string, maxLen: nat)
    requires text != [] && |text| <= maxLen && forall k :: 0 <= k < |text| ==> 'a' <= text[k] <= 'z' || text[k] == '_'
    ensures NormalizeRequiredText(text, maxLen) == Ok(text) && Lower(text) == text && Trim(text) == text
  {
  }

  // ---------------------------------------------------------------- the per-session route

  datatype TicketRequest = TicketRequest(
    userId: nat, deviceId: string, gameId: nat, gameKey: Option<string>, regionId: Option<nat>, business: Option<string>,
    nodeId: Option<nat>, targetAddr: Option<string>, protocol: Option<string>, regionName: Option<string>,
    policy: Option<RoutePolicy>)

  datatype Route = Route(nodeId: nat, targetAddr: string, protocol: string, binding: Option<Binding>)

  /** Last occurrence of the separator, as `str::rsplit_once`. */
  function RSplitOnce(s: string, sep: char): (r: Option<(string, string)>)
    ensures r.None? <==> sep !in s
    ensures r.Some? ==> s == r.value.0 + [sep] + r.value.1 && sep !in r.value.1
  {
    if s == [] then None
    else if s[|s| - 1] == sep then Some((s[..|s| - 1], []))
    else
      match RSplitOnce(s[..|s| - 1], sep)
      case None => None
      case Some((head, tail)) => Some((head, tail + [s[|s| - 1]]))
  }

  function ValidateTargetAddr(value: string): Result<string, string> {
    match NormalizeRequiredText(value, 255)
    case Err(e) => Err(e)
    case Ok(text) =>
      match RSplitOnce(text, ':')
      case None => Err("invalid_target_addr")
      case Some((host, port)) =>
        if Trim(host) == [] then Err("invalid_target_addr")
        else if ParseUnsigned(port, 0xFFFF_FFFF).None? then Err("invalid_target_addr")
        else if 1 <= ParseUnsigned(port, 0xFFFF_FFFF).value <= 65535 then Ok(text)
        else Err("invalid_port")
  }

  /** The text in front of the last colon and the number after it. */
  ghost predicate AddressIs(text: string, host: string, port: nat) {
    exists digits: string :: ':' !in digits && text == host + [':'] + digits && ParseUnsigned(digits, 0xFFFF_FFFF) == Some(port)
  }

  /** What is checked of a relay address, in order: its length, its form, its port. */
  ghost function AddressChecks(value: string): seq<Check> {
    [Check(TextFits(value, 255), "invalid_field"),
     Check(exists host: string, port: nat :: AddressIs(Trim(value), host, port) && !IsBlank(host), "invalid_target_addr"),
     Check(exists host: string, port: nat :: AddressIs(Trim(value), host, port) && !IsBlank(host) && 1 <= port <= 65535, "invalid_port")]
  }

  lemma AddressIsUnique(text: string, host: string, port: nat, head: string, tail: string)
    requires AddressIs(text, host, port) && text == head + [':'] + tail && ':' !in tail
    ensures host == head && ParseUnsigned(tail, 0xFFFF_FFFF) == Some(port)
  {
    hide ParseUnsigned;
    var digits: string :| ':' !in digits && text == host + [':'] + digits && ParseUnsigned(digits, 0xFFFF_FFFF) == Some(port);
    SameTail(host, digits, head, tail, ':');
    assert host == text[..|text| - |digits| - 1] && head == text[..|text| - |tail| - 1];
  }

  /** An address is accepted exactly when it is a host, a colon and a port between 1 and 65535, and is kept
      as it is but for white space at its ends. */
  lemma ValidateTargetAddrMeans(value: string)
    ensures Decided(AddressChecks(value), ValidateTargetAddr(value))
    ensures ValidateTargetAddr(value).Ok? ==> ValidateTargetAddr(value).value == Trim(value)
  {
    hide Trim, ParseUnsigned, AddressIs, IsBlank, FailsFirst, AllPass;
    var text := Trim(value);
    ThreeChecks(AddressChecks(value));
    match RSplitOnce(text, ':')
    case None =>
      forall host: string, port: nat ensures !AddressIs(text, host, port) {
        NoColonNoAddress(text, host, port);
      }
    case Some((head, tail)) =>
      forall host: string, port: nat | AddressIs(text, host, port) ensures host == head && ParseUnsigned(tail, 0xFFFF_FFFF) == Some(port) {
        AddressIsUnique(text, host, port, head, tail);
      }
      if ParseUnsigned(tail, 0xFFFF_FFFF).Some? {
        AddressIsFrom(text, head, tail);
      }
      BlankMeans(head);
  }

  lemma BlankMeans(text: string)
    ensures IsBlank(text) <==> Trim(text) == []
  {
  }

  lemma AddressIsFrom(text: string, head: string, tail: string)
    requires text == head + [':'] + tail && ':' !in tail && ParseUnsigned(tail, 0xFFFF_FFFF).Some?
    ensures AddressIs(text, head, ParseUnsigned(tail, 0xFFFF_FFFF).value)
  {
    hide ParseUnsigned;
  }

  lemma NoColonNoAddress(text: string, host: string, port: nat)
    requires ':' !in text
    ensures !AddressIs(text, host, port)
  {
    hide ParseUnsigned;
    forall digits: string ensures text != host + [':'] + digits {
      assert (host + [':'] + digits)[|host|] == ':';
    }
  }

  function FirstPort(ports: seq<PortRange>, protocol: string): Option<PortRange> {
    if ports == [] then None
    else if ports[0].protocol == protocol then Some(ports[0])
    else FirstPort(ports[1..], protocol)
  }

  function FirstHost(t: RouteTarget): Option<string> {
    Or(t.host, Or(if t.resolvedIps == [] then None else Some(t.resolvedIps[0]),
                  if t.observedIps == [] then None else Some(t.observedIps[0])))
  }

  function RepresentativeTarget(parse: string -> Option<Ip>, targets: seq<RouteTarget>, protocol: string)
    : Result<string, string>
  {
    if targets == [] then Err("invalid_route_policy")
    else
      var port := FirstPort(targets[0].ports, protocol);
      var host := FirstHost(targets[0]);
      if port.Some? && host.Some? then ValidateTargetAddr(HostPort(parse, host.value, port.value.from))
      else if port.Some? && targets[0].hostType in {"any", "steam_sdr"} then Ok("0.0.0.0:" + Decimal(port.value.from))
      else RepresentativeTarget(parse, targets[1..], protocol)
  }

  /** The route a business request asks for: none, an error, or a node with an address and a policy. */
  function PerSessionRoute(hashPolicy: RoutePolicy -> Option<string>, parse: string -> Option<Ip>, r: TicketRequest)
    : Result<Option<Route>, string>
  {
    var validated := if r.policy.None? then Err("") else Validated(hashPolicy, r.policy.value);
    if r.policy.Some? && validated.Err? then Err(validated.error)
    else
      var binding := if r.policy.None? then None else Some(validated.value);
      var address := NonBlank(r.targetAddr);
      if address.None? && binding.None? then
        if r.nodeId.Some? || r.protocol.Some? || r.regionName.Some? then Err("incomplete_accel_ticket") else Ok(None)
      else if r.nodeId.None? then Err("incomplete_accel_ticket")
      else if r.nodeId.value == 0 then Err("invalid_node")
      else
        var wanted := Or(NonBlank(r.protocol), if binding.None? then None else binding.value.policy.defaultProtocol);
        var protocol := Lower(OrDefault(wanted, "udp"));
        if protocol !in {"udp", "tcp"} then Err("invalid_ticket_protocol")
        else
          var target := if address.Some? then ValidateTargetAddr(address.value)
                        else RepresentativeTarget(parse, binding.value.policy.targets, protocol);
          if target.Err? then Err(target.error)
          else if r.regionName.Some? && |Trim(r.regionName.value)| > 128 then Err("invalid_field")
          else Ok(Some(Route(r.nodeId.value, target.value, protocol, binding)))
  }

  /** The first range of a protocol, by index. */
  ghost predicate FirstRange(ports: seq<PortRange>, protocol: string, k: nat) {
    && k < |ports| && ports[k].protocol == protocol && forall j :: 0 <= j < k ==> ports[j].protocol != protocol
  }

  ghost predicate HasRange(t: RouteTarget, protocol: string) {
    exists k: nat :: k < |t.ports| && t.ports[k].protocol == protocol
  }

  /** A rule an address can be made of: it has a range of the protocol, and a host of some kind or none to
      name. */
  ghost predicate Represents(t: RouteTarget, protocol: string) {
    && HasRange(t, protocol)
    && (t.host.Some? || t.resolvedIps != [] || t.observedIps != [] || t.hostType == "any" || t.hostType == "steam_sdr")
  }

  /** Its host: its own, else the first resolved one, else the first observed one. */
  ghost predicate HostOf(t: RouteTarget, host: Option<string>) {
    if t.host.Some? then host == t.host
    else if t.resolvedIps != [] then host == Some(t.resolvedIps[0])
    else if t.observedIps != [] then host == Some(t.observedIps[0])
    else host == None
  }

  lemma {:induction false} FirstPortIsFirst(ports: seq<PortRange>, protocol: string)
    ensures FirstPort(ports, protocol).None? <==> forall k :: 0 <= k < |ports| ==> ports[k].protocol != protocol
    ensures FirstPort(ports, protocol).Some? ==>
      exists k: nat :: FirstRange(ports, protocol, k) && FirstPort(ports, protocol).value == ports[k]
  {
    if ports != [] {
      FirstPortIsFirst(ports[1..], protocol);
      if ports[0].protocol == protocol {
        assert FirstRange(ports, protocol, 0);
      } else {
        assert forall k :: 1 <= k < |ports| ==> ports[k] == ports[1..][k - 1];
        if FirstPort(ports[1..], protocol).Some? {
          var k: nat :| FirstRange(ports[1..], protocol, k) && FirstPort(ports[1..], protocol).value == ports[1..][k];
          assert FirstRange(ports, protocol, k + 1);
        }
      }
    }
  }

  function AddressOf(parse: string -> Option<Ip>, host: Option<string>, port: nat): Result<string, string> {
    if host.Some? then ValidateTargetAddr(HostPort(parse, host.value, port)) else Ok("0.0.0.0:" + Decimal(port))
  }

  /** What the first usable rule gives: its host and the start of its first range, checked as an address;
      or any address with that port. */
  ghost predicate RepresentedBy(parse: string -> Option<Ip>, t: RouteTarget, protocol: string, r: Result<string, string>) {
    exists k: nat, host: Option<string> :: FirstRange(t.ports, protocol, k) && HostOf(t, host) && r == AddressOf(parse, host, t.ports[k].from)
  }

  ghost predicate FirstToRepresent(targets: seq<RouteTarget>, protocol: string, i: nat) {
    && i < |targets| && Represents(targets[i], protocol) && forall j :: 0 <= j < i ==> !Represents(targets[j], protocol)
  }

  /** The representative address of a policy is that of the first rule an address can be made of. */
  lemma {:induction false} RepresentativeIsFirst(parse: string -> Option<Ip>, targets: seq<RouteTarget>, protocol: string)
    ensures
      var r := RepresentativeTarget(parse, targets, protocol);
      || (r == Err("invalid_route_policy") && forall i :: 0 <= i < |targets| ==> !Represents(targets[i], protocol))
      || exists i :: 0 <= i < |targets| && FirstToRepresent(targets, protocol, i) && RepresentedBy(parse, targets[i], protocol, r)
  {
    hide ValidateTargetAddr, HostPort, Decimal;
    if targets != [] {
      var t := targets[0];
      FirstPortIsFirst(t.ports, protocol);
      FirstRepresents(parse, t, protocol);
      if Represents(t, protocol) {
        assert RepresentedBy(parse, targets[0], protocol, RepresentativeTarget(parse, targets, protocol));
        assert FirstToRepresent(targets, protocol, 0);
      } else {
        RepresentativeIsFirst(parse, targets[1..], protocol);
        assert forall i :: 1 <= i < |targets| ==> targets[i] == targets[1..][i - 1];
        var r := RepresentativeTarget(parse, targets[1..], protocol);
        if i :| 0 <= i < |targets[1..]| && FirstToRepresent(targets[1..], protocol, i) && RepresentedBy(parse, targets[1..][i], protocol, r) {
          assert targets[i + 1] == targets[1..][i];
          forall j | 0 <= j < i + 1 ensures !Represents(targets[j], protocol) {
            assert j > 0 ==> targets[j] == targets[1..][j - 1];
          }
          assert FirstToRepresent(targets, protocol, i + 1);
        }
      }
    }
  }

  lemma FirstRepresents(parse: string -> Option<Ip>, t: RouteTarget, protocol: string)
    ensures
      var (port, host) := (FirstPort(t.ports, protocol), FirstHost(t));
      && (Represents(t, protocol) <==> port.Some? && (host.Some? || t.hostType in {"any", "steam_sdr"}))
      && HostOf(t, host)
      && (port.Some? ==> exists k: nat :: FirstRange(t.ports, protocol, k) && t.ports[k] == port.value)
  {
    FirstPortIsFirst(t.ports, protocol);
  }

  lemma {:induction false} RepresentativeIsNotBlank(parse: string -> Option<Ip>, targets: seq<RouteTarget>, protocol: string)
    ensures RepresentativeTarget(parse, targets, protocol).Ok? ==> !IsBlank(RepresentativeTarget(parse, targets, protocol).value)
  {
    if targets != [] {
      RepresentativeIsNotBlank(parse, targets[1..], protocol);
      var port := FirstPort(targets[0].ports, protocol);
      if port.Some? {
        var host := FirstHost(targets[0]);
        if host.Some? {
          AddressIsNotBlank(HostPort(parse, host.value, port.value.from));
        }
        StartsVisible("0.0.0.0:" + Decimal(port.value.from));
      }
    }
  }

  lemma AddressIsNotBlank(value: string)
    ensures ValidateTargetAddr(value).Ok? ==> !IsBlank(ValidateTargetAddr(value).value)
  {
    TrimIdempotent(value);
  }

  lemma StartsVisible(s: string)
    requires s != [] && !IsWhitespace(s[0])
    ensures !IsBlank(s)
  {
    assert TrimStart(s) == s;
    EndKeepsVisible(s);
  }

  lemma {:induction false} EndKeepsVisible(s: string)
    requires s != [] && !IsWhitespace(s[0])
    ensures TrimEnd(s) != []
  {
    if IsWhitespace(s[|s| - 1]) {
      assert s[..|s| - 1][0] == s[0];
      EndKeepsVisible(s[..|s| - 1]);
    }
  }

  /** A route that was granted names a usable address and a known protocol, as the node will demand. */
  lemma RouteIsUsable(hashPolicy: RoutePolicy -> Option<string>, parse: string -> Option<Ip>, r: TicketRequest)
    requires PerSessionRoute(hashPolicy, parse, r).Ok? && PerSessionRoute(hashPolicy, parse, r).value.Some?
    ensures
      var route := PerSessionRoute(hashPolicy, parse, r).value.value;
      && !IsBlank(route.targetAddr) && route.protocol in {"udp", "tcp"}
      && r.nodeId == Some(route.nodeId) && route.nodeId > 0
      && (r.policy.Some? ==> Validated(hashPolicy, r.policy.value).Ok?)
      && route.binding == if r.policy.None? then None else Some(Validated(hashPolicy, r.policy.value).value)
  {
    hide Validated, ValidateTargetAddr, RepresentativeTarget, Lower, IsBlank;
    var binding := if r.policy.None? then None else Some(Validated(hashPolicy, r.policy.value).value);
    if NonBlank(r.targetAddr).Some? {
      AddressIsNotBlank(NonBlank(r.targetAddr).value);
    } else {
      var wanted := Or(NonBlank(r.protocol), binding.value.policy.defaultProtocol);
      RepresentativeIsNotBlank(parse, binding.value.policy.targets, Lower(OrDefault(wanted, "udp")));
    }
  }

  /** What is checked of a route request once its policy is valid, up to the address, in order. */
  ghost function RouteChecks(r: TicketRequest, wanted: Option<string>): seq<Check> {
    [Check(r.nodeId.Some?, "incomplete_accel_ticket"),
     Check(r.nodeId != Some(0), "invalid_node"),
     Check(Lower(OrDefault(wanted, "udp")) in {"udp", "tcp"}, "invalid_ticket_protocol")]
  }

  /** The route of a request, case by case: an invalid policy; nothing asked for; too little; a check that
      fails; an address that cannot be made or is refused; or the node, the trimmed address or the
      policy's own one, and the protocol asked for, the policy's default or udp. */
  lemma RouteExactly(hashPolicy: RoutePolicy -> Option<string>, parse: string -> Option<Ip>, r: TicketRequest)
    ensures
      var result := PerSessionRoute(hashPolicy, parse, r);
      var asked := r.targetAddr.Some? && !IsBlank(r.targetAddr.value);
      if r.policy.Some? && Validated(hashPolicy, r.policy.value).Err?
      then result == Err(Validated(hashPolicy, r.policy.value).error)
      else if !asked && r.policy.None? then
        result == if r.nodeId.Some? || r.protocol.Some? || r.regionName.Some? then Err("incomplete_accel_ticket") else Ok(None)
      else
        var default := if r.policy.None? then None else Validated(hashPolicy, r.policy.value).value.policy.defaultProtocol;
        var wanted := if r.protocol.Some? && !IsBlank(r.protocol.value) then Some(Trim(r.protocol.value)) else default;
        var protocol := Lower(OrDefault(wanted, "udp"));
        if !AllPass(RouteChecks(r, wanted)) then result.Err? && FailsFirst(RouteChecks(r, wanted), result.error)
        else
          var address := if asked then ValidateTargetAddr(Trim(r.targetAddr.value))
                         else RepresentativeTarget(parse, Validated(hashPolicy, r.policy.value).value.policy.targets, protocol);
          if address.Err? then result == Err(address.error)
          else if r.regionName.Some? && |Trim(r.regionName.value)| > 128 then result == Err("invalid_field")
          else
            && result.Ok? && result.value.Some?
            && Some(result.value.value.nodeId) == r.nodeId && result.value.value.targetAddr == address.value
            && result.value.value.protocol == protocol
            && (r.policy.None? <==> result.value.value.binding.None?)
            && (r.policy.Some? ==> result.value.value.binding == Some(Validated(hashPolicy, r.policy.value).value))
  {
    hide Validated, ValidateTargetAddr, RepresentativeTarget, Lower, Trim, FailsFirst, AllPass;
    var default := if r.policy.None? || Validated(hashPolicy, r.policy.value).Err? then None
                   else Validated(hashPolicy, r.policy.value).value.policy.defaultProtocol;
    var wanted := if r.protocol.Some? && !IsBlank(r.protocol.value) then Some(Trim(r.protocol.value)) else default;
    ThreeChecks(RouteChecks(r, wanted));
  }

  // ---------------------------------------------------------------- issuing

  /** The chosen node's row together with the route. */
  datatype Row = Row(nodeId: nat, nodeSecret: string, targetAddr: string, protocol: string)

  datatype Client = Client(userId: nat, deviceId: string, gameId: nat, regionId: Option<nat>)

  datatype AccelTicket = AccelTicket(
    ticketId: string, client: Client, nodeId: nat, routePolicy: Option<RoutePolicy>, token: string, expiresAt: nat)

  /** Base64url and JSON: decoding undoes encoding, and the alphabet has no dot and no white space. */
  ghost predicate Lawful(c: Crypto, encodeClaims: Claims -> seq<byte>) {
    && (forall b :: c.decode64(c.encode64(b)) == Some(b) && '.' !in c.encode64(b) && NoBlanks(c.encode64(b)))
    && (forall claims :: c.decodeClaims(encodeClaims(claims)) == Some(claims))
  }

  predicate NoBlanks(s: string) {
    forall k :: 0 <= k < |s| ==> !IsWhitespace(s[k])
  }

  function ClaimsFor(r: TicketRequest, row: Row, binding: Option<Binding>, ttl: nat, issuedAt: nat): Claims {
    Claims(
      row.nodeId, r.userId, r.deviceId, r.gameId, r.gameKey, r.regionId, r.business,
      Some(IntentId(r, row, issuedAt)),
      if binding.None? then None else Some(binding.value.hash),
      if binding.None? then None else Some(binding.value.policy.policyId),
      Some(RouteClaims(row.targetAddr, row.protocol)),
      issuedAt + ttl, Some(issuedAt), Some(Decimal(issuedAt) + "-" + Decimal(row.nodeId) + "-" + r.deviceId))
  }

  function IntentId(r: TicketRequest, row: Row, issuedAt: nat): string {
    "intent-" + Decimal(r.userId) + "-" + Decimal(r.gameId) + "-" + Decimal(issuedAt) + "-" + Decimal(row.nodeId)
  }

  function SignClientToken(c: Crypto, encodeClaims: Claims -> seq<byte>, claims: Claims, secret: string): string {
    var payload := c.encode64(encodeClaims(claims));
    SigningInput(payload) + "." + c.encode64(c.mac(secret, SigningInput(payload)))
  }

  function IssueTicket(c: Crypto, encodeClaims: Claims -> seq<byte>, r: TicketRequest, row: Row,
                       binding: Option<Binding>, ttl: nat, issuedAt: nat): AccelTicket
  {
    AccelTicket(
      IntentId(r, row, issuedAt), Client(r.userId, r.deviceId, r.gameId, r.regionId), row.nodeId,
      if binding.None? then None else Some(binding.value.policy),
      SignClientToken(c, encodeClaims, ClaimsFor(r, row, binding, ttl, issuedAt), row.nodeSecret), issuedAt + ttl)
  }

  /** What an honest client sends with a ticket. */
  function ProbeFromTicket(t: AccelTicket, nonce: string): ProbeRequest {
    ProbeRequest(Some(nonce), Some(t.client.userId), Some(t.client.deviceId), Some(t.client.gameId), t.client.regionId,
                 Some("udp"), Some(t.token), t.routePolicy)
  }

  /** What a ticket says: who it is for, which node and policy, until when, and an id made of user, game,
      time and node; its claims name the same and carry the request's own texts. */
  lemma TicketSaysWhatWasAsked(c: Crypto, encodeClaims: Claims -> seq<byte>, r: TicketRequest, row: Row, binding: Option<Binding>,
                               ttl: nat, issuedAt: nat)
    ensures
      var ticket := IssueTicket(c, encodeClaims, r, row, binding, ttl, issuedAt);
      var claims := ClaimsFor(r, row, binding, ttl, issuedAt);
      && ticket.token == SignClientToken(c, encodeClaims, claims, row.nodeSecret)
      && ticket.client == Client(r.userId, r.deviceId, r.gameId, r.regionId)
      && ticket.nodeId == row.nodeId == claims.nodeId && ticket.expiresAt == issuedAt + ttl == claims.expiresAt
      && ticket.routePolicy == (if binding.None? then None else Some(binding.value.policy))
      && claims.intentId == Some(ticket.ticketId) && claims.userId == r.userId && claims.deviceId == r.deviceId
      && claims.gameId == r.gameId && claims.regionId == r.regionId && claims.gameKey == r.gameKey && claims.business == r.business
      && claims.route == Some(RouteClaims(row.targetAddr, row.protocol)) && claims.issuedAt == Some(issuedAt)
      && claims.nonce == Some(Decimal(issuedAt) + "-" + Decimal(row.nodeId) + "-" + r.deviceId)
      && Split(ticket.ticketId, '-') == ["intent", Decimal(r.userId), Decimal(r.gameId), Decimal(issuedAt), Decimal(row.nodeId)]
  {
    hide Split, Decimal;
    var (a, b, d, e) := (Decimal(r.userId), Decimal(r.gameId), Decimal(issuedAt), Decimal(row.nodeId));
    DecimalNotIn(r.userId, '-');
    DecimalNotIn(r.gameId, '-');
    DecimalNotIn(issuedAt, '-');
    DecimalNotIn(row.nodeId, '-');
    assert IntentId(r, row, issuedAt) == "intent" + ['-'] + (a + ['-'] + (b + ['-'] + (d + ['-'] + e)));
    SplitHead("intent", '-', a + ['-'] + (b + ['-'] + (d + ['-'] + e)));
    SplitHead(a, '-', b + ['-'] + (d + ['-'] + e));
    SplitHead(b, '-', d + ['-'] + e);
    SplitHead(d, '-', e);
    SplitPlain(e, '-');
  }

  lemma TokenIsTrimmed(c: Crypto, encodeClaims: Claims -> seq<byte>, claims: Claims, secret: string)
    requires Lawful(c, encodeClaims)
    ensures
      var token := SignClientToken(c, encodeClaims, claims, secret);
      Trim(token) == token && !IsBlank(token)
  {
    hide Trim;
    var payload := c.encode64(encodeClaims(claims));
    var signature := c.encode64(c.mac(secret, SigningInput(payload)));
    var token := SignClientToken(c, encodeClaims, claims, secret);
    assert token[0] == 'x';
    assert token[|token| - 1] == if signature == [] then '.' else signature[|signature| - 1];
    assert !IsWhitespace(token[0]) && !IsWhitespace(token[|token| - 1]);
  }

  /** A signed token is accepted by a node holding the secret exactly while its claims are usable. */
  lemma SignedTokenIsAccepted(c: Crypto, encodeClaims: Claims -> seq<byte>, claims: Claims, secret: string,
                              nodeId: Option<nat>, now: nat)
    requires Lawful(c, encodeClaims)
    ensures VerifyToken(c, SignClientToken(c, encodeClaims, claims, secret), nodeId, secret, now) == Ok(claims)
      <==> UsableClaims(claims, nodeId, now)
  {
    hide VerifyToken, UsableClaims, Split;
    var payload := c.encode64(encodeClaims(claims));
    var signature := c.encode64(c.mac(secret, SigningInput(payload)));
    var token := SignClientToken(c, encodeClaims, claims, secret);
    assert SignedParts(c, token, secret, claims, payload, signature);
    VerifyTokenMeansSigned(c, token, nodeId, secret, now, claims);
  }

  /** A stored or per-session route row the control plane lets through: a non-blank address, a known
      protocol, and a node that has its secret. */
  predicate UsableRow(row: Row) {
    !IsBlank(row.targetAddr) && row.protocol in {"udp", "tcp"} && !IsBlank(row.nodeSecret)
  }

  /** The hash in a binding is that of its policy. */
  predicate HashHolds(c: Crypto, binding: Option<Binding>) {
    binding.Some? ==> c.hashPolicy(binding.value.policy) == Some(binding.value.hash)
  }

  /** Ticket completeness: for every request, row and binding, in catalog mode as in per-session mode, a
      ticket relayed unchanged is accepted by the node exactly while it has not expired, and the node then
      binds the policy that was hashed, or the fixed address when there is no policy. */
  lemma TicketIsAccepted(
    c: Crypto, encodeClaims: Claims -> seq<byte>, r: TicketRequest, row: Row, binding: Option<Binding>,
    ttl: nat, issuedAt: nat, nonce: string, nodeId: Option<nat>, now: nat)
    requires Lawful(c, encodeClaims) && !IsBlank(r.deviceId) && UsableRow(row) && HashHolds(c, binding)
    requires nodeId == None || nodeId == Some(row.nodeId)
    ensures
      var probe := ProbeFromTicket(IssueTicket(c, encodeClaims, r, row, binding, ttl, issuedAt), nonce);
      var claims := ClaimsFor(r, row, binding, ttl, issuedAt);
      && (VerifyProbeToken(c, probe, nodeId, Some(row.nodeSecret), now) == Valid(claims) <==> now < issuedAt + ttl)
      && var identity := IdentityFromClaims(c, claims, probe.routePolicy);
         && identity.Ok? && identity.value.credentialValid
         && identity.value.routePolicy == (if binding.None? then None else Some(binding.value.policy))
         && identity.value.routeTargetAddr == (if binding.None? then Some(row.targetAddr) else None)
         && identity.value.userId == Some(r.userId) && identity.value.deviceId == Some(r.deviceId)
         && identity.value.gameId == Some(r.gameId) && identity.value.regionId == r.regionId
         && identity.value.intentId == Some(IssueTicket(c, encodeClaims, r, row, binding, ttl, issuedAt).ticketId)
         && identity.value.routePolicyId == (if binding.None? then None else Some(binding.value.policy.policyId))
         && identity.value.routePolicyHash == (if binding.None? then None else Some(binding.value.hash))
         && identity.value.credentialExpiresAt == Some(issuedAt + ttl)
  {
    hide VerifyProbeToken, Trim, SignClientToken, Decimal, IsBlank, SignedBy, Lawful;
    var claims := ClaimsFor(r, row, binding, ttl, issuedAt);
    var probe := ProbeFromTicket(IssueTicket(c, encodeClaims, r, row, binding, ttl, issuedAt), nonce);
    TokenIsTrimmed(c, encodeClaims, claims, row.nodeSecret);
    SignedTokenIsAccepted(c, encodeClaims, claims, row.nodeSecret, nodeId, now);
    ProbeIsValidExactlyWhenGenuine(c, probe, nodeId, Some(row.nodeSecret), now, claims);
    VerifyTokenMeansSigned(c, probe.token.value, nodeId, row.nodeSecret, now, claims);
  }

  /** A per-session request's own route is such a row, with the validated policy as its binding. */
  lemma PerSessionTicketIsAccepted(
    c: Crypto, encodeClaims: Claims -> seq<byte>, parse: string -> Option<Ip>, r: TicketRequest, row: Row,
    ttl: nat, issuedAt: nat, nonce: string, nodeId: Option<nat>, now: nat)
    requires Lawful(c, encodeClaims) && !IsBlank(r.deviceId) && !IsBlank(row.nodeSecret)
    requires PerSessionRoute(c.hashPolicy, parse, r).Ok? && PerSessionRoute(c.hashPolicy, parse, r).value.Some?
    requires
      var route := PerSessionRoute(c.hashPolicy, parse, r).value.value;
      row.nodeId == route.nodeId && row.targetAddr == route.targetAddr && row.protocol == route.protocol
    requires nodeId == None || nodeId == Some(row.nodeId)
    ensures
      var binding := PerSessionRoute(c.hashPolicy, parse, r).value.value.binding;
      var probe := ProbeFromTicket(IssueTicket(c, encodeClaims, r, row, binding, ttl, issuedAt), nonce);
      var claims := ClaimsFor(r, row, binding, ttl, issuedAt);
      && (r.policy.Some? ==> Validated(c.hashPolicy, r.policy.value).Ok?)
      && binding == (if r.policy.None? then None else Some(Validated(c.hashPolicy, r.policy.value).value))
      && (VerifyProbeToken(c, probe, nodeId, Some(row.nodeSecret), now) == Valid(claims) <==> now < issuedAt + ttl)
      && var identity := IdentityFromClaims(c, claims, probe.routePolicy);
         && identity.Ok? && identity.value.credentialValid
         && identity.value.routePolicy == (if binding.None? then None else Some(binding.value.policy))
         && identity.value.routeTargetAddr == (if binding.None? then Some(row.targetAddr) else None)
  {
    hide VerifyProbeToken, PerSessionRoute, Validated, IsBlank, Lawful, IssueTicket, ClaimsFor, IdentityFromClaims, ProbeFromTicket;
    var binding := PerSessionRoute(c.hashPolicy, parse, r).value.value.binding;
    RouteIsUsable(c.hashPolicy, parse, r);
    if binding.Some? {
      HashIsOfPolicy(c.hashPolicy, r.policy.value);
    }
    TicketIsAccepted(c, encodeClaims, r, row, binding, ttl, issuedAt, nonce, nodeId, now);
  }

  lemma HashIsOfPolicy(hashPolicy: RoutePolicy -> Option<string>, policy: RoutePolicy)
    requires Validated(hashPolicy, policy).Ok?
    ensures hashPolicy(Validated(hashPolicy, policy).value.policy) == Some(Validated(hashPolicy, policy).value.hash)
  {
    hide NormalHead, NormalTargets;
  }
}
