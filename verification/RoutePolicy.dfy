/** Route policies and the node's first-match search for a relay target. */
module RoutePolicies {
  import opened Text
  import opened Cidr

  datatype RoutePolicy = RoutePolicy(
    policyId: string,
    policyVersion: nat,
    mode: string,
    defaultProtocol: Option<string>,
    dnsStrategy: Option<string>,
    targets: seq<RouteTarget>,
    capture: Option<string>)

  datatype RouteTarget = RouteTarget(
    targetId: string,
    purpose: Option<string>,
    hostType: string,
    host: Option<string>,
    resolvedIps: seq<string>,
    observedIps: seq<string>,
    cidrs: seq<string>,
    ports: seq<PortRange>,
    allowClientObservedIp: Option<bool>,
    resolveTtlSec: Option<nat>,
    required: Option<bool>)

  datatype PortRange = PortRange(protocol: string, from: nat, to: nat)

  datatype SessionDataTarget = SessionDataTarget(
    targetId: Option<string>,
    protocol: Option<string>,
    host: string,
    port: nat,
    originalDomain: Option<string>)

  datatype TargetMatch = TargetMatch(targetId: string, policyId: string)

  function Or<T>(first: Option<T>, second: Option<T>): Option<T> {
    if first.Some? then first else second
  }

  function OrDefault<T>(value: Option<T>, default: T): T {
    if value.Some? then value.value else default
  }

  predicate ContainsText(values: seq<string>, needle: string) {
    exists v :: v in values && EqIgnoreCase(Trim(v), needle)
  }

  predicate HostIs(ruleHost: Option<string>, host: string) {
    ruleHost.Some? && EqIgnoreCase(host, ruleHost.value)
  }

  predicate InSomeCidr(parse: string -> Option<Ip>, cidrs: seq<string>, host: string) {
    exists c :: c in cidrs && IpInCidr(parse, host, c)
  }

  predicate TargetMatchesHost(parse: string -> Option<Ip>, rule: RouteTarget, target: SessionDataTarget) {
    var host := Trim(target.host);
    var hostType := Lower(rule.hostType);
    if host == [] then false
    else if hostType == "any" then true
    else if hostType == "domain" then
      || HostIs(rule.host, host)
      || (target.originalDomain.Some? && HostIs(rule.host, target.originalDomain.value))
      || ContainsText(rule.resolvedIps, host)
    else if hostType == "ipv4" || hostType == "ipv6" then
      HostIs(rule.host, host) || ContainsText(rule.resolvedIps, host)
    else if hostType == "observed_ip" then
      ContainsText(rule.observedIps, host) || ContainsText(rule.resolvedIps, host)
    else if hostType == "cidr" then
      InSomeCidr(parse, rule.cidrs, host)
    else if hostType == "steam_sdr" then
      || HostIs(rule.host, host)
      || ContainsText(rule.resolvedIps, host)
      || ContainsText(rule.observedIps, host)
      || InSomeCidr(parse, rule.cidrs, host)
      || (rule.host.None? && rule.resolvedIps == [] && rule.observedIps == [] && rule.cidrs == [])
    else false
  }

  predicate PortAdmitted(rule: RouteTarget, protocol: string, port: nat) {
    exists range :: range in rule.ports
      && EqIgnoreCase(range.protocol, protocol) && range.from <= port <= range.to
  }

  /** The search loop over the rules, each rule skipped by the first test it fails. */
  function SearchRules(
    parse: string -> Option<Ip>, policy: RoutePolicy, protocol: string, target: SessionDataTarget, i: nat)
    : Result<TargetMatch, string>
    requires i <= |policy.targets|
    decreases |policy.targets| - i
  {
    if i == |policy.targets| then Err("target_not_allowed")
    else
      var rule := policy.targets[i];
      if target.targetId.Some? && rule.targetId != target.targetId.value then
        SearchRules(parse, policy, protocol, target, i + 1)
      else if !PortAdmitted(rule, protocol, target.port) then
        SearchRules(parse, policy, protocol, target, i + 1)
      else if TargetMatchesHost(parse, rule, target) then
        Ok(TargetMatch(rule.targetId, policy.policyId))
      else
        SearchRules(parse, policy, protocol, target, i + 1)
  }

  /** The protocol a target is matched under: lower-cased but not trimmed. */
  function MatchProtocol(policy: RoutePolicy, target: SessionDataTarget): string {
    Lower(OrDefault(target.protocol, OrDefault(policy.defaultProtocol, "udp")))
  }

  function MatchPolicyTarget(parse: string -> Option<Ip>, policy: RoutePolicy, target: SessionDataTarget)
    : Result<TargetMatch, string>
  {
    var protocol := MatchProtocol(policy, target);
    if protocol != "udp" && protocol != "tcp" then Err("target_protocol_unsupported")
    else SearchRules(parse, policy, protocol, target, 0)
  }

  /** What it means for one rule to admit a target, without any order of tests. */
  ghost predicate RuleAdmits(
    parse: string -> Option<Ip>, rule: RouteTarget, protocol: string, target: SessionDataTarget)
  {
    && (target.targetId == None || target.targetId == Some(rule.targetId))
    && PortAdmitted(rule, protocol, target.port)
    && TargetMatchesHost(parse, rule, target)
  }

  ghost predicate PolicyAdmits(
    parse: string -> Option<Ip>, policy: RoutePolicy, protocol: string, target: SessionDataTarget)
  {
    exists i :: 0 <= i < |policy.targets| && RuleAdmits(parse, policy.targets[i], protocol, target)
  }

  /** i is the least index of a rule that admits the target. */
  ghost predicate FirstAdmitting(
    parse: string -> Option<Ip>, policy: RoutePolicy, protocol: string, target: SessionDataTarget, i: nat)
  {
    && i < |policy.targets|
    && RuleAdmits(parse, policy.targets[i], protocol, target)
    && forall j :: 0 <= j < i ==> !RuleAdmits(parse, policy.targets[j], protocol, target)
  }

  /** A success that names the least admitting rule. */
  ghost predicate ReportsFirst(
    parse: string -> Option<Ip>, policy: RoutePolicy, protocol: string, target: SessionDataTarget,
    r: Result<TargetMatch, string>)
  {
    exists i: nat :: FirstAdmitting(parse, policy, protocol, target, i)
      && r == Ok(TargetMatch(policy.targets[i].targetId, policy.policyId))
  }

  lemma {:induction false} SearchMeaning(
    parse: string -> Option<Ip>, policy: RoutePolicy, protocol: string, target: SessionDataTarget, from: nat)
    requires from <= |policy.targets|
    requires forall j :: 0 <= j < from ==> !RuleAdmits(parse, policy.targets[j], protocol, target)
    ensures
      var r := SearchRules(parse, policy, protocol, target, from);
      if PolicyAdmits(parse, policy, protocol, target)
      then ReportsFirst(parse, policy, protocol, target, r)
      else r == Err("target_not_allowed")
    decreases |policy.targets| - from
  {
    if from < |policy.targets| {
      SearchStep(parse, policy, protocol, target, from);
      if RuleAdmits(parse, policy.targets[from], protocol, target) {
        assert FirstAdmitting(parse, policy, protocol, target, from);
        assert PolicyAdmits(parse, policy, protocol, target);
      } else {
        SearchMeaning(parse, policy, protocol, target, from + 1);
      }
    }
  }

  lemma SearchStep(
    parse: string -> Option<Ip>, policy: RoutePolicy, protocol: string, target: SessionDataTarget, i: nat)
    requires i < |policy.targets|
    ensures
      SearchRules(parse, policy, protocol, target, i)
      == if RuleAdmits(parse, policy.targets[i], protocol, target)
         then Ok(TargetMatch(policy.targets[i].targetId, policy.policyId))
         else SearchRules(parse, policy, protocol, target, i + 1)
  {
  }

  /** The matcher equals its declarative form: it succeeds exactly when the protocol is udp or tcp
      and some rule admits the target, it reports the least such rule, and otherwise it reports
      which of the two conditions failed. */
  lemma MatchIsDeclarative(parse: string -> Option<Ip>, policy: RoutePolicy, target: SessionDataTarget)
    ensures
      var protocol := MatchProtocol(policy, target);
      var r := MatchPolicyTarget(parse, policy, target);
      if protocol !in {"udp", "tcp"} then r == Err("target_protocol_unsupported")
      else if PolicyAdmits(parse, policy, protocol, target)
      then ReportsFirst(parse, policy, protocol, target, r)
      else r == Err("target_not_allowed")
  {
    SearchMeaning(parse, policy, MatchProtocol(policy, target), target, 0);
  }

  /** Appending rules never changes an answer that was already a success. */
  lemma AppendingRulesKeepsMatch(
    parse: string -> Option<Ip>, policy: RoutePolicy, target: SessionDataTarget, more: seq<RouteTarget>)
    requires MatchPolicyTarget(parse, policy, target).Ok?
    ensures MatchPolicyTarget(parse, policy.(targets := policy.targets + more), target)
         == MatchPolicyTarget(parse, policy, target)
  {
    var longer := policy.(targets := policy.targets + more);
    var protocol := MatchProtocol(policy, target);
    MatchIsDeclarative(parse, policy, target);
    MatchIsDeclarative(parse, longer, target);
    var i: nat :| FirstAdmitting(parse, policy, protocol, target, i)
      && MatchPolicyTarget(parse, policy, target) == Ok(TargetMatch(policy.targets[i].targetId, policy.policyId));
    assert longer.targets[i] == policy.targets[i];
    assert FirstAdmitting(parse, longer, protocol, target, i) by {
      forall j | 0 <= j < i ensures !RuleAdmits(parse, longer.targets[j], protocol, target) {
        assert longer.targets[j] == policy.targets[j];
      }
    }
    var k: nat :| FirstAdmitting(parse, longer, protocol, target, k)
      && MatchPolicyTarget(parse, longer, target) == Ok(TargetMatch(longer.targets[k].targetId, longer.policyId));
    assert k == i;
  }

  /** A CIDR rule, whatever the number and form of its blocks, admits a target exactly when the id and
      the port pass and the host lies in one of its blocks: the matcher and the mask arithmetic together. */
  lemma CidrRuleAdmitsBlock(
    parse: string -> Option<Ip>, rule: RouteTarget, protocol: string, target: SessionDataTarget)
    requires ParsesAddresses(parse) && parse([]).None? && Lower(rule.hostType) == "cidr"
    ensures RuleAdmits(parse, rule, protocol, target) <==>
      && (target.targetId == None || target.targetId == Some(rule.targetId))
      && PortAdmitted(rule, protocol, target.port)
      && exists cidr :: cidr in rule.cidrs && CidrHolds(parse, Trim(target.host), cidr)
  {
    hide IpInCidr, CidrHolds, PortAdmitted;
    var host := Trim(target.host);
    forall cidr ensures IpInCidr(parse, host, cidr) <==> CidrHolds(parse, host, cidr) {
      IpInCidrMeaning(parse, host, cidr);
    }
    if host == [] {
      NoAddressInCidr(parse, host);
    }
    assert TargetMatchesHost(parse, rule, target) <==> host != [] && InSomeCidr(parse, rule.cidrs, host) by {
      CidrType(parse, rule, target);
    }
  }

  lemma CidrType(parse: string -> Option<Ip>, rule: RouteTarget, target: SessionDataTarget)
    requires Lower(rule.hostType) == "cidr"
    ensures TargetMatchesHost(parse, rule, target) <==> Trim(target.host) != [] && InSomeCidr(parse, rule.cidrs, Trim(target.host))
  {
    hide InSomeCidr, ContainsText, HostIs;
    var t := "cidr";
    assert t[0] == 'c' && t != "any" && t != "domain" && t != "ipv4" && t != "ipv6" && t != "observed_ip";
  }

  lemma NoAddressInCidr(parse: string -> Option<Ip>, host: string)
    requires parse(host).None?
    ensures forall cidr :: !CidrHolds(parse, host, cidr)
  {
  }

  // ---------------------------------------------------------------- which hosts a policy opens

  /** A rule that admits every host: `any`, a domain rule with a host (the client states the original
      domain itself), or a Steam rule that lists nothing. */
  predicate OpensAnyHost(rule: RouteTarget) {
    var hostType := Lower(rule.hostType);
    || hostType == "any"
    || (hostType == "domain" && rule.host.Some?)
    || ListsNothing(rule)
  }

  predicate ListsNothing(rule: RouteTarget) {
    Lower(rule.hostType) == "steam_sdr"
    && rule.host.None? && rule.resolvedIps == [] && rule.observedIps == [] && rule.cidrs == []
  }

  /** The rule itself names the host: as its host, among its addresses, or inside one of its blocks. */
  predicate NamesHost(parse: string -> Option<Ip>, rule: RouteTarget, host: string) {
    var hostType := Lower(rule.hostType);
    || (hostType in {"domain", "ipv4", "ipv6", "steam_sdr"} && HostIs(rule.host, host))
    || (hostType in {"domain", "ipv4", "ipv6", "observed_ip", "steam_sdr"} && ContainsText(rule.resolvedIps, host))
    || (hostType in {"observed_ip", "steam_sdr"} && ContainsText(rule.observedIps, host))
    || (hostType in {"cidr", "steam_sdr"} && InSomeCidr(parse, rule.cidrs, host))
  }

  /** Some rule that admits the port opens every host or names this one. */
  ghost predicate PolicyOpens(parse: string -> Option<Ip>, policy: RoutePolicy, protocol: string, host: string, port: nat) {
    !IsBlank(host) && exists i :: 0 <= i < |policy.targets| && RuleOpens(parse, policy.targets[i], protocol, host, port)
  }

  ghost predicate RuleOpens(parse: string -> Option<Ip>, rule: RouteTarget, protocol: string, host: string, port: nat) {
    PortAdmitted(rule, protocol, port) && (OpensAnyHost(rule) || NamesHost(parse, rule, Trim(host)))
  }

  /** Without a stated original domain a domain rule with a host admits only what it names. */
  ghost predicate RuleOpensPlainly(parse: string -> Option<Ip>, rule: RouteTarget, protocol: string, host: string, port: nat) {
    && PortAdmitted(rule, protocol, port)
    && (Lower(rule.hostType) == "any" || ListsNothing(rule) || NamesHost(parse, rule, Trim(host)))
  }

  /** The host test against the rule's own content: only the original domain, which the client states,
      goes beyond it. */
  lemma HostTestMeaning(parse: string -> Option<Ip>, rule: RouteTarget, target: SessionDataTarget)
    ensures TargetMatchesHost(parse, rule, target) <==>
      && !IsBlank(target.host)
      && (|| Lower(rule.hostType) == "any" || ListsNothing(rule) || NamesHost(parse, rule, Trim(target.host))
          || (Lower(rule.hostType) == "domain" && target.originalDomain.Some? && HostIs(rule.host, target.originalDomain.value)))
  {
    hide Lower, Trim, HostIs, ContainsText, InSomeCidr;
    TypesDiffer();
  }

  lemma TypesDiffer()
    ensures "any" !in {"domain", "ipv4", "ipv6", "observed_ip", "cidr", "steam_sdr"}
    ensures "domain" !in {"ipv4", "ipv6", "observed_ip", "cidr", "steam_sdr"}
    ensures "ipv4" !in {"observed_ip", "cidr", "steam_sdr"} && "ipv6" !in {"observed_ip", "cidr", "steam_sdr"}
    ensures "observed_ip" !in {"cidr", "steam_sdr"} && "cidr" != "steam_sdr"
  {
    assert "any"[0] == 'a' && "domain"[0] == 'd' && "ipv4"[0] == 'i' && "ipv6"[0] == 'i' && "observed_ip"[0] == 'o'
      && "cidr"[0] == 'c' && "steam_sdr"[0] == 's';
  }

  /** A target's stated original domain that makes a domain rule admit it, whatever its host. */
  function StatedDomain(rule: RouteTarget): Option<string> {
    if Lower(rule.hostType) == "domain" then rule.host else None
  }

  /** The failing input: a client that states the rule's own host as the original domain is admitted to
      any host at all on an admitted port. */
  lemma DomainRuleAdmitsAnyHost(
    parse: string -> Option<Ip>, policy: RoutePolicy, i: nat, protocol: string, host: string, port: nat)
    requires i < |policy.targets| && Lower(policy.targets[i].hostType) == "domain" && policy.targets[i].host.Some?
    requires PortAdmitted(policy.targets[i], protocol, port) && protocol in {"udp", "tcp"} && !IsBlank(host)
    ensures
      var target := SessionDataTarget(None, Some(protocol), host, port, policy.targets[i].host);
      PolicyAdmits(parse, policy, protocol, target) && MatchPolicyTarget(parse, policy, target).Ok?
  {
    hide PortAdmitted, Lower, NamesHost, TargetMatchesHost;
    var rule := policy.targets[i];
    var target := SessionDataTarget(None, Some(protocol), host, port, rule.host);
    HostTestMeaning(parse, rule, target);
    assert RuleAdmits(parse, rule, protocol, target);
    MatchIsDeclarative(parse, policy, target);
    LowerName(protocol);
  }

  lemma LowerName(protocol: string)
    requires protocol in {"udp", "tcp"}
    ensures Lower(protocol) == protocol
  {
  }

  /** Exactly which hosts a client can reach under a policy: some target with this host, port and
      protocol is admitted if and only if a rule that admits the port opens every host or names it. */
  lemma ReachableExactlyWhenOpen(parse: string -> Option<Ip>, policy: RoutePolicy, protocol: string, host: string, port: nat)
    ensures PolicyOpens(parse, policy, protocol, host, port) <==>
      exists target: SessionDataTarget :: target.host == host && target.port == port && PolicyAdmits(parse, policy, protocol, target)
  {
    hide PortAdmitted, Lower, NamesHost, TargetMatchesHost, IsBlank;
    if PolicyOpens(parse, policy, protocol, host, port) {
      var i :| 0 <= i < |policy.targets| && RuleOpens(parse, policy.targets[i], protocol, host, port);
      var rule := policy.targets[i];
      var target := SessionDataTarget(None, Some(protocol), host, port, StatedDomain(rule));
      HostTestMeaning(parse, rule, target);
      SameHost(rule);
      assert RuleAdmits(parse, rule, protocol, target);
      assert PolicyAdmits(parse, policy, protocol, target);
    }
    forall target: SessionDataTarget | PolicyAdmits(parse, policy, protocol, target)
      ensures PolicyOpens(parse, policy, protocol, target.host, target.port)
    {
      AdmittedIsOpen(parse, policy, protocol, target);
    }
  }

  lemma SameHost(rule: RouteTarget)
    ensures rule.host.Some? ==> HostIs(rule.host, rule.host.value)
  {
  }

  lemma AdmittedIsOpen(parse: string -> Option<Ip>, policy: RoutePolicy, protocol: string, target: SessionDataTarget)
    requires PolicyAdmits(parse, policy, protocol, target)
    ensures PolicyOpens(parse, policy, protocol, target.host, target.port)
    ensures target.originalDomain.None? ==>
      exists i :: 0 <= i < |policy.targets| && RuleOpensPlainly(parse, policy.targets[i], protocol, target.host, target.port)
  {
    hide PortAdmitted, Lower, NamesHost, TargetMatchesHost, IsBlank;
    var i :| 0 <= i < |policy.targets| && RuleAdmits(parse, policy.targets[i], protocol, target);
    HostTestMeaning(parse, policy.targets[i], target);
    assert RuleOpens(parse, policy.targets[i], protocol, target.host, target.port);
    if target.originalDomain.None? {
      assert RuleOpensPlainly(parse, policy.targets[i], protocol, target.host, target.port);
    }
  }

  /** No text longer than the longest IPv6 notation is an address. */
  ghost predicate AddressesAreShort(parse: string -> Option<Ip>) {
    forall text :: parse(text).Some? ==> |text| <= 45
  }

  /** A policy opens every host on a port exactly when a rule that admits the port is one of the three
      open kinds; every other policy shuts some host out. */
  lemma EveryHostOpenExactly(parse: string -> Option<Ip>, policy: RoutePolicy, protocol: string, port: nat)
    requires AddressesAreShort(parse)
    ensures (forall host :: !IsBlank(host) ==> PolicyOpens(parse, policy, protocol, host, port))
      <==> exists i :: 0 <= i < |policy.targets| && PortAdmitted(policy.targets[i], protocol, port) && OpensAnyHost(policy.targets[i])
  {
    hide PortAdmitted, OpensAnyHost, NamesHost, IsBlank;
    var stranger := Repeated(46 + TextsLength(policy.targets));
    StrangerIsVisible(|stranger|);
    if PolicyOpens(parse, policy, protocol, stranger, port) {
      var i :| 0 <= i < |policy.targets| && RuleOpens(parse, policy.targets[i], protocol, stranger, port);
      StrangerIsUnnamed(parse, policy.targets, i, |stranger|);
    }
  }

  function Repeated(length: nat): (s: string)
    ensures |s| == length && forall k :: 0 <= k < length ==> s[k] == 'x'
  {
    seq(length, k => 'x')
  }

  lemma StrangerIsVisible(length: nat)
    requires length > 0
    ensures Trim(Repeated(length)) == Repeated(length) && !IsBlank(Repeated(length))
  {
  }

  /** An upper bound on the length of every text a rule compares with. */
  function TextsLength(rules: seq<RouteTarget>): nat {
    if rules == [] then 0
    else TextsLength(rules[..|rules| - 1]) + RuleLength(rules[|rules| - 1])
  }

  function RuleLength(rule: RouteTarget): nat {
    OptionLength(rule.host) + Lengths(rule.resolvedIps) + Lengths(rule.observedIps)
  }

  function OptionLength(text: Option<string>): nat {
    if text.Some? then |text.value| else 0
  }

  function Lengths(texts: seq<string>): nat {
    if texts == [] then 0 else Lengths(texts[..|texts| - 1]) + |texts[|texts| - 1]|
  }

  lemma {:induction false} LengthsBound(texts: seq<string>, text: string)
    requires text in texts
    ensures |text| <= Lengths(texts)
  {
    var last := |texts| - 1;
    if text != texts[last] {
      LengthsBound(texts[..last], text);
    }
  }

  lemma {:induction false} RuleLengthBound(rules: seq<RouteTarget>, i: nat)
    requires i < |rules|
    ensures RuleLength(rules[i]) <= TextsLength(rules)
  {
    hide RuleLength;
    if i < |rules| - 1 {
      RuleLengthBound(rules[..|rules| - 1], i);
    }
  }

  lemma LongTextIsNotContained(texts: seq<string>, text: string)
    requires |text| > Lengths(texts)
    ensures !ContainsText(texts, text)
  {
    forall v | v in texts ensures !EqIgnoreCase(Trim(v), text) {
      LengthsBound(texts, v);
      TrimShortens(v);
      assert |Lower(Trim(v))| == |Trim(v)| && |Lower(text)| == |text|;
    }
  }

  lemma TrimShortens(s: string)
    ensures |Trim(s)| <= |s|
  {
  }

  lemma StrangerIsUnnamed(parse: string -> Option<Ip>, rules: seq<RouteTarget>, i: nat, length: nat)
    requires AddressesAreShort(parse) && i < |rules| && length == 46 + TextsLength(rules)
    ensures !NamesHost(parse, rules[i], Trim(Repeated(length)))
  {
    hide TextsLength, ContainsText, Lower;
    var text := Repeated(length);
    StrangerIsVisible(length);
    RuleLengthBound(rules, i);
    LongTextIsNotContained(rules[i].resolvedIps, text);
    LongTextIsNotContained(rules[i].observedIps, text);
    LongHost(rules[i].host, text);
    assert forall c :: !IpInCidr(parse, text, c);
  }

  lemma LongHost(host: Option<string>, text: string)
    requires |text| > OptionLength(host)
    ensures !HostIs(host, text)
  {
    if host.Some? {
      assert |Lower(text)| == |text| && |Lower(host.value)| == |host.value|;
    }
  }
}
