/** Normalising a catalog request: categories without duplicates, and nested regions and rules that
    inherit the ids and names of the game and region they stand in. */
module CatalogRequest {
  import opened Text
  import opened RoutePolicies
  import opened Ticket
  import opened Checks

  const MAX_GAME_CATEGORIES: nat := 16

  // ---------------------------------------------------------------- categories

  function OptionalText(value: Option<string>, maxLen: nat): Result<Option<string>, string> {
    if NonBlank(value).None? then Ok(None)
    else if |NonBlank(value).value| > maxLen then Err("invalid_field")
    else Ok(NonBlank(value))
  }

  predicate HasIgnoringCase(s: seq<string>, text: string) {
    exists i :: 0 <= i < |s| && EqIgnoreCase(s[i], text)
  }

  /** The texts without those equal, ignoring ASCII case, to an earlier one. */
  function Deduplicated(s: seq<string>): seq<string> {
    if s == [] then []
    else
      var before := Deduplicated(s[..|s| - 1]);
      if HasIgnoringCase(before, s[|s| - 1]) then before else before + [s[|s| - 1]]
  }

  /** Candidates in order: the primary category first; blank ones are skipped. */
  function Candidates(values: seq<Option<string>>): Result<seq<string>, string> {
    if values == [] then Ok([])
    else
      match Candidates(values[..|values| - 1])
      case Err(e) => Err(e)
      case Ok(before) =>
        match OptionalText(values[|values| - 1], 64)
        case Err(e) => Err(e)
        case Ok(None) => Ok(before)
        case Ok(Some(text)) => Ok(before + [text])
  }

  function Values(primary: Option<string>, categories: Option<seq<string>>): seq<Option<string>> {
    [primary] + (if categories.None? then [] else Somes(categories.value))
  }

  function Somes(texts: seq<string>): (r: seq<Option<string>>)
    ensures |r| == |texts|
  {
    seq(|texts|, i requires 0 <= i < |texts| => Some(texts[i]))
  }

  function Categories(primary: Option<string>, categories: Option<seq<string>>): Result<seq<string>, string> {
    if categories.Some? && |categories.value| > MAX_GAME_CATEGORIES then Err("invalid_game_categories")
    else
      match Candidates(Values(primary, categories))
      case Err(e) => Err(e)
      case Ok(candidates) => Ok(Deduplicated(candidates))
  }

  /** The lower-cased texts kept so far, as the loop's hash set holds them. */
  ghost predicate SeenAre(seen: set<string>, kept: seq<string>) {
    forall key :: key in seen <==> exists i :: 0 <= i < |kept| && Lower(kept[i]) == key
  }

  method NormalizeBusinessGameCategories(primary: Option<string>, categories: Option<seq<string>>)
    returns (r: Result<seq<string>, string>)
    ensures r == Categories(primary, categories)
  {
    hide OptionalText, Lower;
    if categories.Some? && |categories.value| > MAX_GAME_CATEGORIES {
      return Err("invalid_game_categories");
    }
    var values := Values(primary, categories);
    var seen: set<string> := {};
    var normalized: seq<string> := [];
    for k := 0 to |values|
      invariant Candidates(values[..k]).Ok?
      invariant normalized == Deduplicated(Candidates(values[..k]).value)
      invariant SeenAre(seen, normalized)
    {
      assert values[..k + 1][..k] == values[..k];
      var category := OptionalText(values[k], 64);
      if category.Err? {
        CandidateErrorStays(values, k + 1);
        return Err(category.error);
      }
      if category.value.Some? {
        var text := category.value.value;
        ghost var before := Candidates(values[..k]).value;
        assert (before + [text])[..|before|] == before;
        assert Lower(text) in seen <==> HasIgnoringCase(normalized, text);
        if Lower(text) !in seen {
          SeenGrows(seen, normalized, text);
          seen := seen + {Lower(text)};
          normalized := normalized + [text];
        }
      }
    }
    assert values[..|values|] == values;
    r := Ok(normalized);
  }

  lemma SeenGrows(seen: set<string>, kept: seq<string>, text: string)
    requires SeenAre(seen, kept)
    ensures SeenAre(seen + {Lower(text)}, kept + [text])
  {
    hide Lower;
    var more := kept + [text];
    forall key ensures key in seen + {Lower(text)} <==> exists i :: 0 <= i < |more| && Lower(more[i]) == key {
      if key in seen {
        var i :| 0 <= i < |kept| && Lower(kept[i]) == key;
        assert Lower(more[i]) == key;
      }
      assert Lower(more[|kept|]) == Lower(text);
      if i :| 0 <= i < |kept| && Lower(more[i]) == key {
        assert Lower(kept[i]) == key;
      }
    }
  }

  lemma {:induction false} CandidateErrorStays(values: seq<Option<string>>, k: nat)
    requires k <= |values| && Candidates(values[..k]).Err?
    ensures Candidates(values) == Candidates(values[..k])
  {
    hide OptionalText;
    if k == |values| {
      assert values[..k] == values;
    } else {
      var last := |values| - 1;
      assert values[..last][..k] == values[..k];
      CandidateErrorStays(values[..last], k);
    }
  }

  /** An earlier text equals s[k] ignoring case. */
  predicate Repeats(s: seq<string>, k: nat)
    requires k < |s|
  {
    exists j :: 0 <= j < k && EqIgnoreCase(s[j], s[k])
  }

  /** The positions de-duplication keeps. */
  ghost function Firsts(s: seq<string>): seq<nat> {
    if s == [] then []
    else
      var last := |s| - 1;
      if HasIgnoringCase(Deduplicated(s[..last]), s[last]) then Firsts(s[..last]) else Firsts(s[..last]) + [last]
  }

  lemma {:induction false} SameTexts(s: seq<string>, text: string)
    ensures HasIgnoringCase(Deduplicated(s), text) <==> HasIgnoringCase(s, text)
  {
    if s != [] {
      var last := |s| - 1;
      var before := Deduplicated(s[..last]);
      SameTexts(s[..last], text);
      SameTexts(s[..last], s[last]);
      Appended(s[..last], s[last], text);
      assert s[..last] + [s[last]] == s;
      if HasIgnoringCase(before, s[last]) {
        if EqIgnoreCase(s[last], text) {
          SameCase(before, s[last], text);
        }
      } else {
        Appended(before, s[last], text);
      }
    }
  }

  lemma {:induction false} FirstsAreKept(s: seq<string>)
    ensures |Firsts(s)| == |Deduplicated(s)|
    ensures forall i :: 0 <= i < |Firsts(s)| ==> Firsts(s)[i] < |s| && Deduplicated(s)[i] == s[Firsts(s)[i]]
    ensures forall i, j :: 0 <= i < j < |Firsts(s)| ==> Firsts(s)[i] < Firsts(s)[j]
  {
    hide HasIgnoringCase;
    if s != [] {
      FirstsAreKept(s[..|s| - 1]);
    }
  }

  lemma {:induction false} FirstsRepeatNothing(s: seq<string>, k: nat)
    requires k < |s|
    ensures k in Firsts(s) <==> !Repeats(s, k)
  {
    hide HasIgnoringCase, Repeats;
    var last := |s| - 1;
    FirstsAreKept(s[..last]);
    if k < last {
      FirstsRepeatNothing(s[..last], k);
      RepeatsInPrefix(s, k);
    } else {
      SameTexts(s[..last], s[last]);
      LastRepeats(s);
      assert forall i :: 0 <= i < |Firsts(s[..last])| ==> Firsts(s[..last])[i] < last;
    }
  }

  lemma RepeatsInPrefix(s: seq<string>, k: nat)
    requires k < |s| - 1
    ensures Repeats(s[..|s| - 1], k) <==> Repeats(s, k)
  {
    var prefix := s[..|s| - 1];
    if Repeats(s, k) {
      var j :| 0 <= j < k && EqIgnoreCase(s[j], s[k]);
      assert EqIgnoreCase(prefix[j], prefix[k]);
    }
    if Repeats(prefix, k) {
      var j :| 0 <= j < k && EqIgnoreCase(prefix[j], prefix[k]);
      assert EqIgnoreCase(s[j], s[k]);
    }
  }

  /** De-duplication keeps exactly the first occurrences, in order: the positions kept increase, they
      are those that repeat nothing before them, and no two kept texts are equal ignoring case. */
  lemma DeduplicatedKeepsFirsts(s: seq<string>)
    ensures
      var positions := Firsts(s);
      && |positions| == |Deduplicated(s)|
      && (forall i :: 0 <= i < |positions| ==> positions[i] < |s| && Deduplicated(s)[i] == s[positions[i]])
      && (forall i, j :: 0 <= i < j < |positions| ==> positions[i] < positions[j])
      && (forall k: nat :: k < |s| ==> (k in positions <==> !Repeats(s, k)))
    ensures forall i, j :: 0 <= i < j < |Deduplicated(s)| ==> !EqIgnoreCase(Deduplicated(s)[i], Deduplicated(s)[j])
  {
    hide Firsts, Deduplicated, EqIgnoreCase;
    var positions := Firsts(s);
    FirstsAreKept(s);
    forall k: nat | k < |s| ensures k in positions <==> !Repeats(s, k) {
      FirstsRepeatNothing(s, k);
    }
    forall i, j | 0 <= i < j < |positions| ensures !EqIgnoreCase(Deduplicated(s)[i], Deduplicated(s)[j]) {
      assert positions[j] in positions && !Repeats(s, positions[j]);
    }
  }

  lemma LastRepeats(s: seq<string>)
    requires s != []
    ensures Repeats(s, |s| - 1) <==> HasIgnoringCase(s[..|s| - 1], s[|s| - 1])
  {
    var last := |s| - 1;
    if HasIgnoringCase(s[..last], s[last]) {
      var j :| 0 <= j < last && EqIgnoreCase(s[..last][j], s[last]);
      assert EqIgnoreCase(s[j], s[last]);
    }
    if Repeats(s, last) {
      var j :| 0 <= j < last && EqIgnoreCase(s[j], s[last]);
      assert EqIgnoreCase(s[..last][j], s[last]);
    }
  }

  lemma Appended(s: seq<string>, x: string, text: string)
    ensures HasIgnoringCase(s + [x], text) <==> HasIgnoringCase(s, text) || EqIgnoreCase(x, text)
  {
    var all := s + [x];
    if HasIgnoringCase(s, text) {
      var i :| 0 <= i < |s| && EqIgnoreCase(s[i], text);
      assert EqIgnoreCase(all[i], text);
    }
    assert all[|s|] == x;
  }

  lemma SameCase(s: seq<string>, a: string, b: string)
    requires EqIgnoreCase(a, b)
    ensures HasIgnoringCase(s, a) <==> HasIgnoringCase(s, b)
  {
    hide Lower;
  }

  // ---------------------------------------------------------------- nested ids

  datatype RuleRequest = RuleRequest(
    externalId: Option<string>, gameId: Option<nat>, gameName: Option<string>, regionId: Option<nat>,
    regionName: Option<string>, nodeId: nat, targetAddr: string, protocol: Option<string>, area: Option<string>,
    tag: Option<string>, priority: Option<nat>, status: Option<string>)

  datatype RegionRequest = RegionRequest(
    gameId: Option<nat>, regionId: nat, name: string, area: Option<string>, status: Option<string>,
    remark: Option<string>, rules: seq<RuleRequest>)

  datatype GameRequest = GameRequest(
    gameId: nat, name: string, platform: Option<string>, category: Option<string>, categories: Option<seq<string>>,
    iconUrl: Option<string>, status: Option<string>, remark: Option<string>, regions: seq<RegionRequest>,
    rules: seq<RuleRequest>)

  datatype Request = Request(source: Option<string>, games: seq<GameRequest>, regions: seq<RegionRequest>,
                             rules: seq<RuleRequest>)

  datatype Game = Game(
    gameId: nat, name: string, platform: string, category: Option<string>, categories: seq<string>,
    iconUrl: Option<string>, status: string, remark: Option<string>)

  datatype Region = Region(
    gameId: nat, regionId: nat, name: string, area: Option<string>, status: string, remark: Option<string>)

  datatype Rule = Rule(
    gameId: nat, gameName: string, regionId: Option<nat>, regionName: Option<string>, nodeId: nat, targetAddr: string,
    protocol: string, area: Option<string>, tag: Option<string>, priority: nat, status: string,
    syncSource: Option<string>, externalId: Option<string>)

  /** The game and region a rule is nested in, as far as it is. */
  datatype Parents = Parents(gameId: Option<nat>, gameName: Option<string>, regionId: Option<nat>, regionName: Option<string>)

  datatype Catalog = Catalog(source: string, games: seq<Game>, regions: seq<Region>, rules: seq<Rule>)

  /** `hash` stands for the digest in a default external id. */
  type Digest = string -> string

  function NestedGameId(own: Option<nat>, parent: Option<nat>): Result<nat, string> {
    if own.Some? && parent.Some? && own != parent then Err("invalid_game")
    else if own.Some? then Ok(own.value)
    else if parent.Some? then Ok(parent.value)
    else Err("invalid_game")
  }

  function RegionText(regionId: Option<nat>): string {
    if regionId.Some? then Decimal(regionId.value) else "global"
  }

  function DefaultExternalId(hash: Digest, gameId: nat, regionId: Option<nat>, nodeId: nat, targetAddr: string, protocol: string)
    : string
  {
    "route-" + Decimal(gameId) + "-" + RegionText(regionId) + "-"
    + hash(Decimal(gameId) + ":" + RegionText(regionId) + ":" + Decimal(nodeId) + ":" + targetAddr + ":" + protocol)
  }

  function GamePlatform(platform: Option<string>): Result<string, string> {
    var name := if platform.None? then "pc" else Trim(platform.value);
    if name == "" || name == "pc" then Ok("pc")
    else if name in {"android", "ios", "multi"} then Ok(name)
    else Err("invalid_game_platform")
  }

  function GameStatus(status: Option<string>): Result<string, string> {
    var name := if status.None? then "enabled" else Trim(status.value);
    if name == "" || name == "enabled" then Ok("enabled")
    else if name == "disabled" then Ok("disabled")
    else Err("invalid_game_status")
  }

  function RuleStatus(status: Option<string>): Result<string, string> {
    var name := if status.None? then "enabled" else Trim(status.value);
    if name in {"enabled", "disabled"} then Ok(name) else Err("invalid_route_status")
  }

  predicate IsUrl(url: string) {
    && (forall k :: 0 <= k < |url| ==> !IsWhitespace(url[k]))
    && ("http://" <= url || "https://" <= url)
  }

  function NormalRegion(r: RegionRequest, parentGame: Option<nat>): Result<Region, string> {
    var gameId := NestedGameId(r.gameId, parentGame);
    var name := NormalizeRequiredText(r.name, 128);
    if gameId.Err? then Err(gameId.error)
    else if gameId.value == 0 then Err("invalid_game")
    else if r.regionId == 0 then Err("invalid_region")
    else if name.Err? then Err(name.error)
    else if OptionalText(r.area, 32).Err? then Err("invalid_field")
    else if GameStatus(r.status).Err? then Err("invalid_game_status")
    else if OptionalText(r.remark, 512).Err? then Err("invalid_field")
    else Ok(Region(gameId.value, r.regionId, name.value, OptionalText(r.area, 32).value, GameStatus(r.status).value,
                   OptionalText(r.remark, 512).value))
  }

  /** The ids of a rule, its own or its parents', or why they are refused. */
  function RuleIds(r: RuleRequest, parents: Parents): Result<(nat, Option<nat>), string> {
    var gameId := NestedGameId(r.gameId, parents.gameId);
    if gameId.Err? then Err(gameId.error)
    else if gameId.value == 0 then Err("invalid_game")
    else if r.nodeId == 0 then Err("invalid_node")
    else if r.regionId == Some(0) then Err("invalid_region")
    else if r.regionId.Some? && parents.regionId.Some? && r.regionId != parents.regionId then Err("invalid_region")
    else Ok((gameId.value, Or(r.regionId, parents.regionId)))
  }

  /** The remaining checks of a rule, in order. */
  function RuleError(r: RuleRequest): Option<string> {
    if NonBlank(r.protocol).Some? && NonBlank(r.protocol).value != "udp" then Some("invalid_route_protocol")
    else if ValidateTargetAddr(r.targetAddr).Err? then Some(ValidateTargetAddr(r.targetAddr).error)
    else if OptionalText(r.gameName, 128).Err? || OptionalText(r.externalId, 128).Err? then Some("invalid_field")
    else if OptionalText(r.regionName, 128).Err? || OptionalText(r.area, 32).Err? || OptionalText(r.tag, 64).Err?
    then Some("invalid_field")
    else if RuleStatus(r.status).Err? then Some("invalid_route_status")
    else None
  }

  function NormalRule(hash: Digest, r: RuleRequest, source: string, parents: Parents): Result<Rule, string> {
    match RuleIds(r, parents)
    case Err(e) => Err(e)
    case Ok((gameId, regionId)) =>
      if RuleError(r).Some? then Err(RuleError(r).value)
      else
        var address := ValidateTargetAddr(r.targetAddr).value;
        var names := Or(OptionalText(r.gameName, 128).value, parents.gameName);
        var external := OptionalText(r.externalId, 128).value;
        Ok(Rule(gameId, OrDefault(names, "Game " + Decimal(gameId)), regionId,
                Or(OptionalText(r.regionName, 128).value, parents.regionName), r.nodeId, address, "udp",
                OptionalText(r.area, 32).value, OptionalText(r.tag, 64).value, OrDefault(r.priority, 100),
                RuleStatus(r.status).value, Some(source),
                if external.Some? then external
                else Some(DefaultExternalId(hash, gameId, regionId, r.nodeId, address, "udp"))))
  }

  function NormalRules(hash: Digest, rules: seq<RuleRequest>, source: string, parents: Parents)
    : Result<seq<Rule>, string>
  {
    if rules == [] then Ok([])
    else
      match NormalRules(hash, rules[..|rules| - 1], source, parents)
      case Err(e) => Err(e)
      case Ok(before) =>
        match NormalRule(hash, rules[|rules| - 1], source, parents)
        case Err(e) => Err(e)
        case Ok(rule) => Ok(before + [rule])
  }

  /** A rule stands under these parents: it has their ids where they are given. */
  predicate Inherits(rule: Rule, source: string, parents: Parents) {
    && (parents.gameId.Some? ==> rule.gameId == parents.gameId.value)
    && (parents.regionId.Some? ==> rule.regionId == parents.regionId)
    && rule.gameId > 0 && rule.nodeId > 0 && rule.syncSource == Some(source) && rule.externalId.Some?
  }

  // ---------------------------------------------------------------- what one item becomes

  /** An optional text as it is kept: trimmed, and left out when blank. */
  predicate OptionalFits(text: Option<string>, maxLen: nat) {
    NonBlank(text).Some? ==> |NonBlank(text).value| <= maxLen
  }

  /** The id an item has: its own, or that of what it is nested in; both must agree. */
  predicate IdsAgree(own: Option<nat>, parent: Option<nat>) {
    own.Some? && parent.Some? ==> own == parent
  }

  /** What is checked of a rule, in order: its ids, then its fields. */
  ghost function RuleIdChecks(r: RuleRequest, parents: Parents): seq<Check> {
    [Check(IdsAgree(r.gameId, parents.gameId) && Or(r.gameId, parents.gameId) !in {None, Some(0)}, "invalid_game"),
     Check(r.nodeId > 0, "invalid_node"),
     Check(r.regionId != Some(0) && IdsAgree(r.regionId, parents.regionId), "invalid_region")]
  }

  ghost function RuleChecks(r: RuleRequest, parents: Parents): seq<Check> {
    RuleIdChecks(r, parents)
    + [Check(NonBlank(r.protocol) in {None, Some("udp")}, "invalid_route_protocol")]
    + AddressChecks(r.targetAddr)
    + [Check(OptionalFits(r.gameName, 128) && OptionalFits(r.externalId, 128) && OptionalFits(r.regionName, 128)
             && OptionalFits(r.area, 32) && OptionalFits(r.tag, 64), "invalid_field"),
       Check(r.status.None? || Trim(r.status.value) in {"enabled", "disabled"}, "invalid_route_status")]
  }

  /** A rule as it is kept: its own ids and names or those it inherits, its node, its trimmed address, its
      priority or 100, its status or enabled, and a key. */
  ghost predicate RuleKept(hash: Digest, r: RuleRequest, source: string, parents: Parents, rule: Rule) {
    && Some(rule.gameId) == Or(r.gameId, parents.gameId)
    && rule.gameName == OrDefault(Or(NonBlank(r.gameName), parents.gameName), "Game " + Decimal(rule.gameId))
    && rule.regionId == Or(r.regionId, parents.regionId)
    && rule.regionName == Or(NonBlank(r.regionName), parents.regionName)
    && rule.nodeId == r.nodeId && rule.targetAddr == Trim(r.targetAddr) && rule.protocol == "udp"
    && rule.area == NonBlank(r.area) && rule.tag == NonBlank(r.tag)
    && rule.priority == (if r.priority.Some? then r.priority.value else 100)
    && rule.status == (if r.status.Some? then Trim(r.status.value) else "enabled")
    && rule.syncSource == Some(source)
    && rule.externalId == (if NonBlank(r.externalId).Some? then NonBlank(r.externalId) else Some(MadeExternalId(hash, rule)))
  }

  /** The external id a rule without one gets: its game and region, and a digest of where it leads. */
  ghost function MadeExternalId(hash: Digest, rule: Rule): string {
    var region := if rule.regionId.Some? then Decimal(rule.regionId.value) else "global";
    "route-" + Decimal(rule.gameId) + "-" + region + "-"
    + hash(Decimal(rule.gameId) + ":" + region + ":" + Decimal(rule.nodeId) + ":" + rule.targetAddr + ":" + rule.protocol)
  }

  ghost function RegionChecks(r: RegionRequest, parentGame: Option<nat>): seq<Check> {
    [Check(IdsAgree(r.gameId, parentGame) && Or(r.gameId, parentGame) !in {None, Some(0)}, "invalid_game"),
     Check(r.regionId > 0, "invalid_region"),
     Check(TextFits(r.name, 128), "invalid_field"),
     Check(OptionalFits(r.area, 32), "invalid_field"),
     Check(r.status.None? || Trim(r.status.value) in {"", "enabled", "disabled"}, "invalid_game_status"),
     Check(OptionalFits(r.remark, 512), "invalid_field")]
  }

  ghost predicate RegionKept(r: RegionRequest, parentGame: Option<nat>, region: Region) {
    && Some(region.gameId) == Or(r.gameId, parentGame) && region.regionId == r.regionId && region.name == Trim(r.name)
    && region.area == NonBlank(r.area) && region.remark == NonBlank(r.remark)
    && region.status == (if r.status.Some? && Trim(r.status.value) == "disabled" then "disabled" else "enabled")
  }

  lemma OptionalTextMeans(text: Option<string>, maxLen: nat)
    ensures OptionalText(text, maxLen) == if OptionalFits(text, maxLen) then Ok(NonBlank(text)) else Err("invalid_field")
  {
  }

  lemma RuleIdsMean(r: RuleRequest, parents: Parents)
    ensures Decided(RuleIdChecks(r, parents), RuleIds(r, parents))
    ensures RuleIds(r, parents).Ok? ==>
      && Some(RuleIds(r, parents).value.0) == Or(r.gameId, parents.gameId)
      && RuleIds(r, parents).value.1 == Or(r.regionId, parents.regionId)
  {
    hide AllPass, FailsFirst;
    ThreeChecks(RuleIdChecks(r, parents));
  }

  function Test(check: Check): Result<bool, string> {
    if check.passes then Ok(true) else Err(check.code)
  }

  lemma OneCheck(check: Check)
    ensures Decided([check], Test(check))
  {
    if !check.passes {
      FailsAt([check], 0);
    }
  }

  /** The decision of two, the first of which is made first. */
  function Both<S, T>(first: Result<S, string>, second: Result<T, string>): Result<bool, string> {
    if first.Err? then Err(first.error) else if second.Err? then Err(second.error) else Ok(true)
  }

  lemma RuleDecided(r: RuleRequest, parents: Parents)
    ensures Decided(RuleChecks(r, parents),
                    Both(RuleIds(r, parents), if RuleError(r).Some? then Err(RuleError(r).value) else Ok(true)))
  {
    hide Trim, AddressChecks, RuleIdChecks, RuleIds, ValidateTargetAddr, OptionalText, OptionalFits, Decided;
    var checks := RuleChecks(r, parents);
    var protocol := Check(NonBlank(r.protocol) in {None, Some("udp")}, "invalid_route_protocol");
    var texts := Check(OptionalFits(r.gameName, 128) && OptionalFits(r.externalId, 128) && OptionalFits(r.regionName, 128)
                       && OptionalFits(r.area, 32) && OptionalFits(r.tag, 64), "invalid_field");
    var status := Check(r.status.None? || Trim(r.status.value) in {"enabled", "disabled"}, "invalid_route_status");
    RuleIdsMean(r, parents);
    ValidateTargetAddrMeans(r.targetAddr);
    OneCheck(protocol);
    OneCheck(texts);
    OneCheck(status);
    var one := Both(RuleIds(r, parents), Test(protocol));
    var two := Both(one, ValidateTargetAddr(r.targetAddr));
    var three := Both(two, Test(texts));
    var four := Both(three, Test(status));
    JoinedDecided(RuleIdChecks(r, parents), [protocol], RuleIds(r, parents), Test(protocol), one);
    JoinedDecided(RuleIdChecks(r, parents) + [protocol], AddressChecks(r.targetAddr), one, ValidateTargetAddr(r.targetAddr), two);
    var front := RuleIdChecks(r, parents) + [protocol] + AddressChecks(r.targetAddr);
    JoinedDecided(front, [texts], two, Test(texts), three);
    JoinedDecided(front + [texts], [status], three, Test(status), four);
    assert front + [texts, status] == front + [texts] + [status];
    assert checks == front + [texts, status];
    RuleTexts(r);
    assert four == Both(RuleIds(r, parents), if RuleError(r).Some? then Err(RuleError(r).value) else Ok(true));
  }

  lemma RuleTexts(r: RuleRequest)
    ensures OptionalText(r.gameName, 128).Ok? <==> OptionalFits(r.gameName, 128)
    ensures OptionalText(r.externalId, 128).Ok? <==> OptionalFits(r.externalId, 128)
    ensures OptionalText(r.regionName, 128).Ok? <==> OptionalFits(r.regionName, 128)
    ensures OptionalText(r.area, 32).Ok? <==> OptionalFits(r.area, 32)
    ensures OptionalText(r.tag, 64).Ok? <==> OptionalFits(r.tag, 64)
  {
  }

  lemma NormalRuleMeans(hash: Digest, r: RuleRequest, source: string, parents: Parents)
    ensures Decided(RuleChecks(r, parents), NormalRule(hash, r, source, parents))
    ensures NormalRule(hash, r, source, parents).Ok? ==>
      RuleKept(hash, r, source, parents, NormalRule(hash, r, source, parents).value)
  {
    hide RuleChecks, RuleIds, RuleError, AllPass, FailsFirst, RuleKept;
    RuleDecided(r, parents);
    if NormalRule(hash, r, source, parents).Ok? {
      NormalRuleKept(hash, r, source, parents);
    }
  }

  lemma NormalRuleKept(hash: Digest, r: RuleRequest, source: string, parents: Parents)
    requires NormalRule(hash, r, source, parents).Ok?
    ensures RuleKept(hash, r, source, parents, NormalRule(hash, r, source, parents).value)
  {
    hide Trim, NonBlank, RuleIds, ValidateTargetAddr, OptionalText, RuleError, RuleStatus, Decided, RuleIdChecks, AddressChecks, Decimal;
    RuleIdsMean(r, parents);
    ValidateTargetAddrMeans(r.targetAddr);
    RuleFields(r);
  }

  lemma RuleFields(r: RuleRequest)
    requires RuleError(r).None?
    ensures ValidateTargetAddr(r.targetAddr).Ok?
    ensures OptionalText(r.gameName, 128) == Ok(NonBlank(r.gameName)) && OptionalText(r.externalId, 128) == Ok(NonBlank(r.externalId))
    ensures OptionalText(r.regionName, 128) == Ok(NonBlank(r.regionName)) && OptionalText(r.area, 32) == Ok(NonBlank(r.area))
    ensures OptionalText(r.tag, 64) == Ok(NonBlank(r.tag))
    ensures RuleStatus(r.status) == Ok(if r.status.Some? then Trim(r.status.value) else "enabled")
  {
    hide Trim, ValidateTargetAddr;
  }

  lemma NormalRegionMeans(r: RegionRequest, parentGame: Option<nat>)
    ensures Decided(RegionChecks(r, parentGame), NormalRegion(r, parentGame))
    ensures NormalRegion(r, parentGame).Ok? ==> RegionKept(r, parentGame, NormalRegion(r, parentGame).value)
  {
    hide Trim, AllPass, FailsFirst, OptionalFits;
    SixChecks(RegionChecks(r, parentGame));
    OptionalTextMeans(r.area, 32);
    OptionalTextMeans(r.remark, 512);
  }

  // ---------------------------------------------------------------- what lists become

  /** A rule of a request with what it is nested in. */
  datatype RuleItem = RuleItem(request: RuleRequest, parents: Parents)

  datatype RegionItem = RegionItem(request: RegionRequest, parentGame: Option<nat>)

  ghost function RuleItems(rules: seq<RuleRequest>, parents: Parents): (r: seq<RuleItem>)
    ensures |r| == |rules|
  {
    seq(|rules|, i requires 0 <= i < |rules| => RuleItem(rules[i], parents))
  }

  /** What the rules of a region inherit: its game, its id and its name. */
  function RegionParents(r: RegionRequest, outer: Parents): Parents {
    Parents(Or(r.gameId, outer.gameId), outer.gameName, Some(r.regionId), Some(Trim(r.name)))
  }

  ghost function RegionRuleItems(regions: seq<RegionRequest>, outer: Parents): seq<RuleItem> {
    if regions == [] then []
    else
      var last := regions[|regions| - 1];
      RegionRuleItems(regions[..|regions| - 1], outer) + RuleItems(last.rules, RegionParents(last, outer))
  }

  ghost function RegionItems(regions: seq<RegionRequest>, parentGame: Option<nat>): (r: seq<RegionItem>)
    ensures |r| == |regions|
  {
    seq(|regions|, i requires 0 <= i < |regions| => RegionItem(regions[i], parentGame))
  }

  ghost function RulesChecks(rules: seq<RuleRequest>, parents: Parents): seq<Check> {
    if rules == [] then []
    else RulesChecks(rules[..|rules| - 1], parents) + RuleChecks(rules[|rules| - 1], parents)
  }

  ghost function RegionsChecks(regions: seq<RegionRequest>, outer: Parents): seq<Check> {
    if regions == [] then []
    else
      var last := regions[|regions| - 1];
      RegionsChecks(regions[..|regions| - 1], outer)
      + (RegionChecks(last, outer.gameId) + RulesChecks(last.rules, RegionParents(last, outer)))
  }

  /** One rule for every item, in the same order. */
  ghost predicate RulesKept(hash: Digest, items: seq<RuleItem>, source: string, rules: seq<Rule>) {
    && |rules| == |items|
    && forall k :: 0 <= k < |items| ==> RuleKept(hash, items[k].request, source, items[k].parents, rules[k])
  }

  ghost predicate RegionsKept(items: seq<RegionItem>, regions: seq<Region>) {
    |regions| == |items| && forall k :: 0 <= k < |items| ==> RegionKept(items[k].request, items[k].parentGame, regions[k])
  }

  lemma RulesJoined(hash: Digest, a: seq<RuleItem>, b: seq<RuleItem>, source: string, x: seq<Rule>, y: seq<Rule>)
    requires RulesKept(hash, a, source, x) && RulesKept(hash, b, source, y)
    ensures RulesKept(hash, a + b, source, x + y)
  {
    hide RuleKept;
  }

  lemma RegionsJoined(a: seq<RegionItem>, b: seq<RegionItem>, x: seq<Region>, y: seq<Region>)
    requires RegionsKept(a, x) && RegionsKept(b, y)
    ensures RegionsKept(a + b, x + y)
  {
    hide RegionKept;
  }

  lemma {:induction false} NormalRulesMean(hash: Digest, rules: seq<RuleRequest>, source: string, parents: Parents)
    ensures Decided(RulesChecks(rules, parents), NormalRules(hash, rules, source, parents))
    ensures NormalRules(hash, rules, source, parents).Ok? ==>
      RulesKept(hash, RuleItems(rules, parents), source, NormalRules(hash, rules, source, parents).value)
  {
    hide NormalRule, RuleChecks, RuleKept, AllPass, FailsFirst;
    if rules == [] {
      NoChecks();
    } else {
      var last := |rules| - 1;
      NormalRulesMean(hash, rules[..last], source, parents);
      NormalRuleMeans(hash, rules[last], source, parents);
      JoinedDecided(RulesChecks(rules[..last], parents), RuleChecks(rules[last], parents),
                    NormalRules(hash, rules[..last], source, parents), NormalRule(hash, rules[last], source, parents),
                    NormalRules(hash, rules, source, parents));
    }
  }

  /** The loop over one list of rules. */
  method NormalizeRules(hash: Digest, rules: seq<RuleRequest>, source: string, parents: Parents)
    returns (r: Result<seq<Rule>, string>)
    ensures r == NormalRules(hash, rules, source, parents)
    ensures Decided(RulesChecks(rules, parents), r)
    ensures r.Ok? ==> RulesKept(hash, RuleItems(rules, parents), source, r.value)
  {
    hide NormalRule, RulesChecks, RulesKept, Decided;
    NormalRulesMean(hash, rules, source, parents);
    var done: seq<Rule> := [];
    for k := 0 to |rules|
      invariant NormalRules(hash, rules[..k], source, parents) == Ok(done)
    {
      assert rules[..k + 1][..k] == rules[..k];
      var rule := NormalRule(hash, rules[k], source, parents);
      if rule.Err? {
        RuleErrorStays(hash, rules, source, parents, k + 1);
        return Err(rule.error);
      }
      done := done + [rule.value];
    }
    assert rules[..|rules|] == rules;
    r := Ok(done);
  }

  lemma {:induction false} RuleErrorStays(hash: Digest, rules: seq<RuleRequest>, source: string, parents: Parents, k: nat)
    requires k <= |rules| && NormalRules(hash, rules[..k], source, parents).Err?
    ensures NormalRules(hash, rules, source, parents)
      == NormalRules(hash, rules[..k], source, parents)
  {
    hide NormalRule;
    if k == |rules| {
      assert rules[..k] == rules;
    } else {
      var last := |rules| - 1;
      assert rules[..last][..k] == rules[..k];
      RuleErrorStays(hash, rules[..last], source, parents, k);
    }
  }

  /** Every rule of a list that was accepted under a game and a region carries their ids, and always has
      an external id and the catalog's source, so it has a key to be upserted by. */
  lemma {:induction false} RulesInherit(hash: Digest, rules: seq<RuleRequest>, source: string, parents: Parents)
    requires NormalRules(hash, rules, source, parents).Ok?
    ensures |NormalRules(hash, rules, source, parents).value| == |rules|
    ensures forall rule :: rule in NormalRules(hash, rules, source, parents).value ==>
      Inherits(rule, source, parents)
  {
    if rules != [] {
      RulesInherit(hash, rules[..|rules| - 1], source, parents);
    }
  }

  /** Regions with their rules, under a game or on their own. */
  datatype Flat = Flat(regions: seq<Region>, rules: seq<Rule>)

  function GameId(game: Option<Game>): Option<nat> {
    if game.Some? then Some(game.value.gameId) else None
  }

  function GameName(game: Option<Game>): Option<string> {
    if game.Some? then Some(game.value.name) else None
  }

  /** The parents of a rule in a region. */
  function Under(game: Option<Game>, region: Region): Parents {
    Parents(Some(region.gameId), GameName(game), Some(region.regionId), Some(region.name))
  }

  function NormalRegions(hash: Digest, regions: seq<RegionRequest>, source: string, game: Option<Game>): Result<Flat, string> {
    if regions == [] then Ok(Flat([], []))
    else
      var last := regions[|regions| - 1];
      match NormalRegions(hash, regions[..|regions| - 1], source, game)
      case Err(e) => Err(e)
      case Ok(before) =>
        match NormalRegion(last, GameId(game))
        case Err(e) => Err(e)
        case Ok(region) =>
          match NormalRules(hash, last.rules, source, Under(game, region))
          case Err(e) => Err(e)
          case Ok(rules) => Ok(Flat(before.regions + [region], before.rules + rules))
  }

  /** What a game passes on to what is nested in it. */
  function Outer(game: Option<Game>): Parents {
    Parents(GameId(game), GameName(game), None, None)
  }

  /** One region with its rules. */
  function NormalRegionPart(hash: Digest, r: RegionRequest, source: string, game: Option<Game>): Result<Flat, string> {
    match NormalRegion(r, GameId(game))
    case Err(e) => Err(e)
    case Ok(region) =>
      match NormalRules(hash, r.rules, source, Under(game, region))
      case Err(e) => Err(e)
      case Ok(rules) => Ok(Flat([region], rules))
  }

  ghost function RegionPartChecks(r: RegionRequest, outer: Parents): seq<Check> {
    RegionChecks(r, outer.gameId) + RulesChecks(r.rules, RegionParents(r, outer))
  }

  ghost predicate FlatKept(hash: Digest, regions: seq<RegionItem>, rules: seq<RuleItem>, source: string, flat: Flat) {
    RegionsKept(regions, flat.regions) && RulesKept(hash, rules, source, flat.rules)
  }

  lemma UnderIsRegionParents(r: RegionRequest, game: Option<Game>, region: Region)
    requires RegionKept(r, GameId(game), region)
    ensures Under(game, region) == RegionParents(r, Outer(game))
  {
  }

  lemma NormalRegionPartMeans(hash: Digest, r: RegionRequest, source: string, game: Option<Game>)
    ensures Decided(RegionPartChecks(r, Outer(game)), NormalRegionPart(hash, r, source, game))
    ensures NormalRegionPart(hash, r, source, game).Ok? ==>
      FlatKept(hash, RegionItems([r], GameId(game)), RuleItems(r.rules, RegionParents(r, Outer(game))), source,
               NormalRegionPart(hash, r, source, game).value)
  {
    hide NormalRegion, NormalRules, RegionChecks, RulesChecks, RegionKept, RulesKept, AllPass, FailsFirst, Under, RegionParents;
    NormalRegionMeans(r, GameId(game));
    var region := NormalRegion(r, GameId(game));
    var both := NormalRegionPart(hash, r, source, game);
    if region.Ok? {
      UnderIsRegionParents(r, game, region.value);
      NormalRulesMean(hash, r.rules, source, Under(game, region.value));
      JoinedDecided(RegionChecks(r, GameId(game)), RulesChecks(r.rules, Under(game, region.value)), region,
                    NormalRules(hash, r.rules, source, Under(game, region.value)), both);
    } else {
      FirstDecides(RegionChecks(r, GameId(game)), RulesChecks(r.rules, RegionParents(r, Outer(game))), region.error, both);
    }
  }

  lemma FirstDecides<T>(a: seq<Check>, b: seq<Check>, code: string, both: Result<T, string>)
    requires FailsFirst(a, code) && both == Err(code)
    ensures Decided(a + b, both)
  {
    FailJoined(a, b, code);
  }

  lemma {:induction false} NormalRegionsMean(hash: Digest, regions: seq<RegionRequest>, source: string, game: Option<Game>)
    ensures Decided(RegionsChecks(regions, Outer(game)), NormalRegions(hash, regions, source, game))
    ensures NormalRegions(hash, regions, source, game).Ok? ==>
      FlatKept(hash, RegionItems(regions, GameId(game)), RegionRuleItems(regions, Outer(game)), source,
               NormalRegions(hash, regions, source, game).value)
  {
    hide NormalRegion, NormalRules, RegionChecks, RulesChecks, RegionKept, RulesKept, RegionsKept, RuleItems, RegionItems, AllPass,
         FailsFirst, RegionParents, Under;
    if regions == [] {
      NoChecks();
      NothingKept(hash, source);
      NoRegionItems(GameId(game));
    } else {
      var last := |regions| - 1;
      var r := regions[last];
      NormalRegionsMean(hash, regions[..last], source, game);
      NormalRegionPartMeans(hash, r, source, game);
      var before := NormalRegions(hash, regions[..last], source, game);
      var part := NormalRegionPart(hash, r, source, game);
      var both := NormalRegions(hash, regions, source, game);
      JoinedDecided(RegionsChecks(regions[..last], Outer(game)), RegionPartChecks(r, Outer(game)), before, part, both);
      if both.Ok? {
        RegionItemsGrow(regions, GameId(game));
        RegionsJoined(RegionItems(regions[..last], GameId(game)), RegionItems([r], GameId(game)), before.value.regions, part.value.regions);
        RulesJoined(hash, RegionRuleItems(regions[..last], Outer(game)), RuleItems(r.rules, RegionParents(r, Outer(game))), source,
                    before.value.rules, part.value.rules);
      }
    }
  }

  lemma RegionItemsGrow(regions: seq<RegionRequest>, parentGame: Option<nat>)
    requires regions != []
    ensures RegionItems(regions, parentGame)
      == RegionItems(regions[..|regions| - 1], parentGame) + RegionItems([regions[|regions| - 1]], parentGame)
  {
  }

  lemma NoRegionItems(parentGame: Option<nat>)
    ensures RegionItems([], parentGame) == []
  {
  }

  lemma NothingKept(hash: Digest, source: string)
    ensures RegionsKept([], []) && RulesKept(hash, [], source, [])
  {
  }

  /** A rule listed under a region of these lists carries the ids of a region that is listed too. */
  lemma {:induction false} RegionsInherit(hash: Digest, regions: seq<RegionRequest>, source: string, game: Option<Game>)
    requires NormalRegions(hash, regions, source, game).Ok?
    ensures
      var flat := NormalRegions(hash, regions, source, game).value;
      && |flat.regions| == |regions|
      && (forall r :: r in flat.regions ==> (game.Some? ==> r.gameId == game.value.gameId) && r.gameId > 0 && r.regionId > 0)
      && (forall rule :: rule in flat.rules ==>
            rule.syncSource == Some(source) && rule.externalId.Some? && StandsInRegion(rule, flat.regions))
  {
    hide NormalRules;
    if regions != [] {
      var last := regions[|regions| - 1];
      RegionsInherit(hash, regions[..|regions| - 1], source, game);
      var before := NormalRegions(hash, regions[..|regions| - 1], source, game).value;
      var region := NormalRegion(last, GameId(game)).value;
      RulesInherit(hash, last.rules, source, Under(game, region));
      var flat := NormalRegions(hash, regions, source, game).value;
      forall rule | rule in flat.rules
        ensures rule.syncSource == Some(source) && rule.externalId.Some? && StandsInRegion(rule, flat.regions)
      {
        if rule in before.rules {
          var r :| r in before.regions && rule.gameId == r.gameId && rule.regionId == Some(r.regionId);
          assert r in flat.regions;
        } else {
          assert Inherits(rule, source, Under(game, region));
          assert region in flat.regions;
        }
      }
    }
  }

  predicate StandsInRegion(rule: Rule, regions: seq<Region>) {
    exists r :: r in regions && rule.gameId == r.gameId && rule.regionId == Some(r.regionId)
  }

  method NormalizeRegions(hash: Digest, regions: seq<RegionRequest>, source: string, game: Option<Game>)
    returns (r: Result<Flat, string>)
    ensures r == NormalRegions(hash, regions, source, game)
    ensures Decided(RegionsChecks(regions, Outer(game)), r)
    ensures r.Ok? ==>
      FlatKept(hash, RegionItems(regions, GameId(game)), RegionRuleItems(regions, Outer(game)), source, r.value)
  {
    hide NormalRegion, NormalRules, RegionsChecks, FlatKept, RulesKept, RulesChecks, Decided;
    NormalRegionsMean(hash, regions, source, game);
    var doneRegions: seq<Region> := [];
    var doneRules: seq<Rule> := [];
    for k := 0 to |regions|
      invariant NormalRegions(hash, regions[..k], source, game) == Ok(Flat(doneRegions, doneRules))
    {
      assert regions[..k + 1][..k] == regions[..k];
      var region := NormalRegion(regions[k], GameId(game));
      if region.Err? {
        RegionErrorStays(hash, regions, source, game, k + 1);
        return Err(region.error);
      }
      var rules := NormalizeRules(hash, regions[k].rules, source, Under(game, region.value));
      if rules.Err? {
        RegionErrorStays(hash, regions, source, game, k + 1);
        return Err(rules.error);
      }
      doneRules := doneRules + rules.value;
      doneRegions := doneRegions + [region.value];
    }
    assert regions[..|regions|] == regions;
    r := Ok(Flat(doneRegions, doneRules));
  }

  lemma {:induction false} RegionErrorStays(hash: Digest, regions: seq<RegionRequest>, source: string, game: Option<Game>, k: nat)
    requires k <= |regions| && NormalRegions(hash, regions[..k], source, game).Err?
    ensures NormalRegions(hash, regions, source, game) == NormalRegions(hash, regions[..k], source, game)
  {
    hide NormalRegion, NormalRules;
    if k == |regions| {
      assert regions[..k] == regions;
    } else {
      var last := |regions| - 1;
      assert regions[..last][..k] == regions[..k];
      RegionErrorStays(hash, regions[..last], source, game, k);
    }
  }

  // ---------------------------------------------------------------- whole catalogs

  function NormalGame(g: GameRequest): Result<Game, string> {
    var categories := Categories(g.category, g.categories);
    if categories.Err? then Err(categories.error) else NormalGameWith(g, categories.value)
  }

  /** The game's own columns; its primary category is the first one. */
  function NormalGameWith(g: GameRequest, categories: seq<string>): Result<Game, string> {
    var icon := OptionalText(g.iconUrl, 512);
    var name := NormalizeRequiredText(g.name, 128);
    if g.gameId == 0 then Err("invalid_game")
    else if GamePlatform(g.platform).Err? then Err("invalid_game_platform")
    else if GameStatus(g.status).Err? then Err("invalid_game_status")
    else if icon.Err? then Err(icon.error)
    else if icon.value.Some? && !IsUrl(icon.value.value) then Err("invalid_url")
    else if name.Err? then Err(name.error)
    else if OptionalText(g.remark, 512).Err? then Err("invalid_field")
    else Ok(Game(g.gameId, name.value, GamePlatform(g.platform).value, if categories == [] then None else Some(categories[0]),
                 categories, icon.value, GameStatus(g.status).value, OptionalText(g.remark, 512).value))
  }

  function UnderGame(game: Game): Parents {
    Parents(Some(game.gameId), Some(game.name), None, None)
  }

  function NoParents(): Parents {
    Parents(None, None, None, None)
  }

  datatype GamePart = GamePart(game: Game, flat: Flat)

  /** One game with everything nested in it. */
  function NormalGamePart(hash: Digest, g: GameRequest, source: string): Result<GamePart, string> {
    match NormalGame(g)
    case Err(e) => Err(e)
    case Ok(game) =>
      match NormalRegions(hash, g.regions, source, Some(game))
      case Err(e) => Err(e)
      case Ok(flat) =>
        match NormalRules(hash, g.rules, source, UnderGame(game))
        case Err(e) => Err(e)
        case Ok(rules) => Ok(GamePart(game, Flat(flat.regions, flat.rules + rules)))
  }

  function NormalGames(hash: Digest, games: seq<GameRequest>, source: string): Result<Catalog, string> {
    if games == [] then Ok(Catalog(source, [], [], []))
    else
      match NormalGames(hash, games[..|games| - 1], source)
      case Err(e) => Err(e)
      case Ok(before) =>
        match NormalGamePart(hash, games[|games| - 1], source)
        case Err(e) => Err(e)
        case Ok(part) =>
          Ok(Catalog(source, before.games + [part.game], before.regions + part.flat.regions, before.rules + part.flat.rules))
  }

  // ---------------------------------------------------------------- what a whole request becomes

  /** What a game passes on, read off its request. */
  function GameParents(g: GameRequest): Parents {
    Parents(Some(g.gameId), Some(Trim(g.name)), None, None)
  }

  /** The texts that are not blank, trimmed, in order. */
  function NonBlanks(values: seq<Option<string>>): seq<string> {
    if values == [] then []
    else
      var last := NonBlank(values[|values| - 1]);
      NonBlanks(values[..|values| - 1]) + (if last.Some? then [last.value] else [])
  }

  /** What is checked of a game's categories, in order. */
  ghost function CategoryChecks(g: GameRequest): seq<Check> {
    [Check(g.categories.Some? ==> |g.categories.value| <= 16, "invalid_game_categories")]
    + [Check(forall k :: 0 <= k < |Values(g.category, g.categories)| ==> OptionalFits(Values(g.category, g.categories)[k], 64),
             "invalid_field")]
  }

  ghost function GameFieldChecks(g: GameRequest): seq<Check> {
    [Check(g.gameId > 0, "invalid_game"),
     Check(g.platform.None? || Trim(g.platform.value) in {"", "pc", "android", "ios", "multi"}, "invalid_game_platform"),
     Check(g.status.None? || Trim(g.status.value) in {"", "enabled", "disabled"}, "invalid_game_status"),
     Check(OptionalFits(g.iconUrl, 512), "invalid_field"),
     Check(NonBlank(g.iconUrl).Some? ==>
             && (forall k :: 0 <= k < |NonBlank(g.iconUrl).value| ==> !IsWhitespace(NonBlank(g.iconUrl).value[k]))
             && ("http://" <= NonBlank(g.iconUrl).value || "https://" <= NonBlank(g.iconUrl).value), "invalid_url"),
     Check(TextFits(g.name, 128) && OptionalFits(g.remark, 512), "invalid_field")]
  }

  ghost function GameChecks(g: GameRequest): seq<Check> {
    CategoryChecks(g) + GameFieldChecks(g)
  }

  ghost function GamePartChecks(g: GameRequest): seq<Check> {
    GameChecks(g) + RegionsChecks(g.regions, GameParents(g)) + RulesChecks(g.rules, GameParents(g))
  }

  ghost function GamesChecks(games: seq<GameRequest>): seq<Check> {
    if games == [] then [] else GamesChecks(games[..|games| - 1]) + GamePartChecks(games[|games| - 1])
  }

  /** Everything that is checked of a request, in order. */
  ghost function CatalogChecks(r: Request): seq<Check> {
    [Check(!(r.games == [] && r.regions == [] && r.rules == []), "empty_sync_catalog")]
    + [Check(OptionalFits(r.source, 32), "invalid_field")]
    + GamesChecks(r.games) + RegionsChecks(r.regions, NoParents()) + RulesChecks(r.rules, NoParents())
  }

  /** A game as it is kept. Its categories are the first occurrences among all it is given, its primary
      category the first of them. */
  ghost predicate GameKept(g: GameRequest, game: Game) {
    && game.gameId == g.gameId && game.name == Trim(g.name)
    && game.platform == (if g.platform.None? || Trim(g.platform.value) == "" then "pc" else Trim(g.platform.value))
    && game.categories == Deduplicated(NonBlanks(Values(g.category, g.categories)))
    && game.category == (if game.categories == [] then None else Some(game.categories[0]))
    && game.iconUrl == NonBlank(g.iconUrl) && game.remark == NonBlank(g.remark)
    && game.status == (if g.status.Some? && Trim(g.status.value) == "disabled" then "disabled" else "enabled")
  }

  /** The regions and rules nested in a list of games, in the order in which they are pushed. */
  ghost function GamesRegionItems(games: seq<GameRequest>): seq<RegionItem> {
    if games == [] then []
    else
      var last := games[|games| - 1];
      GamesRegionItems(games[..|games| - 1]) + RegionItems(last.regions, Some(last.gameId))
  }

  ghost function GameRuleItems(g: GameRequest): seq<RuleItem> {
    RegionRuleItems(g.regions, GameParents(g)) + RuleItems(g.rules, GameParents(g))
  }

  ghost function GamesRuleItems(games: seq<GameRequest>): seq<RuleItem> {
    if games == [] then [] else GamesRuleItems(games[..|games| - 1]) + GameRuleItems(games[|games| - 1])
  }

  /** The regions and the rules of a request, at all places where they can stand. */
  ghost function AllRegionItems(r: Request): seq<RegionItem> {
    GamesRegionItems(r.games) + RegionItems(r.regions, None)
  }

  ghost function AllRuleItems(r: Request): seq<RuleItem> {
    GamesRuleItems(r.games) + RegionRuleItems(r.regions, NoParents()) + RuleItems(r.rules, NoParents())
  }

  ghost predicate GamesKept(requests: seq<GameRequest>, games: seq<Game>) {
    |games| == |requests| && forall k :: 0 <= k < |requests| ==> GameKept(requests[k], games[k])
  }

  /** The catalog holds one game, region and rule for each that the request lists, in order, and no other. */
  ghost predicate CatalogKept(hash: Digest, r: Request, c: Catalog) {
    && c.source == OrDefault(NonBlank(r.source), "business")
    && GamesKept(r.games, c.games) && RegionsKept(AllRegionItems(r), c.regions)
    && RulesKept(hash, AllRuleItems(r), c.source, c.rules)
  }

  lemma {:induction false} CandidatesMean(values: seq<Option<string>>)
    ensures Candidates(values).Ok? <==> forall k :: 0 <= k < |values| ==> OptionalFits(values[k], 64)
    ensures Candidates(values).Err? ==> Candidates(values).error == "invalid_field"
    ensures Candidates(values).Ok? ==> Candidates(values).value == NonBlanks(values)
  {
    hide OptionalText, OptionalFits, NonBlank;
    if values != [] {
      var last := |values| - 1;
      CandidatesMean(values[..last]);
      OptionalTextMeans(values[last], 64);
      assert forall k :: 0 <= k < last ==> values[..last][k] == values[k];
      assert NonBlanks(values[..last]) + [] == NonBlanks(values[..last]);
    }
  }

  lemma CategoriesMean(g: GameRequest)
    ensures Decided(CategoryChecks(g), Categories(g.category, g.categories))
    ensures Categories(g.category, g.categories).Ok? ==>
      Categories(g.category, g.categories).value == Deduplicated(NonBlanks(Values(g.category, g.categories)))
  {
    hide Candidates, Values, NonBlanks, Deduplicated, OptionalFits, AllPass, FailsFirst;
    var values := Values(g.category, g.categories);
    CandidatesMean(values);
    var (a, b) := (CategoryChecks(g)[0], CategoryChecks(g)[1]);
    OneCheck(a);
    OneCheck(b);
    JoinedDecided([a], [b], Test(a), Test(b), Categories(g.category, g.categories));
  }

  lemma GameFieldsMean(g: GameRequest, categories: seq<string>)
    ensures Decided(GameFieldChecks(g), NormalGameWith(g, categories))
    ensures NormalGameWith(g, categories).Ok? && categories == Deduplicated(NonBlanks(Values(g.category, g.categories))) ==>
      GameKept(g, NormalGameWith(g, categories).value)
  {
    hide Trim, AllPass, FailsFirst, OptionalFits, Deduplicated, NonBlanks, Values, OptionalText, NonBlank;
    SixChecks(GameFieldChecks(g));
    OptionalTextMeans(g.iconUrl, 512);
    OptionalTextMeans(g.remark, 512);
  }

  lemma NormalGameMeans(g: GameRequest)
    ensures Decided(GameChecks(g), NormalGame(g))
    ensures NormalGame(g).Ok? ==> GameKept(g, NormalGame(g).value) && Outer(Some(NormalGame(g).value)) == GameParents(g)
  {
    hide NormalGameWith, Categories, CategoryChecks, GameFieldChecks, Deduplicated, NonBlanks, Values, AllPass, FailsFirst;
    CategoriesMean(g);
    var categories := Categories(g.category, g.categories);
    if categories.Ok? {
      GameFieldsMean(g, categories.value);
      JoinedDecided(CategoryChecks(g), GameFieldChecks(g), categories, NormalGameWith(g, categories.value), NormalGame(g));
    } else {
      FirstDecides(CategoryChecks(g), GameFieldChecks(g), categories.error, NormalGame(g));
    }
  }

  ghost predicate PartKept(hash: Digest, g: GameRequest, source: string, part: GamePart) {
    && GameKept(g, part.game)
    && FlatKept(hash, RegionItems(g.regions, Some(g.gameId)), GameRuleItems(g), source, part.flat)
  }

  lemma NormalGamePartMeans(hash: Digest, g: GameRequest, source: string)
    ensures Decided(GamePartChecks(g), NormalGamePart(hash, g, source))
    ensures NormalGamePart(hash, g, source).Ok? ==> PartKept(hash, g, source, NormalGamePart(hash, g, source).value)
  {
    hide NormalGame, NormalRegions, NormalRules, GameChecks, RegionsChecks, RulesChecks, RegionRuleItems, RuleItems, RegionItems,
         GameKept, RulesKept, RegionsKept, AllPass, FailsFirst;
    NormalGameMeans(g);
    var game := NormalGame(g);
    var both := NormalGamePart(hash, g, source);
    var head := GameChecks(g) + RegionsChecks(g.regions, GameParents(g));
    if game.Err? {
      FirstDecides(GameChecks(g), RegionsChecks(g.regions, GameParents(g)), game.error, both);
      FirstDecides(head, RulesChecks(g.rules, GameParents(g)), game.error, both);
    } else {
      var flat := NormalRegions(hash, g.regions, source, Some(game.value));
      var rules := NormalRules(hash, g.rules, source, UnderGame(game.value));
      assert UnderGame(game.value) == GameParents(g) && GameId(Some(game.value)) == Some(g.gameId);
      NormalRegionsMean(hash, g.regions, source, Some(game.value));
      NormalRulesMean(hash, g.rules, source, GameParents(g));
      JoinedDecided(GameChecks(g), RegionsChecks(g.regions, GameParents(g)), game, flat, Both(game, flat));
      JoinedDecided(head, RulesChecks(g.rules, GameParents(g)), Both(game, flat), rules, both);
      if both.Ok? {
        RulesJoined(hash, RegionRuleItems(g.regions, GameParents(g)), RuleItems(g.rules, GameParents(g)), source,
                    flat.value.rules, rules.value);
      }
    }
  }

  /** The games and all that is nested in them. */
  ghost predicate NestedKept(hash: Digest, games: seq<GameRequest>, source: string, c: Catalog) {
    && c.source == source && GamesKept(games, c.games) && RegionsKept(GamesRegionItems(games), c.regions)
    && RulesKept(hash, GamesRuleItems(games), source, c.rules)
  }

  lemma {:induction false} NormalGamesMean(hash: Digest, games: seq<GameRequest>, source: string)
    ensures Decided(GamesChecks(games), NormalGames(hash, games, source))
    ensures NormalGames(hash, games, source).Ok? ==> NestedKept(hash, games, source, NormalGames(hash, games, source).value)
  {
    hide NormalGamePart, GamePartChecks, GameRuleItems, RegionItems, GameKept, RulesKept, RegionsKept, AllPass, FailsFirst;
    if games == [] {
      NoChecks();
      NothingKept(hash, source);
    } else {
      var last := |games| - 1;
      NormalGamesMean(hash, games[..last], source);
      NormalGamePartMeans(hash, games[last], source);
      var before := NormalGames(hash, games[..last], source);
      var part := NormalGamePart(hash, games[last], source);
      JoinedDecided(GamesChecks(games[..last]), GamePartChecks(games[last]), before, part, NormalGames(hash, games, source));
      if before.Ok? && part.Ok? {
        assert forall k :: 0 <= k < last ==> games[..last][k] == games[k];
        RegionsJoined(GamesRegionItems(games[..last]), RegionItems(games[last].regions, Some(games[last].gameId)),
                      before.value.regions, part.value.flat.regions);
        RulesJoined(hash, GamesRuleItems(games[..last]), GameRuleItems(games[last]), source,
                    before.value.rules, part.value.flat.rules);
      }
    }
  }

  /** Nothing of a request is lost and nothing is made up. A request is accepted exactly when every check
      of every item passes, at whatever place it is nested; the catalog then holds one game, one region
      and one rule for each item, in order, with its own ids or those it inherits; and a refusal reports
      the first check that fails. */
  lemma CatalogKeepsEverything(hash: Digest, r: Request)
    ensures Decided(CatalogChecks(r), NormalCatalog(hash, r))
    ensures NormalCatalog(hash, r).Ok? ==> CatalogKept(hash, r, NormalCatalog(hash, r).value)
  {
    hide NormalGames, NormalRegions, NormalRules, GamesChecks, RegionsChecks, RulesChecks, RegionRuleItems, RuleItems, RegionItems,
         GamesKept, RulesKept, RegionsKept, GamesRegionItems, GamesRuleItems, AllPass, FailsFirst, OptionalText, NonBlank, OptionalFits;
    var source := OrDefault(NonBlank(r.source), "business");
    var (a, b) := (Check(!(r.games == [] && r.regions == [] && r.rules == []), "empty_sync_catalog"),
                   Check(OptionalFits(r.source, 32), "invalid_field"));
    OneCheck(a);
    OneCheck(b);
    OptionalTextMeans(r.source, 32);
    NormalGamesMean(hash, r.games, source);
    NormalRegionsMean(hash, r.regions, source, None);
    NormalRulesMean(hash, r.rules, source, NoParents());
    var games := NormalGames(hash, r.games, source);
    var regions := NormalRegions(hash, r.regions, source, None);
    var rules := NormalRules(hash, r.rules, source, NoParents());
    var one := Both(Test(a), Test(b));
    var two := Both(one, games);
    var three := Both(two, regions);
    JoinedDecided([a], [b], Test(a), Test(b), one);
    JoinedDecided([a] + [b], GamesChecks(r.games), one, games, two);
    JoinedDecided([a] + [b] + GamesChecks(r.games), RegionsChecks(r.regions, NoParents()), two, regions, three);
    JoinedDecided([a] + [b] + GamesChecks(r.games) + RegionsChecks(r.regions, NoParents()), RulesChecks(r.rules, NoParents()),
                  three, rules, NormalCatalog(hash, r));
    if NormalCatalog(hash, r).Ok? {
      RegionsJoined(GamesRegionItems(r.games), RegionItems(r.regions, None), games.value.regions, regions.value.regions);
      RulesJoined(hash, GamesRuleItems(r.games), RegionRuleItems(r.regions, NoParents()), source,
                  games.value.rules, regions.value.rules);
      RulesJoined(hash, GamesRuleItems(r.games) + RegionRuleItems(r.regions, NoParents()), RuleItems(r.rules, NoParents()), source,
                  games.value.rules + regions.value.rules, rules.value);
    }
  }

  // ---------------------------------------------------------------- how many items there are, and where

  function RegionsRuleCount(regions: seq<RegionRequest>): nat {
    if regions == [] then 0 else RegionsRuleCount(regions[..|regions| - 1]) + |regions[|regions| - 1].rules|
  }

  function GamesRuleCount(games: seq<GameRequest>): nat {
    if games == [] then 0
    else
      var last := games[|games| - 1];
      GamesRuleCount(games[..|games| - 1]) + RegionsRuleCount(last.regions) + |last.rules|
  }

  function GamesRegionCount(games: seq<GameRequest>): nat {
    if games == [] then 0 else GamesRegionCount(games[..|games| - 1]) + |games[|games| - 1].regions|
  }

  lemma {:induction false} RegionsAreListed(regions: seq<RegionRequest>, outer: Parents)
    ensures |RegionRuleItems(regions, outer)| == RegionsRuleCount(regions)
    ensures forall region, rule :: region in regions && rule in region.rules ==>
      RuleItem(rule, RegionParents(region, outer)) in RegionRuleItems(regions, outer)
  {
    hide RuleItems, RegionParents;
    if regions != [] {
      var last := regions[|regions| - 1];
      RegionsAreListed(regions[..|regions| - 1], outer);
      forall region, rule | region in regions && rule in region.rules
        ensures RuleItem(rule, RegionParents(region, outer)) in RegionRuleItems(regions, outer)
      {
        RulesAreListed(last.rules, RegionParents(last, outer), rule);
        assert region in regions[..|regions| - 1] || region == last;
      }
    }
  }

  lemma RulesAreListed(rules: seq<RuleRequest>, parents: Parents, rule: RuleRequest)
    ensures rule in rules ==> RuleItem(rule, parents) in RuleItems(rules, parents)
  {
    if rule in rules {
      var i :| 0 <= i < |rules| && rules[i] == rule;
      assert RuleItems(rules, parents)[i] == RuleItem(rule, parents);
    }
  }

  lemma RegionsAreItems(regions: seq<RegionRequest>, parentGame: Option<nat>, region: RegionRequest)
    ensures region in regions ==> RegionItem(region, parentGame) in RegionItems(regions, parentGame)
  {
    if region in regions {
      var i :| 0 <= i < |regions| && regions[i] == region;
      assert RegionItems(regions, parentGame)[i] == RegionItem(region, parentGame);
    }
  }

  lemma GameIsListed(g: GameRequest)
    ensures |GameRuleItems(g)| == RegionsRuleCount(g.regions) + |g.rules|
    ensures forall region, rule :: region in g.regions && rule in region.rules ==>
      RuleItem(rule, RegionParents(region, GameParents(g))) in GameRuleItems(g)
    ensures forall rule :: rule in g.rules ==> RuleItem(rule, GameParents(g)) in GameRuleItems(g)
  {
    hide RegionRuleItems, RuleItems, RegionsRuleCount, RegionParents, GameParents;
    RegionsAreListed(g.regions, GameParents(g));
    forall rule | rule in g.rules ensures RuleItem(rule, GameParents(g)) in GameRuleItems(g) {
      RulesAreListed(g.rules, GameParents(g), rule);
    }
  }

  lemma {:induction false} GamesAreListed(games: seq<GameRequest>, g: GameRequest)
    ensures |GamesRuleItems(games)| == GamesRuleCount(games) && |GamesRegionItems(games)| == GamesRegionCount(games)
    ensures g in games ==> forall item :: item in GameRuleItems(g) ==> item in GamesRuleItems(games)
    ensures g in games ==> forall item :: item in RegionItems(g.regions, Some(g.gameId)) ==> item in GamesRegionItems(games)
  {
    hide RegionItems, GameRuleItems, RegionsRuleCount;
    if games != [] {
      var last := games[|games| - 1];
      GamesAreListed(games[..|games| - 1], g);
      GameIsListed(last);
      assert g in games ==> g in games[..|games| - 1] || g == last;
    }
  }

  /** The items are those of the request: as many rules as the four places list together, as many regions
      as both places list, and each of them with the parents of the place it stands in. */
  lemma EveryItemIsListed(r: Request)
    ensures |AllRuleItems(r)| == GamesRuleCount(r.games) + RegionsRuleCount(r.regions) + |r.rules|
    ensures |AllRegionItems(r)| == GamesRegionCount(r.games) + |r.regions|
    ensures forall g, region :: g in r.games && region in g.regions ==> RegionItem(region, Some(g.gameId)) in AllRegionItems(r)
    ensures forall region :: region in r.regions ==> RegionItem(region, None) in AllRegionItems(r)
    ensures forall g, region, rule :: g in r.games && region in g.regions && rule in region.rules ==>
      RuleItem(rule, RegionParents(region, GameParents(g))) in AllRuleItems(r)
    ensures forall g, rule :: g in r.games && rule in g.rules ==> RuleItem(rule, GameParents(g)) in AllRuleItems(r)
    ensures forall region, rule :: region in r.regions && rule in region.rules ==>
      RuleItem(rule, RegionParents(region, NoParents())) in AllRuleItems(r)
    ensures forall rule :: rule in r.rules ==> RuleItem(rule, NoParents()) in AllRuleItems(r)
  {
    hide RegionItems, RegionRuleItems, RuleItems, GamesRuleItems, GamesRegionItems, GameRuleItems, RegionParents, GameParents,
         RegionsRuleCount, GamesRuleCount, GamesRegionCount;
    RegionsAreListed(r.regions, NoParents());
    forall rule ensures rule in r.rules ==> RuleItem(rule, NoParents()) in AllRuleItems(r) {
      RulesAreListed(r.rules, NoParents(), rule);
    }
    forall region ensures region in r.regions ==> RegionItem(region, None) in AllRegionItems(r) {
      RegionsAreItems(r.regions, None, region);
    }
    forall g, region | g in r.games && region in g.regions ensures RegionItem(region, Some(g.gameId)) in AllRegionItems(r) {
      GamesAreListed(r.games, g);
      RegionsAreItems(g.regions, Some(g.gameId), region);
    }
    forall g, region, rule | g in r.games && region in g.regions && rule in region.rules
      ensures RuleItem(rule, RegionParents(region, GameParents(g))) in AllRuleItems(r)
    {
      GamesAreListed(r.games, g);
      GameIsListed(g);
    }
    forall g, rule | g in r.games && rule in g.rules ensures RuleItem(rule, GameParents(g)) in AllRuleItems(r) {
      GamesAreListed(r.games, g);
      GameIsListed(g);
    }
    GamesAreListed(r.games, GameRequest(0, "", None, None, None, None, None, None, [], []));
  }

  function NormalCatalog(hash: Digest, r: Request): Result<Catalog, string> {
    if r.games == [] && r.regions == [] && r.rules == [] then Err("empty_sync_catalog")
    else
      match OptionalText(r.source, 32)
      case Err(e) => Err(e)
      case Ok(text) =>
        var source := if text.Some? then text.value else "business";
        match NormalGames(hash, r.games, source)
        case Err(e) => Err(e)
        case Ok(nested) =>
          match NormalRegions(hash, r.regions, source, None)
          case Err(e) => Err(e)
          case Ok(flat) =>
            match NormalRules(hash, r.rules, source, NoParents())
            case Err(e) => Err(e)
            case Ok(rules) =>
              Ok(Catalog(source, nested.games, nested.regions + flat.regions, nested.rules + flat.rules + rules))
  }

  method NormalizeGamePart(hash: Digest, g: GameRequest, source: string) returns (r: Result<GamePart, string>)
    ensures r == NormalGamePart(hash, g, source)
    ensures Decided(GamePartChecks(g), r) && (r.Ok? ==> PartKept(hash, g, source, r.value))
  {
    NormalGamePartMeans(hash, g, source);
    hide Decided, GamePartChecks, PartKept, RegionsChecks, FlatKept, RulesChecks, RulesKept;
    hide Categories, NormalRegions, NormalRules, NormalGameWith;
    var categories := NormalizeBusinessGameCategories(g.category, g.categories);
    if categories.Err? { return Err(categories.error); }
    var normal := NormalGameWith(g, categories.value);
    if normal.Err? { return Err(normal.error); }
    var game := normal.value;
    var flat := NormalizeRegions(hash, g.regions, source, Some(game));
    if flat.Err? { return Err(flat.error); }
    var rules := NormalizeRules(hash, g.rules, source, UnderGame(game));
    if rules.Err? { return Err(rules.error); }
    r := Ok(GamePart(game, Flat(flat.value.regions, flat.value.rules + rules.value)));
  }

  method NormalizeBusinessSyncCatalog(hash: Digest, request: Request) returns (r: Result<Catalog, string>)
    ensures r == NormalCatalog(hash, request)
    ensures Decided(CatalogChecks(request), r)
    ensures r.Ok? ==> CatalogKept(hash, request, r.value)
  {
    CatalogKeepsEverything(hash, request);
    hide OptionalText, NormalGamePart, NormalRegions, NormalRules, Decided, CatalogChecks, CatalogKept, GamePartChecks, PartKept,
         RegionsChecks, FlatKept, RulesChecks, RulesKept;
    if request.games == [] && request.regions == [] && request.rules == [] {
      return Err("empty_sync_catalog");
    }
    var text := OptionalText(request.source, 32);
    if text.Err? { return Err(text.error); }
    var source := if text.value.Some? then text.value.value else "business";
    var games: seq<Game> := [];
    var regions: seq<Region> := [];
    var rules: seq<Rule> := [];
    for k := 0 to |request.games|
      invariant NormalGames(hash, request.games[..k], source) == Ok(Catalog(source, games, regions, rules))
    {
      assert request.games[..k + 1][..k] == request.games[..k];
      var part := NormalizeGamePart(hash, request.games[k], source);
      if part.Err? {
        GameErrorStays(hash, request.games, source, k + 1);
        return Err(part.error);
      }
      rules := rules + part.value.flat.rules;
      regions := regions + part.value.flat.regions;
      games := games + [part.value.game];
    }
    assert request.games[..|request.games|] == request.games;
    var flat := NormalizeRegions(hash, request.regions, source, None);
    if flat.Err? { return Err(flat.error); }
    var top := NormalizeRules(hash, request.rules, source, NoParents());
    if top.Err? { return Err(top.error); }
    r := Ok(Catalog(source, games, regions + flat.value.regions, rules + flat.value.rules + top.value));
  }

  lemma {:induction false} GameErrorStays(hash: Digest, games: seq<GameRequest>, source: string, k: nat)
    requires k <= |games| && NormalGames(hash, games[..k], source).Err?
    ensures NormalGames(hash, games, source) == NormalGames(hash, games[..k], source)
  {
    hide NormalGamePart;
    if k == |games| {
      assert games[..k] == games;
    } else {
      var last := |games| - 1;
      assert games[..last][..k] == games[..k];
      GameErrorStays(hash, games[..last], source, k);
    }
  }

  /** Everything nested in a game carries that game's id. */
  lemma GamePartInherits(hash: Digest, g: GameRequest, source: string)
    requires NormalGamePart(hash, g, source).Ok?
    ensures
      var part := NormalGamePart(hash, g, source).value;
      && part.game.gameId == g.gameId > 0
      && (forall r :: r in part.flat.regions ==> r.gameId == g.gameId)
      && (forall rule :: rule in part.flat.rules ==> rule.gameId == g.gameId)
  {
    hide NormalRegions, NormalRules, Categories;
    var game := NormalGame(g).value;
    RegionsInherit(hash, g.regions, source, Some(game));
    RulesInherit(hash, g.rules, source, UnderGame(game));
  }

  /** Every rule of a normalised catalog has the catalog's source and an external id: it is upserted by
      key and never inserted twice. */
  lemma CatalogRulesHaveKeys(hash: Digest, r: Request)
    requires NormalCatalog(hash, r).Ok?
    ensures forall rule :: rule in NormalCatalog(hash, r).value.rules ==>
      rule.syncSource == Some(NormalCatalog(hash, r).value.source) && rule.externalId.Some?
  {
    hide NormalGames, NormalRegions, NormalRules;
    var source := NormalCatalog(hash, r).value.source;
    GamesHaveKeys(hash, r.games, source);
    RegionsInherit(hash, r.regions, source, None);
    RulesInherit(hash, r.rules, source, NoParents());
  }

  lemma {:induction false} GamesHaveKeys(hash: Digest, games: seq<GameRequest>, source: string)
    requires NormalGames(hash, games, source).Ok?
    ensures NormalGames(hash, games, source).value.source == source
    ensures forall rule :: rule in NormalGames(hash, games, source).value.rules ==>
      rule.syncSource == Some(source) && rule.externalId.Some?
  {
    hide NormalRegions, NormalRules, NormalGame;
    if games != [] {
      var g := games[|games| - 1];
      GamesHaveKeys(hash, games[..|games| - 1], source);
      var part := NormalGamePart(hash, g, source).value;
      RegionsInherit(hash, g.regions, source, Some(part.game));
      RulesInherit(hash, g.rules, source, UnderGame(part.game));
    }
  }
}
