/** The node's configuration file: writing a remote network configuration into its TOML tables in
    place, and reading it back at the next start. */
module ConfigFile {
  import opened Text

  const I64_MAX: nat := 0x7FFF_FFFF_FFFF_FFFF

  /** The keys the node writes, and every other key. */
  datatype Key =
    | Control | ConfigRevision | Network | ServerIp | ListenIp | ServerPort | RelayServerIp | RelayServerPort
    | IsSupportIpv6 | DisableQuic | Area | Bandwidth | Tag | Operators | TelecomIp | MobileIp | UnicomIp
    | Other(name: string)

  type Entries = map<Key, Toml>

  /** TOML integers are 64-bit signed. */
  type TomlInt = i: int | -0x8000_0000_0000_0000 <= i <= 0x7FFF_FFFF_FFFF_FFFF

  /** `Opaque` stands for the value kinds the node never writes: floats, dates and arrays. */
  datatype Toml = Str(text: string) | Int(value: TomlInt) | Flag(on: bool) | Table(entries: Entries) | Opaque(tag: string)

  type Port = p: int | 0 <= p <= 65535

  datatype BandwidthQuality = Fast | Normal | Slow

  datatype OperatorIps = OperatorIps(telecomIp: Option<string>, mobileIp: Option<string>, unicomIp: Option<string>)

  datatype NetworkConfig = NetworkConfig(
    serverIp: string,
    listenIp: Option<string>,
    serverPort: Port,
    relayServerIp: Option<string>,
    relayServerPort: Option<Port>,
    isSupportIpv6: bool,
    disableQuic: bool,
    area: string,
    bandwidthQuality: BandwidthQuality,
    tag: Option<string>,
    operatorIps: Option<OperatorIps>)

  function QualityName(q: BandwidthQuality): string {
    match q case Fast => "fast" case Normal => "normal" case Slow => "slow"
  }

  // ---------------------------------------------------------------- tables

  function Look(t: Entries, k: Key): Option<Toml> {
    if k in t then Some(t[k]) else None
  }

  /** The table with one key set or cleared. */
  function Put(t: Entries, k: Key, v: Option<Toml>): (r: Entries)
    ensures forall j :: Look(r, j) == if j == k then v else Look(t, j)
  {
    if v.Some? then t[k := v.value] else t - {k}
  }

  lemma SameTable(a: Entries, b: Entries)
    requires forall k :: Look(a, k) == Look(b, k)
    ensures a == b
  {
    assert forall k :: k in a <==> Look(a, k).Some?;
    assert forall k :: k in b <==> Look(b, k).Some?;
    assert forall k :: k in a ==> a[k] == Look(a, k).value;
    assert forall k :: k in b ==> b[k] == Look(b, k).value;
  }

  // ---------------------------------------------------------------- reading

  datatype Field<+T> = Absent | Present(value: T) | Mistyped

  function AsText(v: Option<Toml>): Field<string> {
    if v.None? then Absent else if v.value.Str? then Present(v.value.text) else Mistyped
  }

  function AsFlag(v: Option<Toml>): Field<bool> {
    if v.None? then Absent else if v.value.Flag? then Present(v.value.on) else Mistyped
  }

  function AsPort(v: Option<Toml>): Field<Port> {
    if v.None? then Absent
    else if v.value.Int? && 0 <= v.value.value <= 65535 then Present(v.value.value) else Mistyped
  }

  function ReadText(t: Entries, k: Key): Field<string> {
    AsText(Look(t, k))
  }

  function ReadFlag(t: Entries, k: Key): Field<bool> {
    AsFlag(Look(t, k))
  }

  function ReadPort(t: Entries, k: Key): Field<Port> {
    AsPort(Look(t, k))
  }

  function AsQuality(v: Option<Toml>): Field<BandwidthQuality> {
    match AsText(v)
    case Absent => Absent
    case Mistyped => Mistyped
    case Present(name) =>
      if name == "fast" then Present(Fast) else if name == "normal" then Present(Normal)
      else if name == "slow" then Present(Slow) else Mistyped
  }

  function ToOption<T>(f: Field<T>): Option<T> {
    if f.Present? then Some(f.value) else None
  }

  function AsOperators(v: Option<Toml>): Field<OperatorIps> {
    if v.None? then Absent
    else if !v.value.Table? then Mistyped
    else
      var o := v.value.entries;
      var (a, b, c) := (ReadText(o, TelecomIp), ReadText(o, MobileIp), ReadText(o, UnicomIp));
      if a.Mistyped? || b.Mistyped? || c.Mistyped? then Mistyped
      else Present(OperatorIps(ToOption(a), ToOption(b), ToOption(c)))
  }

  /** The network section as the node's configuration type, if every field has its type. */
  function ReadNetwork(t: Entries): Option<NetworkConfig> {
    var (server, port, listen) := (ReadText(t, ServerIp), ReadPort(t, ServerPort), ReadText(t, ListenIp));
    var (relay, relayPort) := (ReadText(t, RelayServerIp), ReadPort(t, RelayServerPort));
    var (v6, quic, area) := (ReadFlag(t, IsSupportIpv6), ReadFlag(t, DisableQuic), ReadText(t, Area));
    var (quality, tag, operators) := (AsQuality(Look(t, Bandwidth)), ReadText(t, Tag), AsOperators(Look(t, Operators)));
    if server.Present? && port.Present? && v6.Present? && quic.Present? && area.Present? && quality.Present?
       && !listen.Mistyped? && !relay.Mistyped? && !relayPort.Mistyped? && !tag.Mistyped? && !operators.Mistyped?
    then Some(NetworkConfig(server.value, ToOption(listen), port.value, ToOption(relay), ToOption(relayPort), v6.value,
                            quic.value, area.value, quality.value, ToOption(tag), ToOption(operators)))
    else None
  }

  /** The revision a start takes from the file: 1 when the section or the key is missing. */
  function LoadRevision(root: Entries): (r: Option<nat>)
    ensures r.Some? ==> 1 <= r.value <= I64_MAX
  {
    if Control !in root then Some(1)
    else if !root[Control].Table? then None
    else
      var control := root[Control].entries;
      if ConfigRevision !in control then Some(1)
      else if control[ConfigRevision].Int? && control[ConfigRevision].value >= 0
      then Some(if control[ConfigRevision].value < 1 then 1 else control[ConfigRevision].value)
      else None
  }

  /** None when the section is unreadable, Some(None) when there is none. */
  function LoadNetwork(root: Entries): Option<Option<NetworkConfig>> {
    if Network !in root then Some(None)
    else if !root[Network].Table? then None
    else
      match ReadNetwork(root[Network].entries)
      case Some(network) => Some(Some(network))
      case None => None
  }

  /** The network part of the configuration's validation; `isAddress` is the address parser. */
  predicate Validates(isAddress: string -> bool, network: NetworkConfig) {
    && !IsBlank(network.serverIp)
    && (network.listenIp.Some? ==> !IsBlank(network.listenIp.value) && isAddress(Trim(network.listenIp.value)))
    && network.serverPort != 0
  }

  // ---------------------------------------------------------------- writing

  function TextValue(value: Option<string>): Option<Toml> {
    if NonBlank(value).Some? then Some(Str(NonBlank(value).value)) else None
  }

  function PortValue(value: Option<Port>): Option<Toml> {
    if value.Some? then Some(Int(value.value)) else None
  }

  function Saturated(revision: nat): (r: nat)
    ensures r <= I64_MAX && r <= revision
  {
    if revision <= I64_MAX then revision else I64_MAX
  }

  /** A TOML table being edited. */
  class TomlTable {
    var entries: Entries

    constructor (entries: Entries)
      ensures this.entries == entries
    {
      this.entries := entries;
    }

    method Insert(k: Key, value: Toml)
      modifies this
      ensures entries == Put(old(entries), k, Some(value))
    {
      entries := entries[k := value];
    }

    method SetOptionalString(k: Key, value: Option<string>)
      modifies this
      ensures entries == Put(old(entries), k, TextValue(value))
    {
      var text := NonBlank(value);
      match text {
        case Some(text) => entries := entries[k := Str(text)];
        case None => entries := entries - {k};
      }
    }

    method SetOptionalInteger(k: Key, value: Option<Port>)
      modifies this
      ensures entries == Put(old(entries), k, PortValue(value))
    {
      match value {
        case Some(number) => entries := entries[k := Int(number)];
        case None => entries := entries - {k};
      }
    }

    method Remove(k: Key)
      modifies this
      ensures entries == Put(old(entries), k, None)
    {
      entries := entries - {k};
    }

    /** The table under a key, created empty when the key is missing; no value when something else is
        there. The caller puts the edited table back. */
    method TableEntry(k: Key) returns (table: Option<TomlTable>)
      ensures table.None? <==> !TableAt(entries, k)
      ensures table.Some? ==> fresh(table.value) && table.value.entries == EntriesAt(entries, k)
    {
      if k !in entries {
        var created := new TomlTable(map[]);
        return Some(created);
      }
      if entries[k].Table? {
        var found := new TomlTable(entries[k].entries);
        return Some(found);
      }
      return None;
    }
  }

  predicate TableAt(t: Entries, k: Key) {
    k in t ==> t[k].Table?
  }

  function EntriesAt(t: Entries, k: Key): Entries
    requires TableAt(t, k)
  {
    if k in t then t[k].entries else map[]
  }

  /** The sections the writer needs are tables or missing. */
  predicate Writable(root: Entries, network: NetworkConfig) {
    && TableAt(root, Control) && TableAt(root, Network)
    && (network.operatorIps.Some? ==> TableAt(EntriesAt(root, Network), Operators))
  }

  predicate IsNetworkKey(k: Key) {
    || k.ServerIp? || k.ListenIp? || k.ServerPort? || k.RelayServerIp? || k.RelayServerPort? || k.IsSupportIpv6?
    || k.DisableQuic? || k.Area? || k.Bandwidth? || k.Tag?
  }

  predicate IsOperatorKey(k: Key) {
    k.TelecomIp? || k.MobileIp? || k.UnicomIp?
  }

  /** What the writer puts under a key of the network section. */
  function FieldValue(n: NetworkConfig, k: Key): Option<Toml> {
    match k
    case ServerIp => Some(Str(n.serverIp))
    case ListenIp => TextValue(n.listenIp)
    case ServerPort => Some(Int(n.serverPort))
    case RelayServerIp => TextValue(n.relayServerIp)
    case RelayServerPort => PortValue(n.relayServerPort)
    case IsSupportIpv6 => Some(Flag(n.isSupportIpv6))
    case DisableQuic => Some(Flag(n.disableQuic))
    case Area => Some(Str(n.area))
    case Bandwidth => Some(Str(QualityName(n.bandwidthQuality)))
    case Tag => TextValue(n.tag)
    case _ => None
  }

  function OperatorValue(ips: OperatorIps, k: Key): Option<Toml> {
    match k
    case TelecomIp => TextValue(ips.telecomIp)
    case MobileIp => TextValue(ips.mobileIp)
    case UnicomIp => TextValue(ips.unicomIp)
    case _ => None
  }

  /** The network section's scalar fields replaced, its other keys kept. */
  ghost predicate IsSection(before: Entries, n: NetworkConfig, after: Entries) {
    forall k :: Look(after, k) == if IsNetworkKey(k) then FieldValue(n, k) else Look(before, k)
  }

  ghost predicate IsOperatorTable(before: Entries, ips: OperatorIps, after: Entries) {
    forall k :: Look(after, k) == if IsOperatorKey(k) then OperatorValue(ips, k) else Look(before, k)
  }

  /** The whole network section after a write. */
  ghost predicate IsWrittenSection(before: Entries, n: NetworkConfig, after: Entries) {
    && (forall k :: k != Operators ==> Look(after, k) == if IsNetworkKey(k) then FieldValue(n, k) else Look(before, k))
    && (match n.operatorIps
        case None => Look(after, Operators) == None
        case Some(ips) =>
          && TableAt(before, Operators) && Operators in after && after[Operators].Table?
          && IsOperatorTable(EntriesAt(before, Operators), ips, after[Operators].entries))
  }

  /** The document after a write: only the revision and the network section differ. */
  ghost predicate IsWritten(before: Entries, revision: nat, n: NetworkConfig, after: Entries) {
    && Writable(before, n)
    && (forall k :: k != Control && k != Network ==> Look(after, k) == Look(before, k))
    && Look(after, Control) == Some(Table(Put(EntriesAt(before, Control), ConfigRevision, Some(Int(Saturated(revision))))))
    && Network in after && after[Network].Table?
    && IsWrittenSection(EntriesAt(before, Network), n, after[Network].entries)
  }

  /** The file, holding a parsed TOML document. */
  class File {
    var root: Entries

    constructor (root: Entries)
      ensures this.root == root
    {
      this.root := root;
    }

    /** Writes revision and network, or leaves the file as it was when a section is not a table. */
    method PersistRemoteNetworkConfig(revision: nat, network: NetworkConfig) returns (ok: bool)
      modifies this
      ensures ok <==> Writable(old(root), network)
      ensures if ok then IsWritten(old(root), revision, network, root) else root == old(root)
    {
      hide IsWrittenSection, Look;
      var document := new TomlTable(root);
      var control := document.TableEntry(Control);
      if control.None? { return false; }
      control.value.Insert(ConfigRevision, Int(if revision <= I64_MAX then revision else I64_MAX));
      document.Insert(Control, Table(control.value.entries));
      KeepsTable(root, Control, Network, control.value.entries);

      var table := document.TableEntry(Network);
      if table.None? { return false; }
      ghost var section := table.value.entries;
      var written := WriteNetwork(table.value, network);
      if !written { return false; }
      document.Insert(Network, Table(table.value.entries));
      DocumentIsWritten(root, revision, network, table.value.entries);
      root := document.entries;
      ok := true;
    }
  }

  lemma KeepsTable(t: Entries, k: Key, j: Key, entries: Entries)
    requires k != j
    ensures TableAt(Put(t, k, Some(Table(entries))), j) <==> TableAt(t, j)
    ensures TableAt(t, j) ==> EntriesAt(Put(t, k, Some(Table(entries))), j) == EntriesAt(t, j)
  {
  }

  lemma DocumentIsWritten(before: Entries, revision: nat, n: NetworkConfig, section: Entries)
    requires Writable(before, n) && IsWrittenSection(EntriesAt(before, Network), n, section)
    ensures
      var control := Put(EntriesAt(before, Control), ConfigRevision, Some(Int(Saturated(revision))));
      IsWritten(before, revision, n, Put(Put(before, Control, Some(Table(control))), Network, Some(Table(section))))
  {
    hide IsWrittenSection;
  }

  /** The network section, edited field by field. */
  method WriteNetwork(t: TomlTable, network: NetworkConfig) returns (ok: bool)
    modifies t
    ensures ok <==> network.operatorIps.Some? ==> TableAt(old(t.entries), Operators)
    ensures ok ==> IsWrittenSection(old(t.entries), network, t.entries)
  {
    hide Put, Look, TextValue, PortValue;
    ghost var before := t.entries;
    WriteFields(t, network);
    ghost var section := t.entries;
    SectionKeepsOperators(before, network, section);
    if network.operatorIps.Some? {
      var operators := t.TableEntry(Operators);
      if operators.None? { return false; }
      var o := operators.value;
      WriteOperators(o, network.operatorIps.value);
      t.Insert(Operators, Table(o.entries));
    } else {
      t.Remove(Operators);
    }
    SectionIsWritten(before, network, section, t.entries);
    ok := true;
  }

  lemma SectionKeepsOperators(before: Entries, n: NetworkConfig, after: Entries)
    requires IsSection(before, n, after)
    ensures TableAt(after, Operators) <==> TableAt(before, Operators)
    ensures TableAt(before, Operators) ==> EntriesAt(after, Operators) == EntriesAt(before, Operators)
  {
    assert Look(after, Operators) == Look(before, Operators);
  }

  lemma SectionIsWritten(before: Entries, n: NetworkConfig, section: Entries, after: Entries)
    requires IsSection(before, n, section)
    requires
      match n.operatorIps
      case None => after == Put(section, Operators, None)
      case Some(ips) =>
        && TableAt(before, Operators)
        && exists o :: IsOperatorTable(EntriesAt(before, Operators), ips, o) && after == Put(section, Operators, Some(Table(o)))
    ensures IsWrittenSection(before, n, after)
  {
    hide FieldValue, IsOperatorTable;
    assert forall k :: k != Operators ==> Look(after, k) == Look(section, k);
  }

  /** The order in which the fields are written. */
  function Rank(k: Key): nat {
    match k
    case ServerIp => 0
    case ListenIp => 1
    case ServerPort => 2
    case RelayServerIp => 3
    case RelayServerPort => 4
    case IsSupportIpv6 => 5
    case DisableQuic => 6
    case Area => 7
    case Bandwidth => 8
    case Tag => 9
    case _ => 10
  }

  /** The first m fields are written. */
  ghost predicate WrittenUpTo(before: Entries, n: NetworkConfig, after: Entries, m: nat) {
    forall k :: Look(after, k) == if Rank(k) < m && Rank(k) < 10 then FieldValue(n, k) else Look(before, k)
  }

  lemma NextField(before: Entries, n: NetworkConfig, mid: Entries, k: Key)
    requires Rank(k) < 10 && WrittenUpTo(before, n, mid, Rank(k))
    ensures WrittenUpTo(before, n, Put(mid, k, FieldValue(n, k)), Rank(k) + 1)
  {
    hide FieldValue, Look;
    forall j ensures Rank(j) == Rank(k) ==> j == k {
    }
  }

  method WriteFields(t: TomlTable, network: NetworkConfig)
    modifies t
    ensures IsSection(old(t.entries), network, t.entries)
  {
    hide WrittenUpTo, IsSection;
    ghost var before := t.entries;
    WriteEndpoints(t, network);
    WriteDetails(t, network, before);
    AllWritten(before, network, t.entries);
  }

  method WriteEndpoints(t: TomlTable, network: NetworkConfig)
    modifies t
    ensures WrittenUpTo(old(t.entries), network, t.entries, 5)
  {
    hide Look, TextValue, PortValue, WrittenUpTo;
    ghost var before := t.entries;
    NothingWritten(before, network);
    NextField(before, network, t.entries, ServerIp);
    t.Insert(ServerIp, Str(network.serverIp));
    NextField(before, network, t.entries, ListenIp);
    t.SetOptionalString(ListenIp, network.listenIp);
    NextField(before, network, t.entries, ServerPort);
    t.Insert(ServerPort, Int(network.serverPort));
    NextField(before, network, t.entries, RelayServerIp);
    t.SetOptionalString(RelayServerIp, network.relayServerIp);
    NextField(before, network, t.entries, RelayServerPort);
    t.SetOptionalInteger(RelayServerPort, network.relayServerPort);
  }

  method WriteDetails(t: TomlTable, network: NetworkConfig, ghost before: Entries)
    requires WrittenUpTo(before, network, t.entries, 5)
    modifies t
    ensures WrittenUpTo(before, network, t.entries, 10)
  {
    hide Look, TextValue, QualityName, WrittenUpTo;
    NextField(before, network, t.entries, IsSupportIpv6);
    t.Insert(IsSupportIpv6, Flag(network.isSupportIpv6));
    NextField(before, network, t.entries, DisableQuic);
    t.Insert(DisableQuic, Flag(network.disableQuic));
    NextField(before, network, t.entries, Area);
    t.Insert(Area, Str(network.area));
    NextField(before, network, t.entries, Bandwidth);
    t.Insert(Bandwidth, Str(QualityName(network.bandwidthQuality)));
    NextField(before, network, t.entries, Tag);
    t.SetOptionalString(Tag, network.tag);
  }

  lemma NothingWritten(before: Entries, n: NetworkConfig)
    ensures WrittenUpTo(before, n, before, 0)
  {
  }

  lemma AllWritten(before: Entries, n: NetworkConfig, after: Entries)
    requires WrittenUpTo(before, n, after, 10)
    ensures IsSection(before, n, after)
  {
    hide FieldValue, Look;
  }

  method WriteOperators(t: TomlTable, ips: OperatorIps)
    modifies t
    ensures IsOperatorTable(old(t.entries), ips, t.entries)
  {
    hide Look, TextValue;
    t.SetOptionalString(TelecomIp, ips.telecomIp);
    t.SetOptionalString(MobileIp, ips.mobileIp);
    t.SetOptionalString(UnicomIp, ips.unicomIp);
  }

  // ---------------------------------------------------------------- theorems

  /** What the file keeps of a network: optional texts trimmed, blank ones dropped. */
  function Normalised(n: NetworkConfig): NetworkConfig {
    n.(listenIp := NonBlank(n.listenIp), relayServerIp := NonBlank(n.relayServerIp), tag := NonBlank(n.tag),
       operatorIps := if n.operatorIps.None? then None else Some(NormalisedIps(n.operatorIps.value)))
  }

  function NormalisedIps(ips: OperatorIps): OperatorIps {
    OperatorIps(NonBlank(ips.telecomIp), NonBlank(ips.mobileIp), NonBlank(ips.unicomIp))
  }

  lemma QualityReadsBack(q: BandwidthQuality)
    ensures AsQuality(Some(Str(QualityName(q)))) == Present(q)
  {
    assert "normal"[0] != "fast"[0] && "slow"[0] != "fast"[0] && "slow"[0] != "normal"[0];
  }

  lemma TextReadsBack(value: Option<string>)
    ensures !AsText(TextValue(value)).Mistyped? && ToOption(AsText(TextValue(value))) == NonBlank(value)
  {
    hide NonBlank;
  }

  lemma OperatorsReadBack(before: Entries, ips: OperatorIps, after: Entries)
    requires IsOperatorTable(before, ips, after)
    ensures AsOperators(Some(Table(after))) == Present(NormalisedIps(ips))
  {
    hide NonBlank, TextValue, AsText, Look;
    TextReadsBack(ips.telecomIp);
    TextReadsBack(ips.mobileIp);
    TextReadsBack(ips.unicomIp);
    assert Look(after, TelecomIp) == OperatorValue(ips, TelecomIp);
    assert Look(after, MobileIp) == OperatorValue(ips, MobileIp);
    assert Look(after, UnicomIp) == OperatorValue(ips, UnicomIp);
  }

  lemma FieldsOf(before: Entries, n: NetworkConfig, after: Entries)
    requires IsWrittenSection(before, n, after)
    ensures Look(after, ServerIp) == Some(Str(n.serverIp)) && Look(after, ListenIp) == TextValue(n.listenIp)
    ensures Look(after, ServerPort) == Some(Int(n.serverPort)) && Look(after, RelayServerIp) == TextValue(n.relayServerIp)
    ensures Look(after, RelayServerPort) == PortValue(n.relayServerPort) && Look(after, Area) == Some(Str(n.area))
    ensures Look(after, IsSupportIpv6) == Some(Flag(n.isSupportIpv6)) && Look(after, DisableQuic) == Some(Flag(n.disableQuic))
    ensures Look(after, Bandwidth) == Some(Str(QualityName(n.bandwidthQuality))) && Look(after, Tag) == TextValue(n.tag)
  {
    hide Look, TextValue, PortValue, IsOperatorTable, QualityName;
  }

  lemma OperatorsOf(before: Entries, n: NetworkConfig, after: Entries)
    requires IsWrittenSection(before, n, after)
    ensures AsOperators(Look(after, Operators))
      == if n.operatorIps.None? then Absent else Present(NormalisedIps(n.operatorIps.value))
  {
    hide NormalisedIps, IsOperatorTable, FieldValue, AsText, AsOperators;
    if n.operatorIps.Some? {
      OperatorsReadBack(EntriesAt(before, Operators), n.operatorIps.value, after[Operators].entries);
    } else {
      NoOperators();
    }
  }

  lemma NetworkReadsBack(before: Entries, n: NetworkConfig, after: Entries)
    requires IsWrittenSection(before, n, after)
    ensures ReadNetwork(after) == Some(Normalised(n))
  {
    hide NonBlank, TextValue, AsText, AsOperators, NormalisedIps, QualityName, AsQuality, IsWrittenSection, Look;
    FieldsOf(before, n, after);
    OperatorsOf(before, n, after);
    QualityReadsBack(n.bandwidthQuality);
    PlainReadsBack();
    TextReadsBack(n.listenIp);
    TextReadsBack(n.relayServerIp);
    TextReadsBack(n.tag);
  }

  lemma NoOperators()
    ensures AsOperators(None) == Absent
  {
  }

  lemma PlainReadsBack()
    ensures forall text :: AsText(Some(Str(text))) == Present(text)
  {
  }

  /** What was persisted is what the next start loads: the saturated revision, at least 1, and the
      network with its optional texts normalised. */
  lemma PersistThenLoad(before: Entries, revision: nat, network: NetworkConfig, after: Entries)
    requires IsWritten(before, revision, network, after)
    ensures LoadRevision(after) == Some(if revision == 0 then 1 else Saturated(revision))
    ensures LoadNetwork(after) == Some(Some(Normalised(network)))
  {
    hide ReadNetwork, IsWrittenSection, Normalised;
    NetworkReadsBack(EntriesAt(before, Network), network, after[Network].entries);
    assert Control in after;
  }

  /** The result of a write is determined by what was there before. */
  lemma WriteIsDetermined(before: Entries, revision: nat, n: NetworkConfig, a: Entries, b: Entries)
    requires IsWritten(before, revision, n, a) && IsWritten(before, revision, n, b)
    ensures a == b
  {
    hide FieldValue;
    if n.operatorIps.Some? {
      SameTable(a[Network].entries[Operators].entries, b[Network].entries[Operators].entries);
    }
    SameTable(a[Network].entries, b[Network].entries);
    SameTable(a, b);
  }

  lemma NormalisedIsFixed(n: NetworkConfig)
    ensures Normalised(Normalised(n)) == Normalised(n)
  {
  }

  lemma TextValueNormalised(value: Option<string>)
    ensures TextValue(NonBlank(value)) == TextValue(value)
  {
  }

  lemma ValuesNormalised(n: NetworkConfig, k: Key)
    ensures FieldValue(Normalised(n), k) == FieldValue(n, k)
    ensures n.operatorIps.Some? ==> OperatorValue(NormalisedIps(n.operatorIps.value), k) == OperatorValue(n.operatorIps.value, k)
  {
    hide TextValue, NonBlank;
    TextValueNormalised(n.listenIp);
    TextValueNormalised(n.relayServerIp);
    TextValueNormalised(n.tag);
    if n.operatorIps.Some? {
      TextValueNormalised(n.operatorIps.value.telecomIp);
      TextValueNormalised(n.operatorIps.value.mobileIp);
      TextValueNormalised(n.operatorIps.value.unicomIp);
    }
  }

  /** Persisting once more what a start loads from the file, under the same revision, changes nothing. */
  lemma PersistIsIdempotent(before: Entries, revision: nat, n: NetworkConfig, after: Entries)
    requires IsWritten(before, revision, n, after)
    ensures IsWritten(after, revision, n, after)
    ensures IsWritten(after, revision, Normalised(n), after)
  {
    hide FieldValue, OperatorValue, NonBlank;
    forall k ensures FieldValue(Normalised(n), k) == FieldValue(n, k) {
      ValuesNormalised(n, k);
    }
    if n.operatorIps.Some? {
      forall k ensures OperatorValue(NormalisedIps(n.operatorIps.value), k) == OperatorValue(n.operatorIps.value, k) {
        ValuesNormalised(n, k);
      }
    }
    var control := after[Control].entries;
    SameTable(Put(control, ConfigRevision, Some(Int(Saturated(revision)))), control);
  }

  /** The next start accepts the persisted network exactly when its address and port are usable:
      persisting does not check this. */
  lemma PersistedNetworkValidates(isAddress: string -> bool, n: NetworkConfig)
    ensures Validates(isAddress, Normalised(n)) <==>
      && !IsBlank(n.serverIp) && n.serverPort != 0
      && (NonBlank(n.listenIp).Some? ==> isAddress(NonBlank(n.listenIp).value))
  {
    if NonBlank(n.listenIp).Some? {
      TrimIdempotent(n.listenIp.value);
    }
  }
}
