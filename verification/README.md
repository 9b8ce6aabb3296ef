# XAccel: a verified model of the acceleration node and its control plane

XAccel routes game traffic. A control plane keeps nodes, catalogs and administrators in tables, issues
signed tickets and hands out configurations; a node checks the tickets, keeps short-lived sessions and
relays payloads; a client frames the traffic. This project models that logic in Dafny and proves what
it promises over every input, every interleaving and every run.

`dafny verify dfyconfig.toml` checks everything.

## How the model is organised

| files | what they hold |
|---|---|
| `Text`, `Utf8`, `Bits`, `Checks` | trimming, splitting, decimal numerals, UTF-8 well-formedness, bit operators at any width; validation as an ordered list of checks |
| `Cidr`, `RoutePolicy` | CIDR masks and the first-match search over route rules |
| `Auth`, `Ticket` | token checking on the node; policy validation and ticket issue on the control plane; both ends together |
| `Session`, `SessionStore` | a probe's identity, target resolution, session ids; the locked session map as a class that refines a history |
| `NodeSystem`, `NodeShape`, `NodeSafety`, `NodeTheorems`, `NodeCounters`, `NodeTasks`, `NodeHistory` | the node as a transition system: every message is handled by its own spawned task, a list of atomic operations, and a run interleaves them in any order, with the purges that reports make |
| `NodeContracts`, `NodeHandlers` | what each handler answers, counts and stores, case by case; the handlers as code over the shared counters and the store, proved to meet those cases and to do what their operation lists do |
| `Xau1` | the XAU1 binary tunnel frames: both encoders and both decoders |
| `ConfigFile`, `RuntimeConfig`, `ConfigProtocol`, `ConfigSync` | the TOML file edited in place, the configuration in memory, the protocol between them and the server with crashes and lost messages, and the poll as code that takes the protocol's steps |
| `Password`, `ShellCommand` | PBKDF2 and password hashes; shell quoting and the install commands |
| `TaskQueue` | remote tasks, from insertion to the result or its loss |
| `HealthAlerts`, `AlertPasses` | alert conditions and the reconciliation pass; passes and decisions that interleave statement by statement |
| `CatalogRequest`, `CatalogTables` | catalog normalisation, synchronisation and deletion |

HMAC, SHA-256, base64, JSON, the address parser and name lookup are function parameters. A theorem
that needs a law of theirs says so in a named predicate (`Lawful`, `LibraryLaws`, `IsPrf`): decoding
undoes encoding, the base64url alphabet has no dot, dollar sign or white space, a digest has 32 bytes.
Clock readings, relay outcomes and looked-up addresses are inputs of each step. A database transaction
or a single SQL statement is one step; automatic ids increase.

Code that updates something in place is a class or a method with a loop, and its contract ties the new
state to a function of the old one; the theorems are lemmas about those functions and about runs.

## What turned out not to hold as one might expect

* A domain rule does not limit the host of a JSON request. The rule is also met when the original domain
  in the request equals the rule's host, and the request states both freely
  (`RoutePolicies.DomainRuleAdmitsAnyHost`). A port is open to every host exactly when a rule that admits
  it is `any`, a domain rule with a host, or a Steam rule that lists nothing
  (`RoutePolicies.EveryHostOpenExactly`); otherwise only hosts its rules name are reachable
  (`RoutePolicies.ReachableExactlyWhenOpen`). The raw tunnel states no original domain
  (`Session.RawEndpointsAreNamed`).
* Not every token limits where requests can have data relayed to. Every host and port is reachable over
  both protocols exactly when the token carries neither a policy hash nor a route, or when the policy it
  hashes has, for each protocol and port, a rule that admits the port and opens every host
  (`NodeTheorems.DestinationIsOpenExactly`, `Session.EveryEndpointExactlyWhenOpen`). A ticket of this
  control plane always binds a policy or an address (`Ticket.TicketIsAccepted`), but nothing in the
  validation of policies refuses one that limits nothing: one `any` rule over all ports is an example
  (`Session.OpenPolicyLimitsNothing`, `Ticket.OpenPolicyValidates`).
* A fixed route in a token binds the address of a relay but not its protocol: the request chooses
  between UDP and TCP (`Session.FixedRouteLeavesProtocolOpen`).
* PBKDF2 does not refuse an output longer than the standard allows; it meets RFC 8018 exactly up to that
  length (`Password.DerivedMeetsStandard`) and repeats blocks beyond it (`Password.BlocksRepeat`).
* Writing a remote configuration does not validate it: a blank server address or port 0 is written and
  rejected only at the next start (`ConfigFile.PersistedNetworkValidates`). Optional texts are trimmed in
  the file but not in memory.
* Agreement of revisions depends on the file a node first starts with. It holds in every run exactly when
  that file holds a revision and configuration the server published (`ConfigProtocol.AgreementExactly`),
  and the server's revision is left alone exactly when the file is not ahead of it
  (`ConfigProtocol.ServerIsLeftAloneExactly`). A file ahead makes the first handshake raise the server to
  a revision it never published (`ConfigProtocol.MismatchedBootstrapDisagrees`), and a file at the same
  revision with another network stays as it is until an edit (`ConfigProtocol.OnlyEditsCorrectTheFile`).
* A remote task can stay `running` for ever: a claim is never repeated, so once the response that handed
  the task out is lost, or every result posted for it, nothing finishes the row
  (`TaskQueue.RunningForeverExactly`).
* An alert pass is no transaction. A pass that read a node before a condition arose can resolve the alert
  a newer pass has raised, together with an administrator's decision on it
  (`AlertPasses.StalePassResolvesDue`); a decision is lost to no other kind of pass
  (`AlertPasses.DecisionSurvivesDueReads`), and the next pass that nothing on the node disturbs restores
  the alerts that are due (`AlertPasses.UndisturbedPassRestores`).
* Status `canceled` of a remote task exists in the schema but no code reaches it
  (`TaskQueue.CreatedIsAccountedFor`).

## Model

Small helpers, such as the counter methods of `NodeHandlers.RuntimeStats`, have contracts but no row.

| member | source | states |
|---|---|---|
| NodeTheorems.RelaysStayWithinTokens | node-core/src/session.rs:420-446 | in every run, each relay is for a session whose probe carried a signed, usable token. With a policy hash, the session holds the policy with that hash and the endpoint is that of a host and port its own rules open; with a fixed route, it is that address; with neither, the session is bound to nothing and the request chose |
| NodeTheorems.PolicyDecidesDestinations | node-core/src/session.rs:765-790 | under a token with a policy hash, the endpoints requests can reach are exactly those the hashed policy opens |
| NodeTheorems.DestinationIsOpenExactly | node-core/src/session.rs:1142-1194 | requests can have every host and port relayed to, over both protocols, exactly when the token carries neither a policy hash nor a route, or the policy it hashes has for each protocol and port a rule that admits the port and opens every host (addresses have at most 45 characters) |
| NodeTheorems.AnonymousSessionsNeverRelay | node-core/src/session.rs:420-430 | no run relays for a session opened without a valid token |
| NodeTheorems.SessionIdsAreDistinct | node-core/src/session.rs:1210-1218 | ids are pairwise distinct in every run of at most 2^64 admitted probes, for all transports, peers and clocks |
| NodeTheorems.RegisterNeverOverwrites | node-core/src/session.rs:288-305 | storing a new session never replaces a stored one |
| NodeTheorems.SnapshotsAreFixedAtProbe | node-core/src/session_store.rs:107-134 | every snapshot shown for an id is that of its probe: identity, policy, route and expiry |
| NodeTheorems.RawRepliesAreEncodable | node-core/src/session.rs:553-695 | every raw reply of every run has a known status and at most 4096 payload bytes |
| NodeTheorems.RepliesAnswerTheirPackets | node-core/src/session.rs:553-695 | every raw reply of every run carries the session id of the packet its own handler was given |
| NodeTheorems.ClientReadsEveryRawReply | client-probe/src/main.rs:980-1021 | for every raw reply of every run, the client decodes the frame to the session id of the packet that was handled, the handler's status and the payload |
| NodeTheorems.PlanErrorsAreStatuses | node-core/src/session.rs:760-850 | every error target resolution can return is one of the reply statuses |
| NodeTheorems.IdNamesOneSlot | node-core/src/session.rs:1210-1218 | an id names one admitted probe |
| NodeSafety.PlanIsAllowed | node-core/src/session.rs:748-850 | the authentication test covers every way a target can be resolved: a plan made for a known session goes where its token's binding (hashed policy, fixed address or none) allows |
| NodeSafety.PlanUnderClaims | node-core/src/session.rs:1142-1194 | under accepted claims, the identity bound at the probe limits every later plan to what the claims' binding allows |
| NodeSafety.RawPlanIsUdp | node-core/src/session.rs:601-620 | the raw tunnel's own request always resolves to a UDP relay |
| NodeSafety.EffectIsSafe | node-core/src/session.rs:257-350 | every single operation keeps the session, store and relay invariants |
| NodeSafety.ReachIsSafe | node-core/src/session.rs:352-551 | the invariants hold in every reachable state |
| NodeCounters.RelaysAreConserved | node-core/src/session.rs:479-507 | in every reachable state relay_tx = relay_rx + relay_timeout + relays in flight, modulo 2^64, and exactly while the sum fits |
| NodeCounters.QuiescentConservation | node-core/src/session.rs:541-548 | with nothing pending: session_rx = session_tx, probe_rejected = auth_failed + invalid messages, auth_missing + auth_ok + auth_failed = probes + binding failures |
| NodeCounters.ReachIsBalanced | node-core/src/state.rs:430-493 | the four counter balances hold in every reachable state once pending operations are added |
| NodeCounters.CountersFit | node-core/src/state.rs:430-493 | every counter stays a 64-bit value |
| NodeCounters.WorkRunsOut | node-core/src/session.rs:352-695 | without new messages, whatever purges come in between, the number of task steps is bounded by the work pending, so every handler ends |
| NodeHistory.StoreFollowsHistory | node-core/src/session_store.rs:100-142 | in every run whose store clock does not run backwards, the store holds exactly what the history of all handlers and purges says: the sessions registered and not yet taken out, with what was recorded on them |
| NodeTasks.TaskDoesAsItsStepsSay | node-core/src/session.rs:257-695 | in every run, whatever is interleaved, all that a task has done so far (session shown, relay made, session stored, reply sent) is the stated function of its message, the session it found, the destination it resolved and the outcome of its relay |
| NodeTasks.RelayedExactlyWhenCalled | node-core/src/session.rs:420-509 | in every run, a task has made exactly the relay that its session, its resolution and its lookup called for, once it has taken its third step; nothing else is ever relayed |
| NodeHistory.SessionsComeFromProbes | node-core/src/session.rs:283-303 | in every run, each stored session was made by its own task's probe: id, peer and creation time are those of its steps, it expires 30 seconds after its creation, and every other field is that of the accepted claims or, without a token, of the request |
| NodeHistory.ServedExactlyUntilExpiry | node-core/src/session_store.rs:107-134 | after every such run of at most 2^64 admitted probes, whatever purges, probes and packets came in between: a packet for an id is accepted at time t exactly when a probe got that id, its session was stored and t < creation + 30; it is then shown that session |
| NodeHandlers.DrainIsSchedule | node-core/src/session.rs:257-695 | running one handler to its end is a schedule of the transition system that leaves all other handlers alone |
| NodeHandlers.NodeRuntime.CountSessions | node-core/src/state.rs:361-364 | the count made for a report is the purge step of the transition system and returns the number of unexpired sessions |
| NodeHandlers.NodeRuntime.BuildProbeResponse | node-core/src/session.rs:257-305 | reply, counters, sequence number, last id and stored session for every decision on the token and the policy; and the shared state ends exactly where the probe's operation list ends |
| NodeHandlers.NodeRuntime.RejectMessage | node-core/src/session.rs:1079-1095 | text that is no message is counted and answered as an invalid probe |
| NodeHandlers.NodeRuntime.BuildSessionDataResponse | node-core/src/session.rs:352-430 | session data: the exact reply, counters and store for each refusal, for an echo (exactly when there is nothing to reach) and for each outcome of a relay; and the operation list's end |
| NodeHandlers.NodeRuntime.ResolveAndAnswer | node-core/src/session.rs:432-446 | from target resolution on: an error, an echo exactly when resolution finds nothing to reach, a relay exactly when a destination was found and looked up |
| NodeHandlers.NodeRuntime.ForwardData | node-core/src/session.rs:446-509 | the relay's three outcomes: relay_error; upstream_timeout; forwarded with the bytes received; each with its packet and byte counts |
| NodeHandlers.NodeRuntime.AnswerData | node-core/src/session.rs:510-551 | the answer is encoded, recorded on the session and counted, or nothing is when encoding fails |
| NodeHandlers.NodeRuntime.BuildRawUdpTunnelResponse | node-core/src/session.rs:553-600 | a raw tunnel packet: the exact reply, counters and store for each refusal and each outcome of the relay; the reply always carries the request's session id |
| NodeHandlers.NodeRuntime.ResolveAndTunnel | node-core/src/session.rs:601-644 | the same from resolution on: a request without a target is refused, never echoed |
| NodeHandlers.NodeRuntime.TunnelRaw | node-core/src/session.rs:646-695 | the raw relay's outcomes: relay_error, upstream_timeout or forwarded with the bytes received, and what each counts |
| Session.SessionIdTellsSequence | node-core/src/session.rs:1210-1218 | the sequence number can be read off an id whatever stands before it |
| Session.SessionIdTellsAll | node-core/src/session.rs:1210-1218 | two ids are equal exactly when transport, clock reading, sequence number and peer agree, the peer up to dots, colons and dashes |
| Session.PlanExactly | node-core/src/session.rs:748-850 | target resolution for every request, bound address and policy: which error, which destination, or nothing to reach |
| Session.IdentityIsOfClaims | node-core/src/session.rs:1142-1194 | a token's claims are bound exactly when every check of the policy passes, with the first failing check's code otherwise; the session then carries the claims field by field for 30 seconds |
| Session.FixedRouteLeavesProtocolOpen | node-core/src/session.rs:792-808 | the request still chooses the relay protocol of a bound address |
| Session.PolicyPlanIsAdmitted | node-core/src/session.rs:765-790 | a plan under a policy goes to a target the policy admits, over the protocol whose port range admitted it |
| Session.PolicyEndpointsExactly | node-core/src/session.rs:765-790 | under a policy, the endpoints and protocols that requests can reach are exactly those of the hosts and ports the policy opens |
| Session.RawEndpointsAreNamed | node-core/src/session.rs:601-620 | a raw packet states no original domain, so it reaches only hosts a rule names, unless the rule is `any` or lists nothing |
| Session.EveryEndpointExactlyWhenOpen | node-core/src/session.rs:748-850 | requests can have every host and port relayed to, over both protocols, exactly when the session is bound to neither a policy nor an address, or its policy has for each protocol and port a rule that admits the port and opens every host; a bound address is the only destination |
| Session.OpenPolicyLimitsNothing | node-core/src/route_policy.rs:113-157 | the failing input: a policy of one `any` rule over all ports of both protocols leaves every host and port reachable |
| Session.NormalisationsAgree | node-core/src/session.rs:716-725 | the two different normalisations of a protocol name agree whenever matching succeeds |
| SessionStores.SessionStore.RegisterUdpSession | node-core/src/session_store.rs:100-105 | purges and inserts, keeping the refinement of the history |
| SessionStores.SessionStore.RecordUdpSessionIo | node-core/src/session_store.rs:107-134 | succeeds exactly when the id was registered and has not expired, returns that registration's session, and says Expired exactly while the lapsed row is there |
| SessionStores.SessionStore.ActiveUdpSessionCount | node-core/src/session_store.rs:136-142 | returns exactly the number of unexpired registrations |
| SessionStores.IoRefines | node-core/src/session_store.rs:107-134 | one I/O keeps the map equal to what the history says |
| SessionStores.RegisterRefines | node-core/src/session_store.rs:100-105 | so does a registration with its purge |
| SessionStores.CountRefines | node-core/src/session_store.rs:136-142 | so does a count, whose result is the number of unexpired ids |
| SessionStores.RefusedForever | node-core/src/session_store.rs:118-123 | once refused, an id is refused at every later time until it is registered again |
| SessionStores.SnapshotIsRegistration | node-core/src/session_store.rs:146-162 | the fixed part of a session never changes between registrations |
| SessionStores.CountersAreSaturatedSums | node-core/src/session_store.rs:128-131 | both byte counters are min(2^64 - 1, sum of the accepted amounts), in any order |
| RoutePolicies.MatchIsDeclarative | node-core/src/route_policy.rs:73-111 | matching succeeds exactly when some rule passes the id, port and host tests, and reports the least such rule |
| RoutePolicies.SearchMeaning | node-core/src/route_policy.rs:87-110 | the loop's result from any rule on is that of the remaining rules |
| RoutePolicies.AppendingRulesKeepsMatch | node-core/src/route_policy.rs:87-110 | appending rules never changes a successful answer |
| RoutePolicies.CidrRuleAdmitsBlock | node-core/src/route_policy.rs:87-145 | a CIDR rule with any number of blocks admits a target exactly when its id and port pass and the host lies in one of the blocks |
| RoutePolicies.HostTestMeaning | node-core/src/route_policy.rs:113-157 | for every host type: the host test is about the rule's own content, except for the original domain, which the client states |
| RoutePolicies.DomainRuleAdmitsAnyHost | node-core/src/route_policy.rs:127-139 | the failing input: stating the rule's host as the original domain admits any host on an admitted port |
| RoutePolicies.ReachableExactlyWhenOpen | node-core/src/route_policy.rs:73-157 | a host is reachable on a protocol and port exactly when a rule that admits the port opens every host or names this one |
| RoutePolicies.EveryHostOpenExactly | node-core/src/route_policy.rs:113-157 | every host is reachable on a port exactly when a rule admitting it is `any`, a domain rule with a host, or a Steam rule that lists nothing |
| Cidr.MaskShape | node-core/src/route_policy.rs:179-195 | the mask is prefix ones followed by zeros at every width and prefix, including 0 |
| Cidr.MaskedMeansBlock | node-core/src/route_policy.rs:179-195 | masked words are equal exactly when the top prefix bits are, exactly when the address lies in the aligned interval of 2^(w - prefix) addresses (section 3.1 of RFC 4632, section 2.3 of RFC 4291) |
| Cidr.BlocksNestedOrDisjoint | node-core/src/route_policy.rs:179-195 | two blocks are nested or disjoint |
| Cidr.IpInCidrMeaning | node-core/src/route_policy.rs:165-198 | the test on every pair of texts: no address, no separator, a malformed base or prefix, another family, a prefix too long, or membership of the block |
| Auth.VerifyTokenMeansSigned | node-core/src/auth.rs:101-151 | a token is accepted with some claims exactly when it is signed with the secret, carries them, and they are usable here and now |
| Auth.ProbeIsValidExactlyWhenGenuine | node-core/src/auth.rs:71-196 | the whole decision on a probe, both directions |
| Auth.ProbeIsRefusedExactly | node-core/src/auth.rs:71-100 | which of the refusals a probe gets: no token, no secret, no usable signed claims, or claims that contradict the request |
| Ticket.OpenPolicyValidates | control-api/src/main.rs:383-474 | that policy passes validation unchanged, so a ticket can carry its hash |
| Ticket.ValidateRoutePolicy | control-api/src/main.rs:383-474 | a policy is accepted exactly when every listed check passes and the result can be hashed; every rule and range is kept, texts trimmed and types and protocols in lower case, nothing else changed; a refusal reports the first failing check |
| Ticket.NormalizeTarget | control-api/src/main.rs:420-466 | one rule: the checks in order, and what each field becomes |
| Ticket.NormalizePorts | control-api/src/main.rs:453-466 | all ranges are kept with their bounds and a normalised protocol, exactly when all are valid |
| Ticket.ValidatedMeans | control-api/src/main.rs:383-474 | the same of the whole decision as a function, including that an unhashable result is the only internal error |
| Ticket.ValidationKeepsMatching | control-api/src/main.rs:383-474 | a policy whose texts have no white space at their ends, in whatever case, is matched after validation exactly as before, for every target |
| Ticket.ValidateTargetAddrMeans | control-api/src/main.rs:11914-11933 | an address is accepted exactly when it is a host, a colon and a port from 1 to 65535 of at most 255 characters, and is kept but for white space at its ends |
| Ticket.RepresentativeIsFirst | control-api/src/main.rs:476-501 | the address standing for a policy is that of the first rule one can be made of: its host or first listed address, and its first range of the protocol |
| Ticket.RouteExactly | control-api/src/main.rs:273-363 | the route of every business request, or why there is none |
| Ticket.TicketSaysWhatWasAsked | control-api/src/main.rs:7279-7345 | ticket and claims carry the request's user, device, game, region and texts, the node and its route, one expiry, and an id that reads back to user, game, time and node |
| Ticket.ValidationIsIdempotent | control-api/src/main.rs:383-474 | submitting a validated policy again yields the same policy and hash |
| Ticket.RouteIsUsable | control-api/src/main.rs:273-348 | a granted per-session route has an address and a protocol the node accepts, and the validated policy |
| Ticket.SignedTokenIsAccepted | control-api/src/main.rs:13558-13568 | a signed token is accepted by a holder of the secret exactly while its claims are usable |
| Ticket.TicketIsAccepted | control-api/src/main.rs:7289-7392 | for every request and usable row, in catalog and per-session mode: a ticket passed on unchanged is accepted exactly before it expires, and the node binds the policy that was hashed, or the fixed address |
| Ticket.PerSessionTicketIsAccepted | control-api/src/main.rs:7254-7287 | the same for a request's own route, whose binding is its validated policy |
| Ticket.TokenIsTrimmed | node-core/src/auth.rs:71-99 | trimming the token text on the node loses nothing |
| Xau1.EncodeRawUdpTunnelFrame | client-probe/src/main.rs:941-978 | the client's encoder, with its four length errors |
| Xau1.ParseRawUdpTunnelFrame | node-core/src/session.rs:950-1011 | the node's parser with its moving offset; no index is out of range and no sum overflows |
| Xau1.ReadUtf8Field | node-core/src/session.rs:1061-1077 | one field: overflow, truncation, bad UTF-8, or the text and the moved offset |
| Xau1.PacketRoundTrip | client-probe/src/main.rs:941-978 | the node's parser recovers exactly what the client's encoder was given, an empty target id standing for none |
| Xau1.EncodeInjective | client-probe/src/main.rs:941-978 | different packets have different frames |
| Xau1.ParseIsCanonical | node-core/src/session.rs:950-1011 | a frame is accepted exactly when it is the encoder's output on the parsed fields up to the two ignored bytes |
| Xau1.AcceptedIsEncoding | node-core/src/session.rs:950-1011 | zeroing the ignored bytes of an accepted frame gives the encoder's own output |
| Xau1.AcceptedFramesArePrefixFree | node-core/src/session.rs:950-1011 | no proper prefix and no extension of an accepted frame is accepted |
| Xau1.CutDatagramIsInvalid | node-core/src/listener.rs:136-143 | a frame cut by the 4096-byte receive buffer is always rejected |
| Xau1.EncodeRawUdpTunnelResponse | node-core/src/session.rs:1013-1045 | the node's reply encoder with its saturating lengths |
| Xau1.DecodeRawUdpTunnelResponse | client-probe/src/main.rs:980-1021 | the client's reply decoder |
| Xau1.ReplyRoundTrip | node-core/src/session.rs:1013-1045 | every reply to an accepted request decodes at the client to the same session id, status and payload; the code is 1 exactly for upstream_timeout |
| Xau1.KindsAreDisjoint | node-core/src/session.rs:950-965 | a packet never reads as a reply nor a reply as a packet |
| ConfigFile.TomlTable.SetOptionalString | node-core/src/config.rs:300-309 | sets the trimmed text or removes the key |
| ConfigFile.TomlTable.TableEntry | node-core/src/config.rs:291-298 | the table under a key, created when missing, refused when something else is there |
| ConfigFile.File.PersistRemoteNetworkConfig | node-core/src/config.rs:198-289 | writes revision and network and nothing else, or leaves the file alone when a section is not a table |
| ConfigFile.WriteNetwork | node-core/src/config.rs:219-283 | the network section after the edits, key by key |
| ConfigFile.PersistThenLoad | node-core/src/config.rs:198-289 | the next start loads the saturated revision and the network with optional texts normalised |
| ConfigFile.WriteIsDetermined | node-core/src/config.rs:198-289 | the written file is a function of the file before, the revision and the network: all other keys are kept |
| ConfigFile.PersistIsIdempotent | node-core/src/config.rs:198-289 | writing again, also what a start loaded, changes nothing |
| ConfigFile.PersistedNetworkValidates | node-core/src/config.rs:147-195 | exactly which persisted networks the next start accepts |
| RuntimeConfigs.RuntimeConfig.ApplyRemoteNetworkConfig | node-core/src/state.rs:261-313 | one application as values, its result record, and the state all configurations so far call for |
| RuntimeConfigs.ReplayIsCalled | node-core/src/state.rs:261-313 | after any sequence: the largest revision, the last newer configuration with the first bound listener, and restart_required exactly when some applied one wanted another listener |
| RuntimeConfigs.OnlyRecordsMatter | node-core/src/state.rs:274-282 | stale and repeated configurations can be left out |
| RuntimeConfigs.RecordsIncrease | node-core/src/state.rs:274-282 | applied revisions strictly increase |
| RuntimeConfigs.ListenerStaysBound | node-core/src/state.rs:284-293 | the listener, the growing revision and a restart request last as long as the process |
| ConfigProtocol.ReachAgrees | node-core/src/control_plane.rs:478-506 | from every state that agrees, with any history: server, file, memory and messages agree after every run, with crashes and lost or repeated messages |
| ConfigProtocol.RevisionsAreOrdered | node-core/src/control_plane.rs:478-506 | memory revision <= file revision <= server revision (up to the file's 63-bit cap); file and memory hold what the server published under their own revision |
| ConfigProtocol.RevisionsOnlyGrow | control-api/src/main.rs:10497-10545 | no revision ever goes back within its component's life |
| ConfigProtocol.GreatestNeverRaises | control-api/src/main.rs:11008-11057 | reports and handshakes never move the server's revision |
| ConfigProtocol.HistoryNeverCollides | control-api/src/main.rs:10547-10593 | the history insert never meets an existing revision, whatever history the node had when it was installed |
| ConfigProtocol.NoRevisionIsSkipped | control-api/src/main.rs:10497-10593 | every revision since the start was made by an edit and has its history row |
| ConfigProtocol.LastEditHolds | control-api/src/main.rs:10495-10597 | in every run the server's network is that of the last accepted edit, its revision has grown by one for each, and that network is what the revision was published with |
| ConfigProtocol.OnePollCatchesUp | node-core/src/control_plane.rs:422-507 | one undisturbed poll brings file and memory to the server's revision and network |
| ConfigProtocol.ServerIsLeftAloneExactly | control-api/src/main.rs:11008-11057 | for every node before its first start: in every run no report or handshake moves the server, if and only if the file's revision is at most the server's |
| ConfigProtocol.AgreementExactly | node-core/src/control_plane.rs:478-506 | for every node before its first start and any server history: every run stays in agreement, if and only if the file holds a revision and configuration the server published |
| ConfigProtocol.MismatchedBootstrapDisagrees | control-api/src/main.rs:11039-11057 | the failing run of a file ahead of the server |
| ConfigProtocol.OnlyEditsCorrectTheFile | node-core/src/control_plane.rs:478-494 | a file at or ahead of the server's revision is never corrected by polling: without an edit, file and memory stay as they were in every run |
| ConfigProtocol.StepKeepsAgrees | control-api/src/main.rs:10495-10597 | every step of the protocol keeps agreement |
| ConfigSync.FetchAndApplyConfig | node-core/src/control_plane.rs:478-507 | the poll as code takes exactly the protocol's persist and apply steps, and changes nothing when persisting fails |
| ConfigSync.PollKeepsAgreement | node-core/src/control_plane.rs:478-507 | so it keeps agreement from any reachable state |
| Password.Pbkdf2HmacSha256 | control-api/src/main.rs:13469-13503 | the outer loop: the blocks in order, cut to the requested length; zero parameters are refused |
| Password.DeriveBlock | control-api/src/main.rs:13482-13499 | the inner loop: the xor-fold of the U chain |
| Password.XorInto | control-api/src/main.rs:13495-13497 | the in-place xor of a block |
| Password.DerivedMeetsStandard | control-api/src/main.rs:13469-13503 | equal to PBKDF2 of section 5.2 of RFC 8018 exactly when the length is one the standard allows |
| Password.BlocksRepeat | control-api/src/main.rs:13481-13487 | the truncated block number makes block 2^32 + i equal block i |
| Password.ConstantTimeEq | control-api/src/main.rs:13262-13271 | true exactly for equal byte strings, whatever their lengths |
| Password.HashAdminPassword | control-api/src/main.rs:13439-13449 | refuses exactly the passwords outside 8 to 128 characters and stores scheme, 120000 iterations, salt and a 32-byte digest |
| Password.VerifyAdminPassword | control-api/src/main.rs:13451-13467 | the decision on every stored text, with its error cases |
| Password.AcceptedExactly | control-api/src/main.rs:13451-13467 | a stored text accepts a password exactly when it is scheme, iterations, salt and digest and the digest is the key derived from them; only a text of that scheme and shape can be an error |
| Password.StoredHashVerifies | control-api/src/main.rs:13439-13467 | a stored hash accepts exactly the passwords with the same derived key, always its own |
| ShellCommand.ShellQuote | control-api/src/main.rs:12458-12469 | the quoting loop |
| ShellCommand.QuotedReadsBack | control-api/src/main.rs:12458-12469 | in any context a quoted string reads back as itself, appended to the word it stands in |
| ShellCommand.QuotedIsOneWord | control-api/src/main.rs:12458-12469 | any string, quoted, is one word: that string |
| ShellCommand.PushOption | control-api/src/main.rs:12437-12455 | an option and its quoted value add exactly two arguments |
| ShellCommand.BuildBootstrapInstallCommand | control-api/src/main.rs:13513-13549 | the shell reads the command as curl piped to a root shell with exactly the intended arguments, for arbitrary strings |
| ShellCommand.BuildRemoteBootstrapInstallCommand | control-api/src/main.rs:12414-12456 | the same for the command sent over SSH, with and without sudo |
| TaskQueue.TaskTable.InsertAdminNodeTask | control-api/src/main.rs:10217-10246 | a new pending row with the given task and message under a new id; nothing else changes |
| TaskQueue.TaskTable.ClaimNextNodeTask | control-api/src/main.rs:10400-10446 | claims the least pending id of the node, or finds none exactly when there is none; nothing else changes |
| TaskQueue.TaskTable.UpdateNodeTaskResult | control-api/src/main.rs:10686-10744 | stores a result exactly for an open row of that node and a known status: succeeded or failed as posted, the error only when failed, message and output trimmed and cut; every other row is unchanged |
| TaskQueue.ClaimsIncrease | control-api/src/main.rs:10400-10446 | a node's claims come in strictly increasing id order |
| TaskQueue.ExecutedAtMostOnce | node-core/src/control_plane.rs:541-619 | a task is executed at most once, by its own node, after it was claimed, however many messages are lost |
| TaskQueue.RunningForeverExactly | control-api/src/main.rs:10400-10446 | a running row stays running in every continuation of the run exactly when the response to its claim was lost, or it was executed and every result posted for it was lost |
| TaskQueue.RowsHoldReportedStatus | control-api/src/main.rs:10701-10732 | in every run a row has succeeded (failed) exactly when the server stored in it a result its node posted with that status |
| TaskQueue.RowsOnlyAdvance | control-api/src/main.rs:10711-10744 | a status never goes back and a finished row never changes |
| TaskQueue.CreatedIsAccountedFor | control-api/src/main.rs:10217-10246 | created = pending + running + succeeded + failed, and nothing is ever canceled |
| HealthAlerts.BuildNodeHealthAlertSpecs | control-api/src/main.rs:12051-12158 | exactly one spec for every condition that holds, with its severity, and pairwise distinct keys |
| HealthAlerts.AlertTable.UpsertHealthAlert | control-api/src/main.rs:8031-8067 | a new row is open; an existing one takes the new severity and is reopened only when it was resolved |
| HealthAlerts.AlertTable.ResolveMissingHealthAlerts | control-api/src/main.rs:8069-8103 | resolves exactly the rows of that node without a spec |
| HealthAlerts.AlertTable.ReconcileNode | control-api/src/main.rs:8018-8029 | the node's rows follow its conditions and every other row is kept; the table is that after the pass's statements in order |
| HealthAlerts.AlertTable.ReconcileNodeHealthAlerts | control-api/src/main.rs:8018-8029 | the whole pass over the listed nodes when it runs alone, and the sequence of statements it is; `AlertPasses` interleaves such sequences |
| HealthAlerts.AlertTable.UpdateHealthAlertStatus | control-api/src/main.rs:8210-8255 | an administrator's decision changes one status |
| HealthAlerts.ReconciliationIsFixedPoint | control-api/src/main.rs:8018-8103 | unresolved alerts are exactly those due, with the severity due, and reconciling again changes nothing |
| HealthAlerts.DecisionSurvivesWhileDue | control-api/src/main.rs:8041-8056 | over passes that do not overlap, acknowledged and ignored survive exactly while the condition persists |
| HealthAlerts.RowFollowsItsSteps | control-api/src/main.rs:8031-8103 | for every sequence of statements, a row is decided by the steps that concern it, in order |
| AlertPasses.RowsFollowTrace | control-api/src/main.rs:8018-8029 | in every interleaving of passes, failed passes and decisions, the table is that after the committed statements |
| AlertPasses.LastWordDecides | control-api/src/main.rs:8041-8103 | a row is unresolved exactly when a raise, a decision on an existing row or its start left it so and nothing cleared it afterwards |
| AlertPasses.UnresolvedExactly | control-api/src/main.rs:8018-8103 | the same for every run of overlapping passes |
| AlertPasses.DecisionSurvivesExactly | control-api/src/main.rs:8069-8103 | over any interleaving, a decision survives exactly while no committed statement resolves its row |
| AlertPasses.DecisionSurvivesDueReads | control-api/src/main.rs:8018-8029 | a decision survives every run in which each row read of the node, however old, had the condition due |
| AlertPasses.UndisturbedPassRestores | control-api/src/main.rs:8018-8029 | from any state, a pass whose statements are the only ones committed on its node leaves unresolved exactly the alerts due in the row it read |
| AlertPasses.AgreeingPassesSettle | control-api/src/main.rs:8018-8103 | overlapping passes that agree on what is due leave unresolved exactly what is due, in any order |
| AlertPasses.StalePassResolvesDue | control-api/src/main.rs:8018-8029 | from any state, a pass that read the node while a condition was not due can resolve the alert a later pass raised, in a run in which both end |
| CatalogRequest.NormalizeBusinessGameCategories | control-api/src/main.rs:11399-11430 | the loop with its hash set computes the de-duplicated candidates, primary first |
| CatalogRequest.DeduplicatedKeepsFirsts | control-api/src/main.rs:11399-11430 | exactly the first occurrences are kept, in order, no two equal ignoring ASCII case |
| CatalogRequest.NormalizeRules | control-api/src/main.rs:11706-11787 | one rule for each listed, field by field, or the first failing check |
| CatalogRequest.NormalizeRegions | control-api/src/main.rs:11470-11511 | one region for each listed and one rule for each nested, in order, with their own or inherited ids, or the first failing check |
| CatalogRequest.NormalizeBusinessSyncCatalog | control-api/src/main.rs:11452-11530 | accepted exactly when every check of every item passes; then one game, region and rule for each item at whatever place it is nested, in order and no other; a refusal reports the first failing check |
| CatalogRequest.CatalogKeepsEverything | control-api/src/main.rs:11452-11530 | the same of the whole decision as a function |
| CatalogRequest.EveryItemIsListed | control-api/src/main.rs:11452-11530 | the items are as many as the request lists at its four places for rules and two for regions, each with the parents of its place |
| CatalogRequest.RulesInherit | control-api/src/main.rs:11706-11787 | nested rules carry their parents' ids and always have a source and an external id |
| CatalogRequest.RegionsInherit | control-api/src/main.rs:11470-11483 | a rule under a region carries the ids of a region that is listed too |
| CatalogRequest.GamePartInherits | control-api/src/main.rs:11468-11495 | everything nested in a game carries its id |
| CatalogRequest.CatalogRulesHaveKeys | control-api/src/main.rs:11755-11786 | every rule of a normalised catalog can be upserted by key |
| CatalogTables.LastWriteWins | control-api/src/main.rs:9741-9749 | upserts by key: the last write of every key wins, other keys are untouched |
| CatalogTables.UpsertsSync | control-api/src/main.rs:10012-10069 | old rule rows keep their ids and take the last write of their key; each new key gets one row |
| CatalogTables.SyncStoresCatalog | control-api/src/main.rs:9731-9763 | the tables then hold the last mention of every game with its categories, of every region and of every rule key, and everything else as before |
| CatalogTables.SyncIsIdempotent | control-api/src/main.rs:9731-9763 | applying a catalog twice equals once, in every table |
| CatalogTables.RequestSyncIsIdempotent | control-api/src/main.rs:9731-9763 | so does sending the same request twice |
| CatalogTables.CatalogStore.SyncBusinessCatalog | control-api/src/main.rs:9731-9763 | the three loops write exactly the upserts |
| CatalogTables.CatalogStore.UpsertBusinessRouteRule | control-api/src/main.rs:10012-10069 | one upsert on the unique key of source and external id |
| CatalogTables.CatalogStore.UpsertBusinessGame | control-api/src/main.rs:9895-9974 | the game's row, column by column, and its category rows replaced in order |
| CatalogTables.CatalogStore.DeleteNamedRules | control-api/src/main.rs:9774-9803 | deletion by rule id and by external id and source |
| CatalogTables.CatalogStore.DeleteByRegions | control-api/src/main.rs:9805-9833 | deletion of regions with their rules |
| CatalogTables.CatalogStore.DeleteByGames | control-api/src/main.rs:9835-9881 | deletion of games with their rules, regions and categories |
| CatalogTables.CatalogStore.DeleteBusinessCatalog | control-api/src/main.rs:9765-9893 | exactly the selected rows go, and each count is rows before minus rows after even when selectors overlap |

## Left out

- The relay's timeout, which a request may lower or raise to one second, is part of the relay's outcome.
- Sockets, asynchronous runtime, QUIC, HTTP, SSH, systemd, curl, the health server and the dashboard are input and output; a relay or lookup is a nondeterministic outcome.
- HMAC, SHA-256, AES-GCM, random numbers, JSON and TOML text and base64 tables are uninterpreted, with the laws named above.
- Of a JSON reply the model has the kind, the session id or error code, the status and the payload size; its other fields repeat the request, the session, the plan and constants.
- JSON message decoding and the legacy ping are not modelled: a message arrives decoded, or as one that is not a message.
- Poisoned locks are not modelled, and the session store's theorems assume a clock that does not run backwards. The sequence counter's wrap-around at 2^64 is modelled; a debug build would stop there.
- Address text parsing is a parameter; the characters `str::trim` removes are listed, and case folding is ASCII as in the source.
- MySQL collation, time stamps, cascades on node deletion, foreign keys and the order of assignments inside one statement are not modelled; no claim is made about `resolved_at`. Equality of external ids and categories is exact.
- The installer's own defaults, which fill the first configuration file, are not modelled; the protocol's theorems say for every such file whether it works. A torn write of the file is not modelled.
- The command-line client's other requests, the mock backend, log and label texts, the copies of database rows into summaries, candidate scheduling and the checks of administrator forms that catalog, policy and ticket handling do not use are not modelled; no property is claimed of them.
- What a remote task does on the node (restarting a service) and its result text are inputs; the alert pass covers the nodes it is given, which the program limits to 500.
- A NUL character in an install argument, which no shell word can hold, is not treated specially.
- ConfigProtocol.RevisionsAreOrdered: from revision 2^63 - 1 on the file's number is capped, so there the file is tied to some published revision and not to its own number.
- CatalogTables.SyncIsIdempotent: says nothing about the automatic id counter, only about rows.
