# Verified models of the enumscan engine

This project models the self-contained algorithms, concurrent protocols and state machines inside enumscan and
proves what they promise. `dafny verify dfyconfig.toml` checks everything. There is one module per component:

- `DependencyResolver` (with `Digraph`): Kahn's algorithm for the plugin execution order. An error is returned exactly
  when the declared plugins contain a cycle or an undeclared dependency, in whatever order Go yields a map.
- `TcpSweep`, `PortScan`: the producer, workers, channels and wait group of the port sweep as interleaved steps; port
  selection; the shared adaptive timeout.
- `WorkerPool`, `WorkerPoolLimits`: the adaptive worker pool as interleaved steps of `Submit` and the workers, and
  exactly which pools outgrow their maximum.
- `BloomFilter` (with `Powers`): the filter's 64-bit words against a set of indices.
- `InternetChecksum`: RFC 1071 arithmetic in a 32-bit accumulator and the IPv4 header of section 3.1 of RFC 791.
- `CidrExpansion`: byte-wise increment, prefix masks and the bounded enumeration of a block (RFC 4632, RFC 3021).
- `GraphExpansion`: the asset graph and its breadth-first expansion against walks of bounded length.
- `HotReload`: plugin stages as shared heap objects, with verification, promotion and rollback.
- `ProviderSlots`: the reservation step of the per-provider rate limiter.
- `CassandraSupported`, `WebSocketFrames`, `WebSocketWriters`: two byte formats, parsed and written, and concurrent
  writers on one connection.
- `ScanDrift` (with `StringOrder`): the difference of two scans, its texts, and the drift verdict.
- `Identity`: organizations, users, sessions, single sign-on and the bounded audit log.
- `Text`, `ConfigKeys`, `ConfigText`, `EngagementInput`, `ScanProfiles`, `EngagementConfig`, `EngagementRoundTrip`: the
  engagement wizard. Its validators, its document, and the line-based loader that has to read the document back.
- `Basics`: types shared by the others, and joining lists.

Goroutines are modelled as a function `Step(config, state, action)` that gives `None` for an action that is blocked or
not next; `Run` folds it over an arbitrary interleaving, and a misuse that would panic in Go is an explicit flag of the
state. Code that updates fields or buffers in place is a class or a method with loops, proved against a specification.
Clocks, tokens, hash digests, case mapping, address parsing, probe outcomes and scope decisions are parameters.

What the proofs show beyond the documented behaviour:

- Findings of one title on different hosts stay apart in the asset graph as long as no title or no asset has an '@'
  (`GraphExpansion.FindingIDIsInjective`).
- `maxWorkers` is not always a bound of the worker pool. It is exceeded by some interleaving exactly when the pool has
  room to grow and either two submitters, or one submitter and a queue longer than `(maxWorkers - 1) / 2` and at most
  `maxWorkers - (minWorkers + 1) / 2`: a longer queue does not fill up before the maximum is met. No interleaving of k
  submitters goes beyond `maxWorkers - 1 + 2k`, and the queue sizes for which some interleaving gets there are given
  just as exactly (`WorkerPoolLimits`).
- Storing the checksum verifies for buffers of every length, even when the 32-bit accumulator has wrapped around; only
  the accumulator itself is limited, to 131074 bytes.
- The provider schedule is the earliest possible one for arbitrary clocks, not only for nondecreasing ones.
- Over 0.0.0.0/0 the expansion ends exactly when the limit is 0 or the guard allows some address besides 0.0.0.0. It
  then reports the allowed addresses over and over until the limit is reached, so an address is repeated exactly when
  the limit exceeds their number (`CidrExpansion.WholeSpaceRepeats`).
- Of the lists in a scan difference only the two port lists depend on the order in which Go visits a map, and they do
  exactly when one of them has more than one port (`ScanDrift.PortListsAreDetermined`).
- A client may get one WebSocket message more than its server was told it sent, and never any other one: the last
  message in lock order, when the write that completes its frame fails (`WebSocketWriters.Unreported`).
- Promoting a plugin can make a stage active under a name that is not its own exactly when `name:version` has another
  colon with something on both sides (`HotReload.Ambiguous`).
- Registering a local user keeps emails unique within a tenant exactly when the normalized email is new there.
- A quoted text survives writing and loading exactly when it has no '#' and no quote at its ends; what follows a '#'
  is lost without an error.
- A loaded engagement file does not always keep the module plan that was built: the three profiles without the http
  family gain it (`EngagementRoundTrip.PlanIsKept`).

## Model

| member | source | states |
|---|---|---|
| DependencyResolver.ResolveExecutionOrder | internal/plugin/dependency.go:18-58 | An error exactly when there is a dependency cycle or an undeclared dependency; otherwise every declared name once, each dependency before its dependants. For every map order, with duplicates allowed |
| DependencyResolver.BuildGraph | internal/plugin/dependency.go:19-30 | The in-degree map has exactly the declared names and counts dependency occurrences; the graph lists dependants with multiplicity |
| DependencyResolver.InitialQueue | internal/plugin/dependency.go:32-37 | Whatever the map order, the queue holds exactly the names with in-degree 0, each once |
| DependencyResolver.Release | internal/plugin/dependency.go:45-50 | After releasing a processed name, every in-degree again counts the occurrences of unprocessed dependencies, and exactly the names at 0 have been queued |
| DependencyResolver.PendingStep | internal/plugin/dependency.go:45-46 | Processing a name lowers each pending count by the number of its recorded occurrences as a dependant |
| DependencyResolver.LeftoverIsStuck | internal/plugin/dependency.go:53-55 | With an empty queue and all dependencies declared, each left-over name depends on another left-over name |
| DependencyResolver.Outcome | internal/plugin/dependency.go:53-57 | The final length comparison decides cycle or undeclared dependency against a complete order |
| DependencyResolver.OrderRulesOutErrors | internal/plugin/dependency.go:53-57 | An execution order exists only for acyclic, fully declared graphs, so errors are never spurious |
| Digraph.StuckSetHasCycle | internal/plugin/dependency.go:53-55 | Pigeonhole: a non-empty set in which everything has a successor contains a cycle |
| Digraph.OrderRulesOutCycles | internal/plugin/dependency.go:39-57 | A duplicate-free order that puts successors first rules out cycles |
| TcpSweep.SweepIsSafe | internal/modules/portscan.go:84-121 | In every interleaving, with cancellation at any point: no send on or double close of a channel, no worker blocks on a result, and at most min(MaxConcurrentPorts, ports) probes in flight |
| TcpSweep.ProbesRunTogether | internal/modules/portscan.go:84-99 | That bound is met: some interleaving has min(MaxConcurrentPorts, ports) probes in flight |
| TcpSweep.RunConservesPorts | internal/modules/portscan.go:96-121 | In every interleaving the ports held, waiting or collected are, with multiplicity, exactly those handed out |
| TcpSweep.RunConservesResults | internal/modules/portscan.go:96-121 | In every interleaving, whatever the probes reported is, unchanged and with its multiplicity, about to be sent, in the channel or collected; what they reported is read off the run |
| TcpSweep.RoomForSender | internal/modules/portscan.go:88-99 | The result channel always has room for a worker that wants to send |
| TcpSweep.RunsAreBounded | internal/modules/portscan.go:98-121 | Every interleaving is finite, with an explicit bound on its number of steps |
| TcpSweep.NeverStuck | internal/modules/portscan.go:98-121 | Until the collector is done, some goroutine can move without a cancellation, and after one without handing out a port |
| TcpSweep.CanFinish | internal/modules/portscan.go:103-121 | Every partial run extends to a finished one; after a cancellation without handing out another port |
| TcpSweep.CanStop | internal/modules/portscan.go:103-121 | Every partial run can be cancelled and then finishes without handing out another port |
| TcpSweep.SweepResult | internal/modules/portscan.go:103-122 | The sorted results are strictly ascending and are exactly the results of the finished probes of the run, one for each port handed out: all ports without cancellation, a prefix of them otherwise |
| PortScan.UniquePorts | internal/modules/portscan.go:403-414 | First occurrences of the valid ports, in order, without duplicates |
| PortScan.ResolveTCPPorts | internal/modules/portscan.go:367-383 | An override gives its valid ports once each, in order; otherwise every port from 1 to 65535 or the table of the profile, all valid and free of duplicates |
| PortScan.ScanTiming.Observe | internal/modules/portscan.go:203-225 | The new timeout and failure counter are those of the timing step that the next rows characterize |
| PortScan.TimeoutStaysInBounds | internal/modules/portscan.go:203-227 | From a positive timeout at most max, any sequence of observations keeps it so |
| PortScan.SuccessResets | internal/modules/portscan.go:206-217 | After a success, whatever was observed before it, the timeout is four times its latency, at least 250 ms and at most the maximum, and the failure counter is 0 |
| PortScan.ConsecutiveFailures | internal/modules/portscan.go:218-224 | n failures from timeout t and counter f leave min(max, t * 2^(floor((f+n)/25) - floor(f/25))) |
| WorkerPool.NewConfig | internal/engine/performance.go:31-55 | Whatever the arguments, the pool starts with at least one worker, at least as many allowed, and a queue; acceptable arguments are kept and the others replaced by the processors, four times the minimum, and 1000 |
| WorkerPool.WorkerBound | internal/engine/performance.go:57-106 | In every interleaving of k submitters before Stop, the workers number at least minWorkers and at most maxWorkers - 1 + 2k |
| WorkerPoolLimits.MaximumIsExceeded | internal/engine/performance.go:80-106 | For every pool: some interleaving has more than maxWorkers workers if and only if minWorkers is below maxWorkers and there are two submitters, or one and a queue size in an interval given by the two bounds |
| WorkerPoolLimits.BoundIsReached | internal/engine/performance.go:80-106 | For every pool: some interleaving has maxWorkers - 1 + 2k workers if and only if minWorkers is below maxWorkers and the queue size is in an interval given by the two bounds and k |
| WorkerPoolLimits.LongQueueKeepsMaximum | internal/engine/performance.go:87-101 | With one submitter, bounds 1 and 2 and a queue of 2 the maximum is never exceeded, although the queue is longer than half the workers |
| WorkerPool.JobsAreConserved | internal/engine/performance.go:66-106 | Each job that the run submits is, with its multiplicity, still inside Submit, queued, executing on a worker or in its caller, or finished, in every interleaving |
| WorkerPool.FirstInFirstOut | internal/engine/performance.go:57-101 | In every interleaving workers take the jobs in the order in which they were sent to the queue |
| WorkerPool.EveryJobCanFinish | internal/engine/performance.go:57-106 | From every reachable state the pool can settle, and then each job has finished exactly as often as it was submitted |
| WorkerPool.BlockedPushIsServed | internal/engine/performance.go:98-101 | The blocking send after a transient spawn can be served within two worker steps |
| BloomFilter.Filter.constructor | internal/engine/performance.go:145-154 | A new filter is empty and has a word for each index, up to the largest size whose rounding does not wrap |
| BloomFilter.Filter.Add | internal/engine/performance.go:162-170 | The set of present indices grows by exactly the digests of the item with the seeds 1, 2 and 3 modulo the size; all word accesses are in range |
| BloomFilter.Filter.Contains | internal/engine/performance.go:172-183 | True exactly when the item's indices lie in the union of those of all added items; so never false for an added item |
| BloomFilter.EveryIndexHasAWord | internal/engine/performance.go:149-153 | Every index has a word if and only if the size is at most 2^64 - 64 |
| BloomFilter.BitOfOr | internal/engine/performance.go:168 | Or on numbers sets exactly the bits of either operand |
| BloomFilter.AndWithPow2 | internal/engine/performance.go:178 | And with a single bit is nonzero exactly when the bit is set |
| InternetChecksum.CalculateChecksum | internal/modules/raw_scanner.go:434-446 | The two loops compute the complement of the folded 32-bit word sum |
| InternetChecksum.WorkedExample | internal/modules/raw_scanner.go:434-446 | The example of section 3 of RFC 1071 |
| InternetChecksum.OddIsPadded | internal/modules/raw_scanner.go:439-441 | An odd last byte counts as if a zero byte followed |
| InternetChecksum.FoldMeaning | internal/modules/raw_scanner.go:442-444 | The folding loop ends, and computes the remainder modulo 65535 with 65535 in place of 0 for positive sums |
| InternetChecksum.AccumulatorSuffices | internal/modules/raw_scanner.go:435-441 | No buffer of n bytes overflows the 32-bit sum if and only if n is at most 131074 |
| InternetChecksum.FilledFieldVerifies | internal/modules/raw_scanner.go:429-430 | Storing the checksum in a zeroed aligned field makes the checksum of the whole buffer 0 |
| InternetChecksum.OneWordChange | internal/modules/raw_scanner.go:434-446 | A verifying buffer still verifies after a change of one aligned word if and only if the word is unchanged or trades 0x0000 and 0xffff, and the buffer does not become all zero |
| InternetChecksum.BuildIPHeader | internal/modules/raw_scanner.go:416-432 | Decoded by section 3.1 of RFC 791, every header has version 4, 5 words, the total length modulo 2^16, identification 54321, time to live 64, the protocol, the checksum of the header with this field zero, and the two addresses, or zeros for one that is not IPv4; and it verifies |
| CidrExpansion.NextIP | internal/modules/discovery.go:283-292 | A fresh array holding the successor; the argument is unchanged |
| CidrExpansion.SuccessorAddsOne | internal/modules/discovery.go:283-292 | The carry chain is +1 modulo 256^n |
| CidrExpansion.BlockIsInterval | internal/modules/discovery.go:78 | Byte-wise containment under the mask is membership in an interval of 2^(host bits) numbers |
| CidrExpansion.SkipsEndpoints | internal/modules/discovery.go:173-186 | For prefixes from 1 the skipped members are exactly the network and broadcast addresses of IPv4 blocks of /30 and shorter |
| CidrExpansion.ExpandCIDR | internal/modules/discovery.go:75-97 | For prefixes from 1 it ends, and lists in ascending order, without repeats, exactly the first CIDRMaxHosts allowed addresses that are no endpoints; truncation is noted exactly when the limit was reached |
| CidrExpansion.WholeSpaceTermination | internal/modules/discovery.go:78-85 | Over 0.0.0.0/0 the loop ends if and only if the limit is 0 or the guard allows an address besides 0.0.0.0 |
| CidrExpansion.WholeSpaceOutput | internal/modules/discovery.go:78-91 | Over 0.0.0.0/0 the finished output is the list of allowed addresses besides 0.0.0.0, in order, repeated cyclically up to the limit |
| CidrExpansion.WholeSpaceRepeats | internal/modules/discovery.go:78-91 | Over 0.0.0.0/0 the finished output has a repetition if and only if the limit exceeds the number of allowed addresses besides 0.0.0.0 |
| CidrExpansion.AllowedAreListed | internal/modules/discovery.go:78-91 | Such a list of the allowed addresses exists for every guard |
| GraphExpansion.BuildAssetGraph | internal/api/server.go:1174-1200 | Nodes are exactly the non-empty ids of assets, parents and findings, each with the type that the last finding or else the last asset with this id gives it; edges are, with multiplicity, one from parent to asset and one from asset to finding |
| GraphExpansion.FindingIDsAgree | internal/api/server.go:1190 | Two findings have one id if and only if title, '@' and asset make the same text |
| GraphExpansion.FindingIDIsInjective | internal/api/server.go:1190 | If no title or no asset has an '@', only equal findings have one id |
| GraphExpansion.FindingsKeepHostsApart | internal/api/server.go:1177-1194 | A host that is in no containment is connected to its own findings only, at any distance, so never to another host with findings of the same titles |
| GraphExpansion.EdgesJoinNodes | internal/api/server.go:1177-1194 | Every edge joins two nodes if and only if contained assets have a value and findings an asset |
| GraphExpansion.Explore | internal/api/graph_interactive.go:124-145 | After d rounds the expanded ids are exactly those within undirected distance d, and the level exactly those at distance d, each once |
| GraphExpansion.RoundWidens | internal/api/graph_interactive.go:134-145 | An id is within distance d + 1 exactly when it is in the ball of radius d or next to an id of the sphere of radius d |
| GraphExpansion.ExpandNode | internal/api/graph_interactive.go:118-159 | The result is the subgraph induced by the ball, edges with their multiplicity; both ends are returned whenever the graph's edges join its nodes |
| GraphExpansion.HandleGraphExpand | internal/api/graph_interactive.go:92-159 | The request as a whole: refused for a blank node id; otherwise depth 1 to 3, which is 1 unless the text says otherwise, and the induced ball in the graph of assets and findings, edges with their multiplicity. A returned edge has both end nodes if and only if neither end is empty, which holds for all when contained assets have a value and findings an asset |
| HotReload.Manager.RegisterDiscoveredPlugin | internal/plugin/hot_reload.go:62-84 | A fresh registered stage filed under its key, or an error for a blank name or version |
| HotReload.Manager.VerifyPluginStage | internal/plugin/hot_reload.go:87-107 | The staged stage passes verification, or nothing changes |
| HotReload.Manager.PromoteToActive | internal/plugin/hot_reload.go:111-142 | Exact outcome, maps and states. A stage filed under a name that is not its own only if the key is ambiguous, never among names without colons; the invariant (active and rollback stages passed verification, a rollback entry has an active counterpart of another version, only the active stage of a name is in state active) is kept if and only if the promoted stage has the name |
| HotReload.Manager.Rollback | internal/plugin/hot_reload.go:145-166 | Exact outcome, maps and states; keeps the same invariant |
| HotReload.Manager.PromoteThenRollback | internal/plugin/hot_reload.go:111-166 | Promotion over an active stage followed by a rollback restores the earlier active pointer and leaves nothing to roll back to |
| HotReload.KeyIsInjective | internal/plugin/hot_reload.go:70 | Names without a colon make the staging key unambiguous |
| HotReload.PromoteForeignStage | internal/plugin/hot_reload.go:62-142 | For every ambiguous name and version a run of three calls makes a stage active under a name that is not its own: the other half of the exact condition |
| HotReload.SharedKeyIsAmbiguous | internal/plugin/hot_reload.go:70 | Two plugins with different names share a key only if the key splits at another colon into a name and a version that are not blank |
| HotReload.ColonInNameIsAmbiguous | internal/plugin/hot_reload.go:70 | A colon behind a part of the name that is not blank makes the key ambiguous, whatever the version |
| ProviderSlots.RateLimiter.WaitForProvider | internal/modules/passive_intel.go:119-134 | The reservation step gives the earliest start after the clock and one interval after the provider's last start |
| ProviderSlots.StartsAreSpaced | internal/modules/passive_intel.go:128-134 | In every interleaving starts of one provider are at least the interval apart and no start precedes its caller's clock |
| ProviderSlots.ScheduleIsEarliest | internal/modules/passive_intel.go:128-134 | Any other schedule with that spacing in arrival order starts every caller no earlier |
| ProviderSlots.ProvidersAreIndependent | internal/modules/passive_intel.go:125-134 | Dropping the other providers' reservations leaves a provider's schedule as it is |
| CassandraSupported.CassandraSupportedCapabilities | internal/modules/specialized.go:1139-1188 | On any bytes no access is out of range, and the result is the record of the entries that can be read |
| CassandraSupported.TruncationKeepsWholeEntries | internal/modules/specialized.go:1139-1188 | Any truncation of a string multimap yields exactly the last-writer-wins record of the entries that lie wholly inside it (sections 3 and 4.2.4 of the CQL binary protocol v4) |
| CassandraSupported.CompleteMessageIsRead | internal/modules/specialized.go:1139-1188 | A complete message yields the record of all its entries, whatever bytes follow |
| CassandraSupported.LastWriterWins | internal/modules/specialized.go:1161-1187 | A key has the comma-separated values of the last entry that writes it |
| CassandraSupported.OnlyWrittenKeys | internal/modules/specialized.go:1184-1186 | A key that no entry writes, or only entries without values, is not there |
| CassandraSupported.TooManyEntries | internal/modules/specialized.go:1156-1160 | More than 64 announced entries are refused as a whole |
| CassandraSupported.TooManyValues | internal/modules/specialized.go:1168-1170 | An entry with more than 32 values ends the parse, and what was read before it stays |
| WebSocketFrames.HeaderIsRead | internal/api/websocket.go:27-44 | For every 63-bit length the header carries that length in one of the three forms of section 5.2 of RFC 6455 |
| WebSocketFrames.WSConnection.WriteTextFrame | internal/api/websocket.go:23-51 | Two writes without an error add exactly one frame to the stream |
| WebSocketWriters.ReceiverGetsSentMessages | internal/api/websocket.go:23-51 | In every interleaving of writers on the mutex, with header and payload as separate writes that may fail after any number of bytes, the receiver has at any time exactly the messages whose writers were told of success, in lock order and with none left out in between, and at most one more: the next in lock order, when its frame is complete although the write failed or, for an empty message, is still to be made |
| WebSocketWriters.MessagesAreConserved | internal/api/websocket.go:23-51 | In every interleaving each message of a call is, with its multiplicity, still inside the call, sent, or one for which a write returned an error |
| WebSocketWriters.EveryMessageCanArrive | internal/api/websocket.go:23-51 | As long as no write failed, all calls can return, and then the receiver has each message exactly as often as it was called for |
| WebSocketFrames.FrameIsReceived | internal/api/websocket.go:30-50 | A decoder that refuses length forms longer than needed gets back exactly the payload, whatever follows |
| WebSocketFrames.PrefixIsReceived | internal/api/websocket.go:23-51 | After any number of bytes exactly the messages whose frames are complete have been received, in order |
| WebSocketFrames.ConnectionDelivers | internal/api/websocket.go:23-51 | Decoding the connection's stream returns exactly the messages in lock order |
| ScanDrift.SetDifference | internal/inventory/differential.go:181-190 | Exactly the elements of the first set that are not in the second, each once, sorted |
| StringOrder.AtMostMeaning | internal/inventory/differential.go:188 | The order of the sorted lists is that of the first difference, a prefix first |
| StringOrder.SortedIsUnique | internal/inventory/differential.go:188 | Lists of the same elements with the same multiplicities sort to one list |
| ScanDrift.SameSet | internal/inventory/differential.go:180 | Equal sizes and nothing missing is equality of sets |
| ScanDrift.SetLabel | internal/inventory/differential.go:191-198 | The sorted values joined by commas, whatever the map order |
| ScanDrift.ChangedParentValues | internal/inventory/differential.go:113-147 | The sorted texts of exactly the parents whose value sets differ, each naming both sets, with one text per parent even where texts coincide |
| ScanDrift.FindingSetDiff | internal/inventory/differential.go:148-170 | Lists exactly the new and the removed finding keys, each once, sorted |
| ScanDrift.CompareScanRuns | internal/inventory/differential.go:200-235 | Exactly the ports that are open in one scan only, each once, in any order |
| ScanDrift.Compare | internal/inventory/differential.go:35-43 | The eight lists are exactly the differences of the six projections, all but the two port lists sorted |
| ScanDrift.ListsAreDetermined | internal/inventory/differential.go:98-198 | The host, service, certificate, technology and finding lists do not depend on the order in which maps are visited |
| ScanDrift.PortListsAreDetermined | internal/inventory/differential.go:200-235 | The port lists do not depend on the order in which maps are visited if and only if at most one port was opened and at most one closed |
| ScanDrift.DetectDrift | internal/inventory/timeline.go:132-163 | One text per listed change, list after list, and drift is detected exactly when some projection differs |
| ScanDrift.EmptyDifference | internal/inventory/timeline.go:132-163 | No drift item if and only if all six projections agree |
| ScanDrift.DifferencePatches | internal/inventory/differential.go:98-235 | Removing the removed, adding the new and replacing the values of the parents in the texts turns the baseline into the current scan, for all six projections |
| ScanDrift.DifferenceSwaps | internal/inventory/differential.go:98-235 | Comparing the other way round swaps new with removed and before with after |
| Identity.IdentityManager.CreateOrganization | internal/api/identity.go:54-79 | A named organization is filed under its id, replacing one exactly when the id and the suffixed id are taken; the invariant over all runs is kept |
| Identity.IdentityManager.CreateTeam | internal/api/identity.go:92-111 | Teams belong to existing organizations; the event is recorded |
| Identity.IdentityManager.CreateUser | internal/api/identity.go:113-147 | Accepted exactly for an existing organization and an email with '@'; the whole user and the event; emails unique within tenants stay so if and only if the normalized email is new in the tenant |
| Identity.IdentityManager.CreateSession | internal/api/identity.go:149-171 | One fresh session with the given or the default lifetime, and a login event |
| Identity.IdentityManager.ValidateSession | internal/api/identity.go:173-187 | Valid exactly when issued, not revoked, not expired and of an active user; never after a revocation |
| Identity.IdentityManager.RevokeSession | internal/api/identity.go:189-201 | Only this session changes, every revoked token stays revoked, and a logout event is recorded |
| Identity.IdentityManager.ValidateOIDCClaims | internal/api/identity.go:204-266 | Accepted exactly for acceptable claims; signs on a user of that email and tenant, or provisions one when there is none, with its role, name and organization; emails stay unique |
| Identity.IdentityManager.ValidateSAMLAssertion | internal/api/identity.go:269-311 | The same for assertions, so sign-on alone never makes two users with one email and tenant |
| Identity.IdentityManager.EnforceTenantIsolation | internal/api/identity.go:314-325 | Refused, and audited, exactly for two different named tenants |
| Identity.IdentityManager.RecordAudit | internal/api/identity.go:327-344 | The log is exactly the last at most 1000 of all events ever recorded, in order |
| Identity.IdentityManager.AuditLogs | internal/api/identity.go:346-361 | The newest matching events of those, newest first, up to the limit |
| Identity.CollectNewest | internal/api/identity.go:350-360 | The backwards loop collects the first n of the matching events, newest first |
| Identity.NewUser | internal/api/identity.go:131-144 | One user more keeps emails unique if and only if nobody in the tenant has this email |
| Identity.RegisterTwice | internal/api/identity.go:113-147 | Every accepted registration can be repeated, which ends uniqueness |
| EngagementInput.ValidateEngagementTarget | internal/config/engagement.go:395-420 | The nested loops compute what the next row characterizes |
| EngagementInput.TargetMeaning | internal/config/engagement.go:395-420 | The trimmed text is accepted if and only if it has none of the twelve characters and no "://", and is an address, a network, or labels of 1 to 63 bytes with dots between them, of at most 253 bytes; it becomes the canonical address or network or the lower-case name |
| EngagementInput.TargetIsHarmless | internal/config/engagement.go:395-420 | An accepted target is not empty and has no quote, '#', comma, white space or underscore |
| EngagementInput.ValidateAuthorizationReference | internal/config/engagement.go:422-433 | The loop computes what the next row characterizes |
| EngagementInput.ReferenceMeaning | internal/config/engagement.go:422-433 | The trimmed text is accepted if and only if it has 1 to 256 bytes, only letters, digits and the five other characters, and no placeholder prefix; it is kept unchanged |
| EngagementInput.AuthorizationIsHarmless | internal/config/engagement.go:422-433 | An accepted reference has no quote, '#', comma or white space |
| ConfigKeys.KeyIsFound | internal/config/config.go:336-926 | Every modelled key is assigned under its own section and name |
| ConfigText.ParseList | internal/config/config.go:936-947 | The loop trims and unquotes every part of the list |
| ConfigText.ParseInts | internal/config/config.go:949-960 | The loop reads all items as integers or fails |
| ConfigText.ValueIsRead | internal/config/config.go:115-116 | Reading a written value gives it back: texts, integers, switches, lists of names and of ports |
| ConfigText.EntryIsRead | internal/config/config.go:74-118 | A written line assigns exactly its value to exactly its key and marks the key explicit |
| ConfigText.TextIsRead | internal/config/config.go:74-118 | A line with any text between quotes is read without an error, as the text before the first '#', trimmed |
| ConfigText.TextSurvives | internal/config/config.go:74-118 | A one-line text is read back as itself if and only if it has no '#' and is empty or has no quote at its ends |
| ConfigText.LoadLines | internal/config/config.go:70-119 | The loop over the lines, with its section, values and explicit keys, computes what reading the lines one after the other gives, or the first error |
| ConfigText.OtherLineMeaning | internal/config/config.go:74-84 | Blank lines and comments change nothing, headers only the section |
| ConfigText.EntryLineMeaning | internal/config/config.go:81-118 | Any other line is refused unless it stands in a section and has a known key before its first colon and a value of the key's kind behind |
| EngagementConfig.MergeModulePlan | internal/config/profiles.go:123-151 | In whatever order the explicit keys are visited, the plan is the profile's families and those of the keys, in the fixed order |
| EngagementConfig.FamiliesMeaning | internal/config/profiles.go:130-143 | A family is pulled in by exactly the explicit keys of its section, and portscan also by scan.ports |
| EngagementConfig.ProfileIsApplied | internal/config/profiles.go:94-121 | Every setting after a profile: explicit choices win, the others take the profile's value |
| EngagementConfig.Load | internal/config/config.go:65-136 | The method loads exactly what the specification of the next row and of the round trip loads: lines, profile with its merged plan, placeholder checks, validation |
| EngagementConfig.LoadedExactly | internal/config/config.go:65-136 | A document loads if and only if its lines can be read, its profile is blank or known, its scope and targets are there and no placeholders, its authorization is neither blank nor a placeholder, its numbers are in range and it makes no choice that needs other settings |
| ScanProfiles.ProfileRoundTrip | internal/config/profiles.go:188-210 | Each built-in profile is found again under the name that is written for it |
| ScanProfiles.FindProfileMeaning | internal/config/profiles.go:188-210 | A text names a profile if and only if, trimmed and up to case and hyphens or blanks for underscores, it is the name or an alias of the profile |
| ScanProfiles.PlanMembers | internal/config/profiles.go:144-150 | A plan lists exactly the wanted families |
| ScanProfiles.PlanIsRanked | internal/config/profiles.go:144-150 | A plan is in the fixed order, each family at most once |
| EngagementRoundTrip.SettingsAreBuilt | internal/config/engagement.go:279-299 | Every setting of a built configuration |
| EngagementRoundTrip.BuildSucceeds | internal/config/engagement.go:269-304 | Building succeeds exactly when target, reference and profile are accepted; validation never refuses the result |
| EngagementRoundTrip.AcceptedExactly | internal/config/engagement.go:269-304 | Building succeeds if and only if the trimmed target and reference are of the accepted form and the profile is blank or names a built-in one |
| EngagementRoundTrip.DocumentIsRead | internal/config/config.go:70-119 | The loader reads the whole document into exactly the written keys with their values |
| EngagementRoundTrip.RenderThenLoad | internal/config/engagement.go:308-366 | For all accepted input the document loads: the trimmed reference comes back unchanged, scope and scan targets are the canonical address or network or the lower-case name of the trimmed target, every other setting is the built one or a constant of the document, and the plan is the built one united with discovery, portscan and http |
| EngagementRoundTrip.LoadedIsNonDestructive | internal/config/engagement.go:267-366 | The loaded configuration has one allowed target, which is its scan target, and of all modelled switches exactly the ten of plain enumeration are on |
| EngagementRoundTrip.RenderIsStable | internal/config/engagement.go:308-366 | The loaded configuration renders to the same document |
| EngagementRoundTrip.PlanIsKept | internal/config/profiles.go:123-151 | Loading keeps the built plan if and only if the profile is none of quick, internal_network and active_directory |

## Left out

- Sockets, HTTP, DNS, TLS, raw packets, files, the database, Lua and gRPC runtimes: I/O; probe outcomes and scope
  decisions are arbitrary inputs.
- Widths of Go integers where they cannot be reached in practice: the failure counter and durations of the scan timing,
  the worker counter, and times are unbounded integers. The checksum, the Bloom filter and the parsers model theirs.
- Real time: clocks are arguments; `WaitForProvider` ends with the reservation and leaves out the waiting that follows,
  and retries, which bypass it.
- DependencyResolver.ResolveExecutionOrder: the input is a sequence of nodes; the error's text is left out.
- TcpSweep.SweepResult: takes any sorted permutation of the results; the sort itself belongs to the Go library.
- ScanDrift.DifferencePatches: the texts of changed parents are those of changes that patch the baseline; they need not
  say which, as a name or a value may contain the separators. `Markdown` and `WriteChangeReport` are left out.
- WorkerPool.JobsAreConserved: runs before `Stop`; jobs finish and submit no jobs themselves.
- BloomFilter.Filter.Add: the SHA-256 digest is an arbitrary function and the filter's lock is not modelled.
- CidrExpansion.ExpandCIDR: prefix 0 is treated apart by `WholeSpaceTermination` and `WholeSpaceRepeats`, for IPv4
  only. IPv4-mapped IPv6 addresses are not told apart: networks written in that form are left out, and so is the stop
  of the loop at ::ffff:0:0 in the blocks ::/1 to ::/80, where Go no longer counts the address as a member.
- WebSocketFrames.WSConnection.WriteTextFrame: one call without errors; the mutex, the two separate writes and their
  errors are in `WebSocketWriters`, where a connection lets nothing through after a failed write, as no write deadline
  is ever set.
- CassandraSupported.CassandraSupportedCapabilities: upper-casing and evidence cleaning are arbitrary functions.
- Identity.IdentityManager.CreateUser: identifiers and tokens are arguments that must be fresh, in place of random ones.
- `ScanCache`, `boundedWriter`, `ValidateFindingStateTransition`: each has a property over runs (a purge is invisible to
  later lookups, the buffer is a prefix of the whole write stream, verified is reached through confirmed and
  remediated), but an easy one beside the others.
- `reserveTarget`, `encodeOID`: small helpers without a hard property.
- ConfigKeys.KeyIsFound: covers the keys of the document and two more, of the roughly 130 keys of the source.
- EngagementConfig.Load: knows the 37 keys of the document and `portscan.tcp_ports` and `scan.ports`; it reports every
  other key as unknown, and `Validate` checks the settings of these keys while all others keep their valid defaults.
  `scan.custom_profile` and the flag that a profile was applied are left out, and errors carry no line number.
- EngagementRoundTrip.RenderThenLoad: the text of the document's leading comment lines is arbitrary; letters, digits
  and case mapping of Unicode and the canonical address texts of the net package enter through `Lawful`.
- Templates, plan previews, dependency checks, fingerprint tables, provider catalogs, dashboards and reports: lookup
  data and text.
