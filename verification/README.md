# Capture core: a Dafny model

This project models the parts of WutherCore where correctness depends on more than one
function: the capture supervisor's lifecycle, the routes compiled for the Android VPN
service, the TCP NAT of the system stack, the concurrent flow table, the API's snapshot
cache and rate limiter, the rollback ledger, the TPROXY command lists, the frame codec and
its cache, and the civil-date arithmetic. Each part is written in the form of its source:
objects whose methods update fields are classes, protocols are state machines over their
atomic steps, pure code is functions. `dafny verify dfyconfig.toml` checks everything.

| part | files |
|---|---|
| supervisor lifecycle | `SupervisorResources`, `Supervisor`, `SupervisorSafety`, `SupervisorRecovery`, `SupervisorStart` |
| CIDR compilation | `Dyadic`, `Sets`, `CidrCover`, `Addresses`, `AndroidVpnConfig` |
| TCP NAT and packet rewriting | `Wrappers`, `Bytes`, `Checksum`, `TcpNat`, `SystemStack` (with `Packet`) |
| concurrent flow table | `NatTable`, `NatTableRuns`, `NatTableCalls` |
| snapshot cache | `CompatCache` |
| rate limiter | `RateLimiter`, `RateLimiterForgetting`, `RateLimiterWindow` |
| route ledger | `RouteTable` |
| frames, packets and the format cache | `Packet`, `UdpForwarder`, `FrameCache` |
| TPROXY rules | `Firewall`, `TproxyRules`, `TproxyCleanup`, `TproxyInstall`, `TproxyTraffic` |
| dates | `CivilDate`, `Iso8601` |

Clock readings, answers of the platform and of the engine, results of builds and the order
in which a hash map is walked are parameters or nondeterministic choices, so every statement
holds for all of them.

## Where the code does less than it says

All but the last are proved in both directions, with the failing family shut out by a
condition a caller can check.

- The scan of `TcpNat::lookup` promises to try every port. It does so exactly if the
  cursor lies in 30000..60000 (`ScanCoverage`, `RefusalMeansFull`); `RefusedWithAPortFree`
  is a run from the empty table that is refused with a port free.
- A failing crash-recovery guard drops the transaction with the socket mark installed. A
  stopped supervisor can have leaked its lease exactly if both a lease and crash recovery
  were asked for (`LeakCondition`), and then never starts an engine again
  (`LeakBlocksEveryStart`).
- A start dropped before it touched the platform publishes Stopped before its DNS listeners
  are destroyed. A run can be stopped with listeners held, and can start again while they
  are, exactly if the plan has two listeners, or one and a mark or a recovery guard to fail
  at (`LeftoverCondition`).
- `invalidate` says the next fetch rebuilds. It does exactly if no build is in flight, or
  the cache has a zero `ttl` (`InvalidateForcesRebuild`).
- Collecting idle buckets is invisible exactly if a bucket refills within the 30 seconds
  before it is forgotten, or nothing is ever admitted (`ForgettingIsInvisible`). The same
  condition decides whether a window of T seconds admits at most burst + rate * T requests
  of an address (`WindowBoundExactly`); the server's own limits meet it (`ServerIsBounded`).
- A network with host bits set is compiled from its address on. A single route is compiled
  exactly if it has none, or is the IPv4 default (`SingleRouteExactness`); a single
  exclude exactly if it has none (`SingleExcludeExactness`).
- The routes handed to VpnService agree with the plan's own predicates exactly where no
  loopback address is routed: the predicates refuse those, the routes keep them
  (`PolicyAgreementExactly`).
- `civil_from_days` names the calendar's day exactly if the year is a 32-bit number
  (`CivilIsCalendar`).
- Flow ids wrap after 2^64 allocations. Up to that number the flow table is consistent
  (`RunKeeps` of `NatTableRuns`); `WrappedIdCollides` shows that the bound cannot be raised.

## Model

| member | source | states |
|---|---|---|
| SupervisorResources.Bundle.Shutdown | crates/core-capture/src/supervisor.rs:181-248 | for every pair of engine answers, exactly what is left: a failing `pre_stop` leaves all but the tasks, a failing `stop` leaves lease, listeners and guard for the retry, success leaves nothing and restores the mark |
| SupervisorResources.ProgressStep | crates/core-capture/src/supervisor.rs:111-121 | each step of the cleanup order, from the closed form of the teardown so far to the next one |
| Supervisor.BuildKeeps | crates/core-capture/src/supervisor.rs:621-904 | every stage of a start, succeeding or failing, keeps the bundle consistent with the platform state |
| Supervisor.RunStepKeeps | crates/core-capture/src/supervisor.rs:181-248 | every step of a teardown keeps it, so that an interrupted teardown can be retried |
| Supervisor.WaiterKeeps | crates/core-capture/src/supervisor.rs:541-613 | every step of a waiting caller keeps the invariant: registering, reading the lifecycle, sleeping, and a compare-exchange, which if it wins makes the one active task and hands it the one bundle |
| Supervisor.CancelKeeps | crates/core-capture/src/supervisor.rs:376-428 | dropping a caller at any await keeps the invariant, with or without a runtime for the rollback |
| Supervisor.NotifyKeeps | crates/core-capture/src/supervisor.rs:534-537 | waking the registered waiters keeps the invariant |
| Supervisor.ApplyKeeps | crates/core-capture/src/supervisor.rs:541-922 | every action of every task, and any foreign write of the mark, keeps the invariant |
| Supervisor.RunKeeps | crates/core-capture/src/supervisor.rs:541-922 | the invariant holds after every interleaving of starts, stops, failures, cancellations and retries |
| SupervisorSafety.RulesImplyHeld | crates/core-capture/src/supervisor.rs:181-248 | from calling `engine.start` to a successful `engine.stop`, the requested lease and all listeners are held, in a transaction or in the slot |
| SupervisorSafety.IngressImpliesDispatcher | crates/core-capture/src/supervisor.rs:700-753 | for TUN plans, while ingress may be active a dispatcher is attached, in every run whose dropped transactions find a runtime |
| SupervisorSafety.UnhostedDropLosesDispatcher | crates/core-capture/src/supervisor.rs:251-279 | without a runtime, a drop during `post_start` does lose the dispatcher with ingress active: the proviso is needed |
| SupervisorSafety.SingleOwner | crates/core-capture/src/supervisor.rs:305-428 | the bundle has one owner, the slot is empty when it is filled (both debug assertions) and full when it is taken, so no default bundle is ever made up; what a dropped start still has to destroy is listeners only |
| SupervisorSafety.StoppedMeansReleased | crates/core-capture/src/supervisor.rs:376-428 | Stopped means the engine stopped, the slot is empty, no task carries a bundle except a start that failed before it touched the platform and has listeners only still to destroy, and, no leak and no foreign write given, the mark is back |
| SupervisorSafety.LeftoverCondition | crates/core-capture/src/supervisor.rs:421-426 | that exception is reachable, and so is a second start while it lasts, if and only if the plan has more than one listener, or one and a mark or a recovery guard |
| SupervisorSafety.TeardownReleasesAll | crates/core-capture/src/supervisor.rs:181-248 | whenever a teardown goes on to publish Stopped, every task, handle, lease and listener of its bundle has been released and the guard marked clean |
| SupervisorSafety.FailedCleanupIsQuiet | crates/core-capture/src/supervisor.rs:376-428 | CleanupFailed means the bundle is in the slot for a retry and no background task of it runs on |
| SupervisorSafety.UnhostedDropKeeps | crates/core-capture/src/supervisor.rs:251-279 | the synchronous fallback keeps exactly lease, listeners and guard |
| SupervisorSafety.ListenersCloseOneByOne | crates/core-capture/src/supervisor.rs:229-238 | each listener is closed, and can be the last one closed, on its own |
| SupervisorSafety.ClosingIsOneStep | crates/core-capture/src/supervisor.rs:229-238 | however many are closed by then, the step ends alike |
| SupervisorSafety.RunningMeansAttached | crates/core-capture/src/supervisor.rs:886-904 | Running means the slot holds exactly what the plan asks for, all of it, and the mark is the requested one |
| SupervisorSafety.WakeupsAreNotLost | crates/core-capture/src/supervisor.rs:530-613 | a waiter asleep without a notification implies a transition under way or a notification still to be sent |
| SupervisorSafety.LeakNeedsRecovery | crates/core-capture/src/supervisor.rs:655-673 | only the failing recovery guard leaks a lease |
| SupervisorSafety.LeakCondition | crates/core-capture/src/supervisor.rs:655-673 | a run can leak and still publish Stopped if and only if recovery and a lease are both requested |
| SupervisorSafety.LeakBlocksEveryStart | crates/core-capture/src/supervisor.rs:129-157 | after a leak, undisturbed, no platform rule is ever installed again |
| SupervisorRecovery.AlwaysRecoverable | crates/core-capture/src/supervisor.rs:588-613 | from every reachable state, failed teardowns and cancellations included, some continuation in which every call succeeds ends Stopped with no bundle and no listener left anywhere |
| SupervisorStart.RunningMeansAnswered | crates/core-capture/src/supervisor.rs:621-904 | Running is published only for a start to which, since its claim, every call of the plan was made exactly once and in order, with success, and whose caller was not dropped at any await |
| SupervisorStart.LifecycleMoves | crates/core-capture/src/supervisor.rs:541-613 | over any run, which lifecycle follows which, and that a task called for start leaves only Stopped and CleanupFailed, one called for stop only Running and CleanupFailed, and a dropped one none of them |
| SupervisorStart.DroppedCallersAreDone | crates/core-capture/src/supervisor.rs:376-428 | after its caller is dropped a task only finishes the rollback: it never claims, builds, publishes Running or starts again |
| SupervisorStart.DroppedOnlyAtAwait | crates/core-capture/src/supervisor.rs:376-428 | a caller can be dropped at an await only, and a rollback that outlived its caller not at all |
| SupervisorStart.NotifyReachesAll | crates/core-capture/src/supervisor.rs:534-537 | a notification reaches every registered caller, asleep or about to read the lifecycle |
| SupervisorStart.StartStarts | crates/core-capture/src/supervisor.rs:541-585 | a start that waits or is woken on a settled supervisor, a failed cleanup included, leads to Running if its calls succeed |
| SupervisorStart.StopStops | crates/core-capture/src/supervisor.rs:588-613 | a stop leads to Stopped if its calls succeed |
| SupervisorStart.FailedStartStops | crates/core-capture/src/supervisor.rs:867-877 | a failing call at any stage of a start, or a caller dropped there, leads back to Stopped |
| SupervisorStart.StartCondition | crates/core-capture/src/supervisor.rs:129-157 | from Stopped, calls that succeed lead to Running if and only if no mark is asked for or none is installed |
| CidrCover.GreedyTiles | crates/core-capture/src/android_vpn_config.rs:236-255 | greedy blocks are aligned and lie end to end over the interval |
| CidrCover.TilesExactly | crates/core-capture/src/android_vpn_config.rs:236-255 | such blocks are disjoint and their union is exactly the interval |
| CidrCover.GreedyIsOptimal | crates/core-capture/src/android_vpn_config.rs:236-255 | no family of aligned blocks with the same union, overlapping or not, is smaller |
| CidrCover.GreedyLength | crates/core-capture/src/android_vpn_config.rs:236-255 | at most 2*bits - 2 blocks |
| CidrCover.GreedyLengthIsTight | crates/core-capture/src/android_vpn_config.rs:236-255 | that many are needed for all addresses but the first and the last |
| AndroidVpnConfig.RangeIsNetwork | crates/core-capture/src/android_vpn_config.rs:202-233 | the range of a network is its set of addresses if and only if it has no host bits |
| AndroidVpnConfig.RangeOfAnyNet | crates/core-capture/src/android_vpn_config.rs:202-233 | the range of every network, host bits or not: IPv4 overshoots, IPv6 wraps, prefix 0 ends at the last address |
| AndroidVpnConfig.SumOverflowsAtTheTop | crates/core-capture/src/android_vpn_config.rs:219-230 | the u128 sum, formed for every prefix but 0, overflows exactly for networks that hold the last address, and still wraps to the right end |
| AndroidVpnConfig.AlignedPrefixIsShortest | crates/core-capture/src/android_vpn_config.rs:257-263 | the shortest prefix an address is aligned to |
| AndroidVpnConfig.BlockEndIsExact | crates/core-capture/src/android_vpn_config.rs:265-273 | the saturating addition never saturates on an aligned block |
| AndroidVpnConfig.FittingPrefix | crates/core-capture/src/android_vpn_config.rs:236-255 | the inner loop ends at the largest aligned block that fits |
| AndroidVpnConfig.RangeToCidrs | crates/core-capture/src/android_vpn_config.rs:236-255 | the loop yields the greedy networks, and terminates |
| AndroidVpnConfig.CompileIsGreedy | crates/core-capture/src/android_vpn_config.rs:275-281 | within the address space these networks are the greedy blocks, one by one |
| AndroidVpnConfig.FewestNetworks | crates/core-capture/src/android_vpn_config.rs:236-255 | no set of networks that covers exactly the same addresses, with host bits or without, is smaller, and there are at most 2*bits - 2 |
| AndroidVpnConfig.CompileCovers | crates/core-capture/src/android_vpn_config.rs:236-281 | an address is in a compiled network if and only if the range holds a value that the cast to the family's width sends to it |
| AndroidVpnConfig.RemainingRanges | crates/core-capture/src/android_vpn_config.rs:158-192 | after subtracting every exclude from a base range, exactly the addresses outside all excludes are left |
| AndroidVpnConfig.SortSorts | crates/core-capture/src/android_vpn_config.rs:283-288 | the result is ordered by family, address and prefix |
| AndroidVpnConfig.KeyOrder | crates/core-capture/src/android_vpn_config.rs:283-288 | IPv4 before IPv6, then by address, then by prefix |
| AndroidVpnConfig.SortKeepsMembers | crates/core-capture/src/android_vpn_config.rs:158-192 | sorting keeps exactly the same networks |
| AndroidVpnConfig.SubtractRoutes | crates/core-capture/src/android_vpn_config.rs:158-192 | an address is covered by the result if and only if some base range has it and no exclude range of its family does |
| AndroidVpnConfig.VpnServiceRouteNets | crates/core-capture/src/android_vpn_config.rs:124-152 | the same for the routes of a plan, with its default routes when none are configured |
| AndroidVpnConfig.CanonicalAgreement | crates/core-capture/src/android_vpn_config.rs:124-192 | without host bits: covered if and only if a base route contains the address and no exclude does |
| AndroidVpnConfig.PolicyAgreement | crates/core-capture/src/engine.rs:356-369 | with `auto_route` and the family enabled, a non-loopback address is covered if and only if `route_allows` and not `is_excluded` |
| AndroidVpnConfig.PolicyAgreementExactly | crates/core-capture/src/engine.rs:356-369 | for every address, the routes and the plan's predicates agree if and only if it is not a routed loopback address, built-in or configured |
| Addresses.LoopbackRange | crates/core-capture/src/engine.rs:366-369 | the built-in loopback addresses are 127.0.0.0 to 127.255.255.255 and ::1 |
| AndroidVpnConfig.SingleRouteExactness | crates/core-capture/src/android_vpn_config.rs:202-233 | a lone route is compiled exactly if and only if it has no host bits or is the IPv4 default |
| AndroidVpnConfig.SingleExcludeExactness | crates/core-capture/src/android_vpn_config.rs:158-192 | a lone exclude is subtracted exactly if and only if it has no host bits |
| TcpNatTable.ScanIsExact | crates/core-capture/src/tcp_nat.rs:90-123 | the ports a full scan visits, in closed form |
| TcpNatTable.ScanCoverage | crates/core-capture/src/tcp_nat.rs:179-181 | every scan visits 30000..59999, and all 35536 ports if and only if it starts in 30000..60000 |
| TcpNatTable.RefusalIsExact | crates/core-capture/src/tcp_nat.rs:90-123 | a new flow is refused if and only if every port its scan can reach is taken |
| TcpNatTable.FewSessionsAlwaysServed | crates/core-capture/src/tcp_nat.rs:90-123 | with fewer than 30000 sessions no flow is refused |
| TcpNatTable.RefusalMeansFull | crates/core-capture/src/tcp_nat.rs:90-123 | refusal implies that all ports are taken, for all tables, if and only if the cursor is in 30000..60000 |
| TcpNatTable.RefusedWithAPortFree | crates/core-capture/src/tcp_nat.rs:90-123 | a run from the empty table after which a flow is refused with a port free |
| TcpNatTable.LookupAnswers | crates/core-capture/src/tcp_nat.rs:90-123 | a known flow keeps its port, a new one gets a free one, all other sessions stay |
| TcpNatTable.ScanOrder | crates/core-capture/src/tcp_nat.rs:100-122 | a new flow gets the first free port in scan order and the cursor moves behind it, or once through the scan |
| TcpNatTable.RunKeeps | crates/core-capture/src/tcp_nat.rs:90-164 | over any run the two indexes stay mutually inverse, with all ports in range |
| TcpNatTable.PortsAreDistinct | crates/core-capture/src/tcp_nat.rs:90-164 | distinct live flows have distinct ports |
| TcpNatTable.SessionIsStable | crates/core-capture/src/tcp_nat.rs:126-164 | a port belongs to the same flow for as long as its session is not removed |
| TcpNatTable.UsedSessionSurvives | crates/core-capture/src/tcp_nat.rs:126-154 | a session used at some time survives every run whose purges come within the timeout of it, unless it is removed |
| TcpNatTable.PurgeIsExact | crates/core-capture/src/tcp_nat.rs:133-154 | exactly the sessions not used for longer than the timeout go, with their flows; the others stay as they are |
| TcpNatTable.BackAnswers | crates/core-capture/src/tcp_nat.rs:126-130 | a look-back answers with the session's flow, refreshes it and touches no other |
| TcpNatTable.RemoveIsExact | crates/core-capture/src/tcp_nat.rs:157-164 | a removal frees one port and its flow and nothing else |
| TcpNatTable.TcpNat.Lookup | crates/core-capture/src/tcp_nat.rs:90-123 | the method does to its fields what the specification says, and keeps the indexes inverse |
| TcpNatTable.TcpNat.AllocatePort | crates/core-capture/src/tcp_nat.rs:100-122 | the scan loop takes the first free port in scan order, moves the cursor behind it, and gives up exactly if there is none |
| TcpNatTable.TcpNat.LookupBack | crates/core-capture/src/tcp_nat.rs:126-130 | the session's flow, refreshed, or nothing and no change |
| TcpNatTable.TcpNat.PurgeExpired | crates/core-capture/src/tcp_nat.rs:133-154 | exactly the expired sessions go, from both indexes, and their number is returned |
| TcpNatTable.TcpNat.RemoveByPort | crates/core-capture/src/tcp_nat.rs:157-164 | one session goes from both indexes |
| SystemStack.RewriteSetsEndpoints | crates/core-capture/src/stack_system.rs:270-298 | a rewritten packet parses with the same layout and the new endpoints, its TCP and IPv4 checksums verify for them, and every byte outside addresses, ports and checksums is unchanged |
| SystemStack.RewriteTcp | crates/core-capture/src/stack_system.rs:408-432 | the in-place writes, addresses and ports before the checksums over them, produce that packet for both IP versions |
| SystemStack.ParseAgrees | crates/core-capture/src/stack_system.rs:157-196 | the stack reads headers and endpoints exactly as the packet parser does, short IPv4 headers aside |
| Checksum.SummedVerifies | crates/core-capture/src/stack_system.rs:289-297 | a checksum filled in over a zeroed field makes the data and its pseudo-header verify as in RFC 1071 |
| Checksum.FoldAddsCarries | crates/core-capture/src/stack_system.rs:289-297 | the folded sum is the one's complement sum, carries added back until there are none |
| Checksum.PseudoHeaderLayout | crates/core-capture/src/stack_system.rs:289-297 | the pseudo-headers of RFC 9293 and RFC 8200, byte by byte |
| SystemStack.WrittenBackVerifies | crates/core-capture/src/stack_system.rs:146-432 | whatever is written back keeps its cargo and verifies; every other packet is left untouched |
| SystemStack.AlwaysResettable | crates/core-capture/src/stack_system.rs:528-536 | for a packet that reaches the port lookup the reset can always be built, so that the drop after it is never taken |
| SystemStack.ClientToListener | crates/core-capture/src/stack_system.rs:181-259 | a client packet goes to the listener under its flow's port, cargo unchanged, and is answered by a reset, itself untouched, exactly if there is no port |
| SystemStack.ClientIsServed | crates/core-capture/src/stack_system.rs:181-259 | with fewer than 30000 sessions every client packet is rewritten and passed on |
| SystemStack.ListenerToClient | crates/core-capture/src/stack_system.rs:325-403 | a listener packet goes back to the client of the session on its port if there is one of its IP version, and is dropped untouched otherwise |
| SystemStack.OthersPass | crates/core-capture/src/stack_system.rs:146-224 | all other packets and the table are left alone: dropped if TCP or malformed, otherwise left to their own handlers |
| SystemStack.Transparency | crates/core-capture/src/stack_system.rs:181-432 | if a client packet s->d was rewritten to port P, then after any run of table operations that does not remove the session a listener packet to P becomes exactly d->s, cargo unchanged |
| SystemStack.TransparencyAmidTraffic | crates/core-capture/src/stack_system.rs:146-432 | the same amid traffic: whatever packets of either IP version and purges or removals come between the two, as long as the session outlives them |
| SystemStack.ProcessIsTableStep | crates/core-capture/src/stack_system.rs:146-155 | processing a packet is at most one table operation, so packet runs are table runs |
| SystemStack.SystemStack.ProcessPacket | crates/core-capture/src/stack_system.rs:146-403 | the method, on its buffer and on the shared table, does what the specification says, and what it writes back verifies |
| NatTable.StepKeeps | crates/core-capture/src/nat.rs:109-248 | every step of every call, given the locks others hold, keeps ids unique, index and entries inverse at every unlocked key, and what each lock holder relies on |
| NatTable.FrameKeepsLocal | crates/core-capture/src/nat.rs:109-248 | a change at one locked key disturbs no thread that does not hold that key |
| NatTableRuns.RunKeeps | crates/core-capture/src/nat.rs:109-248 | the invariant holds after any interleaving of any number of threads |
| NatTableRuns.IndexIsInverse | crates/core-capture/src/nat.rs:109-188 | for every unlocked flow, the index names an id if and only if that id's entry is of the flow |
| NatTableRuns.NothingToRepair | crates/core-capture/src/nat.rs:124-127 | the branches that repair a dangling index or an orphaned entry have no work in any run |
| NatTableRuns.StepRefines | crates/core-capture/src/nat.rs:109-248 | every call acts on the table callers see in one atomic step, with the result of that step, a `remove` or look-up that finds nothing included; every other step is invisible |
| NatTableRuns.OnlyExpiredArePurged | crates/core-capture/src/nat.rs:203-248 | a flow leaves the table only by `remove` of its id or by a purge whose captured time is at least `ttl` after its last use: a refreshed entry is spared |
| NatTableRuns.FlowKeepsId | crates/core-capture/src/nat.rs:104-144 | a flow keeps its id for as long as it stays, its creation time never grows, and a host once known is not forgotten |
| NatTableCalls.TakesEffectOnce | crates/core-capture/src/nat.rs:109-188 | whatever the other threads do, an insert, touch, lookup or remove that returned took effect in exactly one step between call and return, on the table as it was then, and with the answer it gave |
| NatTableCalls.PurgeIsExact | crates/core-capture/src/nat.rs:203-248 | after a purge no other thread interfered with at a flow, the flow is there as it was if it was last seen less than `ttl` before the purge began, and otherwise, if the purge came across it, is gone |
| NatTableCalls.Returns | crates/core-capture/src/nat.rs:109-248 | with no lock held elsewhere every call returns |
| NatTableCalls.PurgeAlone | crates/core-capture/src/nat.rs:203-248 | a purge left alone returns and leaves exactly the flows last seen less than `ttl` before it began |
| NatTable.UpdatesCommute | crates/core-capture/src/nat.rs:115-123 | an update is never lost: earliest creation, latest use and whether a host is known do not depend on the order of updates |
| NatTableRuns.WrappedIdCollides | crates/core-capture/src/nat.rs:130-142 | a run with one id more than 2^64 after which an index names another flow's entry |
| CompatCache.RunKeeps | crates/core-api/src/compat_cache.rs:111-142 | the invariant of cache, mutex and history over any interleaving of fetches, builds, panics in a build and invalidations |
| CompatCache.ServedFromOneBuild | crates/core-api/src/compat_cache.rs:174-185 | every served pair is the value and the serialisation of one build, or an empty object if that failed, made for the requested revision |
| CompatCache.ServedIsFresh | crates/core-api/src/compat_cache.rs:174-185 | a pair from the cache was stored less than `ttl` before it was checked, any other is of a build begun after the fetch was called |
| CompatCache.FetchEnds | crates/core-api/src/compat_cache.rs:111-142 | the fetch that has the mutex, or any fetch while nobody has it, ends with an answer and the mutex free |
| CompatCache.PanicReleases | crates/core-api/src/compat_cache.rs:119-142 | a build that panics gives the mutex back and leaves cache, counters and history as they were |
| CompatCache.OneBuildAtATime | crates/core-api/src/compat_cache.rs:119-142 | at most one build is in flight |
| CompatCache.SingleFlight | crates/core-api/src/compat_cache.rs:119-137 | a build follows another of its revision only after an invalidation or once that is `ttl` old |
| CompatCache.CountersAddUp | crates/core-api/src/compat_cache.rs:115-132 | hits plus builds equal the completed fetches, plus a build counted and not yet stored, modulo 2^64 |
| CompatCache.InvalidateForcesRebuild | crates/core-api/src/compat_cache.rs:187-197 | all later fetches are answered by builds begun after the invalidation if and only if none was in flight at it or the `ttl` is zero |
| RateLimiter.IpRateLimiter.Allow | crates/core-api/src/compat_security.rs:298-332 | the method's buckets and answer are those of the specification, collection included |
| RateLimiter.IpRateLimiter.Gc | crates/core-api/src/compat_security.rs:335-341 | exactly the buckets idle for less than 30 seconds stay, unchanged |
| RateLimiter.CreditStep | crates/core-api/src/compat_security.rs:313-325 | a request spends a unit of credit if admitted; waiting earns at most the rate |
| RateLimiter.WindowBound | crates/core-api/src/compat_security.rs:298-325 | with a table that never forgets, any window of a run admits at most burst + rate * T requests of an address |
| RateLimiter.SameDecisions | crates/core-api/src/compat_security.rs:327-341 | if a bucket refills within 30 seconds, the collected table decides every run like one that never forgets |
| RateLimiterForgetting.ForgettingIsInvisible | crates/core-api/src/compat_security.rs:327-341 | no run is decided differently if and only if 30 * rate >= burst or burst < 1 |
| RateLimiterWindow.SlowRefillOverdraws | crates/core-api/src/compat_security.rs:327-341 | if a bucket is forgotten before it refills, a run that empties it twice admits more than the window bound |
| RateLimiterWindow.WindowBoundExactly | crates/core-api/src/compat_security.rs:298-341 | the table as kept obeys the window bound, in every run and window and for every address, if and only if 30 * rate >= burst or burst < 1 |
| RateLimiterWindow.ServerIsBounded | crates/core-api/src/server.rs:125 | 50 requests a second and bursts of 100 obey it |
| RouteTable.RouteTable.Add | crates/core-capture/src/route_table.rs:74-82 | only an accepted route enters the ledger, at its end |
| RouteTable.RouteTable.ReconcileAll | crates/core-capture/src/route_table.rs:92-103 | every ledger route is asserted once, in order; the ledger stays; Ok if and only if none failed |
| RouteTable.RouteTable.RevertAll | crates/core-capture/src/route_table.rs:119-154 | the loop asks for one deletion per route, the newest first; what failed stays in order of insertion if retained; Ok if and only if none failed, which with retention is if and only if the ledger ends empty; the ledger is always the list of live routes |
| RouteTable.LiveIsOrdered | crates/core-capture/src/route_table.rs:145-148 | after any run the live routes are in order of insertion |
| RouteTable.WholeRollback | crates/core-capture/src/route_table.rs:119-154 | a rollback asks for live routes only and leaves exactly the retained failures |
| RouteTable.NewestFirst | crates/core-capture/src/route_table.rs:124 | every rollback, the first or a retry, deletes in reverse order of insertion |
| RouteTable.DeletedOnce | crates/core-capture/src/route_table.rs:119-154 | once a deletion succeeded, found nothing or was given up, that addition is never deleted again |
| Packet.LocateEncoded | crates/core-capture/src/packet.rs:263-310 | every packet, written in every format, is found again exactly behind its prefix |
| Packet.FrameRoundTrip | crates/core-capture/src/packet.rs:126-168 | reading back a written frame parses the packet and tells its format, the three link-layer formats coming back bare |
| Packet.EncodeIsInjective | crates/core-capture/src/packet.rs:126-168 | no two packets, and no two formats that are told apart, share a frame |
| Packet.ParsedFrameIsWithin | crates/core-capture/src/packet.rs:253-437 | whatever frame parses, packet and payload lie within it |
| Packet.HeaderV4Found | crates/core-capture/src/packet.rs:349-373 | an IPv4 header of any length in front of the data it announces is read field by field, one of fewer than five words as one of twenty bytes |
| Packet.HeaderV6Found | crates/core-capture/src/packet.rs:375-398 | the same for IPv6 |
| Packet.HeaderRefused | crates/core-capture/src/packet.rs:349-398 | a header cut short, or announcing more than there is or less than itself, is an error, and so is any other version |
| Packet.ErrorsTell | crates/core-capture/src/packet.rs:126-168 | when nothing can be found or written, and with which error |
| Packet.WrittenHeader | crates/core-capture/src/packet.rs:126-168 | the bytes put before a packet in each format |
| Packet.FourBytesLocated | crates/core-capture/src/packet.rs:273-284 | behind four bytes a packet is found exactly after a protocol number or after one of the known address families |
| Packet.EthernetLocated | crates/core-capture/src/packet.rs:263-310 | a packet behind an Ethernet header is found there if and only if the MAC addresses are not read as a packet, a four-byte prefix or a virtio header |
| Packet.VlanLocated | crates/core-capture/src/packet.rs:263-310 | the same with a VLAN tag |
| Packet.CookedLocated | crates/core-capture/src/packet.rs:263-310 | the same behind a cooked header |
| Packet.VirtioLocated | crates/core-capture/src/packet.rs:337-347 | a packet behind a virtio header of either size, with any flags and known segmentation type, is found there if and only if the header is not read as something shorter |
| Packet.PayloadFound | crates/core-capture/src/packet.rs:400-437 | a TCP payload is what follows the header's own length, a UDP payload what follows its eight bytes |
| UdpForwarder.BuildUdpIpPacket | crates/core-capture/src/udp_forwarder.rs:124-202 | filling the buffer gives the packet of the RFC layouts, and nothing for mixed families or payloads that do not fit |
| UdpForwarder.UdpRoundTrip | crates/core-capture/src/udp_forwarder.rs:124-202 | for every buildable payload, endpoints and format: build, encode, parse gives back format, endpoints and payload |
| UdpForwarder.BuiltVerifies | crates/core-capture/src/udp_forwarder.rs:137-202 | every built packet parses and verifies, IPv4 header and datagram, and its UDP checksum is never the zero that stands for none |
| FrameCache.DirectionsAgree | crates/core-capture/src/frame_cache.rs:81-93 | the two directions of a flow never disagree |
| FrameCache.KeysTellFlows | crates/core-capture/src/frame_cache.rs:36-56 | keys are equal exactly for packets of one protocol with the same endpoints, and reversed exactly for replies |
| FrameCache.ReplyIsObserved | crates/core-capture/src/frame_cache.rs:81-118 | after a packet `a -> b` is observed, its format is the one last observed for every reply `b -> a` of the same protocol |
| FrameCache.BuiltReplyIsObserved | crates/core-capture/src/frame_cache.rs:238-273 | so it is for the datagram built in answer, parsed back from its bytes |
| FrameCache.NewestSurvive | crates/core-capture/src/frame_cache.rs:129-137 | eviction spares an entry if all entries at least as new fit, whatever the ties of the clock |
| FrameCache.RetainedIsYoung | crates/core-capture/src/frame_cache.rs:120-128 | what is retained is what was written or used within the last `ttl`, unchanged |
| FrameCache.ByAge | crates/core-capture/src/frame_cache.rs:129-133 | all keys once, from the oldest entry to the newest, whatever the order of the map |
| FrameCache.TunFrameFormatCache.Prune | crates/core-capture/src/frame_cache.rs:120-138 | at most `max_entries` are left, and nothing newer is dropped than anything kept |
| FrameCache.TunFrameFormatCache.Observe | crates/core-capture/src/frame_cache.rs:82-97 | both directions are written, the size is bounded, the oldest go first, and the cache still agrees with the log of observations |
| FrameCache.TunFrameFormatCache.FormatForIpPacket | crates/core-capture/src/frame_cache.rs:100-118 | the format last observed for the flow in either direction, refreshed, or bare if there is none or it is too old |
| TproxyRules.AppendBypassRules | crates/core-capture/src/tproxy_rules.rs:501-536 | the loops yield the plan's networks of the family, then the fixed ones, each once |
| TproxyRules.AppendFamilySetup | crates/core-capture/src/tproxy_rules.rs:134-418 | the appended commands are the setup list the results are about |
| TproxyRules.DistinctMembers | crates/core-capture/src/tproxy_rules.rs:523-536 | deduplication loses no network |
| TproxyRules.DistinctIsDistinct | crates/core-capture/src/tproxy_rules.rs:523-536 | and leaves none twice |
| TproxyRules.BypassedMembers | crates/core-capture/src/tproxy_rules.rs:501-536 | what is bypassed is exactly the networks of the family in either exclude list of the plan, and the fixed ones |
| TproxyCleanup.CleanupRestores | crates/core-capture/src/tproxy_rules.rs:432-499 | from any state setup can have reached, cleanup leads back to the host before it |
| TproxyCleanup.FamilyPrefixUndone | crates/core-capture/src/tproxy_rules.rs:420-499 | cleanup, its failing commands skipped, after any prefix of a family's setup restores the initial state |
| TproxyCleanup.CleanupNeverFails | crates/core-capture/src/tproxy_rules.rs:432-499 | after a complete setup no cleanup command fails: no chain is removed while referenced or not empty |
| TproxyInstall.SetupInstalls | crates/core-capture/src/tproxy_rules.rs:172-418 | on a host with none of these chains every setup command succeeds, and what it installs |
| TproxyInstall.SetupThenCleanupIsIdentity | crates/core-capture/src/tproxy_rules.rs:110-132 | for both families and every plan: any prefix of setup, then cleanup, is the identity |
| TproxyInstall.CompleteSetupAndCleanupSucceed | crates/core-capture/src/tproxy_rules.rs:420-430 | complete setup and the cleanup after it succeed command by command |
| TproxyTraffic.BypassMatches | crates/core-capture/src/tproxy_rules.rs:501-536 | the return rules match exactly the packets to a network of the family in either exclude list of the plan or to a fixed one |
| TproxyTraffic.OutputMarks | crates/core-capture/src/tproxy_rules.rs:318-417 | after setup OUTPUT, hook and host rules together, treats every packet as before, but that it first sets the proxy mark of exactly those TCP and UDP packets that go out on `lo`, lack the outbound mark and are not local, broadcast or to a bypassed network |
| TproxyTraffic.PreroutingCatches | crates/core-capture/src/tproxy_rules.rs:202-317 | after setup PREROUTING treats every packet as before, and of those that pass all rules of the host it diverts or hands to the proxy exactly the TCP and UDP packets not from the container bridge, not local and not to a bypassed network |
| CivilDate.ExactIsValid | crates/core-api/src/compat.rs:2154-2166 | every day count gives a valid Gregorian date |
| CivilDate.NumberOfExact | crates/core-api/src/compat.rs:2154-2166 | the day-number formula inverts the algorithm |
| CivilDate.ExactOfNumber | crates/core-api/src/compat.rs:2154-2166 | and the algorithm inverts the formula on every valid date |
| CivilDate.NextExact | crates/core-api/src/compat.rs:2154-2166 | the next day count is the next calendar day |
| CivilDate.WrappedYear | crates/core-api/src/compat.rs:2159-2164 | the 32-bit arithmetic wraps the final year and nothing else |
| CivilDate.CivilIsCalendar | crates/core-api/src/compat.rs:2154-2166 | for every day from the epoch, the date is the one found by counting days if and only if its year is a 32-bit number |
| Iso8601.FormatNamesTheInstant | crates/core-api/src/compat.rs:2140-2151 | the text names the calendar day and time of the stamp, and the instant it names is the stamp; four-digit years give exactly 20 characters |

## Left out

- SystemStack.SystemStack.ProcessPacket: `NotTcp` stands for the UDP and ICMP branches, which share no state with the rest, and `Reply` for the TCP reset, whose bytes are not modelled.
- `TcpNat` methods are atomic; interleavings between its two maps are not modelled.
- `NatTable`: the host pins, the number `purge` returns, and `get` and `len`, which read the entries directly and so also see an entry that is not yet in the index; they would only add easy members.
- NatTableRuns.RunKeeps: assumes at most 2^64 allocated ids, because the counter wraps (see `WrappedIdCollides`).
- SupervisorSafety.IngressImpliesDispatcher: excludes drops outside the async runtime, because the property fails there (see `UnhostedDropLosesDispatcher`).
- `IpRateLimiter`: `allow` is atomic and clock readings do not go back; tokens are real numbers, so rounding of `f64` is not modelled.
- RateLimiter.WindowBound: rate and burst are taken to be non-negative, as configured; what the collected table does is `WindowBoundExactly`.
- `SnapshotCache`: the typed accessors around `fetch_inner`.
- `RouteTable`: the platform back ends and the text of their errors; two concurrent calls are not interleaved.
- Packet.ParsedFrameIsWithin: the length checks of the wire library are written out from the RFC layouts, and an IPv4 packet whose total length is below its header's is an error; TCP sequence numbers, flags and windows are not parsed.
- TproxyInstall.SetupThenCleanupIsIdentity: assumes a host that holds none of the proxy's chains, rules or routes; the kernel's own table limits are not modelled.
- TproxyCleanup.FamilyPrefixUndone: the routing policy is set by the commands of the list; on Linux netlink calls take their place.
- TproxyTraffic.OutputMarks: follows at least one level of nested chains, as the proxy's own chains need; whether an address lies in a network is taken from the packet filter, network texts are not parsed.
- TproxyTraffic.PreroutingCatches: the same with two levels.
- `Iso8601`: the characters of negative years, which only wrapped years would need, are modelled but nothing is stated about them.
- Async I/O, sockets, dispatch loops, platform probing, HTTP handlers, authentication and connection limits: plumbing, or settled by reading one branch.
