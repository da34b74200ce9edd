# Outpost: verified engines

A Dafny 4.11 model of the parts of Outpost, a WireGuard VPN and zero-trust access service, that
decide something over whole runs. `dafny verify dfyconfig.toml` checks all of it.

| file | engine | main results |
|---|---|---|
| `PeerPropagation.dfy`, `PeerDrain.dfy` | peer events from cores to gateways | convergence under every interleaving, with lost publications; conservation of events; every run can be drained |
| `FirewallCompiler.dfy` | ZTNA blocking and rule generation | the rule list means the access policy, for every packet and map order |
| `FilterTable.dfy` | the gateway's iptables chains | the table is a function of the last configurations; verdicts survive installation, and old connections do not |
| `RouteTable.dfy`, `Slices.dfy` | site-to-site route table | refinement of the map (destination, gateway) to last advertisement |
| `Topology.dfy` | mesh and hub-and-spoke tunnels | reachability, symmetry, tunnel counts; exact condition on hubs |
| `RateLimiter.dfy`, `RedisLimiter.dfy` | login rate limiter | exact sliding window, invisible cleanup; twice the limit for the Redis form |
| `LeaderLock.dfy` | singleton tasks over advisory locks | mutual exclusion, exactly which step endangers it, and who can enter then |
| `IpAllocation.dfy` | device addresses | uniqueness under races; every retry paid for by another insert |
| `Revocation.dfy` | JWT blacklist | revocation of a token string is permanent, up to two exactly described races |
| `Sessions.dfy` | session cache over its table | the cache is invisible, failed writes included; for Redis exactly while sessions live at most a day |
| `Lockout.dfy` | account lockout | at most 5 + D / 15 min wrong passwords in a row in any interval of length D, and the lost records |
| `SiemExport.dfy` | audit export cursor | exactly which rows each target gets; at-least-once delivery across failures and restarts |
| `OidcCodes.dfy` | authorization codes | one grant per code, bound to what was asked for in the authorization request |
| `Escaping.dfy` | RFC 5424 and RFC 4515 escaping | printer and reader round trips |

## How it is modelled

- Objects whose methods update fields are classes (route table, limiter, firewall manager, exporter,
  session manager, account, blacklist, provider, peer agent, hub). A ghost log of the calls so far is part of most of
  them, so a class invariant speaks about every run of method calls.
- What several processes do at once is a state machine: a `Step` datatype, `Enabled`, `Do`, and `Run`
  over any sequence of enabled steps (peer events, Redis limiter, leader lock, address allocation).
- Go's map iteration order is a nondeterministic choice in every loop over a map.
- Postgres tables, Redis keys, the Pub/Sub channel, the filter table and the WireGuard device are maps,
  sequences and sets. Each statement or command is one atomic step. Clocks are parameters that never go
  back; times are integers in one unit. Outcomes of I/O (a failed query, insert or UPDATE, a lost reply, a
  failed send or publication, a refused rule or device configuration) are parameters. Addresses are IPv4. SHA-256, bcrypt, JWT signatures and the WireGuard and CIDR parsers
  are function parameters; the blacklist needs SHA-256 to be free of collisions.

Where the code and its own words differ the model follows the code: a spoke's allowed networks contain
its own subnets too, although the comment says all other spokes'
(`internal/s2s/hubspoke.go:50-56`); a token without expiry gets one of 24 hours, although the comment
says it never expires (`internal/auth/jwt.go:21-27`); and the leader lock keeps two cores from running a
task at the same time, which is less than the "exactly one core" of its comment
(`internal/core/server.go:528-532`).

## Results that hold under an exact condition

- Hub and spoke: every subnet is reachable iff at most one gateway is marked as hub, or there is no subnet at
  all; a second hub gets no configuration (`Topology.HubSpokeReachExactly`).
- Chain order: SMART stays above FWD unless an Init hooks FWD while SMART is already in place
  (`FilterTable.OrderKeptExactly`, `FilterTable.SmartBeforeInitReverses`). The agent uses the manager only
  after its Init succeeded (`internal/gateway/agent.go:115-119`), so this concerns other callers.
- Refused rules: with every drop line taken, only packets that the policy accepts can fare differently
  (`FilterTable.RefusedLines`, `FilterTable.EnforceAccessPolicy`).
- Leader lock: a step keeps the invariant iff it does not close a session in use; if it does, any other core
  that is idle on the lock and has an open session can enter the body (`LeaderLock.StepKeepsExactly`,
  `LeaderLock.ClosedSessionOverlaps`).
- Revocation: a token revoked before the blacklist lookup is accepted only by a request that validated it
  before its expiry and looked it up after (`Revocation.Auth.AcceptsExactly`, `Revocation.StraddlingRequest`).
- Refresh: a token revoked before the lookup is exchanged only by such a request; one revoked between lookup
  and exchange is exchanged exactly by the requests that were between their lookup and their finish at the
  moment of its first revocation, if the user is active (`Revocation.Auth.LateExchange`, `Revocation.Auth.HolderExactly`,
  `Revocation.Auth.RefreshFinish`, `Revocation.TwoRefreshes`).
- Revocation is of the string that a request carries: another string with the same claims stays accepted
  (`Revocation.Auth.OtherStringStays`).
- Session cache on Redis: it needs a lifetime of at most 24 hours, and every longer one breaks it
  (`Sessions.Manager.ValidateSession`, `Sessions.LongLivedSessionSurvives`).
- Peer events on a single core without Redis: the order of two overlapping broadcasts is harmless iff they
  do not write one key differently (`PeerPropagation.DirectOrderHarmless`).
- Syslog values: a reader that knows only the three escapes of section 6.3.3 of RFC 5424 gets a value back
  iff it contains no line break (`Escaping.ReadBackStandard`).

## Model

| member | source | states |
|---|---|---|
| PeerPropagation.WGManager.AddPeer | internal/gateway/wg_manager.go:100-145 | the key's entry holds exactly the networks that parse; an unparsable key or a device that refuses changes nothing and is reported |
| PeerPropagation.WGManager.RemovePeer | internal/gateway/wg_manager.go:148-175 | the key's entry is gone; an unparsable key or a device that refuses changes nothing and is reported |
| PeerPropagation.ParsedNetsExactly | internal/gateway/wg_manager.go:109-117 | a network is installed iff one of the listed strings parses to it |
| PeerPropagation.ParsedNetsInOrder | internal/gateway/wg_manager.go:109-117 | the networks keep the order of the strings, however the list is cut |
| PeerPropagation.ParsedNetsAll | internal/gateway/wg_manager.go:109-117 | when all strings parse there is one network for each, in its place |
| PeerPropagation.ActionMeaning | internal/gateway/agent.go:388-397 | ADD and MODIFY install exactly the parsed networks, REMOVE deletes, an unspecified action changes nothing, and no other peer is touched |
| PeerPropagation.Agent.HandlePeerUpdate | internal/gateway/agent.go:376-398 | ADD and MODIFY set, REMOVE deletes, an unspecified action does nothing; a refused update is passed over; without a device nothing happens |
| PeerPropagation.Agent.RunSync | internal/gateway/agent.go:286-519 | for every event kind: the receive loop and the handlers' loops fold the peer updates that the events amount to, and that the device accepts, into the table in arrival order; one stream continues where the last one ended |
| PeerPropagation.S2SMeaning | internal/gateway/agent.go:400-456 | removing a tunnel removes exactly its peers that have a key, adding or updating it adds them, and an unknown action or a missing tunnel does nothing |
| PeerPropagation.ResyncMeaning | internal/gateway/agent.go:484-519 | a resync adds exactly the listed peers and the peers of all tunnels, those without a key aside |
| PeerPropagation.ResyncRemovesNothing | internal/gateway/agent.go:484-519 | a full resync only adds: no peer of the device goes away, whatever it lists and the device takes |
| PeerPropagation.ApplyMeaning | internal/gateway/agent.go:388-397 | an update decides its own key's entry and leaves all other entries alone |
| PeerPropagation.StreamHub.BroadcastLocal | internal/core/stream_hub.go:123-136 | every healthy registered stream gets the event exactly once, a failing one is skipped, in any map order |
| PeerPropagation.StreamHub.Broadcast | internal/core/stream_hub.go:93-143 | local delivery, then exactly one publication when Redis is configured and takes it; a failed one is forgotten |
| PeerPropagation.LocalSendKeeps | internal/core/stream_hub.go:131-135 | a direct send disturbs at most the event's own key, and only until the event is published |
| PeerPropagation.PublishKeeps | internal/core/stream_hub.go:93-105 | publishing settles the event's key at every gateway and disturbs no other key |
| PeerPropagation.PublishFailsKeeps | internal/core/stream_hub.go:97-104 | a lost publication leaves at most the event's own key stale, at the gateways of its core |
| PeerPropagation.SameOutlook | internal/core/stream_hub.go:67-89 | taking a message off the channel, relaying and delivering it change no gateway's eventual table |
| PeerPropagation.RunConserves | internal/core/stream_hub.go:138-152 | in any run each started event is on the channel, in progress or lost, exactly once |
| PeerPropagation.Convergence | internal/core/stream_hub.go:67-152 | any number of cores, any interleaving: once drained, and if no publication was lost, the channel holds every event once and each gateway's table is its first table with the channel folded in |
| PeerPropagation.ConvergedEntry | internal/core/stream_hub.go:67-152 | once drained, every gateway's entry for a key is what the channel's last update of that key says, so a removed peer is gone everywhere unless added again; only a lost update of that key, with none on the channel since, can leave a gateway of the losing core behind |
| PeerPropagation.StaleNeedsLoss | internal/core/stream_hub.go:97-104 | a gateway is not behind unless its own core lost an update of that key that the channel has not overwritten |
| PeerDrain.StepDescends | internal/core/stream_hub.go:67-143 | under every schedule, each step that starts no broadcast leaves less work in a well-founded order, so work without new broadcasts ends |
| PeerDrain.Drain | internal/core/stream_hub.go:67-143 | from every well-formed state some sequence of steps, none of them starting or losing a broadcast, leads to a drained one |
| PeerDrain.CanConverge | internal/core/stream_hub.go:67-152 | every run that lost nothing can be finished so that all gateways hold its events in one common order |
| PeerDrain.BroadcastIsRun | internal/core/stream_hub.go:140-143 | a broadcast that nobody disturbs, step by step, puts the event once on each local stream and once on the channel, as the hub's method does |
| PeerDrain.LostPublicationDiverges | internal/core/stream_hub.go:97-104 | in every system a lost publication can leave gateways apart for good: those of the core have the update, the channel has nothing, those of other cores are as before |
| PeerPropagation.DirectOrderHarmless | internal/core/stream_hub.go:91-96 | without a channel, two updates may arrive in either order iff they do not write one key differently |
| Ztna.CollectPostures | internal/core/grpc_gateway.go:551-589 | the posture kept for an address is that of its last row |
| Ztna.PostureOfLast | internal/core/grpc_gateway.go:551-589 | of several rows with one address the last counts, and without a row there is no posture |
| Ztna.ViolationsOneByOne | internal/core/grpc_gateway.go:648-667 | each condition is checked against its own property, a demand that is not made does not count, and nothing else fails a device |
| Ztna.TrustLevels | internal/core/grpc_gateway.go:591-600 | blocking takes critical and low devices, restricting critical ones, and neither any other |
| Ztna.PolicyScope | internal/core/grpc_gateway.go:627-646 | a policy without networks is for all of them, one with networks for those, and one that does not parse for none |
| Ztna.BlockedMeaning | internal/core/grpc_gateway.go:591-677 | one reason, trust level or policy, blocks a device, and without one it is not blocked |
| Ztna.EvaluateConditions | internal/core/grpc_gateway.go:648-667 | failed iff the score is below the minimum or a demanded property is missing |
| Ztna.AutoBlock | internal/core/grpc_gateway.go:591-600 | exactly the devices whose trust level the global configuration blocks or restricts |
| Ztna.EnforcePolicy | internal/core/grpc_gateway.go:627-674 | adds exactly the devices a policy applies to and whose conditions fail, despite the skip of blocked ones |
| Ztna.ComputeBlocked | internal/core/grpc_gateway.go:591-677 | the blocked set is the declarative one for every policy and map order |
| Ztna.BlockingMonotone | internal/core/grpc_gateway.go:602-605 | adding or tightening policies never unblocks a device |
| Ztna.BlockingIgnoresOrder | internal/core/grpc_gateway.go:606-609 | the priority order of the policies does not matter |
| FirewallCompiler.GroupAcls | internal/core/grpc_gateway.go:490-498 | grouping the ACL rows by device loses and adds nothing, and leaves no device with an empty list |
| FirewallCompiler.DeviceRules | internal/core/grpc_gateway.go:683-703 | the rules of one device accept exactly its allowed destinations if it is not blocked, drop the rest, and match nobody else |
| FirewallCompiler.DefaultDeny | internal/core/grpc_gateway.go:705-713 | listed devices without ACL entries are dropped, nobody else is matched |
| FirewallCompiler.CompileRules | internal/core/grpc_gateway.go:679-713 | first-match evaluation of the list gives every packet the intended verdict, and the sources of its drop rules are exactly the listed devices |
| FirewallCompiler.BlockedPubkeys | internal/core/grpc_gateway.go:715-721 | each non-empty key once per blocked address it belongs to, and nothing else |
| FirewallCompiler.BuildFirewallConfig | internal/core/grpc_gateway.go:456-732 | no configuration iff the ACL query fails, other failed queries count as empty; else accept iff not blocked and allowed, drop every other packet of a listed device, match no other source; NAT is on |
| FirewallCompiler.PolicyMeaning | internal/core/grpc_gateway.go:679-713 | in terms of rows: an allowed destination of a device that is not blocked is accepted, a blocked or unlisted destination of a listed device is dropped, other sources are not decided |
| FirewallCompiler.UnreadBlocksNobody | internal/core/grpc_gateway.go:527-589 | without postures, or without settings and policies, nobody is blocked |
| FirewallCompiler.FirstMatchDecides | internal/gateway/firewall.go:105-135 | the first matching rule decides, and none leaves the packet undecided |
| FirewallCompiler.MatchesFields | internal/gateway/firewall.go:112-123 | a rule asks for the fields it names; a port counts only with a protocol |
| FirewallCompiler.DroppedExactly | internal/gateway/firewall.go:158-168 | the dropped sources are exactly the source addresses of drop rules |
| FilterTable.Simulates | internal/gateway/firewall.go:180-187 | a command on one of the manager's chains acts on the manager's part of the table and on nothing else |
| FilterTable.FirewallManager.Init | internal/gateway/firewall.go:30-44 | chain and hook exist afterwards, hooked on top if new, otherwise unchanged |
| FilterTable.FirewallManager.Apply | internal/gateway/firewall.go:47-102 | the chain is the return-traffic rule and the installable rules that iptables takes; one interface is masqueraded once; connections opened by dropped sources are cut; nil changes nothing; a missing chain is an error that changes nothing |
| FilterTable.FirewallManager.FlushDropped | internal/gateway/firewall.go:156-177 | cuts exactly the connections opened by the sources of drop rules |
| FilterTable.FirewallManager.ApplySmartRoutes | internal/gateway/firewall.go:193-243 | the chain holds the lines of the CIDR block and direct rules that iptables takes, whose meaning is SmartVerdict, hooked on top when new; no rules remove chain and hook |
| FilterTable.SmartVerdict | internal/gateway/firewall.go:217-239 | the installed chain decides a packet as the smart routes themselves do, the refused ones aside |
| FilterTable.SmartFirstDecides | internal/gateway/firewall.go:217-239 | the first CIDR rule for the destination drops it if it blocks and accepts it if it is direct; other rules decide nothing |
| FilterTable.NatMeaning | internal/gateway/firewall.go:79-93 | the configured interface, or else the default one, is masqueraded, never twice and no other |
| FilterTable.FirewallManager.Cleanup | internal/gateway/firewall.go:246-254 | the host gets its own table back unchanged |
| FilterTable.RunInForce | internal/gateway/firewall.go:30-243 | after Init and any operations the manager's part depends on the last configurations only: each chain hooked at most once, SMART above FWD |
| FilterTable.OrderKeptExactly | internal/gateway/firewall.go:210-215 | an operation breaks the order iff it is an Init that hooks FWD while SMART is in place |
| FilterTable.SmartBeforeInitReverses | internal/gateway/firewall.go:34-40 | such a run exists for any smart routes: applied before the first Init they end up below |
| FilterTable.RuleEntriesVerdict | internal/gateway/firewall.go:105-135 | turning rules into chain lines keeps the first-match meaning of those that iptables takes |
| FilterTable.RefusedLines | internal/gateway/firewall.go:68-75 | with every line taken the verdicts are those of the rules; with every drop line taken only packets that the rules accept can fare differently |
| FilterTable.InForceVerdict | internal/gateway/firewall.go:57-77 | FORWARD asks the smart routes, then lets return traffic pass or asks the access rules, then the host's rules |
| FilterTable.InForceMeaning | internal/gateway/firewall.go:46-243 | with everything taken: a blocked destination is dropped and a direct one accepted, then return traffic passes, then the first access rule decides, then the host |
| FilterTable.EnforceAccessPolicy | internal/gateway/agent.go:458-469 | after an update every new packet gets the verdict of the first smart route for its destination, else of the access policy, else the host's, and of the old connections exactly those of listed devices are cut; a refused accept line can only keep packets out that the policy accepts; without the ACL rows nothing changes |
| Slices.CompactInPlace | internal/s2s/route.go:77-82 | compaction over the list's own backing array yields the kept elements in order |
| Slices.FilterCounts | internal/s2s/route.go:77-82 | of the kept elements none is lost and none repeated |
| RouteTables.SortByMetric | internal/s2s/route.go:62-65 | a permutation sorted by metric, with no promise about ties |
| RouteTables.LatestExactly | internal/s2s/route.go:33-89 | the last call that concerns a destination and a gateway decides: a withdrawal leaves nothing, an advertisement its key, endpoint and metric |
| RouteTables.RouteTable.Advertise | internal/s2s/route.go:33-69 | the table keeps refining the log of calls: last advertisement per destination and gateway since that gateway withdrew; lists stay non-empty, sorted, one entry per gateway |
| RouteTables.RouteTable.Withdraw | internal/s2s/route.go:72-89 | the same after removing the gateway's entries in any map order, with emptied destinations deleted |
| RouteTables.RouteTable.BestRoute | internal/s2s/route.go:92-107 | a route iff some gateway offers the destination, and then one of minimal metric as last advertised |
| RouteTables.RouteTable.RoutesForGateway | internal/s2s/route.go:123-137 | exactly one route per destination that another gateway offers, the best of the others |
| Topology.CalculateMesh | internal/s2s/mesh.go:8-39 | configuration i lists all other gateways with their own subnets |
| Topology.CalculateHubSpoke | internal/s2s/hubspoke.go:8-78 | the last marked gateway, or the first as fallback, peers with all spokes; each spoke with the hub for all subnets |
| Topology.CalculateTopology | internal/s2s/topology.go:40-52 | with distinct ids and disjoint subnets (and at most one hub) every gateway reaches every subnet, in one tunnel for a mesh and two for hub and spoke; an unknown kind yields nothing |
| Topology.MeshFields | internal/s2s/mesh.go:10-36 | each configuration has its gateway's own port and subnets and names every other gateway with key, endpoint, subnets and keepalive 25 |
| Topology.HubSpokeFields | internal/s2s/hubspoke.go:31-75 | the hub names each spoke and each spoke the hub, with key, endpoint, networks and keepalive 25, under their own ports |
| Topology.HubChoice | internal/s2s/hubspoke.go:12-27 | the last marked gateway is the hub and the unmarked ones are the spokes; with none marked the first leads the rest |
| Topology.MeshReach | internal/s2s/mesh.go:14-27 | a packet for another gateway's subnet has exactly one next hop, its owner, and takes exactly one tunnel |
| Topology.MeshTunnel | internal/s2s/mesh.go:5-16 | any two different gateways have a tunnel, in both directions |
| Topology.MeshTunnels | internal/s2s/mesh.go:7-7 | n(n-1) tunnel ends, so n(n-1)/2 tunnels |
| Topology.HubSpokeReach | internal/s2s/hubspoke.go:31-75 | with at most one hub, every subnet is at most two tunnels away from every gateway |
| Topology.HubSpokeReachExactly | internal/s2s/hubspoke.go:12-27 | all subnets are reachable in two tunnels iff at most one gateway is marked as hub or there is no subnet at all |
| Topology.HubSpokeTunnel | internal/s2s/hubspoke.go:5-7 | tunnels are exactly the pairs of hub and spoke, in both directions |
| Topology.HubSpokeTunnels | internal/s2s/hubspoke.go:29-77 | 2(n-1) tunnel ends, so n-1 tunnels |
| SlidingWindow.RateLimiter.Allow | internal/core/server.go:98-132 | true iff fewer than limit calls of the address were accepted in (now - window, now] |
| SlidingWindow.RateLimiter.Cleanup | internal/core/server.go:68-95 | forgets every time that has left the window and every address without a time, and nothing that a later answer depends on |
| SlidingWindow.CountIsNumber | internal/core/server.go:104-117 | what is counted is the number of accepted calls of the address after the start of the window and not after its end |
| SlidingWindow.WindowBound | internal/core/server.go:125-131 | no half-open interval of length window holds more than limit accepted calls of an address |
| RedisLimiter.IncrKeeps | internal/core/server.go:139-147 | INCR keeps lifetimes a window apart, and the first limit calls of a lifetime are the accepted ones |
| RedisLimiter.RedisBound | internal/core/server.go:135-148 | under any interleaving of INCR and EXPIRE: at most limit accepted calls per key lifetime, at most 2 limit in any window, and a key with an expiry is gone after a window |
| RedisLimiter.AnswerExactly | internal/core/server.go:139-147 | a call is accepted iff fewer than limit calls were accepted in the lifetime of the key so far |
| RedisLimiter.ExpireExactly | internal/core/server.go:143-146 | EXPIRE lets the key live for exactly a window from then on |
| RedisLimiter.QuietIsAccepted | internal/core/server.go:143-147 | after every run an address that is quiet for a window after its EXPIRE is accepted again |
| LeaderLock.StepKeepsExactly | internal/core/server.go:556-566 | the lock of a running body is held by a session of its core, and a step keeps that iff it does not close a session in use |
| LeaderLock.MutualExclusion | internal/core/server.go:533-554 | no two cores are in the body of the same task at once |
| LeaderLock.ClosedSessionOverlaps | internal/core/server.go:556-562 | in every state with a running body, closing its locking session lets any other idle core with a session in, and both bodies overlap |
| LeaderLock.EnterExactly | internal/core/server.go:533-545 | a core enters the body iff the lock is free or held by the session it asks over, and the answer arrives |
| LeaderLock.RoundLeavesNoTrace | internal/core/server.go:533-554 | a task that unlocks over the session it locked over leaves locks and tasks as they were |
| LeaderLock.UnlockUndoes | internal/core/server.go:564-566 | unlocking undoes locking over the same session and does nothing over another |
| LeaderLock.CloseFrees | internal/core/server.go:556-562 | closing a session frees its locks and no others |
| IpAllocation.FindFree | internal/core/handler/device.go:364-371 | a free usable address, and none only if every address of the network but the three reserved ones is taken |
| IpAllocation.CandidateUsable | internal/core/handler/device.go:365-366 | the candidates are exactly the addresses of the network other than its network, gateway and broadcast address |
| IpAllocation.CollisionCharged | internal/core/handler/device.go:382-388 | a lost race is paid for by one more insert of another request since this one began |
| IpAllocation.AllocationSafe | internal/core/handler/device.go:359-409 | under every interleaving addresses are pairwise distinct and usable, and an answered request has its row; a request, however it ends, lost only as many races as others inserted meanwhile, and gives up iff these were five; one that found no address looked at a table in which every usable address was taken |
| IpAllocation.SeenWasTable | internal/core/handler/device.go:398-401 | the table such a request judged by was the devices table at some moment of the run |
| IpAllocation.RowsConserved | internal/core/handler/device.go:372-388 | in every run a row is in the table as often as it was at first and was inserted, less its deletions |
| Revocation.IssuedIsRevocable | internal/auth/jwt.go:24-30 | every token the service issues expires, so logout finds it revocable exactly as long as it validates, by default for 24 hours |
| Revocation.ValidUntilExpiry | internal/auth/jwt.go:41-57 | a signed token validates before its expiry and not from then on, without one always; an unsigned one never |
| Revocation.Auth.Add | internal/auth/blacklist.go:52-60 | the token counts as revoked from now on, also when its row exists already |
| Revocation.Auth.Cleanup | internal/auth/blacklist.go:63-68 | deletes exactly the rows that expired, and no revoked token comes back by it |
| Revocation.Auth.AcceptsExactly | internal/auth/middleware.go:51-74 | unless the request straddles the expiry, accepted iff valid, not an MFA token, and never revoked |
| Revocation.Auth.OtherStringStays | internal/auth/blacklist.go:52-60 | the list knows strings: another one with the claims of a revoked token is accepted as long as those are valid |
| Revocation.Auth.MfaNeverAccepted | internal/auth/middleware.go:58-62 | a token from before the second factor is never accepted |
| Revocation.StraddlesExactly | internal/auth/middleware.go:51-74 | straddling means that the expiry lies strictly between validation and lookup |
| Revocation.Auth.Middleware | internal/auth/middleware.go:37-80 | exact acceptance, errors of the list included; a revoked token passes only in a straddling request |
| Revocation.Auth.RefreshLookup | internal/core/handler/auth.go:352-386 | a refresh gets past the lookup iff its token is accepted there; it then holds the token |
| Revocation.Auth.RefreshFinish | internal/core/handler/auth.go:388-426 | a new 24 hour token for the same user iff the user is active, whatever was revoked since the lookup; the old one is then revoked if the insert works, with the refreshes still pending on it as its holders if that is the first time |
| Revocation.Auth.LateExchange | internal/core/handler/auth.go:369-419 | in every run: an exchanged token had been revoked before the lookup only if that straddled its expiry, and was revoked between lookup and exchange iff this request was pending on it when it was first revoked |
| Revocation.Auth.HolderExactly | internal/core/handler/auth.go:369-419 | a refresh still to finish will do so for a token revoked since its lookup iff it held the token when that was first revoked |
| Revocation.Auth.Logout | internal/core/handler/auth.go:433-460 | revokes exactly the valid tokens with an expiry, with the refreshes pending on them as holders; reports failure iff the insert fails |
| Revocation.StraddlingRequest | internal/auth/middleware.go:51-74 | the first excepted race exists |
| Revocation.TwoRefreshes | internal/core/handler/auth.go:369-419 | so does the second, for every token: two refreshes that look up before either finishes both issue a token, with no expiry near |
| Sessions.Manager.CreateSession | internal/session/manager.go:155-190 | a cached session and one new row, or no row if its write fails, other sessions untouched, and the cache stays coherent; an error that changes nothing iff Redis is down or the session has no lifetime there |
| Sessions.Manager.ValidateSession | internal/session/manager.go:193-216 | succeeds iff the session was created and not revoked and has not expired, the expiry instant aside, whether or not its row was written; a table that cannot be read leaves what the store has; what is refused is dropped from the cache, what is found is in it unless refilling fails |
| Sessions.Manager.RevokeSession | internal/session/manager.go:219-229 | the cached copy is gone at once, no other one, and the row unless its deletion fails, which is reported; the cache stays coherent |
| Sessions.Manager.RevokeAllSessions | internal/session/manager.go:232-242 | the store answers with no session of the user any more and with all others as before, also if the rows stay, which is reported |
| Sessions.CreateKeeps | internal/session/redis_store.go:33-50 | storing keeps every live Redis session in a user index that outlives it |
| Sessions.DeleteKeeps | internal/session/redis_store.go:74-81 | deleting one session keeps the others cached |
| Sessions.DeleteIndexed | internal/session/redis_store.go:74-81 | and indexed under their owners |
| Sessions.DeleteByUserKeeps | internal/session/redis_store.go:83-98 | through the index every live session of the user is found and deleted, and nobody else's |
| Sessions.LongLivedSessionSurvives | internal/session/redis_store.go:47-47 | with any lifetime above a day a session revoked with the user's others is still answered |
| Sessions.StoredUntilExpiry | internal/session/manager.go:32-34 | a stored session is answered in memory up to and including its expiry and in Redis before it; the user index is given a day |
| Lockout.Account.Login | internal/core/handler/auth.go:144-179 | exact outcome of each attempt, whether or not its UPDATE works; the stored counter is the number of wrong checks recorded since the last correct one, and the lock follows from it |
| Lockout.LockMeaning | internal/core/handler/auth.go:149-172 | locked iff five wrong checks were recorded since the last correct one, until fifteen minutes after the last record; a recorded correct one unlocks |
| Lockout.FailuresCount | internal/core/handler/auth.go:151-179 | the counter is the number of wrong checks recorded since the last correct one that was |
| Lockout.RecordedBound | internal/core/handler/auth.go:149-172 | at most 5 + D / 15 min wrong passwords are recorded in a row within any interval of length D |
| Lockout.LockoutBound | internal/core/handler/auth.go:149-172 | within any interval of length D at most 5 + D / 15 min wrong passwords are checked in a row, plus those whose record was lost |
| SiemExport.ExportEvent | internal/observability/siem.go:78-103 | each configured target is tried, also after the other failed; success iff all succeed |
| SiemExport.SendRows | internal/observability/siem.go:306-333 | the targets get exactly the rows they take up to the first refusal, the last row all of them took is returned, and up to it every row was delivered or its own scan failed |
| SiemExport.ReceivedExactly | internal/observability/siem.go:78-103 | a target has exactly what it had before and those of the rows tried that were scanned and that it took |
| SiemExport.PassCovers | internal/observability/siem.go:306-333 | no row up to the last one sent is lost: each was delivered to every target, or its own scan failed |
| SiemExport.RefusalStops | internal/observability/siem.go:323-327 | after a refused row nothing is sent and the cursor stays below it |
| SiemExport.SmoothReaches | internal/observability/siem.go:306-333 | a pass without failures reaches the end of its rows and skips none |
| SiemExport.Exporter.ExportBatch | internal/observability/siem.go:286-345 | targets and cursor after a tick are exactly those of the pass over its batch, and unchanged without targets or rows; neither cursor passes a row that some target has not received, unless that row's scan failed; the cursor never goes back and is saved iff it moved and the save works |
| SiemExport.Tick | internal/observability/siem.go:296-336 | one query and its sends over the batch of at most 500 rows: everything up to the last row sent is covered, and a tick without failures reaches the end of its batch |
| SiemExport.BatchExactly | internal/observability/siem.go:296-299 | a batch is the first 500 rows above the cursor, or all of them, and is empty only if there is none |
| SiemExport.FirstRowMoves | internal/observability/siem.go:323-332 | if the first row reaches every target the cursor moves |
| SiemExport.Exporter.NothingLost | internal/observability/siem.go:286-345 | a visible row at or below the cursor in memory or the saved one is with every target, or its own scan failed |
| SiemExport.Exporter.Restart | internal/observability/siem.go:200-239 | the saved cursor if it can be read, else zero; nothing below it is lost |
| OidcCodes.JoinSplit | internal/auth/oidc/handlers.go:283-306 | the scope of the response is the requested scope letter by letter |
| OidcCodes.SplitJoin | internal/auth/oidc/handlers.go:121-124 | splitting takes any joined list of words apart again, so it cuts at every space and nowhere else |
| OidcCodes.ScopeKept | internal/auth/oidc/handlers.go:120-137 | what is read back from a stored code is the scope that was asked for, or the client's own scopes if none was |
| OidcCodes.Provider.Authorize | internal/auth/oidc/handlers.go:76-164 | the answer is exactly that of the first check that fails; a code is stored, and handed out unless the redirect URI does not parse, iff all checks pass and drawing and storing it work, with exactly the request's data |
| OidcCodes.Provider.ConsumeAuthCode | internal/auth/oidc/store.go:87-103 | of all requests with a code one gets it, and no code that was exchanged comes back |
| OidcCodes.Provider.FinishToken | internal/auth/oidc/handlers.go:209-311 | a grant iff the request is entitled; at most one per code ever, in time, and with client, redirect URI, user, nonce, scope and challenge of its authorization request |
| OidcCodes.EntitledExactly | internal/auth/oidc/handlers.go:209-270 | a grant needs the code's client and redirect URI, the client's secret if it has one, the verifier if there was a challenge, and the time, and nothing else |
| Escaping.ReadSanitized | internal/observability/siem.go:24-33 | a reader stops exactly at the closing quote, whatever the value contains |
| Escaping.ReadBackStandard | internal/observability/siem.go:24-33 | a plain RFC 5424 reader gets the value back iff it has no line break |
| Escaping.SanitizedOneLine | internal/observability/siem.go:29-30 | a printed value contains no line break |
| Escaping.ElementRoundTrip | internal/observability/siem.go:179-187 | the four values read back exactly from the structured-data element |
| Escaping.MessageRoundTrip | internal/observability/siem.go:179-187 | behind the header a reader finds the entry and then the details |
| Escaping.MessageHead | internal/observability/siem.go:179-181 | the line begins with priority, version, time, host, application and the element's name |
| Escaping.ElementParams | internal/observability/siem.go:179-187 | a reader that knows only the grammar finds the four values under their names |
| Escaping.SanitizePlain | internal/observability/siem.go:24-33 | no other character is changed |
| Escaping.LdapEscapeFilter | internal/auth/ldap/sync.go:615-628 | the byte loop computes the escaping that the round trip is about |
| Escaping.FilterRoundTrip | internal/auth/ldap/sync.go:613-628 | a filter reader that refuses bare special bytes accepts the output and gets the input back |
| Escaping.NoBareSpecial | internal/auth/ldap/sync.go:619-622 | of the special bytes only the escaping backslash occurs in the output |
| Escaping.FilterEscapes | internal/auth/ldap/sync.go:619-622 | the five bytes are written as backslash and two lower-case hex digits |
| Escaping.FilterPlain | internal/auth/ldap/sync.go:623-624 | no other byte is changed |

## Left out

- Registration and reconnect of gateway streams: the set of connected gateways is fixed in the convergence
  model, each gateway is connected to one core, its sends succeed and its device accepts the updates.
- Site-to-site, firewall and smart-route events on the hub: the published event names no gateway, so nothing
  is claimed per gateway. PeerPropagation.Agent.RunSync covers what they do to the gateway's peers, and
  FilterTable what they do to its chains.
- WireGuard endpoints, keepalives and the kernel's move of an allowed network from one peer to another.
- Parsing of textual addresses in rules, subnets and smart routes: they are given as CIDR values.
- FirewallCompiler.BuildFirewallConfig: the SQL that yields the rows is not modelled, and a row whose scan
  fails is taken for missing.
- FilterTable.FirewallManager.Apply: iptables refuses nothing but appended lines and the MASQUERADE rule, and
  the default interface is a parameter; a device's part in connections that others opened is not modelled.
- FilterTable.FirewallManager.ApplySmartRoutes: as for Apply, iptables refuses nothing but appended lines.
- RouteTables.RouteTable.Advertise: the list of a destination is a sequence; sharing of one backing array by
  several slices is captured in Slices.CompactInPlace only.
- IpAllocation.AllocationSafe: networks with a mask of 0 or 1 bits are excluded, because the 32-bit shift of
  the statement overflows there; IPv6 networks are excluded too.
- Revocation.Auth.Middleware: a blacklist is configured; without one nothing is ever revoked.
- Revocation.Auth.RefreshFinish: signing the new token succeeds, and of its claims only user, type and times
  are modelled.
- RedisLimiter.RedisBound: INCR and EXPIRE succeed; on a Redis error the limiter lets every call through.
- LeaderLock.MutualExclusion: says nothing about progress; an unlock that lands on another session leaves the
  lock with the first one.
- Lockout.LockoutBound: attempts on one account are taken one after the other, and no other handler changes
  the counter.
- Sessions.Manager.CreateSession: a Redis pipeline takes effect as a whole or not at all.
- Sessions.Manager.ValidateSession: the store answers lookups and keeps what it was given, and Touch and the
  free-form session data are not modelled.
- Sessions.Manager.RevokeSession: deleting from the store succeeds; likewise for RevokeAllSessions.
- SiemExport.Exporter.ExportBatch: rows become visible above both cursors and the targets do not change;
  HMAC signing and the transport are not modelled.
- OidcCodes.Provider.FinishToken: the response stands for the claims of the signed tokens; groups and profile
  claims are not modelled.
- Trust scoring, posture checks, RBAC, PKI, SAML, WebAuthn, TOTP, LDAP and SCIM synchronisation, tenants,
  webhooks, mail, analytics, compliance, STUN and TURN, the web UI and the CLI: plumbing, foreign libraries,
  or easier members.
