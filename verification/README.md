# Verified model of the coolify mesh, dispatch, reconciliation and firewall logic

This project models the parts of the coolify v5 tool chain where state and time matter, and proves
what they promise. To check it: `dafny verify dfyconfig.toml` (Dafny 4.11).

**Mesh planner** (`coolify-cli/src/wireguard`). Management addresses and per-namespace subnets are
allocated first-fit around what hosts already claim (`Allocator`, `Subnet`, `Namespaces`,
`SubnetLoops`); a probed mesh is compared with the desired one (`Mesh`), the actions are filtered by
intent (`Intent`) and applied in three phases (`Apply`); the WireGuard file that is written and what a
host prints about its networks are parsed back as text by the next probe (`Text`, `WgConfig`,
`NamespaceProbe`). `PlanRuns` ties each remote step to the drift that causes it, and `PlanMeaning` says in plain values
what a plan holds, when it is empty and what applying it leaves behind. `PhaseSteps` runs the
phases command by command, the hosts taking turns in any order. `Convergence` proves that plan, apply,
probe and plan again reaches a fixpoint, and exactly when; `Retrying` that a run which failed anywhere
can simply be started again; `Extending` what adding hosts does to the old ones; `Routing` that every
address has one route; `Examples` are small meshes on which the exact conditions fail. Generated unit
texts and SHA-256 are arbitrary functions, so the results hold for every choice of them. Numbers are
32-bit with saturating addition where the code saturates.

**flux pending dispatches** (`flux/src/state.rs`, `flux/src/unix_bridge.rs`). `PendingProtocol` is a
machine over the separately locked steps of the pending map, in every interleaving, with a clock and a
record of what became of each parked sink. `Dispatching` says what holds when no id is reused and steps
come in the dispatcher's order; `Dispatchers` gives every dispatch its own program counter, lets them,
the hosts and the sweeper take turns in any order, and derives that order. `Pending` is the map and one
uninterrupted dispatch as imperative code; each call is a sequence of machine steps.

**Status and endpoints** (`coold/src/model.rs`, `coold/src/sync.rs`). `KeyedDiff` is the diff of two
keyed maps, in any order of changes. `Status` keeps a remote view in step through a held-back snapshot
and a resync flag. `Endpoints` is one table that many hosts read and write in between each other.

**Firewall store** (`coold/src/grpc/handlers.rs`). `FirewallText` is the tab-separated state file;
`Firewall` the file, two snapshots and two kernel planes, where every write or command can fail.

**base64url** (`coold/src/grpc/host_jwt.rs`): `Base64Url`, section 5 of RFC 4648 without padding.
**Revocation** (`flux/src/revocation.rs`, `flux/src/auth.rs`): `Revocation`.
**Event framing** (`coold/src/podman/events.rs`): `EventFraming`.

## Properties that are false of the code as first stated

Each of these is proved with its exact condition, and with a failing input:

- `allocate` does not detect exhaustion for a pool that ends at 255.255.255.255: `PromiseHoldsIff`; input
  `OverlapAtTop`.
- A second plan is not always empty: `Converges` says exactly when (a stale peer key on a host whose file
  is not rewritten, or a version that is not pinned); input `NightlyNeverSettles`.
- An old host can lose its address or a subnet to a newcomer that already claims it: `IpsStay`,
  `SubnetStays`, `OldHostsUndisturbed`; input `NewcomerTakesOver`.
- A dispatch can find its entry gone when it parks: `LostExactlyWhen`; input `LostIsReachable`.
- A host's write to the endpoint table can take over another host's row: `OthersKeptIff`; input
  `RowTakenOver`.
- A forced resync does not report removals again: `ResyncExact`; input `StaleAfterResync`.
- A firewall rule with a tab or a newline in a field is not read back: `StateRoundTrip`, `AllowStores`;
  input `TabIsLost`. Allowing an id again leaves the old kernel rule in place: `AllowExactIff`; input
  `OldRuleStays`.
- A revocation that expires before its token stops holding: `RevokeHoldsIff`; input `RevokedTooShort`.

The comment on `RevocationStore` says that an entry past its `expires_at` is useless because the token
fails its own expiry check; the code accepts tokens up to 60 seconds past their expiry, and what protects
there is the stream lifetime of zero (`RevocationHolds`).

## Model

| member | source | states |
|---|---|---|
| Subnet.AllocateExact | coolify-cli/src/wireguard/subnet.rs:26-88 | for distinct hosts and a prefix inside the pool it succeeds exactly when hosts number at most 2^(prefix - pool prefix); blocks are aligned, inside the pool and pairwise disjoint; a first claim (in key order) is kept, a lost one is not given back, and everyone else has the lowest free block |
| Subnet.PromiseHoldsIff | coolify-cli/src/wireguard/subnet.rs:26-88 | the above holds if and only if the pool ends below 255.255.255.255 or has a block for every host |
| Subnet.OverlapAtTop | coolify-cli/src/wireguard/subnet.rs:72-85 | any three hosts asking 255.255.255.252/30 for /31 blocks: the call succeeds and the third host is given the second one's block |
| Allocator.FirstFreeAtTop | coolify-cli/src/wireguard/subnet.rs:72-85 | what the saturating search finds when the pool ends at the last address |
| Subnet.AllocateMgmtExact | coolify-cli/src/wireguard/subnet.rs:90-148 | management addresses: success exactly when there are enough host addresses, one distinct usable address each, first claims kept (both directions), the rest first-fit; for every pool |
| Subnet.HostIpsAre | coolify-cli/src/wireguard/subnet.rs:90-148 | the addresses given out are exactly those between network and broadcast address |
| Subnet.AllocateIdempotent | coolify-cli/src/wireguard/subnet.rs:26-88 | allocating again from the result gives the result |
| Subnet.MgmtIdempotent | coolify-cli/src/wireguard/subnet.rs:90-148 | allocating again, from any claims that contain the result, gives the result |
| Subnet.MgmtExtend | coolify-cli/src/wireguard/subnet.rs:101-126 | with more hosts, an address is kept if and only if no newcomer with an earlier name claims it |
| Subnet.FlattenExact | coolify-cli/src/wireguard/subnet.rs:150-186 | when the joined keys are distinct, flattening loses and mixes up no claim |
| Subnet.FirstClaimKept | coolify-cli/src/wireguard/subnet.rs:47-69 | a host keeps the very subnet it reports if that has the right prefix length, starts inside the pool, and no host with an earlier name reports such a one at the same place |
| Namespaces.NamespacedExact | coolify-cli/src/wireguard/subnet.rs:150-186 | every (namespace, host) pair gets a block of the pool and all are disjoint; the only failures are a repeated name and too few blocks |
| Namespaces.NamespacedIdempotent | coolify-cli/src/wireguard/subnet.rs:150-186 | subnets that already are what was given out are given out again |
| Namespaces.NamespacedExtend | coolify-cli/src/wireguard/subnet.rs:150-186 | with more hosts, a pair keeps its subnet if and only if no newcomer pair with an earlier key claims it |
| SubnetLoops.SearchFree | coolify-cli/src/wireguard/subnet.rs:72-85 | the search loop finds the specified number or reports exhaustion, or reports that its candidate no longer moves, where the source loops for ever |
| SubnetLoops.KeepClaims | coolify-cli/src/wireguard/subnet.rs:47-69 | the first pass keeps exactly the first claims and the numbers they use |
| SubnetLoops.RunAllocate | coolify-cli/src/wireguard/subnet.rs:26-88 | the two loops compute the specified allocation, errors included; an input on which the source never returns is reported as such |
| SubnetLoops.RunAllocateMgmt | coolify-cli/src/wireguard/subnet.rs:90-148 | the same for management addresses |
| SubnetLoops.RunAllocateNamespaced | coolify-cli/src/wireguard/subnet.rs:150-186 | the nested loops compute the specified allocation per pair, errors included, in the same way |
| WgConfig.ConfigRoundTrip | coolify-cli/src/wireguard/config.rs:43-65 | parsing a rendered file gives back the address, the listen port and each peer's key (even ending in '='), endpoint with port, allowed addresses and keepalive, for any number of peers |
| WgConfig.WrittenPeer | coolify-cli/src/wireguard/config.rs:52-65 | in the parsed file every peer has the given key, keepalive 25, and an endpoint that ends in a colon and a 16-bit port: the given endpoint if and only if that ended so, and else the given one with the listen port |
| WgConfig.EndpointHasPort | coolify-cli/src/wireguard/config.rs:31-40 | the same of the endpoint alone, for every text |
| WgConfig.DottedForm | coolify-cli/src/wireguard/config.rs:43-50 | an address is written as its four octets in decimal, the highest first |
| WgConfig.DecimalForm | coolify-cli/src/wireguard/config.rs:43-50 | numbers are written in decimal without leading zeros |
| Text.LinesCrLf | coolify-cli/src/wireguard/reconstruct.rs:156-160 | a carriage return before a line end belongs to it |
| WgConfig.AllowedIpsRoundTrip | coolify-cli/src/wireguard/config.rs:25-29 | the comma-separated list is read back item by item |
| WgConfig.IpRoundTrip | coolify-cli/src/wireguard/reconstruct.rs:156-190 | every address is read back from its dotted form |
| WgConfig.CommentLine | coolify-cli/src/wireguard/reconstruct.rs:156-190 | a comment changes nothing, whatever endpoint it quotes |
| WgConfig.WriteConfig | coolify-cli/src/wireguard/config.rs:43-50 | the appending loop writes the specified file |
| WgConfig.ReadConfig | coolify-cli/src/wireguard/reconstruct.rs:156-190 | the line loop with its open peer reads the specified result |
| NamespaceProbe.NamespacesRoundTrip | coolify-cli/src/wireguard/reconstruct.rs:118-147 | reading the network lines among whatever else a probe prints gives, for every namespace asked about, its network if it is there, an absent one if not, and nothing else |
| NamespaceProbe.ReadNamespaces | coolify-cli/src/wireguard/reconstruct.rs:118-147 | the loop over lines and the loop that adds defaults read the specified result |
| Convergence.ProbeSees | coolify-cli/src/wireguard/reconstruct.rs:118-147 | what a probe reads about a network from the printed text is the network, or that it is not there |
| Intent.RunBuildPlan | coolify-cli/src/wireguard/plan.rs:85-405 | the loop over hosts builds the plan the theorems speak of, errors included |
| Intent.RunFilter | coolify-cli/src/wireguard/intent.rs:89-104 | the filter loop computes the specified split |
| Intent.FilterLosesNothing | coolify-cli/src/wireguard/intent.rs:89-125 | interleaving the kept and the skipped actions gives the plan back, in order |
| Intent.FilterIsExact | coolify-cli/src/wireguard/intent.rs:28-53 | an action is kept if and only if it is gentle for the intent: extending neither bumps versions nor wipes a database of an old host, and replaces its networks only if allowed; upgrading touches versions and their services only |
| Intent.SkippedFor | coolify-cli/src/wireguard/intent.rs:89-130 | what is skipped was planned, is not gentle, and is skipped for the reason given |
| PlanRuns.PlanRuns | coolify-cli/src/wireguard/apply.rs:680-687 | a remote step runs on a host if and only if the host is in the mesh and drifts in that way |
| PlanMeaning.TunnelMeans | coolify-cli/src/wireguard/plan.rs:128-215 | packages, key pair and service are planned exactly when the probe reports them missing |
| PlanMeaning.ConfigMeans | coolify-cli/src/wireguard/plan.rs:146-215 | the file is rewritten exactly when something in it is new: packages or key pair are planned, address or port is not the wanted one, or a key of another host is missing or not known yet; the service is reloaded exactly when it runs and the file is rewritten |
| PlanMeaning.PeersMean | coolify-cli/src/wireguard/plan.rs:147-174 | a peer is added for each key of another host that the file lacks, and removed for each key in it that no other host has |
| PlanMeaning.PodmanMeans | coolify-cli/src/wireguard/plan.rs:216-299 | podman, socket, forwarding and firewall are planned exactly when the reported values are not the wanted ones; the firewall is right only if it runs, denies as asked and was made from the wanted unit |
| PlanMeaning.NetworkMeans | coolify-cli/src/wireguard/plan.rs:239-269 | a network is created if and only if it is not there, and recreated if and only if it is there and not exactly as wanted |
| PlanMeaning.ServiceInputsMean | coolify-cli/src/wireguard/plan.rs:300-362 | binaries, config and schema are planned exactly when they are not installed, pinned and current, or not made from the wanted text |
| PlanMeaning.ServicesFollow | coolify-cli/src/wireguard/plan.rs:363-401 | a service is started again if and only if it is stopped or something it reads is replaced: its binary, the config, the schema or its unit |
| PlanMeaning.ResetMeans | coolify-cli/src/wireguard/plan.rs:344-358 | the database is reset if and only if another schema was there |
| PlanMeaning.SubnetsListed | coolify-cli/src/wireguard/plan.rs:270-275 | the texts are made from every namespace and its subnet, in the order of the names |
| PlanMeaning.GossipsAre | coolify-cli/src/wireguard/plan.rs:323-328 | the gossip addresses are those of the other nodes |
| PlanMeaning.NothingToDoIff | coolify-cli/src/wireguard/plan.rs:127-401 | there is nothing to do on a host if and only if every value it reports is the wanted one |
| PlanMeaning.AppliedIsRight | coolify-cli/src/wireguard/apply.rs:39-149 | after a run in which every step succeeds a probe of every host reports the wanted values: tunnel, and on nodes the networks, the firewall and the services |
| PhaseSteps.Interleaved | coolify-cli/src/wireguard/apply.rs:39-149 | in every order of turns, and with commands failing anywhere, each host has performed a prefix of its own list of commands and nothing else has happened to it |
| PhaseSteps.ProgramIsPhase | coolify-cli/src/wireguard/apply.rs:200-620 | the commands of a host, one after the other in the order of the code, have the effect the phase is specified by |
| PhaseSteps.EveryOrderEnds | coolify-cli/src/wireguard/apply.rs:39-149 | every interleaving in which all hosts get through ends in the world in which the phase is applied host by host |
| Convergence.NetworksAfter | coolify-cli/src/wireguard/apply.rs:358-394 | after phase 2 each wanted network is as allocated and no other network has changed |
| Convergence.TunnelSettles | coolify-cli/src/wireguard/apply.rs:283-350 | a probe after the phases reports the allocated address and port, and the peers of the other hosts if the file was rewritten |
| Convergence.AllocationStays | coolify-cli/src/wireguard/plan.rs:85-130 | allocating from the state after applying gives the same allocation |
| Convergence.NoNeedAgain | coolify-cli/src/wireguard/plan.rs:146-217 | afterwards no host needs its file rewritten; a stale key is left exactly where it was and the file was not rewritten |
| Convergence.Converges | coolify-cli/src/wireguard/apply.rs:39-149 | Bootstrap with all hosts probed, keys in pairs, names and keys that can be printed and read back, and every step succeeding: applying completes, and planning again gives the same allocation and no actions if and only if no host had a stale key without needing a rewrite and every coold node's versions are pinned |
| Retrying.FinishedIsApplied | coolify-cli/src/wireguard/apply.rs:39-149 | a run of all three phases in which nothing fails, in any order of turns, does what the convergence theorem is about |
| Retrying.AttemptKeeps | coolify-cli/src/wireguard/apply.rs:39-149 | wherever a run stops, no command has spoiled what a new run needs |
| Retrying.RetryConverges | coolify-cli/src/wireguard/apply.rs:39-149 | a bootstrap that stopped anywhere, its hosts anywhere in their lists, can be started again: it is planned, completes, and leaves nothing to do if and only if no host is unsettling |
| Retrying.StopsBetweenPhases | coolify-cli/src/wireguard/apply.rs:55-149 | if a command of the first phase fails anywhere the run stops and no host's tunnel file, networks, firewall or services have changed; until the second phase is through, no host's services have |
| Convergence.PlanSucceedsIff | coolify-cli/src/wireguard/plan.rs:85-117 | a plan is made if and only if the settings fit together (spelled out), no name is repeated and there are enough addresses and blocks, whatever the hosts claim |
| Convergence.RefusalMeans | coolify-cli/src/wireguard/intent.rs:55-87 | each refusal names what is wrong with the settings |
| Extending.BootstrapConverges | coolify-cli/src/wireguard/apply.rs:39-149 | a bootstrap with nothing unsettling leaves a mesh from which extending starts |
| Extending.IpsStay | coolify-cli/src/wireguard/subnet.rs:101-126 | from a converged mesh with unchanged settings, an old host keeps its management address if and only if no newcomer takes it |
| Extending.SubnetStays | coolify-cli/src/wireguard/subnet.rs:47-69 | and each of its subnets likewise |
| Extending.OldHostsUndisturbed | coolify-cli/src/wireguard/plan.rs:216-365 | the unfiltered plan recreates a network of an old host if and only if its subnet is taken, installs its firewall again only then (and then does, if hashes tell subnets apart), and never writes its schema |
| Examples.NightlyNeverSettles | coolify-cli/src/wireguard/plan.rs:81-83 | one bare host with nightly versions: every premise of the convergence theorem holds, and the plan after a complete bootstrap is not empty |
| Examples.NewcomerTakesOver | coolify-cli/src/wireguard/subnet.rs:47-69 | a settled host "b" and a newcomer "a" that reports the same address and network: every premise of the extension theorems holds, "b" loses both, and its network is to be recreated |
| Routing.RoutesToOwner | coolify-cli/src/wireguard/apply.rs:295-319 | a peer entry matches an address if and only if its host owns the address |
| Routing.OneOwner | coolify-cli/src/wireguard/subnet.rs:90-186 | with disjoint pools no address belongs to two hosts |
| Routing.UniqueRoute | coolify-cli/src/wireguard/apply.rs:295-319 | in each written file an address of another host matches that host's entry and no other, and an own address matches none |
| Routing.FileRoutesUniquely | coolify-cli/src/wireguard/config.rs:25-65 | the same read from the text of the file: an address of another host is held by the AllowedIPs of the entry with its key and of no other, and an own address by none |
| Routing.NeighbourWritten | coolify-cli/src/wireguard/state.rs:159-175 | for each other host the file has an entry with its key and the place it is reached at: as configured or else by its name up to the first colon, with its own port or else the one the file is written for |
| Examples.RouteToNeighbour | coolify-cli/src/wireguard/apply.rs:295-319 | two hosts with known keys and any claims: the premises of the routing theorem hold, and the address of one goes to its entry in the file of the other |
| PendingProtocol.SinkConservation | flux/src/state.rs:212-367 | under every interleaving of the locked steps each parked sink is at all times in exactly one place, once: its waiting entry, answered, or dropped |
| PendingProtocol.DeliverAnswersAll | flux/src/state.rs:300-328 | a deliver that finds the entry waiting answers every sink in it with the one body |
| PendingProtocol.HistoryStays | flux/src/state.rs:212-367 | what was answered or dropped stays so |
| PendingProtocol.LandedWaits | flux/src/state.rs:300-328 | a response that came before anybody parked is still there for a park less than 30 seconds later, through any sweeps, unless its own request was removed, answered again or parked on |
| PendingProtocol.LandedGoes | flux/src/state.rs:338-367 | from 30 seconds on a sweep removes it |
| PendingProtocol.CapacityBound | flux/src/state.rs:212-240 | with at most k inserts between check and insert, entries and pending inserts never exceed max + k - 1 |
| Dispatching.RunTracks | flux/src/state.rs:338-367 | with no id reused, a removal that is still to come can only hit an entry that has landed or was overdue |
| Dispatching.RemovesAndSweeps | flux/src/state.rs:338-367 | with no id reused, a step drops sinks only if it is a plain remove or a sweep of an entry that has waited at least the timeout |
| Dispatchers.AlwaysOrderly | flux/src/unix_bridge.rs:161-219 | with no id reused and hosts answering only what they were sent, in every interleaving of any number of dispatchers the steps come in the order insert, park, send; no park finds a landed body; an entry is landed only between the two steps of the deliver that answered its dispatcher |
| Dispatchers.ParkBeforeSend | flux/src/unix_bridge.rs:173-219 | under the same two assumptions, the entry of a dispatcher that has sent holds exactly its receiver; a response to it while it waits goes to that receiver and nowhere else; if it has landed the receiver has been answered |
| Dispatchers.LostExactlyWhen | flux/src/unix_bridge.rs:188-193 | a dispatcher answers 500 if and only if its entry is gone when it parks, and then at least the timeout has passed since its insert |
| Dispatchers.LostIsReachable | flux/src/unix_bridge.rs:188-193 | a run in which a sweep comes between insert and park, and the dispatcher answers 500 |
| Dispatchers.CodesMean | flux/src/unix_bridge.rs:173-214 | 503 if and only if the map is full, 409 if and only if the id is in flight, 503 later if the host cannot be sent to |
| Dispatchers.SweepSafety | flux/src/main.rs:962-978 | with no id reused, sinks are dropped only by a dispatcher that could not send, and then only those parked on its own request, or by a sweep of an entry that has waited at least the timeout |
| Dispatchers.Projects | flux/src/state.rs:212-367 | a run of dispatchers is a run of the machine of locked steps, so conservation and the capacity bound hold of it |
| Pending.DispatchIsOrderly | flux/src/unix_bridge.rs:173-219 | one uninterrupted dispatch keeps that order, for an id that is new or still in flight |
| Pending.PendingMap.InsertWaiting | flux/src/state.rs:212-240 | full, duplicate or inserted, exactly when; the new map; the machine steps it is |
| Pending.PendingMap.Park | flux/src/state.rs:260-290 | parked, already landed (and evicted) or not found, exactly when; the new map and steps |
| Pending.PendingMap.Deliver | flux/src/state.rs:300-328 | every parked sink answered; the entry gone if somebody was parked, kept as landed if nobody was |
| Pending.PendingMap.DrainExpired | flux/src/state.rs:338-367 | an uninterrupted sweep removes exactly the entries that have waited at least the timeout or whose landed body is out of time, each reported once |
| Pending.PendingMap.Dispatch | flux/src/unix_bridge.rs:161-219 | one uninterrupted dispatch: 409, 503 or forwarded, exactly when; nothing left behind when refused; the order above is kept. (With others in between it can also answer 500, see `Dispatchers.LostExactlyWhen`.) |
| KeyedDiff.Diff | coold/src/model.rs:42-64 | one change for each key that differs and no other, from both loops, in any map order |
| KeyedDiff.ApplyAt | coold/src/model.rs:42-64 | a list with one change per key does to each key what its change says, in any order |
| KeyedDiff.DiffReaches | coold/src/model.rs:42-64 | applied to what it was computed from, the diff gives what was desired |
| KeyedDiff.EmptyDiff | coold/src/model.rs:69-91 | there is nothing to change if and only if the maps are equal |
| Status.ViewAgrees | coold/src/sync.rs:371-428 | over any run of wholly accepted or wholly refused batches without a resync, with updates of other hosts in between, the receiver shows of this host exactly the snapshot's containers, removals included |
| Status.OthersUntouched | coold/src/sync.rs:403-428 | a host's updates change nothing that is shown of other hosts |
| Status.VisibleIsAll | coold/src/sync.rs:403-428 | that is all of them if and only if no container's own state is "removed" |
| Status.ViewCovers | coold/src/sync.rs:371-401 | with resyncs anywhere, the view is right about every container of the snapshot at every moment |
| Status.ResyncReportsAll | coold/src/sync.rs:371-401 | from a forced reconcile up to the first wholly accepted one, every reconcile reports every container, and that one makes the view right about all present ones, from any earlier view and snapshot, even after cut batches |
| Status.ResyncNeverLost | coold/src/sync.rs:142-206 | until such a repair, a request is still flagged, or held by a reconcile, or the snapshot is still cleared |
| Status.ResyncExact | coold/src/sync.rs:371-401 | a wholly accepted forced reconcile leaves the view equal to the truth if and only if the view showed nothing that is gone |
| Status.StaleAfterResync | coold/src/sync.rs:371-401 | a container that went away while the snapshot was cleared stays in the view |
| Status.Reporter.Reconcile | coold/src/sync.rs:371-401 | the code emits the diff, records each answer and moves the snapshot as the machine does |
| Status.Reporter.TakeRequest | coold/src/sync.rs:150-155 | a request is consumed once, and reported if there was one |
| Endpoints.BuildStatements | coold/src/sync.rs:430-469 | one statement per change, in order |
| Endpoints.OwnRowsReached | coold/src/sync.rs:208-222 | in any statement order the host's rows become what it wanted |
| Endpoints.StampsMove | coold/src/sync.rs:430-469 | a row that is written carries the time of the write; one that already was as wanted, or belongs to another host, keeps its own |
| Endpoints.OthersKeptIff | coold/src/sync.rs:430-469 | other hosts' rows stay if and only if no wanted id is another host's row |
| Endpoints.RowTakenOver | coold/src/sync.rs:430-469 | a table in which the wanted id is another host's row: that host loses it |
| Endpoints.TableIsUnion | coold/src/sync.rs:208-222 | with ids unique across hosts and one reconcile at a time per host, under every interleaving of reads and writes the table holds of each host what it last wrote, or else what was there before |
| FirewallText.StateRoundTrip | coold/src/grpc/handlers.rs:1140-1209 | the state file is read back as written if and only if no field holds a tab or a newline |
| FirewallText.TabIsLost | coold/src/grpc/handlers.rs:1140-1209 | a rule with a tab in its id is not read back |
| FirewallText.LoadedClean | coold/src/grpc/handlers.rs:1063-1076 | whatever is read from any file is free of tabs and newlines |
| FirewallText.LegacyLine | coold/src/grpc/handlers.rs:1197-1209 | a five-field line is the same rule with no id |
| Firewall.AllowStores | coold/src/grpc/handlers.rs:962-977 | the file then holds the old rules without that id and the new rule if and only if the rule is clean |
| Firewall.AllowExactIff | coold/src/grpc/handlers.rs:962-977 | from planes that hold each stored tuple once, an allow keeps them so if and only if its id was not stored before |
| Firewall.OldRuleStays | coold/src/grpc/handlers.rs:962-977 | an id allowed with port 80 and then 81: the file holds the second rule only, both planes hold both, as literal kernel rules |
| Firewall.RevokeExact | coold/src/grpc/handlers.rs:979-992 | a revoke that succeeds had the id stored, drops it, and leaves both planes exact, from any state |
| Firewall.ReconcileExact | coold/src/grpc/handlers.rs:1003-1041 | a reconcile that succeeds leaves both planes exact and the rules as they were, from any state |
| Firewall.FileHoldsLast | coold/src/grpc/handlers.rs:962-1093 | in any run, with requests failing anywhere but in writing the state file itself (which truncates first), the file holds each id at most once, with the rule it was last allowed with |
| Firewall.PlanesHoldAll | coold/src/grpc/handlers.rs:962-1093 | while requests succeed every stored rule is in both planes, and after each revoke or reconcile the planes hold exactly the stored tuples |
| Firewall.PacketsFollowRules | coold/src/grpc/handlers.rs:1095-1183 | while requests succeed both planes let through every packet (source, destination, protocol, port) some stored rule permits, the one just allowed included; after each revoke or reconcile they let through no other |
| Firewall.StartHolds | coold/src/grpc/handlers.rs:1063-1066 | a host without a state file and with empty planes meets what the run theorems ask of their start |
| Firewall.ValidIff | coold/src/grpc/handlers.rs:1211-1228 | a rule is accepted if and only if it is complete, for tcp or udp, and its port is between 1 and 65535; otherwise the first of these that is wrong is named |
| Firewall.Host.Load | coold/src/grpc/handlers.rs:1063-1076 | the rules of the state file, none if it does not exist |
| Firewall.Host.FirewallAllow | coold/src/grpc/handlers.rs:962-977 | validation and resolution errors change nothing; otherwise the writes and inserts in order, up to the first that fails; a failed write leaves junk |
| Firewall.Host.FirewallRevoke | coold/src/grpc/handlers.rs:979-992 | not found exactly when the id is not stored; otherwise the writes and the reconcile, up to the first that fails |
| Firewall.Host.FirewallReconcile | coold/src/grpc/handlers.rs:1003-1041 | the writes, flushes and restores, up to the first that fails |
| Base64Url.Decode | coold/src/grpc/host_jwt.rs:137-162 | no result if and only if a byte is outside the alphabet of RFC 4648; else floor(6n/8) bytes holding exactly the leading bits of the concatenated 6-bit positions, though the buffer wraps |
| Base64Url.Encode | coold/src/grpc/host_jwt.rs:169-187 | the bits of the bytes, filled up with zeros to whole digits |
| Base64Url.RoundTrip | coold/src/grpc/host_jwt.rs:137-187 | decoding what encodes some bytes gives those bytes |
| Base64Url.EncodeThenDecode | coold/src/grpc/host_jwt.rs:137-187 | the decoder undoes the encoder on every byte string |
| Base64Url.DecodedUnique | coold/src/grpc/host_jwt.rs:137-162 | the specification of decoding leaves one result |
| Base64Url.PushBits | coold/src/grpc/host_jwt.rs:151-158 | the pending bits are followed by the new ones although the 32-bit buffer is never masked |
| Base64Url.SextetIsPosition | coold/src/grpc/host_jwt.rs:138-147 | the arithmetic on bytes gives the position in the alphabet of Table 2 of RFC 4648, and nothing for other bytes |
| Revocation.RevocationHolds | flux/src/revocation.rs:44-149 | if each revoke of the token carries no expiry or one not before the token's, then after any prunes, restarts and other revokes each connect is refused or gets a lifetime of 0 |
| Revocation.ConnectIff | flux/src/auth.rs:142-236 | a token is let in if and only if it expired at most 60 seconds ago, lives no longer than allowed and is not denied; its stream lasts until it expires and no longer than allowed; each refusal has its reason |
| Revocation.StreamsEnd | flux/src/main.rs:557-576 | whatever happens afterwards, a stream is open exactly until its token expires, and never longer than a non-zero maximum |
| Revocation.RevokeHoldsIff | flux/src/revocation.rs:84-130 | one revoke left alone holds for good if and only if its entry is kept to the token's expiry or the token has already expired |
| Revocation.RevokedTooShort | flux/src/revocation.rs:84-130 | revoked until 5 and valid until 10: pruned at 9, the token opens a stream again |
| Revocation.RestartReads | flux/src/revocation.rs:44-73 | a restart on a file the store has written gives the unexpired entries of the map it was written from |
| Revocation.CollectListing | flux/src/revocation.rs:103-115 | the sorted listing holds exactly the map |
| Revocation.Store.List | flux/src/revocation.rs:103-115 | every entry once, in the order of the ids |
| Revocation.Store.Load | flux/src/revocation.rs:44-73 | the unexpired entries of any file; nothing from a missing or malformed one |
| Revocation.Store.RevokeJti | flux/src/revocation.rs:84-90 | memory and file after a revoke, as in the machine |
| Revocation.Store.UnrevokeJti | flux/src/revocation.rs:93-100 | memory and file after an unrevoke, and whether it was there |
| Revocation.Store.PruneExpired | flux/src/revocation.rs:118-130 | exactly the expired entries go, the file is rewritten only if some did, and their number is returned |
| EventFraming.StreamOnce | coold/src/podman/events.rs:58-91 | however the bytes are split into frames, the lines dispatched are the non-empty newline-separated pieces of the whole in order, the unterminated last one included; if the stream breaks, only the terminated ones |
| EventFraming.DrainLines | coold/src/podman/events.rs:76-83 | the inner loop takes exactly the terminated lines and leaves the rest |
| EventFraming.Continue | coold/src/podman/events.rs:66-91 | what was read first settles its own lines; what follows continues the open one |

## Left out

- HTTP, gRPC, Unix sockets, SSH, Podman, systemd and Corrosion clients: only the effect of their calls is modelled; the Corrosion table is one shared map and a transaction is atomic.
- JWT signatures, key selection, SHA-256 and JSON: a decoded token is its claims, the decoder accepts it up to 60 seconds past its expiry, a hash is an arbitrary function, the revocation file is its list of entries.
- Warning texts of the allocators, detail texts of actions beyond the database-reset mark, and the lists of action results.
- A remote command that fails is taken to have changed nothing; half-done commands are not modelled, neither in the apply phases nor in the kernel planes.
- `machine_ip`, the gateway texts, unit files, shell commands and the firewall script: functions of their inputs, or left out.
- The probe's other key=value lines, `parse_dump` and `wg show` output: a probe parses the WireGuard file and the network lines as text, and reads the rest of the host's record directly.
- The iptables and nft snapshot files are lists of rules; their text and the kernel's parsing of it are not modelled.
- The firewall's name resolution is a parameter; so is the protocol, which the source sets to tcp when a request leaves it out; listing rules is a plain filter and is left out.
- Container ids stand only as map keys in the status and endpoint models; the copy inside the record is the same id by construction. `updated_at` is kept in the table but not compared, as in the source.
- Partly accepted status batches: `ViewAgrees` and `ViewCovers` take each batch as wholly accepted or wholly refused; `ResyncReportsAll` and `ResyncNeverLost` allow cut batches.
- Failed writes of the revocation file, and two revocation calls at once.
- `Streams`, heartbeats, capability checks, tenant and host binding, `flux/src/routing.rs` and `flux/src/envelope.rs`.
- DNS, Caddy ingress, the builder, reconnect backoff, event classification, command-line flags and logging.
