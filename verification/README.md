# awg-server: a verified model

awg-server manages AmneziaWG peers. Every distinct server profile gets one kernel interface from a pool; a persisted
client store sits above the pool; an iptables chain decides which clients may talk to each other. This project models
that logic in Dafny and proves what it keeps:

* the interface pool, with every host call allowed to fail at every step (`PoolView.dfy`, `Pool.dfy`);
* the client manager as a transaction layer over pool, disk and firewall, up to whole runs of requests
  (`Agreement.dfy`, `Addresses.dfy`, `Clients.dfy`, `Transactions.dfy`, `Manager.dfy`, `Startup.dfy`, `Runs.dfy`,
  `RestorePlan.dfy`, `Firewall.dfy`);
* the IPv4 range algebra behind AllowedIPs (`Ipv4Ranges.dfy`, `CidrBlocks.dfy`, `Routing.dfy`, `Sorting.dfy`);
* encodings, grammars and counters: profile identity, uint16 ranges, the CPS tag language, protocol parameters, usage
  accounting and release versions (`ProfileIdentity.dfy`, `RangeSyntax.dfy`, `Decimal.dfy`, `Cps.dfy`, `Params.dfy`,
  `Usage.dfy`, `Versions.dfy`).

## How to read it

The pool is seen by its callers as a *view*: profile key to (port, peers with their preshared keys), plus quarantined
interfaces. Each pool method's contract is an effect predicate on the old and new view (`AddEffect`, `RemoveEffect`,
`MigrateEffect`), for every pattern of host failures; `quiet` says that no host call failed. The lemmas of `PoolView`
and `Agreement` prove what the effects mean: compensations are inverses, failed operations change nothing, and the pool
keeps serving exactly the committed clients.

`Manager.Valid` is the agreement of memory, disk, index, firewall and pool. The pool part holds until some reply reports
a failed rollback (`degraded`, which is exactly the record of such replies); everything else holds always. `Runs.Run`
carries it over any sequence of requests.

Functions that decide (which parameters are effective, which policy is accepted, which header key a client keeps, whether
an interface can be created, ...) are tied to the methods by equality, and each has a lemma that says what it decides in
terms of the request and the stored state alone; those lemmas end in `Iff`, `AsAsked`, `Keeps` or `Parts`.

## Assumptions

* Calls are serial: each public method runs as one step, as the mutexes make it.
* `Storage.Save` and restoring an iptables rule set take full effect or change nothing.
* SHA-256 does not collide: the hashed byte stream itself is the profile key.
* A freshly drawn client key differs from every key in the store.
* The manager's configured listen port is in 1024..65535. The value 0 also passes `ValidatePort`, but then an interface
  could carry port 0 and asking for its old port would mean asking for any port.
* The network address plus 2 does not pass the end of the 32-bit address space. `Addresses.LastPairWraps` shows what
  happens otherwise, and `Addresses.AllocatedAcceptable` that this is the exact condition.

## Where the code does less than one would hope

* `MigratePeer` and `AddPeer` can change the view although their error reports no failed rollback, when an *earlier*
  failed rollback left something on the target: the leftover is cleared away. For adding, the exact condition is an empty
  slot of the profile (`PoolView.AddAtomicIff`, with `PoolView.EmptySlotCleared` as a concrete case). For migrating it is
  an empty target slot, or a peer of a shared interface that is on the target as well: `PoolView.MigrationAtomicIff` proves
  both directions, `PoolView.LeftoverCleared` is a concrete case, and `MigrateEffect` says exactly what such a failure may
  leave behind. `Agreement.TargetClean` shows that neither occurs in a state without an earlier reported failure.
* Address allocation leaves the network when the network is the last /31 or one of the last two /32s (see above).
* Usage totals miss traffic: `Usage.ExactAccount` says exactly how much, and `Usage.ExactIff` on which sequences of
  growth, resets and samples nothing is missed.

## Model

| member | source | states |
|---|---|---|
| Pool.Host.CleanupPeerAfterFailedAdd | internal/awg/device.go:133-153 | a peer left behind by cleanup is always an error |
| Pool.TrackingCounts | internal/awg/pool.go:227-256 | tracking and untracking keep the peer count equal to the number of tracked keys, also for a peer tracked twice or not at all |
| Pool.SoundView | internal/awg/pool.go:563-691 | the invariant makes all ports of the view pairwise distinct and keeps interfaces plus orphans under a positive cap; with a legal base port all ports are legal |
| Pool.LedgerMatchesView | internal/awg/pool.go:667-691 | the used-port set is exactly the ports of interfaces and orphans |
| Pool.DecidedByLedger | internal/awg/pool.go:563-603 | the checks made on the pool's own fields decide what the view decides |
| Pool.Pool.TrackPeer | internal/awg/pool.go:227-243 | the peer is on the interface with its preshared key and nothing else changes |
| Pool.Pool.UntrackPeer | internal/awg/pool.go:245-256 | the peer is off the interface and nothing else changes |
| Pool.Pool.DestroyTrackedInterface | internal/awg/pool.go:258-267 | success forgets the interface and frees its port; failure changes nothing |
| Pool.Pool.ResolvePort | internal/awg/pool.go:667-691 | an explicit port is checked and refused when in use; otherwise the least free port from the base port, or exhaustion |
| Pool.Pool.GetOrCreateInterface | internal/awg/pool.go:563-657 | finds or creates the interface with the decided port; a failure leaves the view alone, or quarantines the interface it could not destroy and says so |
| Pool.Pool.AbandonInterface | internal/awg/pool.go:269-272 | a half-made interface is destroyed, or quarantined with its port reserved |
| Pool.Pool.AddPeerLocked | internal/awg/pool.go:191-225 | for every failure pattern: added, or unchanged, or an empty interface cleared, or a reported failed rollback |
| Pool.Pool.AddPeer | internal/awg/pool.go:169-189 | AddEffect: success places the peer at the decided port; whatever fails, other profiles and every other peer keep interface, port and preshared key; without host failures the view alone decides the outcome |
| Pool.Pool.RemovePeer | internal/awg/pool.go:274-319 | RemoveEffect: the peer is gone, and its interface when it was the last one, or the view is exactly as before |
| Pool.Pool.MigratePeer | internal/awg/pool.go:321-449 | MigrateEffect: success moves exactly this peer; an error without a failed rollback leaves the view as it was, or without what an earlier failed rollback left on the target; whatever fails, every other peer keeps interface, port and preshared key; without host failures the view decides the outcome |
| Pool.Pool.RollbackSharedMigration | internal/awg/pool.go:451-463 | the new peer is rolled back and the old route restored, or a failure is reported |
| Pool.Pool.RollbackNewPeerLocked | internal/awg/pool.go:465-484 | success takes the peer off again, with its interface when that was new |
| Pool.Pool.LeaveSource | internal/awg/pool.go:414-449 | the last step of a shared migration; the branch that destroys the source interface is unreachable |
| Pool.Pool.PortForProfile | internal/awg/pool.go:501-515 | the port of the profile's interface in the view, or why there is none |
| Pool.Pool.Close | internal/awg/pool.go:521-548 | without host failures nothing is left; the masquerade rule goes only when every interface and orphan is gone |
| PoolView.AddThenRemove | internal/clients/manager.go:409-416 | adding a new peer and removing it restores the view |
| PoolView.RemoveThenAdd | internal/clients/manager.go:752-759 | removing a peer and adding it back at its interface's port restores the view |
| PoolView.MigrateThenBack | internal/clients/manager.go:623-640 | migrating and migrating back at the old port with the old preshared key restores the view: shared, sole and same-key cases |
| PoolView.RoomToReturn | internal/awg/pool.go:486-499 | after a sole peer's interface is gone, its port is free and the cap leaves room to put it back |
| PoolView.PutBack | internal/awg/pool.go:486-499 | putting a sole peer back restores the view, and only a host failure prevents it |
| PoolView.SoleRolledBack | internal/awg/pool.go:358-400 | the failed move of a sole peer, with its fallback, has the effect promised for a migration |
| PoolView.SharedMoved | internal/awg/pool.go:402-449 | adding to the target first and leaving the source afterwards is the same move |
| PoolView.MigrationHonoursPort | internal/awg/pool.go:321-449 | a migration that moves something ends on the explicit port asked for |
| PoolView.MigrationMovesOnePeer | internal/awg/pool.go:321-449 | the peer ends on the target alone, and every other peer keeps its interface, port and preshared key |
| PoolView.AddAtomicIff | internal/awg/pool.go:191-225 | a failed add without a failed rollback changes nothing if and only if the profile's slot was not left empty |
| PoolView.EmptySlotCleared | internal/awg/pool.go:191-225 | a concrete empty slot that such a failed add clears away |
| PoolView.MigrationAtomic | internal/awg/pool.go:321-449 | with nothing left over on the target, no error without a failed rollback changes the view |
| PoolView.RolledBackEffect | internal/awg/pool.go:358-449 | every failed migration whose rollbacks succeed leaves the view as it was, or without the leftover: sole, shared and last-step failures |
| PoolView.MigrationAtomicIff | internal/awg/pool.go:358-484 | a failed migration whose rollbacks succeed can change the view if and only if the target was left empty, or the peer of a shared interface was left on the target |
| PoolView.LeftoverCleared | internal/awg/pool.go:402-412 | a concrete view where finding the target and failing to add to it clears the empty target away without a report |
| PoolView.PutBackBeside | internal/awg/pool.go:392-397 | putting a sole peer back after an empty target was cleared restores everything else |
| PoolView.ReportsNeedFailures | internal/awg/pool.go:169-499 | without host failures no operation reports a failed rollback |
| PoolView.FirstFree | internal/awg/pool.go:667-691 | the least free port from a start up to 65535, and none only when all are used |
| PoolView.CreateDecisionIff | internal/awg/pool.go:563-603 | an interface can be created exactly when the port asked for is legal and free (or some port from the base up is) and the cap leaves room; it gets that port, or the least free one |
| PoolView.MigrateChecksIff | internal/awg/pool.go:321-356 | a migration may start exactly when the peer is on the source and neither another port of the target nor a shared interface is in the way |
| PoolView.RemoveChecksIff | internal/awg/pool.go:274-294 | a peer can be removed exactly when it is on the interface of its profile |
| RestorePlan.ValidateRestoreInterfaces | internal/clients/manager.go:1102-1139 | accepts exactly the entry lists that replaying AddPeer on an empty pool accepts, and plans the same ports |
| RestorePlan.ResolveRestorePort | internal/clients/manager.go:1141-1161 | the planner's port for one entry, searched from the moving cursor |
| RestorePlan.FirstFreeSkips | internal/clients/manager.go:1129-1135 | searching from the cursor finds what searching from the base port finds, when all between is used |
| RestorePlan.PlannerDecides | internal/clients/manager.go:1111-1128 | the planner's checks, made in another order, decide what the pool decides |
| RestorePlan.PlanStep | internal/clients/manager.go:1111-1136 | one planning step accepts exactly when one AddPeer does, and both keep the same port map |
| RestorePlan.RestorePeers | internal/clients/manager.go:272-276 | success is the replayed view; without host failures it succeeds exactly when the replay does |
| Agreement.PeersAreEntries | internal/clients/manager.go:339-769 | in an agreeing pool the tracked peers are exactly the clients' own |
| Agreement.TrackedOnce | internal/clients/manager.go:339-769 | a client's peer is tracked under its own profile and no other |
| Agreement.AddServes | internal/clients/manager.go:406-418 | a successful add extends the agreement by the new client, explicit port included |
| Agreement.AddRefused | internal/clients/manager.go:409-411 | a failed add without a failed rollback leaves the pool exactly as it was |
| Agreement.AddUndone | internal/clients/manager.go:412-416 | removing a just-added peer restores the pool exactly, and only a host failure prevents it |
| Agreement.RemoveServes | internal/clients/manager.go:749-754 | a successful removal takes exactly that client out of the agreement; a failed one changes nothing |
| Agreement.RemoveUndone | internal/clients/manager.go:755-759 | adding a removed peer back at its current port restores the pool exactly, and only a host failure prevents it |
| Agreement.MoveServes | internal/clients/manager.go:623-640 | a successful migration replaces exactly that client's profile in the agreement |
| Agreement.MoveRefused | internal/clients/manager.go:628-630 | a failed migration without a failed rollback leaves the pool exactly as it was |
| Agreement.RefusedForReason | internal/awg/pool.go:321-449 | without host failures a migration is refused only by its checks or for want of a port or place, and an add only for the latter |
| Agreement.MoveUndone | internal/clients/manager.go:631-635 | the reverse migration at the old port restores the pool exactly, and only a host failure prevents it |
| Agreement.MoveBackAllowed | internal/clients/manager.go:631-632 | the reverse migration passes every check and gets the old port: new target, shared target and same-key port change |
| Agreement.TargetClean | internal/awg/pool.go:321-449 | in an agreeing pool every migration target is clean |
| Agreement.RestoredAgrees | internal/clients/manager.go:250-302 | a replayed list of clients is served exactly |
| Addresses.AllocateIP | internal/clients/manager.go:1297-1315 | the least free non-server address from the first candidate up, and none only when none is left |
| Addresses.AllocatedAcceptable | internal/clients/manager.go:1163-1191 | an allocated address is one a restart accepts if and only if network + 2 does not wrap |
| Addresses.LastPairWraps | internal/clients/manager.go:1304-1312 | in the last /31 the first allocation is 0.0.0.0, outside the network |
| Addresses.NoneLeft | internal/clients/manager.go:1304-1314 | when allocation fails, every acceptable address other than network + 1 is in use |
| Clients.MarkAndSweepHeaderKeys | internal/clients/manager.go:1234-1254 | keeps exactly the default and the referenced keys |
| Clients.SweepSafe | internal/clients/manager.go:1234-1254 | sweeping changes no client's effective profile and leaves exactly the default plus the referenced keys |
| Clients.EntriesKept | internal/clients/manager.go:902-921 | as long as a client's own key stays, its effective profile stays |
| Clients.ReferenceStored | internal/clients/manager.go:1086-1100 | every key reference of a committed 3.1 client exists |
| Clients.FencedMeaning | internal/awg/firewall.go:76-139 | the active chain accepts no pair at all, or exactly the pairs of committed clients in one group |
| Clients.CommittedRenders | internal/awg/firewall.go:84-110 | committed state always passes the checks of rendering |
| Clients.StoredEntry | internal/clients/manager.go:902-921 | a committed client has a valid effective profile |
| Clients.SharedInterfaceIff | internal/awg/profile.go:149-184 | two committed clients share an interface exactly when their effective profiles have the same identity |
| Clients.ProfilePort | internal/clients/manager.go:971-976 | the effective port is the stored one when it is set, and the version's default otherwise |
| Clients.ExplicitPortServed | internal/clients/manager.go:406-418 | a committed client that sets a port is served at exactly that port and nowhere else |
| Clients.DifferentOverridesApart | internal/clients/manager.go:971-1005 | clients that set different J, S, H, range or toggle values, or have different versions, never share an interface |
| Clients.DifferentKeysApart | internal/clients/manager.go:1086-1100 | 3.1 clients on different header keys never share an interface |
| Clients.GroupsDecide | internal/awg/firewall.go:112-139 | with the clients' chain installed two of them may talk exactly when they are in one group |
| Clients.NewcomerIsolated | docs/api.md:271 | a new client talks to nobody outside its group |
| Clients.AppendIndexed | internal/clients/manager.go:887-892 | committing a new client keeps index and address set exact |
| Clients.ReplaceIndexed | internal/clients/manager.go:887-892 | committing an updated client keeps index and address set exact |
| Clients.DropIndexed | internal/clients/manager.go:761-763 | deleting a client keeps index and address set exact |
| Transactions.PlannedSound | internal/clients/manager.go:343-403 | the planned client satisfies every rule of committed state and collides with no identifier, address or key |
| Transactions.PlannedParts | internal/clients/manager.go:343-403 | the planned client holds what was asked for: name, version, group or its own one, parameters, routing, drawn keys, least free address, default header key for 3.1 |
| Transactions.PlannedIff | internal/clients/manager.go:343-396 | a request is accepted exactly when its name is new and legal, its version, parameters and routing are acceptable, the default key is there for 3.1, keys were drawn and an address is free |
| Transactions.DefaultGroupsDiffer | internal/clients/manager.go:1256-1258 | the default group is "peer:" and the identifier, so different clients get different ones |
| Transactions.NormalizedStores | internal/clients/manager.go:353-356 | what is stored keeps every field given, ranges written canonically |
| Transactions.SettableAsGiven | internal/clients/manager.go:902-921 | given parameters are usable exactly when their stored form is |
| Transactions.CreatedCommitted | internal/clients/manager.go:402-404 | the prospective state after a create is committed-quality, holds exactly the needed keys, and only adds one effective profile |
| Transactions.CreatedParts | internal/clients/manager.go:402-404 | a create appends the client and changes nothing else but the set of header keys |
| Transactions.ResolvedNormal | internal/clients/manager.go:507-540 | a resolved update stores parameters and routing in normal form |
| Transactions.ResolvedAsAsked | internal/clients/manager.go:552-568 | what an update sets is stored and what it does not set stays; the header key stays unless the version becomes 3.1 or the parameters are reset, which take the default, and 2.0 has none |
| Transactions.UpdateIff | internal/clients/manager.go:507-596 | an update is accepted exactly when it sets something and the resulting version, parameters and routing are acceptable |
| Transactions.ClientOnlyStays | internal/clients/manager.go:597-612 | an update of neither version nor parameters changes no identity and no port |
| Transactions.UpdatedCommitted | internal/clients/manager.go:548-596 | the prospective state after an update is committed-quality, holds exactly the needed keys, and changes only this client's effective profile |
| Transactions.UpdatedParts | internal/clients/manager.go:571-593 | an update replaces the client, stores the new header key, and changes nothing else but the set of header keys |
| Transactions.DeletedCommitted | internal/clients/manager.go:735-747 | the prospective state after a deletion is committed-quality, holds exactly the needed keys, and drops only this client's profile |
| Transactions.DeletedParts | internal/clients/manager.go:735-747 | a deletion takes the client out and changes nothing else but the set of header keys |
| Transactions.RegroupedCommitted | internal/clients/manager.go:679-682 | regrouping changes no effective profile and keeps the state committed-quality |
| Transactions.RegroupedSet | internal/clients/manager.go:679-682 | listed clients get the group and keep the rest; every other client is untouched |
| Transactions.RegeneratedNormal | internal/clients/manager.go:463-500 | for every draw, regenerated parameters normalize and make a valid profile of the same version |
| Transactions.RegeneratedProfile | internal/clients/manager.go:490-500 | the regenerated client's profile resolves in the swept store, with its new key |
| Transactions.RegeneratesAsAsked | internal/clients/manager.go:463-500 | regeneration puts the drawn headers and padding over the stored parameters, gives a 3.1 client a header key that was not in the store, and changes nothing else |
| Transactions.CheckGroupRequest | internal/clients/manager.go:655-677 | refuses empty lists and groups, repeated and unknown identifiers, in that order |
| Transactions.GroupRefusalIff | internal/clients/manager.go:655-677 | a group request is accepted exactly when it names clients and a group, none twice and all of them known |
| Transactions.RegroupStored | internal/clients/manager.go:660-682 | exactly the listed clients get the group, at the positions where they are stored |
| Manager.Manager.CreateClient | internal/clients/manager.go:339-426 | refused with nothing changed, or committed holding what was asked for, or failed with data and pool as before; a client without a group is isolated from everybody else; every failure has a failed call or an unavailable port or place behind it, and after blocking leaves inter-client traffic blocked |
| Manager.Manager.AddAndSave | internal/clients/manager.go:409-416 | add, save, and remove again on a failed save: the pool gains exactly the new client or is as before, or a failed rollback is reported, which takes a host failure |
| Manager.Manager.RemoveAndSave | internal/clients/manager.go:752-759 | remove, save, and add back at the current port on a failed save: the pool loses exactly the client or is as before, or a failed rollback is reported, which takes a host failure |
| Manager.Manager.ApplyUpdate | internal/clients/manager.go:542-649 | data becomes exactly the planned update or stays; other clients' profiles stay; only a change of identity or port needs the guard and touches the pool; every failure has a reason; compensation restores the pool or is reported |
| Manager.Manager.MoveAndSave | internal/clients/manager.go:619-640 | migrate, save, and migrate back on a failed save: the pool is moved or as before, or a failed rollback is reported, which takes a host failure; the current port is always known unless a failed rollback was reported before |
| Manager.Manager.UpdateClient | internal/clients/manager.go:428-443 | the updated client holds what was asked for and keeps its header key unless the version or a reset changes it; an update of neither version nor parameters touches neither pool nor profiles, needs no guard and can only fail to be saved |
| Manager.Manager.NewHeaderKey | internal/clients/manager.go:1212-1232 | a usable key under an identifier that is not in use |
| Manager.Manager.DrawLegacy | internal/clients/manager.go:462-487 | drawn 2.0 parameters fit and change the profile's identity |
| Manager.Manager.RegenerateAWGParams | internal/clients/manager.go:445-505 | success stores fresh valid parameters over the old ones and a fresh key for 3.1, and nothing else changes; failure changes no data and is never about the parameters |
| Manager.Manager.DeleteClient | internal/clients/manager.go:709-769 | exactly this client is removed from data, index and pool, or data and pool are as before; the port lookup fails only after a reported failed rollback |
| Manager.Manager.UpdateLANGroup | internal/clients/manager.go:651-707 | exactly the listed clients change group and nothing else does, with traffic blocked until the saved groups are rendered; the pool is not touched |
| Manager.Manager.SetServerPrivateKey | internal/clients/manager.go:872-885 | the key changes in memory and on disk together or in neither |
| Manager.Manager.BlockLAN | internal/clients/manager.go:1269-1275 | success installs the drop-only chain, failure leaves the chain alone |
| Manager.Manager.RebuildLAN | internal/clients/manager.go:1277-1283 | success installs the chain of the committed clients, failure leaves the chain alone |
| Startup.NormalIsSound | internal/clients/manager.go:146-226 | a restored client satisfies every rule of committed state, keeps identifier, address, keys, version and header key, keeps its group or gets "peer:" and its identifier, and stores its parameters and routing in normal form |
| Startup.NormalClientIff | internal/clients/manager.go:138-226 | a stored client can be restored exactly when its identifier, address, parameters, routing and key reference are in order |
| Startup.DefaultsAccepted | internal/clients/manager.go:1031-1058 | with stored values that fit 3.1 the configured defaults need no headers or padding, and are never the reason to refuse a store |
| Startup.RestorableIff | internal/clients/manager.go:80-248 | with such defaults a store is restored exactly when its keys, its clients and their ports are in order |
| Startup.PrepareRestorePlan | internal/clients/manager.go:80-248 | accepts exactly the readable stores whose interfaces can all be opened, yields committed-quality data, and puts in force the stored default key and the configured parameters with the stored generated 3.1 headers and padding |
| Startup.CommittedReadable | internal/clients/manager.go:80-248 | a committed store needs no normalization, so after a restart only the ports can be in the way |
| Startup.NewManagerFromRestorePlan | internal/clients/manager.go:250-302 | a manager that starts is valid, serves every stored client and has its chain installed; it starts whenever the replay is possible and neither host, disk nor firewall fails |
| Startup.Start | internal/clients/manager.go:80-302 | only a restorable store is started, and a restorable store is started unless host, disk or firewall fails |
| Runs.Run | internal/clients/manager.go:339-769 | over every run of requests the manager stays valid; while no reply reports a failed rollback the pool serves exactly the committed clients; such a reply takes a host failure |
| Runs.Serve | internal/clients/manager.go:80-769 | from a restart on any store and through any run: a manager that started is valid, and while no host call fails the pool serves exactly the committed clients |
| Firewall.RenderLANFirewall | internal/awg/firewall.go:76-139 | renders exactly when addresses are valid, inside the network and distinct and groups are named |
| Firewall.RenderableIff | internal/awg/firewall.go:84-110 | in plain terms: 32-bit addresses of the network, all different, and a group for everyone |
| Firewall.ChainMeaning | internal/awg/firewall.go:112-139 | under first-match evaluation the chain accepts exactly the pairs of peers in one group |
| Firewall.NoPeersBlockAll | internal/clients/manager.go:1269-1275 | the chain without peers accepts nothing |
| Firewall.Table.ApplyLANIsolation | internal/awg/firewall.go:19-43 | the rendered chain is installed or the old one stays; renderable peers fail only for the host |
| Ipv4Ranges.CanonicalUnique | internal/clients/routing_ranges.go:42-72 | sorted, disjoint, non-adjacent range lists of one set are equal |
| Ipv4Ranges.UnionMeaning | internal/clients/routing_ranges.go:42-72 | the reference union is canonical and denotes the same set |
| Ipv4Ranges.UnionLength | internal/clients/routing_ranges.go:42-72 | the union needs no more ranges than it was given |
| Ipv4Ranges.DifferenceMeaning | internal/clients/routing_ranges.go:74-122 | the reference difference is canonical and denotes base minus excluded |
| Ipv4Ranges.MergeIPv4Ranges | internal/clients/routing_ranges.go:42-72 | arbitrary unsorted ranges become the canonical list of the same set, no longer than the input |
| Ipv4Ranges.CarveRange | internal/clients/routing_ranges.go:83-119 | the two-pointer pass over one base range emits exactly what no exclusion covers |
| Ipv4Ranges.SubtractIPv4Ranges | internal/clients/routing_ranges.go:74-122 | canonical, exactly base minus excluded, at most as many ranges as both inputs together |
| CidrBlocks.Nested | internal/clients/routing_ranges.go:124-158 | aligned blocks are nested or disjoint |
| CidrBlocks.BlocksShape | internal/clients/routing_ranges.go:124-158 | the emitted blocks are aligned, ascending and disjoint, inside the address space |
| CidrBlocks.BlocksMembers | internal/clients/routing_ranges.go:124-158 | the emitted blocks denote exactly the ranges |
| CidrBlocks.EmittedIffMaximal | internal/clients/routing_ranges.go:124-158 | a block is emitted if and only if it is a maximal aligned block inside the set |
| CidrBlocks.Minimal | docs/api.md:646 | no list of aligned blocks with the same union is shorter |
| CidrBlocks.EmittedDeterministic | docs/api.md:646 | canonical lists of one set are decomposed into one and the same list |
| CidrBlocks.GreedyCount | internal/clients/routing_ranges.go:124-158 | at most 62 blocks per range |
| CidrBlocks.BlocksCount | internal/clients/routing_ranges.go:124-158 | at most 62 blocks per range over the whole list |
| CidrBlocks.BlockSize | internal/clients/routing_ranges.go:134-147 | the largest aligned power of two that starts at the cursor and fits |
| CidrBlocks.RangeToPrefixes | internal/clients/routing_ranges.go:127-155 | one range is decomposed greedily without passing 2^32 |
| CidrBlocks.IPv4RangesToPrefixes | internal/clients/routing_ranges.go:124-158 | the loops emit the reference decomposition of the merged ranges |
| CidrBlocks.EmittedSmallest | docs/api.md:646 | that decomposition is aligned, ascending and disjoint, denotes exactly the given ranges, is not longer than any other exact list, and has at most 62 blocks per range |
| Routing.PrefixRangesCovers | internal/clients/routing_ranges.go:15-40 | the ranges denote exactly the listed IPv4 prefixes; other entries are skipped |
| Routing.NormalizeIPv4Prefixes | internal/clients/routing.go:138-162 | masked prefixes in order of first occurrence, or the first entry that is refused |
| Routing.RemainingMeaning | internal/clients/routing.go:164-180 | the computed ranges are canonical and denote base(mode) minus the exclusions |
| Routing.ComputedIPv4AllowedIPs | internal/clients/routing.go:164-180 | the blocks of what remains, or why there are none or too many |
| Routing.NormalizeRouting | internal/clients/routing.go:38-98 | accepts exactly the policies the documentation allows: full with empty lists, bypass with exclusions only, split with routes, short IPv4 lists, and exclusions that leave something few enough blocks can cover |
| Routing.NormalizeAccepts | internal/clients/routing.go:38-98 | acceptance as an if-and-only-if on the policy; the mode is kept, and full is stored as nothing |
| Routing.RemainderComputed | internal/clients/routing.go:164-180 | computing succeeds exactly when an address remains and at most 16384 aligned blocks can cover what remains |
| Routing.MaskedUnique | internal/clients/routing.go:138-162 | masking gives the only aligned block of that length that contains the address |
| Routing.NormalizeIdempotent | internal/clients/routing.go:38-98 | normalizing a normal form changes nothing |
| Routing.NormalizePreservesSet | internal/clients/routing.go:38-98 | normalization keeps the denoted address set |
| Routing.RoutingAllowedIPs | internal/clients/routing.go:112-136 | a stored policy renders; the list denotes exactly the addresses of the policy, and only split drops the IPv6 default route |
| Routing.NormalizedRenders | internal/clients/routing.go:112-136 | every normalized policy renders; its IPv4 part denotes base(mode) minus exclusions and only split drops the IPv6 default |
| Routing.RenderedMinimal | docs/api.md:646 | with exclusions no list of aligned blocks for the same addresses is shorter than the rendered one |
| RangeSyntax.ParsePrintedRange | internal/config/range.go:24-94 | printing a range and parsing it gives the canonical form |
| RangeSyntax.ParseIff | internal/config/range.go:24-57 | exactly off, one 16-bit decimal, and two in order with a dash are read |
| RangeSyntax.PrintsAlike | internal/config/range.go:69-94 | two ranges print alike exactly when their canonical forms are the same |
| RangeSyntax.CanonicalStable | internal/config/range.go:69-75 | the canonical form is stable |
| Decimal.ValueOfPrint | internal/config/range.go:85-94 | the printed decimal denotes the number |
| ProfileIdentity.HeadDecodes | internal/awg/profile.go:186-219 | one encoded field, fixed-width or length-prefixed, is read in one way only |
| ProfileIdentity.UniqueDecoding | internal/awg/profile.go:149-219 | two streams of one layout are equal only for equal fields |
| ProfileIdentity.SameKeyIffSameIdentity | internal/awg/profile.go:149-184 | two validated profiles have one hash pre-image if and only if they agree on version, J and S values, parsed H ranges, canonical 3.1 ranges, toggles and header key |
| ProfileIdentity.CanonicalFormSameKey | internal/awg/profile.go:98-112 | canonicalizing the ranges does not change the identity |
| Cps.ValidateCPS | internal/awg/validation.go:286-316 | accepts a string if and only if it is a concatenation of well-formed tags of total size at most 1280, although it stops at the first excess |
| Cps.AcceptedIffContinues | internal/awg/validation.go:286-316 | stopping early on the running total agrees with the full sum |
| Cps.AcceptedBodyIsTag | internal/awg/validation.go:318-362 | an accepted tag body is the body of a well-formed tag of that size |
| Cps.TagBodyAccepted | internal/awg/validation.go:318-362 | the body of every well-formed tag is accepted with its size |
| Cps.RenderedAccepted | internal/awg/validation.go:286-316 | rendering any list of well-formed tags within the limit is accepted |
| Cps.SameTextSameSize | internal/awg/validation.go:286-362 | two tag lists with the same text have the same total size |
| Params.ParseHeader | internal/awg/validation.go:241-265 | a parsed header is an ordered range of 32-bit values |
| Params.ParseHeaderIff | internal/awg/validation.go:241-284 | exactly one 32-bit decimal, or two in order with a dash, are headers |
| Params.ValidProfileIff | internal/awg/validation.go:164-239 | validation accepts exactly the complete profiles: numeric limits, disjoint headers, packets of the tag language, and the fields of the version |
| Params.CheckHeaders | internal/awg/validation.go:184-236 | accepts exactly four parsing, pairwise disjoint header ranges |
| Params.SetFieldsWin | internal/clients/manager.go:931-1027 | a field that the override sets is the effective one, field by field |
| Params.UnsetFieldsInherit | internal/clients/manager.go:923-1027 | a field that the override leaves unset is the default's, field by field |
| Params.NormalizedKeeps | internal/awg/validation.go:43-158 | the stored override keeps every field, ranges written canonically, and is nothing when it sets nothing |
| Params.StoredFormMerges | internal/clients/manager.go:923-1029 | storing the normal form of an override leaves the effective profile as it was, ranges canonical |
| Params.SpanInTier | internal/awg/params.go:421-435 | a generated 2.0 header prints, parses back, and stays in its tier |
| Params.ValueInTier | internal/awg/params.go:437-444 | a generated 3.1 header prints, parses back, and stays in its tier |
| Params.DrawReaches | internal/awg/params.go:446-468 | every value of the interval is drawn for some random word |
| Params.HeadersReach | internal/awg/params.go:421-444 | every value of a tier is some draw's 3.1 header, and every pair around its middle some draw's 2.0 header |
| Params.TieredHeadersValid | internal/awg/validation.go:218-236 | headers from the four tiers parse and are pairwise disjoint |
| Params.DrawPadding | internal/awg/params.go:292-335 | S1 and S2 are in range and S2 differs from S1 + 56 |
| Params.GenerateParams | internal/awg/params.go:292-335 | generated 2.0 values fit the version for every draw |
| Params.GenerateParamsV31 | internal/awg/params.go:353-401 | generated 3.1 values fit the version for every draw, with padding at least 12 |
| Params.OverlayValid | internal/awg/params.go:337-351 | laying generated values over a valid override gives a valid override |
| Params.RegenerationValid | internal/clients/manager.go:463-500 | overlaid on a client whose effective profile is valid, generated values give a valid effective profile through print, parse and merge |
| Usage.Collector.CollectDumps | internal/usage/collector.go:94-162 | all reachable rows are absorbed; a required snapshot that is incomplete changes nothing |
| Usage.Collector.UpdatePeer | internal/usage/collector.go:124-158 | one row is absorbed by the drop rule, also for a peer not seen before |
| Usage.GatheredRows | internal/usage/collector.go:94-119 | exactly the rows of the dumps that succeeded are gathered |
| Usage.HandshakeIsLastSeen | internal/usage/collector.go:156-158 | a peer's handshake becomes the last one seen and stays when none is seen |
| Usage.Collector.WithRequiredSnapshot | internal/usage/collector.go:82-92 | the action runs once after a complete snapshot and not at all after an incomplete one |
| Usage.ExactAccount | internal/usage/collector.go:124-153 | true traffic is the total, plus exactly what samples could not see, plus what is not sampled yet |
| Usage.NeverOverCounts | internal/usage/collector.go:124-153 | a total never exceeds the true traffic |
| Usage.TotalsGrow | internal/usage/collector.go:150-151 | totals never decrease |
| Usage.LossFreeIff | internal/usage/collector.go:137-147 | nothing is lost if and only if every gap between samples has no reset, or nothing grew before its last reset and the growth since then shows as a drop |
| Usage.ExactIff | internal/usage/collector.go:137-153 | after a sample the total is the true traffic if and only if every sample so far saw its whole gap in that sense |
| Usage.GapMeaning | internal/usage/collector.go:124-153 | what the account holds of the current gap is what the events of that gap say |
| Usage.PromptResetsExact | internal/usage/collector.go:137-153 | with one reset per gap at most, right after a sample and showing as a drop, totals are exact |
| Usage.CollectionEffect | internal/usage/collector.go:124-158 | a collection absorbs the one row of a listed peer and leaves every other peer alone |
| Usage.StatsMeterHistory | internal/usage/collector.go:94-162 | each peer's entry is the account of that peer's history alone |
| Usage.NobodyOvercharged | internal/usage/collector.go:94-162 | for any interleaving no peer is charged for more than it carried |
| Versions.ParseStableVersion | internal/update/update.go:239-259 | exactly three decimal components without leading zeroes |
| Versions.ParseText | internal/update/update.go:239-259 | a stable triple parses back from its text |
| Versions.ParsedIsText | internal/update/update.go:239-259 | only texts of stable triples parse |
| Versions.PartOrderNumeric | internal/update/update.go:221-234 | length first and then text is the numeric order of one component |
| Versions.OrderIsPrecedence | internal/update/update.go:211-237 | the comparison is numeric precedence on triples, and equal only for equal versions |
| Versions.OrderIsTotal | internal/update/update.go:211-237 | the comparison is antisymmetric and transitive |
| Versions.CompareStableVersions | internal/update/update.go:211-237 | the loop computes that order, and fails exactly for unparsable versions |
| Versions.ValidateUpgrade | internal/update/update.go:418-430 | accepts exactly newer targets; a development build is older than everything |
| Versions.UpgradeIff | internal/update/update.go:198-209 | upgrades go exactly to newer versions, with or without a v before the installed one; dev takes any |
| Versions.Installation.Apply | internal/update/update.go:288-390 | the installed version becomes the checked newer release or stays; when nothing fails it succeeds exactly for a stable, matching release newer than the running and the installed version |
| Versions.Installation.ApplyAll | internal/update/update.go:288-390 | a run of updates installs newer versions only |
| Versions.RunsIncrease | internal/update/update.go:288-390 | every version of a run is strictly newer than every stable one before it |

## Left out

- Pool: interface records are values in the map, not shared pointers; the model does not capture two references to one record.
- Kernel state after a failed host call: the properties are about the pool's own bookkeeping.
- Restarting from every committed state: automatically assigned ports are not persisted, so a later explicit port can collide with a replanned one.
- Startup.PrepareRestorePlan: the generation of a missing 3.1 section, unset or unknown version texts, key-pair consistency and textual address normalization are not modelled; the change flag is the difference of the values.
- Manager.Manager.CreateClient: private keys and creation times are not part of a client.
- DNS settings of parameters (`DNS`, `DNSMode`, `DNSServers`): client-only text that takes no part in identity or pooling.
- Rendering of client and server configuration files, and endpoint handling.
- Text parsing of IP addresses and CIDRs: addresses are numbers and prefixes are pairs; what the parser refuses is one case.
- The FORWARD hook and the iptables-restore text: the chain is a list of rules.
- JSON storage format, deep copies and file handling; saving is one step.
- Key generation, Base64, curve arithmetic and random sources: arbitrary inputs that may fail.
- Usage.Collector.UpdatePeer: 64-bit overflow of totals and negative counters are not modelled.
- Usage persistence and `RemoveStats`.
- Versions.Installation.Apply: downloads, signatures, checksums, locks and platform checks are one input that may fail.
- HTTP API, authentication, configuration from the environment, scripts and goroutine interleavings.
