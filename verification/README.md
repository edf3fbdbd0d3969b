# ProIdentity Access: a verified model

This project models the parts of the ProIdentity VPN server and client whose correctness depends on several
stores, several machines or several texts agreeing with each other, and proves what they promise.

- **Sessions.** `Sessions` gives each operation of the session manager as one atomic step over six stores (session
  rows, address pool, preshared keys, peer tables, the `WG-VPN` chain, grants); `SessionManager` is the same manager
  as a class that changes the stores in place, over the classes of `Firewall`, `IPPool` and `WireGuard`. The outcome
  of every database, iptables and WireGuard call is an input (`CreateEnv`, `DeleteEnv`, `SyncEnv`), so every failure
  branch and every rollback is there. `SessionFacts`, `SessionPeers` and `SessionTraffic` prove the invariant, the
  peers and what the chain accepts; `SessionRuns` and `SessionPeerRuns` lift that to whole runs from a restart on,
  `SessionCrashes` and `SessionLives` to any number of runs, each ended by a crash that may fall inside an operation.
  `SessionEffects` says when a session is created and what that, a deletion or a grant changes in the firewall;
  `SessionEndings` tells from the rows which sessions each ending operation ends, `PortTexts` what a port list means
  from how it is written.
- **Profile leases.** `Lease` is the lock on one WireGuard profile, `LeaseTraces` proves exclusion and stability over
  traces of requests, in which the two statements of a claim may have others between them, and `LeaseClients` adds the
  devices that hold or lose the lock.
- **Overlapping networks.** `Prefixes` and `NetSets` are the address arithmetic, `Exclusion` the daemon's state
  machine, `TunnelManager` its maps as a class; `ExclusionEffects` says for each step what is up after it.
- **WireGuard configuration text.** `WgLines`, `WgConfig`: reading and writing; `WgLists`, `WgLineText`,
  `WgReads`, `WgRoundTrip`: exactly when one undoes the other; `WgSections`: texts with several peers;
  `WgTexts`: what single lines of a text do, wherever they stand; `KeepaliveSections`, `KeepaliveMeaning`,
  `Keepalive`: the keepalive rewriter through the parser; `SessionConfig`, `SessionTexts`: the server's text and
  the client's edits, end to end. `LineEdits` and `Dedup` hold the loops these share.
- **Small protocols and bounds.** `MgmtChannel`, `LoginLockout`, `RateLimit` (both over `Spacing`), `Tokens`,
  `Manifest`, `ManifestChecks`, `Versions`, `FlowMeter`.

Objects whose fields the source updates are classes; each method's contract equates the new state with a
specification function, and the lemmas are about those functions. Loops of the source are loops here.
Inductions are written out: no lemma uses the induction hypotheses Dafny adds by itself.

Where code and documentation differ, the model follows the code:

- `Format` is documented as the inverse of `ParseString` (client/internal/config/model.go:37-38). It is one exactly
  for the configs named by `WgRoundTrip.RoundTripIff`; `WgRoundTrip.ParsedRoundTripIff` says which parsed ones they are.
- A configuration may have several `[Peer]` sections (client/internal/config/model.go:10-36), but the parser keeps
  the one it was reading only when another `[Peer]` follows or the text ends (client/internal/config/parser.go:33-46).
  `WgSections.PeersKeptIff` says exactly which texts keep them all, `WgSections.SecondInterfaceLosesPeer` is one that
  does not.
- Port lists are normalized by each reader, and the admin interface validates the normalized text, so what it stores has
  been normalized once and is normalized again when it is used. "a ll" is no valid list, is stored as "all", and then
  means every port. `Ports.AcceptedUnlikeValidIff` says exactly which texts are accepted though they are not valid, and
  `Ports.StoredMeansWrittenIff` exactly when a stored list means what its text meant.
- `withPersistentKeepalive` takes a line that opens with a bracket and does not close for a header; the parser takes it
  for an unknown key. `Keepalive.RewriteMeaning` is exact about it.

## Model

| member | source | states |
|---|---|---|
| Iptables.AddFacts | server/internal/firewall/iptables.go:131-174 | whatever calls fail, adding only appends planned rules, never a duplicate, and a reported success means every planned rule is in the chain |
| Iptables.RemoveIsWithout | server/internal/firewall/iptables.go:184-223 | on a chain without duplicates, removal leaves the other rules in order and takes out exactly the rules whose deletion was called and succeeded |
| Iptables.DeletedWhenAllSucceed | server/internal/firewall/iptables.go:184-223 | if no deletion fails, every planned rule is gone |
| Firewall.PlannedAreOfClient | server/internal/firewall/iptables.go:144-174 | every rule added for a client matches only that client's source address |
| Firewall.Manager.AddRules | server/internal/firewall/iptables.go:131-174 | the loops over resources, protocols and ports leave the specified chain and report failure of any resource while going on with the rest |
| Firewall.Manager.RemoveRules | server/internal/firewall/iptables.go:184-223 | the deletion loops leave the specified chain, unparsable resources and failed calls skipped |
| Ports.NormalizeLoop | server/internal/ports/ports.go:9-26 | the label-stripping loop ends and computes the normal form |
| Ports.ParseSpecsLoop | server/internal/ports/ports.go:28-49 | the loop returns the list of ranges, or an error if one entry is bad or none is there; what the entries mean is `PortTexts.ListReads` |
| Ports.NormalizeStableIff | server/internal/ports/ports.go:9-26 | normalizing once more changes nothing exactly when the normal form is empty, or is neither "all", "all ports" nor labelled "port:" or "ports:" |
| Ports.NormalizeKeepsValid | server/internal/ports/ports.go:9-57 | a list that parses is stable under one more normalization and keeps its ranges |
| Ports.AcceptedUnlikeValidIff | server/internal/api/admin/resources.go:132-145 | the admin interface accepts every valid text, and an invalid one exactly when its normal form means all or hides a valid list behind another label |
| Ports.StoredMeansWrittenIff | server/internal/api/admin/resources.go:132-145 | a stored list is valid, and means what its text meant exactly when it is not labelled |
| Ports.NormalizeIsNotIdempotent | server/internal/api/admin/resources.go:132-145 | "a ll" is not valid, is accepted all the same, and comes to mean every port |
| SessionTraffic.StoredRowIsValid | server/internal/api/admin/resources.go:132-145 | whatever port list is stored meets the hypothesis of the statements about the chain |
| Ports.DportReadsBack | server/internal/ports/ports.go:59-93 | the text handed to iptables for an entry, a one-port range included, reads back as the ports of the entry |
| PortTexts.ListReads | server/internal/ports/ports.go:28-105 | entries written "n", "lo-hi" or "lo:hi", with spaces anywhere and empty entries between, read as exactly their bounds in order, and as an error exactly when one leaves 1 to 65535, has its ends the wrong way round, or there is none |
| PortTexts.DportText | server/internal/ports/ports.go:59-93 | iptables is handed "n" for an entry of one port and "lo:hi" for a range, whichever sign it was written with |
| PortTexts.LabelIsDropped | server/internal/ports/ports.go:9-26 | a label "port:" or "ports:", in any case and with white space around it, makes no difference |
| PortTexts.AllMeansEvery | server/internal/ports/ports.go:28-49 | "all" and "all ports", in any case and with white space around them, are valid and mean every port |
| IPPool.Pool.InitServer | server/internal/ippool/pool.go:12-56 | fills exactly the subnet's pool once and leaves a server that has rows alone; whichever of its calls fails, no row is left, and it reports the failure |
| IPPool.Pool.Allocate | server/internal/ippool/pool.go:59-77 | hands out only a free address of the server and records the session, else changes nothing |
| IPPool.Pool.Release | server/internal/ippool/pool.go:80-83 | frees the row of that address, whichever session it belongs to |
| IPPool.PoolIsSubnetInterior | server/internal/ippool/pool.go:24-43 | the pool is the subnet without its network, gateway and broadcast address |
| IPPool.FillingIff | server/internal/ippool/pool.go:12-56 | filling adds exactly the addresses of the pool, free, and only for a server without rows; every row that was there stays as it is |
| IPPool.FillsIff | server/internal/ippool/pool.go:33-56 | the transaction goes through exactly if it begins and commits and the insert of every address of the pool succeeds |
| IPPool.GatewayInSubnet | server/internal/wireguard/setup.go:52-64 | the gateway lies in the subnet exactly for prefixes shorter than /32, is the address after the network address, and is never in the pool |
| IPPool.GatewayBytes | server/internal/wireguard/setup.go:52-64 | the gateway differs from the network address in its last byte only, which is one more modulo 256 |
| IPPool.DisjointSubnetsDisjointPools | server/internal/ippool/pool.go:12-56 | servers whose subnets do not overlap never share an address |
| IPPool.PoolsAreApart | server/internal/ippool/pool.go:12-56 | the pools made for servers with pairwise separate subnets give every address to one server, as the runs assume |
| IPPool.PoolsAreComplete | server/internal/ippool/pool.go:12-56 | the pools made for different servers hold exactly the addresses of their pools |
| WireGuard.Registry.AddPeer | server/internal/wireguard/manager.go:71-102 | an accepted call replaces the entry of that key, a refused one changes nothing |
| WireGuard.Registry.SyncAllPeers | server/internal/wireguard/manager.go:127-159 | the loop replaces the whole table by the decodable entries, the last one of a key winning |
| SessionManager.Manager.CreateSession | server/internal/session/manager.go:47-153 | the step-by-step creation with its hand-written rollbacks is the specified atomic step, for every combination of failures |
| SessionManager.Manager.DeleteSession | server/internal/session/manager.go:335-383 | the deletion in place is the specified step, also when statements in its middle fail |
| SessionManager.Manager.SyncServerPeers | server/internal/session/manager.go:387-414 | the loop over the listed rows installs their entries or changes nothing |
| SessionManager.Manager.EndSessions | server/internal/session/manager.go:169-333 | the loop shared by the terminating operations deletes the selected listed rows one by one; which rows those are is told by `SessionEndings` |
| SessionFacts.DeleteKeepsInvIff | server/internal/session/manager.go:335-383 | a deletion keeps pool, rows, keys and chain in agreement exactly when the release, the DELETE and the removal of each of the session's rules succeed |
| SessionFacts.CreateKeepsInv | server/internal/session/manager.go:47-153 | a successful creation keeps that agreement |
| SessionEffects.CreateSucceedsIff | server/internal/session/manager.go:47-153 | if no call fails, a creation succeeds exactly if the server runs, the address picked is a free one of it, and the client sent a key |
| SessionEffects.CreateNeeds | server/internal/session/manager.go:47-153 | and it succeeds only if none of its calls that must succeed failed |
| SessionEffects.CreatedSession | server/internal/session/manager.go:47-153 | a created session has the picked address and its preshared key, and no other row of any store changes |
| SessionFacts.FailedCreateStores | server/internal/session/manager.go:47-124 | for pool, rows, keys and chain, exactly when a failed creation left them as they were |
| SessionPeers.FailedCreateLeavesNoTrace | server/internal/session/manager.go:47-124 | a creation that fails at any point, with rollback calls that succeed, leaves all six stores equal to their values before, also for a key that another session uses |
| SessionPeerRuns.FailedCreateLeavesNoTraceIff | server/internal/session/manager.go:47-124 | for a fresh key, a failed creation leaves all six stores as they were exactly when release, DELETE and each rule removal succeeded and its peer was not added, was removed, or was synced away |
| SessionPeerRuns.RunsKeepPeersExact | server/internal/session/manager.go:387-414 | in the runs from a restart that cleared the interfaces, where each deletion removes its peer or syncs, every running server has exactly its sessions' peers |
| SessionPeerRuns.RunsFailedCreateIff | server/internal/session/manager.go:47-124 | so in these runs the exact condition for a failed creation needs no assumption about the peers |
| SessionPeers.SyncMakesExact | server/internal/session/manager.go:387-414 | after a successful sync the interface's peers are exactly the (key, address, preshared key) triples of the server's sessions, if keys are distinct |
| SessionEffects.CanBeListed | server/internal/session/manager.go:387-414 | every running server has a listing a sync succeeds with, so these statements are about states that occur; without a listing, or if the interface refuses it, no sync succeeds |
| SessionPeers.AllHavePeersIffKeysDistinct | server/internal/session/manager.go:387-414 | after a successful sync every session has its peer exactly when no two sessions of the server share a public key |
| SessionTraffic.ResourceMeaning | server/internal/session/manager.go:426-455 | the chain rules made for a validated resource accept exactly the client packets its network and port list allow |
| SessionTraffic.WrittenResourceMeaning | server/internal/session/manager.go:426-455 | with the port list given by what is written: its rules accept exactly TCP and UDP packets of the client to an address that agrees with the resource under its mask, at a port one of the written entries admits |
| SessionTraffic.OpenResourceMeaning | server/internal/session/manager.go:426-455 | with a list that says "all", exactly the client's packets to such an address, of any protocol and port |
| SessionTraffic.ChainIsExact | server/internal/session/manager.go:105-115 | under the invariant the chain accepts a packet exactly when some live session's grants allow it from that session's address |
| SessionEffects.CreatedTraffic | server/internal/session/manager.go:105-115 | a new session adds to what the chain accepts exactly what its user is granted on that server, from its address |
| SessionEffects.DeletedTraffic | server/internal/session/manager.go:335-383 | a deletion takes away everything accepted from the session's address and nothing else |
| SessionEffects.DeletedWithoutResources | server/internal/session/manager.go:350-358 | if the user's resources cannot be read, a deletion leaves the chain as it was |
| SessionEffects.GrantTakesEffect | server/internal/session/manager.go:426-455 | a session created after a change of grants lets through exactly the new ones |
| SessionRuns.EndsExactlySelected | server/internal/session/manager.go:169-333 | an operation that lists all sessions ends exactly those it selects and leaves the others' rows unchanged; told from the rows by the lemmas of `SessionEndings` |
| SessionEndings.StaleEnd | server/internal/session/manager.go:262-290 | expiry leaves a session exactly if it was last seen at most the timeout ago, or 90 s if the setting is no positive number |
| SessionEffects.KeepaliveTakesEffect | server/internal/session/manager.go:156-166 | a session that sent a keepalive outlives exactly the expiries up to one timeout later |
| SessionEndings.DeadEnd | server/internal/session/manager.go:292-333 | the check for dead peers leaves a session exactly if it is younger than 180 s, its server does not run, or its peer reports a handshake age of 1 to 180 s |
| SessionEndings.UserEnd | server/internal/session/manager.go:180-193 | ends the sessions of that user and no others |
| SessionEndings.UserServerEnd | server/internal/session/manager.go:197-210 | ends the sessions of that user on that server and no others |
| SessionEndings.OneEnd | server/internal/session/manager.go:169-175 | ends the session of that id and no other |
| SessionEndings.AllEnd | server/internal/session/manager.go:228-240 | ends every session |
| SessionRuns.RestartEmpties | server/internal/session/manager.go:228-240 | from any state in which occupied addresses and rules belong to session rows, start-up leaves no session, key, rule or occupied address |
| SessionRuns.NewPoolsAreRecoverable | server/internal/ippool/pool.go:12-56 | the pools of servers with separate subnets, before the first session, are such a state |
| SessionRuns.RunsAreExact | server/internal/session/manager.go:47-153 | from any such state, start-up and then any run: occupied pool rows and session rows are in bijection, keys are the sessions' keys, and the chain accepts exactly what live sessions are granted |
| SessionCrashes.CrashedCreate | server/internal/session/manager.go:47-124 | whatever earlier crashes leaked, a crash at any call of a creation leaves a state to restart from, and leaks one more address exactly between its UPDATE and the INSERT of the row |
| SessionCrashes.CrashedDelete | server/internal/session/manager.go:335-383 | a crash at any call of a deletion before its DELETE leaves a state to restart from |
| SessionCrashes.CrashedRestartEmptiesIff | server/internal/session/manager.go:228-240 | start-up after a crash leaves no session, key or rule, and exactly the leaked addresses occupied, so all are free exactly if none was leaked |
| SessionCrashes.RunWithLeak | server/internal/session/manager.go:47-414 | no operation ever looks at a leaked address: every run goes on as if it were not in the pool |
| SessionCrashes.CrashedRunsAreExact | server/internal/session/manager.go:47-153 | after a crash inside an operation, start-up and then any run are exact as above, but for leaked addresses, which stay occupied |
| SessionLives.LifeStaysCrashed | server/internal/session/manager.go:228-240 | a start-up and any run after it, cut by a crash anywhere, the start-up itself included, leave a state to restart from but for the addresses leaked before and the one this crash may leak |
| SessionLives.LivesStayCrashed | server/internal/session/manager.go:47-414 | over any number of such lives nothing is lost but one address for each crash between those two statements |
| SessionLives.LivesAreExact | server/internal/session/manager.go:47-153 | so after any number of crashes, start-up and any run are exact but for as many occupied addresses as crashes leaked one |
| SessionLives.LivesKeepPeersExact | server/internal/session/manager.go:387-414 | after any number of crashes, in the runs from a start-up that clears the interfaces, where each deletion removes its peer or syncs, every running server has exactly its sessions' peers |
| SessionRuns.RunsSyncExactly | server/internal/session/manager.go:387-414 | in the same runs a successful sync leaves exactly the server's peers |
| SessionRuns.ChangedGrantsStrandRules | server/internal/session/manager.go:350-358 | if grants change under a session, deleting it leaves exactly the rules the new grants no longer imply |
| Lease.Row.ClaimProfile | server/internal/api/wgprofiles.go:131-180 | UPDATE and second look, each at its own time, leave and answer what the specified two statements do |
| Lease.ClaimAtOneTime | server/internal/api/wgprofiles.go:152-180 | at one time a free, own or lapsed profile is taken and otherwise the holder is named |
| Lease.OkWithoutHoldingIff | server/internal/api/wgprofiles.go:152-180 | at two times a device is told yes without the profile exactly when another's lease lapses between the statements |
| LeaseTraces.OkByLook | server/internal/api/wgprofiles.go:165-180 | with other requests between the statements: a claim answered yes on its second look got the profile, or the holder its UPDATE found was freed or lapsed before the look |
| Lease.Row.HeartbeatProfile | server/internal/api/wgprofiles.go:224-266 | renews for the holder, also after a lapse, and tells others whether the profile is taken or released |
| Lease.Row.ReleaseProfile | server/internal/api/wgprofiles.go:269-284 | frees the profile for its holder only; `Lease.ReleaseTakesEffect` and `LeaseTraces.FreedIsClaimable` say what that means for the next claim |
| Lease.ReleaseTakesEffect | server/internal/api/wgprofiles.go:269-284 | after a device's release it does not hold the profile: one it held is free, any other is as it was |
| Lease.FreeIsClaimable | server/internal/api/wgprofiles.go:152-180 | a free profile goes to any active device of an assigned user at any time, with an answer of yes |
| Lease.ClaimsRefused | server/internal/api/wgprofiles.go:131-180 | without a device, without an assignment or without an active installation a claim is refused with its own answer and changes nothing |
| Lease.RenewalKeepsSince | server/internal/api/wgprofiles.go:152-163 | the holder's own claim renews the lease and keeps the time it began |
| Lease.HeartbeatAnswers | server/internal/api/wgprofiles.go:224-266 | the holder's heartbeat is answered yes and moves the time it was seen, another's changes nothing and names a fresh holder or says released |
| Lease.AssignIff | server/internal/api/wgprofiles.go:511-549 | an assignment succeeds exactly if the profile is shared or nobody else is assigned, and then adds that user |
| Lease.SharingIff | server/internal/api/wgprofiles.go:400-410 | sharing can always be switched on, and off exactly while at most one user is assigned |
| Lease.UnassignTakesEffect | server/internal/api/wgprofiles.go:552-569 | the user is no longer assigned, and a profile this user held is free if the second statement succeeds |
| Lease.Row.UnassignUser | server/internal/api/wgprofiles.go:552-569 | removes the user and frees the profile held by that user, if the second statement succeeds |
| LeaseTraces.Exclusion | server/internal/api/wgprofiles.go:131-284 | over every trace, other requests between the two statements of a claim included, the 180 s intervals for which two devices hold the profile never meet unless the earlier device was freed in between |
| LeaseTraces.FreedOnlyOnRequest | server/internal/api/wgprofiles.go:269-284 | only the holder's release, an admin release or the unassignment of the holder's user frees a profile |
| LeaseTraces.FreedIsClaimable | server/internal/api/wgprofiles.go:269-284 | after the holder's release, an admin release or the unassignment of the holder's user, the next claim of any assigned, active device is answered yes and takes hold |
| LeaseTraces.TakeoverAfterLapse | server/internal/api/wgprofiles.go:131-180 | another assigned device gets the profile exactly when the lease has run out |
| LeaseTraces.OthersAreRefused | server/internal/api/wgprofiles.go:131-180 | while accepted renewals are at most 180 s apart and nobody frees the profile, both statements of every other device's claim change nothing and the second names the holder |
| LeaseTraces.HeartbeatKeepsHolder | server/internal/api/wgprofiles.go:224-266 | no heartbeat ever changes who holds a profile |
| LeaseTraces.ThreeLostRenewalsTolerated | client/app_wgprofiles.go:24-28 | with a 45 s period the lease stays fresh throughout exactly when no four renewals in a row are lost |
| LeaseTraces.ThreeLostRenewalsKeepProfile | client/app_wgprofiles.go:24-28 | over every trace: while no four renewals in a row are lost and nobody frees the profile, every other device's claim is refused |
| LeaseTraces.FourLostRenewalsLoseProfile | client/app_wgprofiles.go:24-28 | with four lost, another device can have it before the fifth |
| LeaseTraces.StepKeepsSoundIff | server/internal/api/wgprofiles.go:511-569 | ordered times, an assigned holder and at most one user of an unshared profile are kept by every request except an unassignment whose second statement fails |
| LeaseTraces.TracesStaySound | server/internal/api/wgprofiles.go:400-410 | the same over whole traces |
| LeaseClients.RunKeepsInv | client/app_wgprofiles.go:86-164 | in every run a device that is up holds the profile with its last answer on record, lost it, or was told yes on a second look without it |
| LeaseClients.AnsweredBeatTearsDown | client/app_wgprofiles.go:213-252 | a device without the profile, whose name is not empty, takes its tunnel down at its next answered heartbeat |
| LeaseClients.TwoUpOneIsEnding | client/app_wgprofiles.go:213-252 | of two devices up at once, one had no answer for over 180 s, was freed or came up without the profile, and its next answered heartbeat ends it |
| LeaseClients.MistakenFindsNoneRightful | server/internal/api/wgprofiles.go:165-180 | when a device comes up without the profile, the lease of every other device that is up has ended |
| Prefixes.OverlapsIffShared | client/internal/daemon/netconflict.go:76-91 | comparing two prefixes at the shorter length decides whether some address lies in both |
| Prefixes.OverlapsNested | client/internal/daemon/netconflict.go:76-91 | of two overlapping prefixes the shorter one contains the other |
| NetSets.AddMeaning | client/internal/daemon/netconflict.go:26-40 | adding keeps prefixes masked, distinct and longer than one bit, and adds exactly the prefix's addresses or the default route |
| NetSets.NetmaskIsPrefix | client/internal/daemon/netconflict.go:57-72 | a contiguous netmask m makes of ip exactly the prefix {x : x & m = ip & m} |
| NetSets.AddMaskedMeaning | client/internal/daemon/netconflict.go:57-72 | a network and a contiguous netmask add exactly those addresses to the set, or the default route for masks of at most one bit |
| NetSets.AddUnmaskedMeaning | client/internal/daemon/netconflict.go:57-72 | with a mask that is none, or for an IPv6 address, exactly the address itself is added |
| NetSets.MergeIsUnion | client/internal/daemon/netconflict.go:172-182 | merging denotes the union and keeps the sets canonical |
| NetSets.OverlapMeaning | client/internal/daemon/netconflict.go:74-91 | sets overlap exactly when both take the default route or some address is in both |
| NetSets.OverlapSymmetric | client/internal/daemon/netconflict.go:74-91 | the verdict does not depend on the order |
| NetSets.OverlapLoop | client/internal/daemon/netconflict.go:76-91 | the nested loops decide overlap and name the first pair's wider network |
| NetSets.NamesTheWider | client/internal/daemon/netconflict.go:74-91 | what a refusal names is all traffic exactly if both take it, else one network of an overlapping pair that holds all addresses of both, and never one of two |
| NetSets.MergeLoop | client/internal/daemon/netconflict.go:172-182 | the two loops compute the merge |
| Exclusion.StepExclusiveIff | client/internal/daemon/tunnel_conflict.go:12-51 | any step at all, shared ids and late lines included, keeps live connections apart exactly when a condition on the state before it holds |
| Exclusion.RunExclusiveIff | client/internal/daemon/tunnel_conflict.go:12-51 | any run at all is free of shared networks throughout exactly when each of its steps meets that condition |
| Exclusion.ConnectIff | client/internal/daemon/openvpn.go:97-201 | an OpenVPN start that passes the check is harmless exactly when no live tunnel of its own id shares a network with the profile |
| Exclusion.StartIff | client/internal/daemon/tunnel_manager.go:168-204 | a tunnel start that passes the check is harmless exactly when no live session of its own id shares a network with it |
| Exclusion.PushIff | client/internal/daemon/openvpn_diag.go:159-177 | pushed networks that pass the check are harmless exactly when no live tunnel of the session's id shares one |
| Exclusion.StepKeepsInv | client/internal/daemon/openvpn.go:97-201 | every legal step meets the condition and keeps live connections pairwise free of shared networks |
| Exclusion.RunsStayExclusive | client/internal/daemon/openvpn_diag.go:159-177 | in every run of an initially idle daemon, two live connections share no address and at most one has the default route, though OpenVPN sessions learn networks after they start |
| Exclusion.StateIff | client/internal/daemon/openvpn.go:400-434 | a STATE line, also after FATAL, is harmless exactly when it brings nothing up, its session was told to stop, or that session's networks clash with nothing live |
| Exclusion.FinishIff | client/internal/daemon/tunnel.go:187-192 | an end of Start, also after a Stop, is harmless exactly when it failed or the tunnel's networks clash with nothing live |
| Exclusion.StateAfterFatalBreaksExclusion | client/internal/daemon/openvpn.go:377-382 | for all default-route networks and ids: after Connect, FATAL and another Connect from the idle daemon on, a STATE line breaks exclusion |
| Exclusion.StartAfterStopBreaksExclusion | client/internal/daemon/tunnel.go:187-192 | likewise after an import, Start, Stop and Connect, when that Start completes |
| Exclusion.SharedIdBreaksExclusion | client/internal/daemon/tunnel_conflict.go:40-43 | a session and a tunnel with one id are never compared, so from the idle daemon on both come up with the default route |
| ExclusionEffects.DisconnectEffect | client/internal/daemon/openvpn.go:220-230 | disconnecting takes the owner's session down and nothing else; for anyone else it changes nothing |
| ExclusionEffects.ConnectEffect | client/internal/daemon/openvpn.go:97-201 | after a connect the live session of the id is the new one with the profile's networks exactly if it started and no other live connection shares its networks or those learnt before; else none of the owner's is live |
| ExclusionEffects.PushEffect | client/internal/daemon/openvpn_diag.go:159-177 | after a push the session is live with the profile's and pushed networks exactly if it was live and no other live connection shares one of them; they are remembered either way |
| ExclusionEffects.RefusedPushIsFinal | client/internal/daemon/openvpn_diag.go:159-177 | a refused push fails the session with an error no later one replaces, and any other push leaves its status |
| ExclusionEffects.FailEffect | client/internal/daemon/openvpn.go:515-538 | a failure takes its session down and nothing else |
| ExclusionEffects.FatalEffect | client/internal/daemon/openvpn.go:377-382 | FATAL fails its session unless a final error is on record, and nothing else |
| ExclusionEffects.ReplacedPushEffect | client/internal/daemon/openvpn_diag.go:159-177 | networks a replaced session learns are only remembered |
| ExclusionEffects.ReapEffect | client/internal/daemon/openvpn.go:279-305 | a reaped session is gone and nothing else is |
| ExclusionEffects.StateEffect | client/internal/daemon/openvpn.go:400-434 | the status each kind of STATE line leads to, and that the session is then up exactly if it was not told to stop and that status is connecting or connected |
| ExclusionEffects.StartEffect | client/internal/daemon/tunnel_manager.go:168-204 | after a start the tunnel is up if it is the caller's and no other live connection shares a network with it, and else as it was |
| ExclusionEffects.StopEffect | client/internal/daemon/tunnel_manager.go:206-221 | stopping takes the caller's tunnel down and nothing else; for anyone else it changes nothing |
| ExclusionEffects.FinishEffect | client/internal/daemon/tunnel.go:101-206 | the end of a Start leaves the tunnel up exactly if it succeeded |
| ExclusionEffects.DisconnectedStaysDown | client/internal/daemon/openvpn.go:220-230 | in every run, a session its owner disconnected stays down until one of that id is started again |
| TunnelManager.Manager.FindConflict | client/internal/daemon/tunnel_conflict.go:12-51 | refuses exactly when a live connection other than the exception shares a network, names one that does, and tells its name to its owner only |
| TunnelManager.Manager.ConnectOpenVPN | client/internal/daemon/openvpn.go:97-201 | stops the owner's old session, then starts the new one exactly when its known networks clash with nothing live; what is up afterwards is `ExclusionEffects.ConnectEffect` |
| TunnelManager.Manager.OnPushedNetworks | client/internal/daemon/openvpn_diag.go:159-177 | remembers the pushed networks and stops the session with a final error exactly when they clash |
| TunnelManager.Manager.HandleState | client/internal/daemon/openvpn.go:400-434 | the status after each kind of STATE line |
| TunnelManager.Manager.ConnectTunnel | client/internal/daemon/tunnel_manager.go:168-204 | starts a tunnel of this owner exactly when its networks clash with nothing live |
| WgConfig.ParseText | client/internal/config/parser.go:13-98 | the scanner loop computes the parse, with every error branch; what single lines do is told by `WgTexts` |
| WgTexts.IgnoredLine | client/internal/config/parser.go:25-28 | wherever it stands, a blank line or one whose first mark is "#" or ";" can be left out without changing what the text parses to |
| WgTexts.NonsenseLine | client/internal/config/parser.go:51-55 | a text with any line that is no blank, comment, header or entry does not parse |
| WgTexts.HeaderInAnyCase | client/internal/config/parser.go:31-49 | section names read alike in any case, wherever the header stands |
| WgTexts.KeyInAnyCase | client/internal/config/parser.go:57-106 | keys read alike in any case and with any white space around key and value |
| WgTexts.UnknownKeyLine | client/internal/config/parser.go:63-73 | an entry before any section, in an unknown one, or of a key its section does not know changes nothing |
| WgTexts.UnreadableNumberLine | client/internal/config/parser.go:123-167 | an MTU or keepalive that is no number changes nothing |
| WgTexts.OffLine | client/internal/config/parser.go:158-167 | keepalive "off", in any case, is keepalive 0 |
| WgTexts.LastTextCounts | client/internal/config/parser.go:105-158 | of two settings of a key that takes a text, the second counts |
| WgTexts.LastNumberCounts | client/internal/config/parser.go:123-167 | of two numbers, the second counts if it can be read |
| WgTexts.ListsAddUp | client/internal/config/parser.go:109-122 | lists of two lines of one key are read as one list |
| WgTexts.InlineComment | client/internal/config/parser.go:59-61 | what follows " #" in a value makes no difference |
| WgConfig.AddItems | client/internal/config/parser.go:109-122 | the loop appends the trimmed, nonempty items |
| WgConfig.FormatText | client/internal/config/model.go:39-79 | the builder loop writes the specified lines |
| WgConfig.DefaultIsNotWritten | client/internal/config/model.go:52-54 | an MTU of 1420, or of 0 or less, is not written |
| WgLineText.EntryReads | client/internal/config/parser.go:51-61 | a written "Key = value" line reads as that key, with the value trimmed and cut at an inline comment |
| WgLists.ListReadsBackIff | client/internal/config/parser.go:109-122 | a list written on one line reads back exactly when its items are nonempty, trimmed, without comma or " #", and no later one starts with "#" |
| WgSections.PeersKeptIff | client/internal/config/parser.go:31-98 | for every text that parses: peers kept and peers dropped add up to the [Peer] headers, and all are kept, with the text read as if none could be dropped, exactly when no header of another section comes after a [Peer] |
| WgSections.SecondInterfaceLosesPeer | client/internal/config/parser.go:33-46 | a second [Interface] after the only [Peer] of a complete text: it parses, without a peer |
| WgReads.ParseIsGood | client/internal/config/parser.go:13-122 | values that were read have no line break, no " #" and no white space around them, and list items no comma |
| WgRoundTrip.FormatReads | client/internal/config/model.go:39-79 | what parsing a written config gives, for every config whose values have no line break |
| WgRoundTrip.RoundTripIff | client/internal/config/model.go:37-79 | for every config: parsing what was written gives it back, MTU 0 as 1420, exactly when its values are on one line and clean and it has a private key and an address |
| WgRoundTrip.ParsedRoundTripIff | client/internal/config/model.go:37-79 | a config that was parsed survives writing and parsing exactly when no number is negative and no list item but the first starts with "#" |
| KeepaliveSections.Rewrite | client/app_wgprofiles.go:306-335 | the loop with its two flags and its flush computes the specified rewriting |
| KeepaliveSections.RewriteIdempotent | client/app_wgprofiles.go:306-335 | rewriting what was rewritten inserts nothing |
| Keepalive.HeadersOfPeers | client/app_wgprofiles.go:306-335 | the rewriter takes for a header of peers exactly the word in any case, with any brackets and blanks around it behind the first bracket |
| KeepaliveMeaning.RewriteFixes | client/app_wgprofiles.go:303-335 | through any line parser that agrees on closed headers: the result fails to parse exactly when the original does, and exactly the kept peers without the key get 25 unless an unclosed bracket precedes a peer's first key and no key of it is readable |
| Keepalive.RewriteMeaning | client/app_wgprofiles.go:303-335 | the same for the configuration parser and every text |
| Keepalive.RewritePreservesMeaning | client/app_wgprofiles.go:303-335 | so in every text whose brackets close exactly the kept peers without the key get 25, and nothing else the parser sees changes |
| Keepalive.RewriteTwiceIsOnce | client/app_wgprofiles.go:306-335 | for every text, applying it twice equals once |
| Dedup.FirstsAreDistinct | server/internal/session/manager.go:532-540 | deduplication keeps every unseen element once, in order of first occurrence |
| SessionConfig.BuildAllowedIPs | server/internal/session/manager.go:524-541 | the loop returns the subnet followed by the distinct networks, comma-separated |
| SessionConfig.InjectPrivateKey | client/app.go:1606-1617 | the loop inserts the key line after the interface header |
| SessionConfig.LineEndsDoNotMatter | client/app.go:1606-1617 | a text with Windows line ends gives the same configuration as with others |
| SessionConfig.ReplaceWgEndpoint | client/app.go:1015-1025 | the loop replaces the first endpoint line |
| SessionConfig.EndpointConfigs | client/app.go:995-1013 | one config for each distinct nonempty endpoint in order, or the text itself if there is none |
| SessionConfig.EndpointsIff | client/app.go:995-1013 | the endpoints tried are exactly the trimmed endpoints of the candidates and "address:port" of those that have none but an address and a positive port, each once |
| SessionConfig.ClientTextIsFormat | client/app.go:1606-1617 | what the client makes of the server's text is byte for byte a written config |
| SessionConfig.SessionConfigEndToEnd | server/internal/session/manager.go:132-148 | parsing that text gives the client's key, the assigned /32, the server's key and preshared key, the chosen endpoint, keepalive 25, and the subnet followed by the distinct resource networks, for clean values |
| SessionTexts.ManagedSessionEndToEnd | server/internal/session/manager.go:126-148 | the same for every session in the manager's stores, whose address and granted networks are clean because they are dotted IPv4 text |
| SessionTexts.AddressReadsBack | server/internal/session/manager.go:126-148 | a dotted address is four numbers of 0 to 255 that give the address back |
| SessionTexts.NetworkReadsBack | server/internal/session/manager.go:524-541 | the text of a network reads back as its first address and the length of its prefix |
| SessionTexts.ResourceReadsBack | server/internal/session/manager.go:426-455 | a resource's text reads back as its address, and as the length of its mask for a network that has one, else 32 |
| MgmtChannel.OneAtATime | client/internal/daemon/openvpn_mgmt.go:41-64 | in every interleaving commands are written in the order sent, and written minus answered is at most one plus the timeouts |
| MgmtChannel.RepliesLostOnlyByTimeouts | client/internal/daemon/openvpn_mgmt.go:75-88 | with at most one reply for each written command, no more replies are dropped than timeouts happened |
| MgmtChannel.LateRepliesAreDropped | client/internal/daemon/openvpn_mgmt.go:56-62 | for any number of timeouts a run of a new channel drops as many replies |
| MgmtChannel.PromptsAreTransparent | client/internal/daemon/openvpn_mgmt.go:75-79 | any number of password prompts before a line makes no difference |
| MgmtChannel.ReplyIff | client/internal/daemon/openvpn_mgmt.go:80-88 | the lines taken as replies are exactly those that start with "SUCCESS:" or "ERROR:" |
| MgmtChannel.RepliesBehindPrompts | client/internal/daemon/openvpn_mgmt.go:75-88 | such a line is taken whole from behind any number of password prompts |
| MgmtChannel.QueueStaysBounded | client/internal/daemon/openvpn_mgmt.go:30-47 | over every run at most 64 commands wait |
| MgmtChannel.ClosingLetsGo | client/internal/daemon/openvpn_mgmt.go:42-64 | in every state after closing a sender can give up and the writer can end |
| MgmtChannel.WriterGoesOn | client/internal/daemon/openvpn_mgmt.go:49-64 | a reply or a timeout lets the next command out |
| MgmtChannel.StaysEnded | client/internal/daemon/openvpn_mgmt.go:49-64 | a writer that ended writes nothing any more |
| MgmtChannel.Channel.Classify | client/internal/daemon/openvpn_mgmt.go:75-88 | replies go to the slot or nowhere, everything else is handed back without prompts |
| MgmtChannel.Channel.SendCommand | client/internal/daemon/openvpn_mgmt.go:42-47 | a command is queued, or given up once the channel is closed |
| MgmtChannel.Channel.AwaitReply | client/internal/daemon/openvpn_mgmt.go:56-61 | the writer goes on after a reply or a timeout and ends when closed |
| LoginLockout.LockoutBound | server/internal/api/auth.go:216-265 | any closed 15-minute interval holds at most 8 recorded failures of a key, and at most 5 are counted |
| LoginLockout.EightFit | server/internal/api/auth.go:238-255 | eight failures in one interval do occur |
| LoginLockout.FailuresCount | server/internal/api/auth.go:238-255 | failures within 15 minutes of the first are counted, and the fifth sets a lock of 15 minutes |
| LoginLockout.FifthFailureLocks | server/internal/api/auth.go:220-255 | a key is refused exactly from its fifth failure in a window to 900 s after it, and then counts from one again |
| LoginLockout.Table.RecordLoginFailure | server/internal/api/auth.go:238-255 | one more failure of that key, in a new window if the old one is over |
| LoginLockout.Table.FailedAttempt | server/internal/api/auth.go:84-107 | refused while locked, else recorded; other keys are untouched |
| RateLimit.Limiter.Allow | server/internal/api/rate_limit.go:24-43 | sweeping loop and count leave the specified buckets, and the request is limited by its own count |
| RateLimit.OthersStayIff | server/internal/api/rate_limit.go:28-35 | a request leaves another key's bucket exactly if there are at most 10000 and it is at most two windows old |
| RateLimit.EvictionIsInvisible | server/internal/api/rate_limit.go:28-42 | with at most 10000 buckets, eviction never changes the count a decision is made from, compared with a never-evicting counter for each key |
| RateLimit.WipingMattersIff | server/internal/api/rate_limit.go:28-30 | beyond that, a wipe changes a request's count exactly when its own window was still open |
| RateLimit.CountsAreRightIff | server/internal/api/rate_limit.go:24-43 | over any run: all counts of a key are the never-evicting counter's exactly when no request of it, in a window still open there, has a wipe since the key's previous request, itself included |
| RateLimit.ThroughIsBounded | server/internal/api/rate_limit.go:24-43 | of the limiter as it is: in any half-open interval of one window fewer than twice the limit get through for a key, and a limit more for every wipe in the interval |
| RateLimit.BelowTwiceTheLimit | server/internal/api/rate_limit.go:24-43 | twice the limit is never reached while no request finds more than 10000 buckets |
| RateLimit.TwiceLessOneFits | server/internal/api/rate_limit.go:24-43 | for every limit and every window of at least two seconds, one less than twice the limit does get through in such an interval |
| Tokens.SessionIsBounded | server/internal/auth/jwt.go:35-84 | however a client polls, its tokens keep the login time and expire before login + maxAge + ttl |
| Tokens.RenewalIff | server/internal/auth/jwt.go:57-84 | a token of a login is renewed exactly from half its life on while the login is younger than the maximum age, and then lives a whole lifetime with the same login time |
| Tokens.UndatedIsRenewed | server/internal/auth/jwt.go:57-84 | a token without login and issue time is renewed at once and bounded from then on |
| Tokens.SteadyClientStaysIn | server/internal/auth/jwt.go:57-84 | a client polling at gaps of at most half a lifetime never holds an expired token before login + maxAge |
| Tokens.LongerGapsFail | server/internal/auth/jwt.go:74-77 | no longer gap is safe, for any lifetime and maximum age: polled just before half its life and then after any gap longer than half, a token has expired |
| Tokens.LegacyIsAnchored | server/internal/auth/jwt.go:60-69 | a token without login time is bounded by its issue time from its first renewal on |
| Manifest.PayloadIsInjective | client/internal/update/manifest.go:59-91 | valid manifests with equal signed bytes agree in all six signed fields |
| Manifest.PayloadText | client/internal/update/manifest.go:59-71 | the signed bytes, line by line |
| Manifest.UncheckedPayloadsCollide | client/internal/update/manifest.go:61-71 | without validation different manifests share signed bytes |
| ManifestChecks.ValidIff | client/internal/update/manifest.go:73-91 | a manifest passes exactly if its version is three numbers, its file name 1 to 128 plain characters without two dots together, its hash 64 lower-case digits, its size 1 byte to 512 MiB, and the file an ".msi" for Windows or a ".pkg" for macOS |
| ManifestChecks.ErrorsInOrder | client/internal/update/manifest.go:73-91 | which check a manifest fails first |
| Versions.Newer | client/internal/update/manifest.go:126-154 | the loop decides whether the first differing component is greater |
| Versions.Transitive | client/internal/update/manifest.go:126-141 | "newer" is transitive |
| Versions.Comparable | client/internal/update/manifest.go:126-141 | exactly one of newer, older, or equal up to trailing zeros |
| Versions.ComponentsAre | client/internal/update/manifest.go:143-154 | dotted numbers are those numbers, with white space around them, a "v" before and any suffix from "-" or "+" on |
| Versions.GreaterIff | client/internal/update/manifest.go:126-141 | versions of equally many components compare at their first difference |
| Versions.LongerIsNewerIff | client/internal/update/manifest.go:126-141 | a further component makes a version newer exactly if it is positive |
| FlowMeter.Meter.TakeSample | server/internal/flowmeter/flowmeter.go:150-282 | the loop replaces the snapshot and makes one row for each client flow with traffic; failed dumps change nothing, and the rows stored are those whose insert succeeded in a committed transaction |
| FlowMeter.RowsAreOfUsers | server/internal/flowmeter/flowmeter.go:196-245 | one row, in order, for each flow of a client whose counters grew since the last sample, for the user of its source address and with what each counter grew by |
| FlowMeter.KnownIff | server/internal/flowmeter/flowmeter.go:196-245 | the next sample is compared with exactly the clients' flows of this one |
| FlowMeter.TrafficIsConserved | server/internal/flowmeter/flowmeter.go:196-282 | while a flow is present with counters that do not go down, at most its last counter is stored for it whatever samples fail in between, and exactly that if and only if no row lost by an insert or a commit held traffic of it |

## Left out

- SessionRuns.RunsAreExact: operations are serialized, the start-up query lists every row, the statements of a
  deletion or rollback succeed, session ids are fresh, a public key is used by one session of a server at a time, and
  grants change only for users without a session there; `SessionFacts.DeleteKeepsInvIff`,
  `SessionPeerRuns.FailedCreateLeavesNoTraceIff`, `SessionPeers.AllHavePeersIffKeysDistinct` and
  `SessionRuns.ChangedGrantsStrandRules` say what happens otherwise.
- Deleting a server or a user while sessions exist: rows are changed behind the session manager, so the pool and chain
  statements are for runs without it.
- Endpoint lookup of a session, connection events, metadata and audit entries.
- Lease.Row.HeartbeatProfile: its statements run at one time with no request between them; failing queries, which
  change nothing and are answered with an error, are not events of the traces.
- Exclusion.StepKeepsInv: checking and starting, and checking and stopping, are single steps, no STATE line follows
  FATAL or EXITING, no Start completes after a Stop, and ids of sessions and tunnels are apart;
  `Exclusion.StepExclusiveIff` needs none of the last three.
- Reaping, error setters, importing, stopping and deleting tunnels are steps of `Exclusion` without a method of their
  own in `TunnelManager`.
- Connections that are in no map: of two users' OpenVPN sessions with one id the later replaces the earlier, and a
  tunnel deleted during its Start can still come up (client/internal/daemon/tunnel.go:187-192). Exclusion is about
  registered ones.
- Reading option lines of OpenVPN profiles and PUSH_REPLY messages: the networks they name are an input, built by
  adding.
- Routes, TUN devices, DNS settings and process handling of the daemon.
- SessionTexts.ManagedSessionEndToEnd: keys are base64 text, and the DNS setting and the endpoints have no line
  breaks; the chosen endpoint is trimmed and holds no " #".
- SessionConfig.Resolve: trims the endpoint as the source does; looking the host up is not part of this model.
- The scanner's limit on line length, Unicode white space and case folding, and integer overflow: texts are ASCII and
  integers unbounded.
- MgmtChannel.RepliesLostOnlyByTimeouts: the direct write of the stop signal bypasses the queue; its reply counts as a
  reply.
- LoginLockout.LockoutBound: attempts on a key are serialized and none succeeds; a success clears the key.
- RateLimit.EvictionIsInvisible: all limiters share one window length, and times do not go back.
- Tokens.SteadyClientStaysIn: times are whole seconds; signing and parsing are foreign calls.
- Versions.Newer: a component too large for the machine integer is read as its mathematical value.
- FlowMeter.TrafficIsConserved: a dump shows a flow once; matching flows to resources is not modelled.
- Signatures, downloads, HTTP handlers, SQL text, user interface, installers and secret stores.
