# Calabi: a verified model of its hardest parts

Calabi is a mesh network: a coordinator streams network maps to nodes, nodes reach each other directly or through
relays, and a phone's VPN carries the traffic. This project models, in Dafny 4.11, the parts of it where correctness
is not visible from any one function, and proves what they promise over every input, every run and every interleaving.
`dafny verify dfyconfig.toml` checks everything.

| part | modules |
|---|---|
| the netmap delta stream from coordinator to node | `NetMaps`, `NetMapEncoders`, `NetMapDecoders`, `NetMapStreams` |
| CIDR subtraction and whole-state VPN routing | `Prefixes`, `PrefixSubtraction`, `VpnRoutings`, `VpnRoutingRuns` |
| the relay hub: admission, registry, usage accounting, attribution, forwarding, sweep | `RelayHub`, `RelayHubInvariants`, `RelayHubUsage`, `RelayHubSafety`, `RelayHubRegistry`, `RelayHubHistory`, `RelayHubRuns`, `RelayHubBytes`, `RelayHubAttribution`, `RelayHubMirror`, `RelayHubObjects` |
| a relay link's send queue | `SendQueue` |
| the swappable tun device | `SwapTun` |
| the wire formats these rest on | `Wire`, `DerpFrames`, `DerpAuth`, `RelayGrants`, `Stun` |

How things are modelled:

- Sequential code that updates objects is a class or a method with loops, proved against a specification function
  whose own properties are proved beside it: the decoder, the fingerprint cache, the encoder, the routing object, the
  subtraction, the hub's locked sections, the codecs.
- The relay hub, the send queue and the swappable device are shared by goroutines, so each is also, or only, a step
  system: every locked section, atomic operation, channel operation and call into the outside is one step, any
  goroutine may take the next one, and a step that is not possible leaves the state as it is. `Run` takes any sequence
  of steps, so a lemma about `Run(es)` is about every reachable state under every interleaving.
- Protobuf marshalling, SHA-256 and message sizes are a record of arbitrary functions (`Codec`); NaCl box and Ed25519
  likewise (`Box`, `Ed25519`), with the symbolic laws a lemma needs stated in its `requires` (`Lawful`, `KeyPair`).
  Clocks, random challenges, the platform's answers and the outcomes of I/O are inputs of the step or call.
- Integers are unbounded except where the width shows: stream sequence numbers are 64-bit and wrap, grants carry
  two's-complement 64-bit fields, the proof length prefix is 16 bits, frame lengths are 32 bits.

Five places where the code and what is said about it part, each stated exactly:

- "Only the newest one can be answered, so a slow answer to an old one is simply ignored" (pkg/relay/auth.go:119-122,
  and 137-140: it must not close the link) fails in two ways. A challenge the sweep replaces while its proof is being
  opened is accepted all the same, and the newer one discarded: `SupersededRun` is a run from a fresh hub,
  `NewestUnlessReplaced` the if-and-only-if. And a slow answer read while a newer challenge is outstanding is opened
  against that one, fails, and ends the link: `LateAnswerRun` is a run, and `LateAnswerExact` says that a late answer
  is ignored if and only if no challenge is outstanding when it is read. `AcceptedOnce` and `AcceptanceWasAsked` hold
  regardless.
- After a successful routing call the platform holds the rendered settings, but not always after a device failed to
  open or swap in: the platform then already took settings that the object does not count as applied, and going back
  to the old ones is skipped as unchanged. `InStepExact` and `RunExact` give the if-and-only-if over every run, in the
  outcomes of the calls; `FailedOpenRun` and `FirstCallInstalls` make the failing runs from a fresh object.
- "The usage counter mirrors the grant meshnet" (pkg/relay/hub.go:268) fails when a link that was evicted while it was
  re-authenticating stores its meshnet after its successor registered: `OverwrittenRun` is a run from a fresh hub,
  `MirrorExact` the if-and-only-if.
- "The fewest prefixes that cover the rest" holds exactly for a valid base: `Fewest`.
- A delta stream reproduces the map exactly as far as digests tell contents apart: `StepExact` and `DeltaResult` give
  the if-and-only-if, per step, in terms of the two maps involved; injectivity of the digest is not needed.

## Model

| member | source | states |
|---|---|---|
| NetMapStreams.StreamExact | pkg/mesh-proto/netmapstream.go:88-267 | for every run of offered maps, some refused, some failing to send, with one node identity, fewer than 2^64 maps and no collision between neighbours: every frame is accepted and the node holds the last map sent field by field, its own self, metadata and relay grant, its peers sorted by id, at its sequence number |
| NetMapStreams.StepExact | pkg/mesh-proto/netmapstream.go:97-267 | one live step: the frame is accepted if and only if the sequence did not wrap and the node is the same, or looks the same to a delta because the metadata digest did not move; an accepted frame leaves the node holding exactly the new map if and only if the frame was full or no digest stood for two contents |
| NetMapStreams.FirstExact | pkg/mesh-proto/netmapstream.go:133-136 | the first frame of a stream is always accepted and leaves the node holding every field of the offered map, peers sorted |
| NetMapStreams.EncoderRefuses | pkg/mesh-proto/netmapstream.go:98-124 | whatever was sent before, a map is refused if and only if it is missing or has no self, does not marshal, or lists a peer that is nil, has no positive id, does not marshal, or repeats an id |
| NetMapStreams.OutOfOrderRefused | pkg/mesh-proto/netmapstream.go:174-186 | a frame lost, repeated or out of order is found out: the node accepts no frame, full or delta, that was made against another sequence number than its own |
| NetMapStreams.DeltaPeers | pkg/mesh-proto/netmapstream.go:109-132 | the peers a delta leaves at the node are the new map's, sorted, if and only if no id kept its digest while its content changed |
| NetMapStreams.DeltaAccepted | pkg/mesh-proto/netmapstream.go:137-144 | every delta the encoder can build passes every check of the decoder, except across a sequence wrap or a change of identity |
| NetMapStreams.DeltaResult | pkg/mesh-proto/netmapstream.go:137-144 | the whole map a delta leaves behind is the new one if and only if neither peers nor metadata collided |
| NetMapStreams.UpsertsExact | pkg/mesh-proto/netmapstream.go:108-132 | a delta carries, in id order, exactly the peers whose digest is not the one last sent |
| NetMapStreams.RemovalsExact | pkg/mesh-proto/netmapstream.go:125-131 | a delta removes exactly the ids the old map had and the new one lacks, in a form the decoder's validation accepts |
| NetMapStreams.KeptExact | pkg/mesh-proto/netmapstream.go:245-260 | an old peer survives a delta exactly when the new map lists its id under the old digest |
| NetMapStreams.FeedGood | pkg/mesh-proto/netmapstream.go:167-267 | after any frames at all, malformed ones included, the baseline is well formed: self set, peer ids positive and strictly ascending, sequence recorded |
| NetMapStreams.FeedKeeps | pkg/mesh-proto/netmapstream.go:174-195 | over any frames, identity never changes once set, the sequence never goes back, and an accepted frame on a sequenced stream moves it by exactly one |
| NetMapDecoders.NetMapDecoder.Apply | pkg/mesh-proto/netmapstream.go:167-267 | accepts exactly the frames the acceptance predicate admits, then holds the specified update; a rejected frame leaves the decoder unchanged |
| NetMapDecoders.AcceptsExact | pkg/mesh-proto/netmapstream.go:171-239 | the acceptance predicate, in the fields of frame and baseline: a frame is accepted if and only if none of the listed faults is in it |
| NetMapDecoders.DeltaIsTableUpdate | pkg/mesh-proto/netmapstream.go:240-262 | the update is the plain table update: old table minus removals, overridden by upserts, as a strictly ascending list |
| NetMapDecoders.MergeIsNextPeers | pkg/mesh-proto/netmapstream.go:240-262 | the three-index merge over sorted inputs computes that update |
| NetMapDecoders.MergeMembers | pkg/mesh-proto/netmapstream.go:245-261 | the merge keeps exactly the upserts and the peers neither removed nor replaced |
| NetMapDecoders.MergeStrict | pkg/mesh-proto/netmapstream.go:245-261 | the merged ids are strictly ascending |
| NetMapDecoders.MergeFits | pkg/mesh-proto/netmapstream.go:243 | the preallocated capacity is never negative and always suffices |
| NetMapDecoders.MergeSorted | pkg/mesh-proto/netmapstream.go:243-261 | the loop with its moving indices returns the merge, within the reserved capacity |
| NetMapDecoders.MergeTurn | pkg/mesh-proto/netmapstream.go:245-260 | one turn of the loop keeps what is out plus what is ahead equal to the whole merge |
| NetMapDecoders.SortedUpserts | pkg/mesh-proto/netmapstream.go:213-224 | sorting and comparing neighbours finds exactly the lists with a bad or repeated id |
| NetMapDecoders.Search | pkg/mesh-proto/netmapstream.go:231-235 | the binary search returns the boundary between smaller and not smaller ids |
| NetMapDecoders.CheckRemovals | pkg/mesh-proto/netmapstream.go:225-239 | the sorted scan with two binary searches per id accepts exactly the removals that are positive, distinct, known and not upserted |
| NetMapDecoders.GrantOnlyKeepsPeers | pkg/mesh-proto/netmapstream.go:196-203 | the grant-only fast path leaves the peers the general update would |
| NetMapDecoders.ReceiveKeepsGood | pkg/mesh-proto/netmapstream.go:204-266 | every accepted frame keeps the baseline well formed |
| NetMapEncoders.NextWithPeerCache | pkg/mesh-proto/netmapstream.go:97-157 | encoding with any valid cache, whatever it holds, is encoding without one, refusals included; the cache stays valid |
| NetMapEncoders.PeerFingerprintCache.Digest | pkg/mesh-proto/netmapstream.go:44-71 | whatever was cached under any id, the answer is the digest of this peer's bytes; the new cache is the old one, with this peer's bytes and hash stored if they are new and fit 4096 entries and 8 MiB, and its byte total is exact |
| NetMapEncoders.FingerprintPeers | pkg/mesh-proto/netmapstream.go:108-124 | succeeds exactly on positive, distinct, marshallable peers, and yields their digests and the changed ones |
| NetMapEncoders.CollectGone | pkg/mesh-proto/netmapstream.go:125-131 | the removals do not depend on the order the digest map is visited in |
| NetMapEncoders.GoneExact | pkg/mesh-proto/netmapstream.go:125-131 | removals are ascending and are exactly the ids that vanished |
| NetMapEncoders.VarintSize | pkg/mesh-proto/netmapstream.go:147-150 | the shifting loop computes the varint length |
| NetMapEncoders.VarintLenExact | pkg/mesh-proto/netmapstream.go:147-150 | that length is the least number of seven-bit groups that holds the value |
| NetMapEncoders.SmallestFrame | pkg/mesh-proto/netmapstream.go:145-156 | for a map without an envelope the frame sent is never larger than either candidate |
| PrefixSubtraction.Exact | apps/client/mobile/vpnrouting.go:183-210 | an address is covered by the result if and only if it is in the base and in nothing removed |
| PrefixSubtraction.Outputs | apps/client/mobile/vpnrouting.go:183-210 | the result is aligned, inside the base and pairwise disjoint |
| PrefixSubtraction.Maximal | apps/client/mobile/vpnrouting.go:179-210 | every prefix inside the base that avoids what is removed lies inside a single result |
| PrefixSubtraction.Fewest | apps/client/mobile/vpnrouting.go:179-210 | no list of prefixes with the same coverage is shorter, if and only if the base is valid |
| PrefixSubtraction.LengthBound | apps/client/mobile/vpnrouting.go:198-209 | a base that is split yields at most the total depth of the removed prefixes strictly inside it |
| PrefixSubtraction.FullLengthIsSwallowed | apps/client/mobile/vpnrouting.go:191-201 | a base that reaches the split is never a single address, so the recursion ends |
| PrefixSubtraction.SubtractPrefixes | apps/client/mobile/vpnrouting.go:183-210 | the recursion with its scan computes the specified difference |
| PrefixSubtraction.Scan | apps/client/mobile/vpnrouting.go:185-197 | the scan over masked prefixes with its family test decides containment and overlap of the prefixes as given |
| Prefixes.SetBitBits | apps/client/mobile/vpnrouting.go:204-208 | setting a bit in the address bytes flips exactly that bit of the address |
| Prefixes.MaskBits | apps/client/mobile/vpnrouting.go:184 | masking keeps the leading bits and zeroes the rest |
| Prefixes.ContainsMasked | apps/client/mobile/vpnrouting.go:191 | a prefix contains an address if and only if masking both to its length gives the same bytes |
| VpnRoutings.RoutesExact | apps/client/mobile/vpnrouting.go:115-137 | the rendered routes cover exactly the overlay range, the subnets and, with an exit, all of IPv4 but what stays on the LAN |
| VpnRoutings.OrderIrrelevant | apps/client/mobile/vpnrouting.go:121-132 | the rendering does not depend on the order the subnet map is visited in |
| VpnRoutings.RouteOrder | apps/client/mobile/vpnrouting.go:127-132 | the comparison routes are sorted by is a total preorder |
| VpnRoutingRuns.RoutesAscend | apps/client/mobile/vpnrouting.go:127-132 | of two rendered routes the earlier has fewer address bytes, or at the first byte that differs the smaller one, or the same address and no more bits |
| VpnRoutingRuns.MeshRange | apps/client/mobile/vpnrouting.go:15-17 | the overlay prefix contains an address if and only if it is 100.64.0.0 to 100.127.255.255 |
| VpnRoutingRuns.WantExact | apps/client/mobile/vpnrouting.go:65-107 | over every run: overlay, subnets, exit and what stays on the LAN are what the last call about each of them said, a failed exit counting as none |
| VpnRoutingRuns.AppliedByCalls | apps/client/mobile/vpnrouting.go:65-177 | after every run that ends in a successful call with an address: the settings on record are that address as a host prefix, this MTU, and routes that cover an address if and only if it is in the mesh range, in a prefix last added rather than withdrawn, or, while the last exit call succeeded and was not undone, in IPv4 and not in that call's LAN list |
| VpnRoutings.InStepExact | apps/client/mobile/vpnrouting.go:143-177 | over every run, whatever is refused and whatever fails: the platform holds the settings on record if and only if the last call it took settings from got its device in place |
| VpnRoutings.RunExact | apps/client/mobile/vpnrouting.go:65-177 | over every run, a successful call with an overlay leaves the rendering on record, and the platform with it if and only if, before the call, the last device was in place or the settings on record were others |
| VpnRoutings.NeverFailsInstalls | apps/client/mobile/vpnrouting.go:143-177 | runs in which opening and swapping never fail, refusals included, meet that condition |
| VpnRoutings.FailedOpenLeavesRoute | apps/client/mobile/vpnrouting.go:143-177 | when a device fails to open, adding and withdrawing a subnet leaves the platform routing it although the withdrawal succeeded |
| VpnRoutings.FailedOpenRun | apps/client/mobile/vpnrouting.go:143-177 | after any run that ends in step, two calls, the second successful, leave the platform routing a subnet nobody asks for |
| VpnRoutings.FirstCallInstalls | apps/client/mobile/vpnrouting.go:65-70 | such a run exists: one call on a fresh object, for every address and descriptor |
| VpnRoutings.FailureExact | apps/client/mobile/vpnrouting.go:93-100 | a failed call keeps its request on record for the next one; only a failed exit is taken back, and nothing counts as applied |
| VpnRoutings.CallsUndo | apps/client/mobile/vpnrouting.go:72-106 | an exit and its undo, and a subnet and its withdrawal, cancel each other |
| VpnRoutings.VpnRouting.SettingsLocked | apps/client/mobile/vpnrouting.go:115-137 | the loop over the subnet map renders the specified settings |
| VpnRoutings.VpnRouting.ApplyLocked | apps/client/mobile/vpnrouting.go:143-177 | new state and result are the specified ones for every answer of the platform and the device |
| VpnRoutings.VpnRouting.ConfigureLink | apps/client/mobile/vpnrouting.go:65-70 | the whole call is the specified one |
| VpnRoutings.VpnRouting.AddSubnetRoutes | apps/client/mobile/vpnrouting.go:72-79 | the masked prefixes join the subnets, then everything is applied |
| VpnRoutings.VpnRouting.DelSubnetRoutes | apps/client/mobile/vpnrouting.go:81-88 | the masked prefixes leave the subnets, then everything is applied |
| VpnRoutings.VpnRouting.EnableExitRoutes | apps/client/mobile/vpnrouting.go:93-100 | the exit is on, with the LAN list given, if the call succeeds, and taken back if it fails; what that means for routes is `AppliedByCalls` |
| VpnRoutings.VpnRouting.UndoExitRoutes | apps/client/mobile/vpnrouting.go:101-106 | the undo turns the exit off and re-applies |
| RelayHubSafety.Reachable | pkg/relay/auth.go:123-305 | the admission, challenge, registry, usage and sweep invariants hold in every reachable state |
| RelayHubSafety.RegisteredIsAdmitted | pkg/relay/hub.go:133-161 | with authentication required, every registered link answered a challenge issued on that link, on TLS with a proof that opens as bound to the certificate presented and on plaintext with one that opens as the legacy proof, carrying a grant signed for that node, this relay's meshnet and kind; its expiry is on record, set, and was not past |
| RelayHubRuns.RegisteredInItsFormat | pkg/relay/auth.go:173-183 | over every run: whoever sealed the payload that got a link registered, and for whatever purpose, sealed it for that node, that challenge and that transport: bound to its certificate on TLS, legacy on plaintext |
| RelayHubSafety.UnprovenIsHarmless | pkg/relay/hub.go:149-161 | no step of a connection that has not proved itself changes the registry, the usage map or any other link |
| RelayHubSafety.CheckedExact | pkg/relay/auth.go:195-214 | a grant passes the checks if and only if it is the canonical content of a blob signed by the coordinator, not expired, for this node, for the meshnet this relay serves if it serves only one, with scope 1 on a platform relay and 1 or 2 on a self-hosted one |
| RelayHubSafety.AcceptedOnce | pkg/relay/auth.go:141-171 | under every interleaving of readers and sweeper no challenge is accepted twice, and none that was not issued |
| RelayHubHistory.AcceptanceWasAsked | pkg/relay/auth.go:134-171 | for every run and every accepted challenge: its proof was read on its link while that very challenge was outstanding there, then opened and checked, then committed, in that order; a proof read with none outstanding never counts |
| RelayHubHistory.RegistrationWasAsked | pkg/relay/auth.go:223-250 | with authentication required, every registered link has that handshake behind the evidence on its record |
| RelayHubHistory.NewestUnlessReplaced | pkg/relay/auth.go:119-171 | a proof about to be accepted answers the newest challenge of its link if and only if the sweep re-challenged the link at no step after the one that read it |
| RelayHubRuns.LateAnswerExact | pkg/relay/auth.go:119-154 | an answer sealed, for either transport, to a challenge that is not the outstanding one is ignored if and only if none is outstanding when it is read, and ends the link otherwise |
| RelayHubRuns.TimelyAnswer | pkg/relay/auth.go:141-158 | an honest node's answer to the outstanding challenge, sealed as bound to the certificate on TLS and as the legacy proof on plaintext, with a grant that still runs, passes every check |
| RelayHubRuns.SupersededRun | pkg/relay/auth.go:119-171 | from a fresh hub, for every such relay, coordinator, node and grant: a run in which a challenge that is not the newest is accepted and the newest is discarded unanswered |
| RelayHubRuns.LateAnswerRun | pkg/relay/auth.go:119-154 | from a fresh hub: a run in which a node with a good grant is shown out for answering the older of two challenges |
| RelayHubRuns.SomeWorld | pkg/relay/auth.go:195-214 | such a relay, coordinator, node and grant exist: the assumptions of the runs do not contradict each other |
| RelayHubSafety.SupersededYetAccepted | pkg/relay/auth.go:119-171 | from every reachable state in which the challenge being opened is replaced, the older is accepted and the newer discarded |
| RelayHubSafety.ChallengesSpaced | pkg/relay/auth.go:281-305 | a challenge the sweep sends in place of an unanswered one comes at least a tick after it |
| RelayHubSafety.SweepExact | pkg/relay/auth.go:281-305 | the turns of an uninterrupted sweep, in any order, close exactly the expired links, leave every link that is due with a challenge less than a tick old, and touch nothing else |
| RelayHubSafety.SweepWhole | pkg/relay/auth.go:281-317 | from its tick to its end, an uninterrupted sweep does so to every registered link, in any order, and to no other |
| RelayHubInvariants.StepAuth | pkg/relay/auth.go:123-250 | every step keeps the admission invariant |
| RelayHubInvariants.StepChallenges | pkg/relay/auth.go:123-171 | every step keeps outstanding and held challenges unanswered and the outstanding one the newest |
| RelayHubUsage.StepUsage | pkg/relay/usage.go:65-112 | every step keeps registered links on the map's counter for their key and the books balanced |
| RelayHubSafety.RegisteredCreditsLand | pkg/relay/hub.go:75-97 | in every reachable state a registered link credits the counter the map reports for its key |
| RelayHubSafety.EntryExact | pkg/relay/usage.go:77-105 | every step keeps a node's counter, reconnects included; its entry is dropped if and only if a take that drained nothing from it finds no link registered |
| RelayHubBytes.UsageConserved | pkg/relay/usage.go:91-112 | per counter and direction, over every run: the bytes received from, and those delivered to, the links that hold it are in reports, being drained, or still on it |
| RelayHubBytes.TotalsConserved | pkg/relay/usage.go:65-112 | bytes relayed in the run = bytes in reports + bytes drained and about to be reported + bytes still in the map + bytes on dropped counters, under every interleaving |
| RelayHubBytes.AlwaysCredits | pkg/relay/hub.go:186-196 | over every run, what a counter was credited in each direction is the sum over the run of the bytes read from, and of those written to, the links holding it |
| RelayHubBytes.BilledRun | pkg/relay/usage.go:91-112 | from a fresh hub, for every admitted node and all byte counts: one report, under its grant's meshnet, with the bytes read from it in and the bytes written to it out |
| RelayHubAttribution.AttributionSound | pkg/relay/usage.go:46-112 | a report names no meshnet, or one that a grant accepted for that very node, at some time, put it into; on a relay serving one meshnet, that one |
| RelayHubAttribution.ForwardStaysInMeshnet | pkg/relay/hub.go:229-272 | in every reachable state a packet is queued on the registered link of its addressee, and when both ends are attributed one meshnet was granted, at some time, to both |
| RelayHubMirror.MirrorExact | pkg/relay/hub.go:267-272 | in every reachable state, for every registered node whose link is not just storing a new grant's meshnet: the counter carries the meshnet of that link's grant if and only if no other link stored another one over it and it did not register without one over an older attribution |
| RelayHubMirror.OverwrittenRun | pkg/relay/auth.go:156-163 | from a fresh hub: a run in which a registered link's counter ends with the meshnet of the link it evicted |
| RelayHubMirror.OverwrittenBy | pkg/relay/auth.go:156-163 | how: the evicted link, between accepting its new proof and storing its meshnet, stores after its successor registered |
| RelayHubMirror.ForwardByCurrentGrants | pkg/relay/hub.go:229-272 | between nodes whose counters are not overwritten, a packet the limiter allows is queued, on the link lookups find, if and only if the grants their links hold now do not name two different meshnets |
| RelayHubMirror.ForwardExact | pkg/relay/hub.go:229-272 | in every reachable state: a packet is queued if and only if its addressee is registered, the limiter allows it, and the two nodes' counters do not carry two different meshnets; and on that addressee's link |
| RelayHubMirror.OpenRelayForwards | pkg/relay/hub.go:257-272 | with authentication off no counter ever carries a meshnet, and every registered addressee is reached |
| RelayHubMirror.ReportByCurrentGrant | pkg/relay/usage.go:98-102 | bytes of such a node are reported under the meshnet of the grant its link holds now |
| RelayHubAttribution.StepAttributes | pkg/relay/auth.go:156-170 | every step, re-authentication and reconnect included, keeps counters, links and reports attributed to accepted grants |
| RelayHubRegistry.OneLinkPerNode | pkg/relay/hub.go:75-105 | under every interleaving a node has at most one open link serving it, and it is the one lookups find: reconnecting leaves no second link, and a late leaver does not unregister its successor |
| RelayHubRegistry.RegisteredExact | pkg/relay/hub.go:75-105 | in every reachable state an open link that registered is the one lookups find if and only if it has not left |
| RelayHubRegistry.EvictsOnlyItsOwn | pkg/relay/hub.go:75-97 | registering closes the link it replaces and no other, and moves no other registration |
| RelayHubRegistry.StepHolds | pkg/relay/hub.go:75-105 | every step keeps each open serving link registered under its key |
| RelayHubObjects.Hub.Add | pkg/relay/hub.go:75-97 | registers the link, closes the one it evicts, attaches the key's counter and its attribution, and nothing else |
| RelayHubObjects.Hub.Remove | pkg/relay/hub.go:99-105 | removes the link unless another holds its key by now |
| RelayHubObjects.Hub.TakeUsage | pkg/relay/usage.go:91-112 | uninterrupted: one sorted report per node with traffic and no other, every counter in the map at zero, only idle nodes without a link forgotten, the books still balanced |
| RelayHubObjects.Hub.Drain | pkg/relay/usage.go:97-106 | one turn of that loop |
| RelayHubObjects.DrainSteps | pkg/relay/usage.go:97-106 | a turn of the loop is the three atomic steps of the interleaved model |
| RelayHubObjects.Hub.Sweep | pkg/relay/auth.go:281-305 | over the snapshot of registered links: expired ones closed, due ones freshly challenged, all others and every unregistered link untouched |
| SendQueue.QueuePromises | pkg/relay/sendq.go:111-148 | over every run, in the steps of the run: offered = written + dropped + queued + at most one in flight or lost; depth at most 512; first in, first out; dropped are exactly the frames offered to a queue of 512 or over 500 ms old when taken out, and all others taken out are written in that order; usage is their credits |
| SendQueue.LinkReads | pkg/relay/hub.go:69-73 | whoever reads the link at any moment reads exactly the frames completed in the run, data frames as they were queued and control frames as they were asked for, in order, plus at most the one just completing or lost: control and data never interleave |
| SendQueue.Reachable | pkg/relay/sendq.go:124-148 | every interleaving keeps the queue's accounts and the write lock's ownership |
| SwapTun.ClosedExactlyOnce | apps/client/mobile/swaptun.go:42-61 | no device is closed twice, the current one never, and once the front is closed and quiet every device it was given was closed exactly once |
| SwapTun.ClosedOnlyAfterMoving | apps/client/mobile/swaptun.go:51-59 | the front closes a device only after its generation moved or the front closed |
| SwapTun.NeverTheFrontsFault | apps/client/mobile/swaptun.go:76-111 | an error a call reports as the device's comes from a device the front had not closed |
| SwapTun.FrontFailureRetries | apps/client/mobile/swaptun.go:70-92 | a failure the front caused is always retried |
| SwapTun.ReportedExact | apps/client/mobile/swaptun.go:70-92 | over every run: a device failure is reported if and only if the device that failed is still the current one when the call checks, which is when the front is open and the generation has not moved; otherwise the call is retried |
| SwapTun.LooksExact | apps/client/mobile/swaptun.go:76-111 | over every run, at the top of its loop: a call ends with the closed error if and only if the front is closed, tries the current device under the generation it was installed as, and without a device a Write is dropped and a Read sleeps |
| SwapTun.KindsKept | apps/client/mobile/swaptun.go:76-111 | in every reachable state only reads sleep and only writes are dropped |
| SwapTun.SleepersWake | apps/client/mobile/swaptun.go:81-92 | a sleeping reader means an open front without a device, and the next Swap or Close wakes every sleeper to a device or the closed front |
| SwapTun.ChannelClosedOnce | apps/client/mobile/swaptun.go:42-61 | no channel is ever closed twice |
| SwapTun.Reachable | apps/client/mobile/swaptun.go:42-154 | the invariant of devices, generations, channels and calls holds in every reachable state |
| DerpFrames.StreamRoundTrip | pkg/mesh-proto/derpframe.go:93-120 | any list of encoded frames reads back as that list, then a clean end |
| DerpFrames.FrameLayout | pkg/mesh-proto/derpframe.go:93-102 | exactly the payloads up to 64 KiB encode, to the type byte, the length in four bytes, most significant first, and the payload |
| DerpFrames.ReadStops | pkg/mesh-proto/derpframe.go:106-120 | each way a read stops short, as an if-and-only-if in the bytes that are there |
| DerpFrames.ReadThenEncode | pkg/mesh-proto/derpframe.go:93-120 | a frame that was read re-encodes to exactly the bytes consumed |
| DerpFrames.CutStream | pkg/mesh-proto/derpframe.go:106-120 | a stream cut anywhere yields a prefix of its frames, and a clean end exactly when the cut falls between two |
| DerpFrames.PacketRoundTrip | pkg/mesh-proto/derpframe.go:124-140 | packing and splitting a packet are inverse to each other |
| DerpFrames.ForwardFits | pkg/relay/hub.go:229-255 | a packet read off a link always fits when re-addressed, so the oversize branch is unreachable |
| DerpFrames.EncodeFrame | pkg/mesh-proto/derpframe.go:93-102 | the buffer filled by offset is the encoding; oversize payloads are refused |
| DerpFrames.ReadFrame | pkg/mesh-proto/derpframe.go:106-120 | consumes and returns exactly what the specification reads, every error included |
| DerpAuth.NoStandIn | pkg/mesh-proto/derpauth.go:158-264 | a box any of the four seal functions made is accepted, in any wrapping and under any keys, only by its own kind of opener, for the claimed key, the challenge and the certificate it names |
| DerpAuth.OpenExact | pkg/mesh-proto/derpauth.go:230-264 | a proof opens to a grant if and only if it is a two-byte length, that grant, and a box of the exact size for its kind that opens to the expected plaintext |
| DerpAuth.PlaintextLayout | pkg/mesh-proto/derpauth.go:158-174 | the four plaintexts byte by byte: magic, claimed key, challenge key, and the certificate hash of a bound one |
| DerpAuth.PlaintextInjective | pkg/mesh-proto/derpauth.go:158-174 | equal plaintexts have one purpose, key, challenge and binding |
| DerpAuth.SealOpen | pkg/mesh-proto/derpauth.go:180-264 | sealed to a challenge and opened by its issuer, a proof hands over its grant |
| DerpAuth.SealedFits | pkg/mesh-proto/derpauth.go:191-203 | exactly the grants under the cap are sealed; the 16-bit prefix is exact and the payload fits one frame |
| DerpAuth.OtherRelayRefused | pkg/mesh-proto/derpauth.go:241-264 | a proof bound to another certificate is refused, and for that reason |
| DerpAuth.BareRoundTrip | pkg/mesh-proto/registerauth.go:96-128 | registration and edge proofs open for the key and challenge they were sealed for |
| DerpAuth.ChallengeRoundTrip | pkg/mesh-proto/derpauth.go:138-154 | challenges encode and parse back, both ways |
| RelayGrants.SignVerify | pkg/mesh-proto/relaygrant.go:139-208 | a signed grant verifies exactly until its expiry, to the second, and then carries what was granted |
| RelayGrants.VerifyExact | pkg/mesh-proto/relaygrant.go:193-208 | verification yields a grant if and only if the blob is its canonical bytes with a signature that verifies over them, before its expiry |
| RelayGrants.SignedLayout | pkg/mesh-proto/relaygrant.go:139-148 | the signed bytes of every encodable grant: magic, version, node, then meshnet, scope and expiry seconds, big-endian two's complement |
| RelayGrants.SignRefuses | pkg/mesh-proto/relaygrant.go:151-166 | signing fails if and only if the key has the wrong size, the grant no scope, or the node key is all zero |
| RelayGrants.ParseCanonical | pkg/mesh-proto/relaygrant.go:171-187 | a blob that parses is the canonical encoding of what it parsed to, so the signature covers exactly what is acted on |
| RelayGrants.ParseSigned | pkg/mesh-proto/relaygrant.go:139-187 | the signed bytes of every encodable grant parse back to it, whatever the signature |
| Stun.ResponseRoundTrip | pkg/mesh-proto/stun/stun.go:81-192 | every IPv4 and IPv6 address and port comes back, unmapped |
| Stun.ResponseParse | pkg/mesh-proto/stun/stun.go:90-122 | any well-formed padded attribute list, with anything after it, yields its first address that decodes, for the matching transaction only |
| Stun.AttrsParse | pkg/mesh-proto/stun/stun.go:99-121 | the attribute loop finds the first decodable address |
| Stun.RequestRoundTrip | pkg/mesh-proto/stun/stun.go:62-76 | requests are recognised with their transaction, responses are not requests |
| Stun.XorInvolution | pkg/mesh-proto/stun/stun.go:126-192 | masking twice gives back the value |
| Stun.XorBits | pkg/mesh-proto/stun/stun.go:126-192 | a bit of a masked value is set if and only if value and mask differ there |
| Stun.ResponseLayout | pkg/mesh-proto/stun/stun.go:81-157 | the whole response on the wire, for every address and port: header, cookie, transaction, attribute, family, and every masked byte with the mask it gets |
| Stun.UnmapExact | pkg/mesh-proto/stun/stun.go:127 | exactly the addresses with ten zero bytes and two of 255 in front are reported as IPv4 |
| Stun.ResponseGate | pkg/mesh-proto/stun/stun.go:71-97 | only a success response with the cookie, the wanted transaction and all its attributes is looked into; what counts as a request, as an if-and-only-if |
| Stun.DecodesExact | pkg/mesh-proto/stun/stun.go:159-192 | an attribute decodes if and only if its family is known and it is long enough for it |
| Stun.ParseResponse | pkg/mesh-proto/stun/stun.go:90-122 | the loop over a shrinking slice computes the specified result on every packet |
| Stun.BuildResponse | pkg/mesh-proto/stun/stun.go:81-157 | the encoder's byte loops build the specified response |

## Left out

- Generated protobuf and gRPC code, real cryptography, X.509, TLS and JSON: parameters or injective renderings here.
- Error values: a refusal is modelled as such, its text and wrapping are not; stream, frame and proof errors keep their kind.
- The cache's scratch buffer, slice aliasing and the mutex of the cache: the model has values, and one caller at a time.
- Aliasing between frames and the decoder's map (the source shares peer pointers and treats them as read-only).
- The order peers of a full map are listed in on the wire: the decoder sorts them, and only its result is compared.
- SwapTun, SendQueue: step systems over values, not classes, because every method can be interrupted inside; the number of buffers a device read returns, MTU, Name and Events are not modelled.
- SwapTun: the generation counter does not wrap at 2^64, and Swap is given a device it was not given before.
- SendQueue: a connection that failed a write takes no more bytes, a write's bytes go out in stretches of any length, and the clock is an arbitrary integer reading.
- RelayHub: usage counters do not wrap at 2^64, challenges are fresh (each has an identity of its own), generating one never fails, time is an integer number of nanoseconds that does not go back, and a live link's closing connection is seen by its reader at any later time.
- RelayHubAttribution.AttributionSound: says nothing about when the grant was accepted; the grant held now is `RelayHubMirror.ReportByCurrentGrant`'s, under the exact condition of `MirrorExact`.
- RelayHubAttribution.ForwardStaysInMeshnet: says nothing about when the grants were accepted (`RelayHubMirror.ForwardByCurrentGrants` does); the lookup and the two meshnet loads of one packet are one step; the rate limiter is an arbitrary answer, and performance counters are not modelled.
- RelayHubObjects.Hub.TakeUsage: the text order of node keys is a parameter, any total preorder on reports.
- RelayGrants: expiry seconds outside the range of the platform's time type are not modelled, and grants are built by concatenation rather than by buffer offsets.
- Prefixes: IPv6 zones.
- Stun: the invalid zero address as the address to report.
- VpnRoutings: the notification after new settings, and descriptors and devices other than whether they open and swap in.
- The client's HTTP handlers and sign-in, usage assembly and file endpoints, the coordinator's stores, service bootstrap, metrics, CLI, the tunnel protocol's own codecs, certificate pins and map building: easier than what is here, or I/O around packages outside the repository's core.
