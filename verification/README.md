# Verified model of the network operator's core

A Dafny model of the parts of the network operator that change state step by step and have to get it right:
the node agent that reconciles VRFs, L2 networks and traffic mirrors through netlink, the controller that syncs
intent objects between two clusters, the compiler from BGP filters to route-maps, the vSR table plan, the
debouncer, the tc program that learns neighbors, and the VRF name shortener.

How the model is put together:

- Netlink code (`pkg/nl`, `cmd/frr-cra`) is imperative Dafny over a kernel state: `LinkTable.Toolkit` holds the
  link table, `MirrorKernel.Kernel` the links, clsact hooks and tc filters. Every call may fail, and a failed call
  changes nothing. A ghost log of link creations, deletions, set-ups and FRR reloads carries the ordering claims,
  which hold on every exit, error exits included.
- Protocols (`SyncProtocol`, `Debounce`) are state machines whose steps are single API calls or atomic
  operations. The theorems quantify over every sequence of steps.
- Compilers and parsers (`RouteMap`, `VrfImports`, `MirrorMatch`, `BpfNeighbor`, `SyncMetadata`, `VrfName`) are
  proved against a reference meaning: evaluation of the filter, of the rule, a recursive option parser, layers of
  ownership, a characterisation of the shortened name.

Where a promised property does not hold of the code for all inputs, the model keeps the code, proves exactly when
the property holds, and shows an input where it does not:

| property | holds exactly when | fails at |
|---|---|---|
| a new VRF's table is free | `Layer3.FreshForAllVrfs` | `Layer3.ReservedTableIsReused` |
| a debounced request is served | `Debounce.UnservedExactlyInWindow` | `Debounce.WindowIsReachable` |
| mirror filters mean their rule | `MirrorMatch.FaithfulIffWellFormed` | `MirrorMatch.IllFormedMatchesNothing` with `MirrorMatch.SomethingIsMirrored` |
| mirror cleanup spares loopbacks and tunnels | `MirrorPlan.CleanupKeepsLoopbacks`, `MirrorPlan.CleanupKeepsTunnels` | `MirrorPlan.GreLoopbackIsDeleted`, `MirrorPlan.GreVrfIsDeleted` |
| a route-map entry means its item | `RouteMap.ItemFaithfulIff`, `RouteMap.CarriedIff`, `RouteMap.DefaultFaithfulIff` | `RouteMap.NextIsRejected` |
| two route-maps mean their filters | `RouteMap.TwoMapsIff` | `RouteMap.MatchIsLost`, `RouteMap.RemovalIsLost` |
| two imports decide by their filters | `VrfImports.TwoImportsIff` | `VrfImports.ImportsShareAMap`, `VrfImports.SelectorIsACalledMap` |
| an unmanaged object is left alone | `SyncProtocol.ForeignCopyChangesIff` | `SyncProtocol.ForeignCopyIsDeleted` |
| a mirror tunnel is up after a run | `MirrorManager.Manager.ReconcileMirror` | `MirrorPlan.DownTunnelIsLeft` |
| an apply sees what was committed before | `VsrTables.SeesCommittedIff` | `VsrTables.MetricsInWorkingNamespace` |

Findings worth a maintainer's attention:

- `findFreeTableID` of the node agent looks only at listed VRFs, so a new VRF shares the table of the cluster or
  management VRF exactly when that table is the least number in [50, 80) that no listed VRF uses.
- A debounced request that arrives between a routine's last failed compare-and-swap and the moment the routine
  clears the scheduled flag is not served until the next request.
- In route-maps, `additiveCommunities: false` and `removeAllCommunities: false` count as set, a `next` action
  rejects, an exact community match is loosened, an accepting default loses its modification, and a map named
  `remove_x` shares community lists with the map `x`.
- VRF `a` importing from `b_import_c` and VRF `a_import_b` importing from `c` share one route-map, and the second
  filter is lost. VRF `a_import_x` selects its imports in the very map that VRF `a`'s import from `x_import` calls, so
  one of the two is decided by the other's filter; which one depends on the order in which the VRFs are visited.
- Deleting a management object deletes the object of that name on the workload cluster even if it is not managed;
  applying it does not touch such an object.
- A mirror tunnel that an earlier run created but failed to set up matches its configuration and stays down.
- Mirror rules with an unparseable prefix, mixed families, an unknown protocol, or ports on ICMP match nothing as
  written but mirror traffic once programmed.
- Mirror cleanup deletes a loopback, or even a VRF, whose name starts with `gre-` or `gtap-` and is no tunnel's.
- When the metrics namespace of the vSR is also its working namespace, the first successful apply emits an empty
  namespace in front of the filled one, and no configuration can be generated after it.

## Model

| member | source | states |
|---|---|---|
| TableIds.FindFree | pkg/nl/layer3.go:153-176 | the result is the least number in [50, 80) that no given table uses, for any list with duplicates and out-of-range numbers; it fails exactly when all thirty are taken |
| NlManager.Manager.UpdateL3Indices | pkg/nl/list.go:120-147 | the bridge and VXLAN indices, the VNI and the delete mark are those of the first br.* bridge in the VRF and the first vx.* port on it, in dump order |
| Layer3.InfoSays | pkg/nl/list.go:120-147 | the description of a VRF names its first br.* bridge and the VNI of the first vx.* port on it, and it is marked for deletion exactly when one of the two is missing |
| NlManager.Manager.ListL3 | pkg/nl/list.go:81-119 | exactly the unreserved VRFs are listed, once each and in dump order, each with its own description |
| NlManager.Manager.FindFreeTableID | pkg/nl/layer3.go:153-176 | the number is the least one that no listed VRF uses; once the VRFs are listed it fails exactly when all thirty are used; some VRF has the number already exactly when a reserved one is in the way before the call |
| NlManager.Manager.CreateVRF | pkg/nl/layer3.go:38-67 | on success the table gains exactly one VRF device with the requested name and table |
| NlManager.Manager.CreateL3 | pkg/nl/layer3.go:38-67 | on success the table is the old one with the VRF and its two ports added, in a table no listed VRF uses, and that any VRF uses exactly when a reserved one was in the way; on every exit only new links were added, and every one but the VRF device is down |
| Layer3.CreateThenList | pkg/nl/layer3.go:38-67 | the listing of a created VRF recovers exactly its name, VNI and table, and its device is up |
| Layer3.CreateFrame | pkg/nl/layer3.go:38-67 | every other VRF's listing is unchanged by a creation |
| Layer3.CreateThenCleanup | pkg/nl/layer3.go:97-151 | cleaning up a VRF right after creating it restores the link table |
| Layer3.FamiliesFrame | pkg/nl/layer3.go:97-151 | removing some VRFs with their ports leaves the description of every other VRF unchanged, whatever the naming scheme |
| Layer3.FreshForAllVrfs | pkg/nl/layer3.go:153-176 | the number found is some VRF's already if and only if, before the call, a reserved VRF has the least table in the range that no listed VRF uses |
| Layer3.ReservedTableIsReused | pkg/nl/layer3.go:153-176 | a cluster VRF in table 50 is such a reserved VRF, in a well-formed table |
| Layer3.CreateSharesNothing | pkg/nl/layer3.go:38-67 | whatever tables are shared before, creating with a number free among the listed VRFs makes no two listed VRFs share one anew |
| Layer3.DeleteSharesNothing | pkg/nl/layer3.go:97-151 | deleting links makes no two listed VRFs share a table anew |
| Layer3.NewTablesAreDistinct | pkg/nl/layer3.go:38-67 | where nothing is shared anew, a VRF that was not there before has a table of its own, and distinct tables stay distinct |
| NlManager.Manager.DeleteL3Children | pkg/nl/layer3.go:124-151 | on success exactly the br.* bridges in the VRF and the vx.* ports on them are gone, for any non-zero index |
| NlManager.Manager.CleanupL3 | pkg/nl/layer3.go:97-122 | for any entry, listed or not: a reserved name is refused; on success exactly the device of that name and the bridges and VXLANs under the entry's index are gone, which for a listed VRF is its family; on every exit only those are |
| NlManager.Manager.UpL3 | pkg/nl/layer3.go:83-94 | on success both ports are up, and nothing but up flags of those names changed |
| L3Plan.DeleteComplementsExists | cmd/frr-cra/main.go:366-424 | for distinct names, a listed VRF is to be deleted exactly when the already-exists test fails for the configured VRF of its name |
| L3Plan.KeptIsConfigured | cmd/frr-cra/main.go:366-397 | a VRF that is not to be deleted matches a configured one |
| L3Plan.ConvergedListing | cmd/frr-cra/main.go:443-469 | on a converged table the listed names are exactly the configured ones, each non-local one with its VNI and unmarked |
| L3Plan.ConvergedLinks | cmd/frr-cra/main.go:443-469 | on a converged table every VRF device but the reserved ones is configured, and every configured VRF has its device and, unless local, a br.* bridge with a vx.* VXLAN of its VNI |
| FrrCra.Agent.MustDelete | cmd/frr-cra/main.go:366-397 | the loop decides exactly the delete predicate on the first configured VRF of the name |
| FrrCra.Agent.GetVRFsToDelete | cmd/frr-cra/main.go:366-397 | exactly the listed VRFs that the configuration does not keep, in dump order |
| FrrCra.Agent.AlreadyExists | cmd/frr-cra/main.go:398-424 | true exactly when some listed VRF matches the configured one |
| FrrCra.Agent.DeleteVRFs | cmd/frr-cra/main.go:443-469 | on success exactly the families of the given VRFs are gone; every deletion is logged with the l2.* bridges still enslaved |
| FrrCra.Agent.CreateVRFs | cmd/frr-cra/main.go:398-424 | every configured VRF is present afterwards, the created ones are returned, no two listed VRFs share a table that did not before, and other VRFs and L2 networks keep their links; on every exit the new ports are down |
| FrrCra.Agent.ReconcileLayer3 | cmd/frr-cra/main.go:443-469 | on success the listing is the configuration; on a table that already has it nothing is deleted or created; from any starting table no two listed VRFs share a number that did not before; on every exit every new link but VRF devices is down |
| FrrCra.Agent.UpNewVRFs | cmd/frr-cra/main.go:430-441 | on success all ports of the created VRFs are up, and only up flags changed |
| Ordering.ReloadBetween | cmd/frr-cra/main.go:604-648 | runs that create ports without setting any up, followed by a reload and a run that creates none, set up no port before a reload after its creation |
| FrrCra.Agent.ReconcileNetlink | cmd/frr-cra/main.go:604-648 | on every exit no L3VNI port created in the run came up before a later successful reload, without a successful reload every new port is down, and no VRF was deleted with an l2.* bridge enslaved; on success layer 3 is the configuration, its ports are up if the survivors' were, and every VLAN is as configured |
| NlManager.Manager.UpdateL2Indices | pkg/nl/list.go:149-210 | the description names the last VXLAN and VLAN port of the bridge in dump order, its VRF, MTU and addresses |
| NlManager.Manager.ListL2 | pkg/nl/list.go:211-257 | exactly the l2.* bridges are listed, once each, each as it is described by the link table |
| NlManager.Manager.CleanupL2 | pkg/nl/layer2.go:234-252 | on success the bridge, its VXLAN and its VLAN port are gone; on every exit nothing else is |
| NlManager.Manager.ReconcileAddresses | pkg/nl/layer2.go:263-279 | on success the interface carries exactly the desired addresses |
| NlManager.Manager.CreateL2 | pkg/nl/layer2.go:128-149 | on success the table gains exactly the bridge, VXLAN and VLAN port of the network, attached to the VRF of the given name |
| NlManager.Manager.ReattachNet | pkg/nl/layer2.go:406-469 | on success the bridge is in the VRF of the desired name, and only its master and the VXLAN's up flag may have changed |
| NlManager.Manager.ReconcileL2 | pkg/nl/layer2.go:302-374 | on success the network has the desired VRF, MTU and gateway addresses, and only its own links changed |
| FrrCra.Agent.NetMustGo | cmd/frr-cra/main.go:65-99 | the loops decide exactly whether the VLAN is not configured or its VRF is about to be deleted |
| FrrCra.Agent.DeleteLayer2 | cmd/frr-cra/main.go:65-99 | on success no l2.* bridge is left in a VRF that is about to be deleted, exactly the networks of wanted VLANs in other VRFs are left, and layer 3 is untouched |
| FrrCra.Agent.FindNet | cmd/frr-cra/main.go:100-127 | the result is a listed network with the VLAN ID, and none is returned only when none is listed |
| FrrCra.Agent.CreateLayer2 | cmd/frr-cra/main.go:100-127 | on success each configured VLAN has its VRF, MTU and gateways, no other VLAN is listed, and layer 3 is untouched |
| Layer2.DeleteVrfsKeepsL2 | cmd/frr-cra/main.go:443-469 | deleting VRFs with no l2.* bridge enslaved leaves every L2 network as it was |
| Layer2.CreateThenListNet | pkg/nl/layer2.go:128-149 | the listing of a created network recovers its VLAN ID, VNI, MTU, gateways and VRF, and its three links are up |
| Layer2.CleanupKeepsNet | pkg/nl/layer2.go:234-252 | removing links of one L2 network leaves every other one unchanged |
| Layer2.CleanupKeepsL3 | pkg/nl/layer2.go:234-252 | removing links of an L2 network leaves layer 3 unchanged |
| Layer2.ReconcileFrame | pkg/nl/layer2.go:302-374 | updating one network leaves layer 3 and every other network unchanged |
| L2Plan.BuildingDone | cmd/frr-cra/main.go:100-127 | after all VLANs are built the listed ones are the configured ones, each realized |
| Debounce.ExecutePreserves | pkg/debounce/debounce.go:40-75 | every step of any callers and routines keeps the invariant |
| Debounce.AtMostOneRoutine | pkg/debounce/debounce.go:40-75 | in every reachable state at most one routine is live |
| Debounce.FlagIsUnserved | pkg/debounce/debounce.go:40-75 | with no routine live and no call in flight, an unserved request exists if and only if calledDuringExecution is set |
| Debounce.EarlyRequestsServed | pkg/debounce/debounce.go:40-75 | every request stored before a routine's final failed compare-and-swap is followed by a run that starts after it and succeeds before that compare-and-swap |
| Debounce.FailedRunsAreRetried | pkg/debounce/debounce.go:40-75 | after a run that failed a routine quits only once a later run succeeded |
| Debounce.RerunsAreAsked | pkg/debounce/debounce.go:40-75 | after a success a routine runs again only if a request came after it had cleared the flag |
| Debounce.UnservedExactlyInWindow | pkg/debounce/debounce.go:40-75 | at rest a given request is not followed by a run, nor by a successful one, if and only if it lies between the last failed compare-and-swap of the execution and the clearing of the scheduled flag after it |
| Debounce.WindowIsReachable | pkg/debounce/debounce.go:40-75 | there is an execution that rests with a request unserved |
| Strings.SplitJoin | controllers/sync/sync_controller.go:976-1009 | a non-empty list of comma-free keys survives joining and splitting |
| SyncMetadata.DropStale | controllers/sync/sync_controller.go:944-971 | exactly the keys on record that are no longer desired are dropped |
| SyncMetadata.DropGitOps | controllers/sync/sync_controller.go:944-971 | exactly the keys with a GitOps prefix are dropped |
| SyncMetadata.MergeAndPrune | controllers/sync/sync_controller.go:944-971 | the result is the desired keys over the existing ones without stale and GitOps keys |
| SyncMetadata.RecordsOwnKeys | controllers/sync/sync_controller.go:976-991 | the tracking annotations list exactly the other keys, and no other key or value changes |
| SyncMetadata.DesiredCarries | controllers/sync/sync_controller.go:660-702 | the built metadata has exactly the source's labels and annotations with their values, without GitOps keys and the system annotation, and the controller's own |
| SyncMetadata.DesiredIsBuilt | controllers/sync/sync_controller.go:660-702 | the built metadata carries its own record, the managed-by label, the source namespace and generation, and no GitOps key |
| SyncMetadata.PreviousOfBuilt | controllers/sync/sync_controller.go:932-938 | the key lists read back from an object are exactly the keys of the sync that wrote them |
| SyncMetadata.ReconcileTwice | controllers/sync/sync_controller.go:932-971 | syncing the same desired metadata a second time changes nothing, whatever was there before |
| SyncMetadata.ReconcileOwn | controllers/sync/sync_controller.go:932-971 | syncing an object just as it was created changes nothing |
| SyncMetadata.SyncOverlays | controllers/sync/sync_controller.go:932-971 | after a sync the remote metadata is exactly the foreign layer under the desired one |
| SyncMetadata.SyncAfterAnyRun | controllers/sync/sync_controller.go:932-1009 | after any syncs and foreign edits that leave the tracking annotations alone, a sync leaves the desired keys over foreign keys never managed, no GitOps key, no dropped managed key, and repeating it changes nothing |
| SyncProtocol.OwnershipPreserved | controllers/sync/sync_controller.go:316-352 | every step of users, workload actors and the controller keeps ownership: a live managed copy has a management object holding the finalizer |
| SyncProtocol.NoOrphanEver | controllers/sync/sync_controller.go:316-352 | over every schedule with stops between any two calls, a live managed copy implies its management object exists with the finalizer; once that object is gone the copy is gone or terminating |
| SyncProtocol.DesiredStamps | controllers/sync/sync_controller.go:660-702 | every built object carries the managed-by label and the source generation |
| SyncProtocol.PatchStamps | controllers/sync/sync_controller.go:842-882 | a patch computed from an earlier read leaves either the generation it was built for or none |
| SyncProtocol.ReadBackBacked | controllers/sync/sync_controller.go:606-615 | what is read back as caught up was compiled from a spec pushed for this object and generation |
| SyncProtocol.WriteBacked | controllers/sync/sync_controller.go:564-594 | mirrored conditions and derived fields are placeholders or the compiler's own answer |
| SyncProtocol.TrueWasCompiled | controllers/sync/sync_controller.go:362-408 | over every schedule and across conflict retries, a mirrored True with observedGeneration g is what the compiler said of a spec pushed for generation g of this very object |
| SyncProtocol.DerivedWasCompiled | controllers/sync/sync_controller.go:417-448 | mirrored derived fields are the compiler's, for a spec pushed for this object |
| SyncProtocol.ControllerWritesOnlyItsOwn | controllers/sync/sync_controller.go:471-500 | no controller step changes spec, metadata, owned status fields, derived fields not mirrored for the kind, or conditions other than Ready and Resolved, and none makes an object vanish that is not being deleted |
| SyncProtocol.ForeignCopyChangesIff | controllers/sync/sync_controller.go:1033-1050 | a controller step changes an undisturbed object that is not managed if and only if it deletes the remote copy of a management object that is being deleted with the finalizer, and the copy is not terminating already |
| SyncProtocol.ForeignCopyIsDeleted | controllers/sync/sync_controller.go:1033-1050 | there is a run in which someone else's namesake on the workload cluster is deleted with the management object |
| SyncProtocol.Promote | controllers/sync/sync_controller.go:777-797 | a spec is promoted exactly when it belongs to an Inbound or Outbound without addresses and addresses were allocated; it then has addresses without a bare host, no count, and is otherwise the same |
| SyncProtocol.PromotesAllocated | controllers/sync/sync_controller.go:777-830 | the promoted addresses are those allocated in this pass, or else those of the status, one for one, each bare host with its full prefix length |
| SyncProtocol.HostCidrsNormalise | controllers/sync/sync_controller.go:802-830 | addresses keep their order and number, IPv4 hosts become /32 and IPv6 hosts /128, the rest stay as they are, and doing it again changes nothing |
| SyncProtocol.PatchIsMerge | controllers/sync/sync_controller.go:842-882 | the minimal patch applied to the object it was computed from is the merge |
| SyncProtocol.ApplyDelivers | controllers/sync/sync_controller.go:842-882 | applying to an undisturbed copy delivers the whole desired object without touching its status, and applying again changes nothing |
| SyncProtocol.ForwardPassDelivers | controllers/sync/sync_controller.go:316-352 | an undisturbed pass ends with a managed copy that carries the promoted spec, the built metadata and the generation, and a management object that holds the finalizer and is otherwise unchanged |
| SyncProtocol.StatusBack | controllers/sync/sync_controller.go:362-408 | undisturbed, the way back gives the management object the compiler's Ready and Resolved for its generation and the derived fields of its kind when the copy's stamp and observed generation are current, and otherwise Ready False and Resolved Unknown; everything else stays |
| SyncProtocol.PassReports | controllers/sync/sync_controller.go:362-408 | once the compiler has answered, the rest of the pass gives the management object the Ready and Resolved it set, with this generation, and the derived fields of the kind; every other condition and field stays |
| SyncProtocol.PassWaits | controllers/sync/sync_controller.go:585-615 | until it has answered, Ready is False and Resolved Unknown for this generation, and nothing else changes |
| SyncProtocol.RetryReports | controllers/sync/sync_controller.go:471-500 | a status write that meets a newer object is repeated on that object, with the same outcome |
| SyncProtocol.DeletionPassFinishes | controllers/sync/sync_controller.go:316-352 | an undisturbed deletion pass ends with the copy gone, or terminating if others hold it, and the management object without the finalizer, gone if it was the last |
| MirrorMatch.BuildMirrorMatches | pkg/nl/mirror.go:424-433 | one match per family and protocol, family by family |
| MirrorMatch.ExpandedMembers | pkg/nl/mirror.go:424-474 | a filter belongs to the expansion exactly when it is that of one of the rule's families and protocols |
| MirrorMatch.AtMostOneFilter | pkg/nl/mirror.go:424-474 | no packet is matched by two filters of one rule |
| MirrorMatch.WellFormedIsExact | pkg/nl/mirror.go:535-585 | for a well-formed rule a packet is matched by the filters exactly when the rule matches it |
| MirrorMatch.SomethingIsMirrored | pkg/nl/mirror.go:535-585 | every rule programs a filter that some packet meets |
| MirrorMatch.IllFormedMatchesNothing | pkg/nl/mirror.go:535-585 | a rule that is not well-formed matches no packet as written |
| MirrorMatch.FaithfulIffWellFormed | pkg/nl/mirror.go:424-585 | the filters mean the rule if and only if its prefixes parse and agree in family, its protocol is known and fits the family, and ports come only with port protocols or none |
| MirrorPlan.ParentsInvert | pkg/nl/mirror.go:383-398 | fabric-facing directions are the hooks of the same name, workload-facing ones the opposite; both means both and other text none |
| MirrorPlan.WantedIsAsked | pkg/nl/mirror.go:337-398 | the filters laid for some rules send a packet at a hook to a tunnel if and only if one of the rules to that tunnel has a filter that matches it and a direction that selects the hook, inverted on workload-facing ports |
| MirrorPlan.AskedIsMatched | pkg/nl/mirror.go:337-398 | for well-formed rules that is what the rules themselves match |
| MirrorPlan.NumberedInRange | pkg/nl/mirror.go:402-409 | numbered filters have distinct priorities within 0x8000 to 0xffff |
| MirrorPlan.EvolvesTrans | pkg/nl/mirror.go:56-76 | what two phases may delete and change together is what one run may |
| MirrorPlan.CleanupLoopbackIff | pkg/nl/mirror.go:595-643 | cleanup leaves one loopback in place if and only if neither its name nor its VRF's starts with gre- or gtap- without being a tunnel name |
| MirrorPlan.CleanupKeepsLoopbacks | pkg/nl/mirror.go:595-643 | cleanup leaves all loopbacks in place if and only if no loopback's name or VRF starts with gre- or gtap- without being a tunnel name |
| MirrorPlan.CleanupTunnelIff | pkg/nl/mirror.go:595-643 | a tunnel itself is never taken; it keeps its VRF if and only if that name is spared |
| MirrorPlan.CleanupKeepsTunnels | pkg/nl/mirror.go:595-643 | cleanup leaves all tunnels in place if and only if no tunnel's VRF starts with gre- or gtap- without being a tunnel name |
| MirrorPlan.NothingStaleIsLeft | pkg/nl/mirror.go:595-643 | after a cleanup every gre- or gtap- link is a tunnel, and every dummy in a mirror VRF is a loopback or named as a tunnel or a source |
| MirrorPlan.GreLoopbackIsDeleted | pkg/nl/mirror.go:626-643 | a desired loopback called gre-x is in place before a cleanup and gone after it |
| MirrorPlan.GreVrfIsDeleted | pkg/nl/mirror.go:626-643 | a VRF called gre-v is deleted under the desired loopback in it |
| MirrorPlan.DownTunnelIsLeft | pkg/nl/mirror.go:237-239 | a matching tunnel can be down |
| MirrorPlan.LeftStays | pkg/nl/mirror.go:237-239 | work on other names leaves a tunnel that is down as it is |
| MirrorManager.NextPriority | pkg/nl/mirror.go:402-409 | a priority is handed out exactly while the range lasts, and it lies in the range |
| MirrorManager.Manager.ClearMirrorFilters | pkg/nl/mirror.go:514-533 | only mirror filters of the link are removed; on success none is left, unless list errors are tolerated and the link cannot be read |
| MirrorManager.Manager.AddMatches | pkg/nl/mirror.go:337-372 | the rule's filters are added at the next consecutive priorities of the hook, or a prefix of them on failure |
| MirrorManager.Manager.SetupMirrorFilters | pkg/nl/mirror.go:337-372 | on success both hooks carry exactly the filters of the rules in order, numbered from the base, and a packet is sent at a hook to a tunnel if and only if a rule asks for it there; on failure a prefix of them, or a part of the old ones; nothing else changes |
| MirrorManager.Manager.GroupBySource | pkg/nl/mirror.go:323-335 | each source gets exactly its rules, in order |
| MirrorManager.Manager.ReconcileTcMirrors | pkg/nl/mirror.go:323-335 | on every exit forwarding filters are intact and every hook is orderly; on success every source carries exactly its filters and sends, at each hook and to each tunnel, exactly what its rules ask for; other links are untouched |
| MirrorManager.Manager.ReconcileLoopbackAddresses | pkg/nl/mirror.go:146-186 | on success the loopback carries exactly the configured addresses, apart from link-local ones; on every exit only its addresses changed |
| MirrorManager.Manager.EnsureLoopback | pkg/nl/mirror.go:88-133 | on success a dummy of that name is up in the VRF with exactly the configured addresses; on every exit only links of that name were touched |
| MirrorManager.Manager.ReconcileLoopbacks | pkg/nl/mirror.go:79-86 | on success, with names that stay apart, all loopbacks are in place; on every exit only loopback names were touched |
| MirrorManager.Manager.EnsureGRETunnel | pkg/nl/mirror.go:201-258 | on success the returned link is the tunnel with its endpoints and key in the VRF, and it is up if and only if it was not there down before; on every exit only links of that name were touched |
| MirrorManager.Manager.ReconcileGRETunnels | pkg/nl/mirror.go:189-199 | on success the index covers exactly the tunnel names and, with names that stay apart, points at the tunnels, each up if and only if it was not left down before |
| MirrorManager.Manager.CollectVrfIndices | pkg/nl/mirror.go:654-673 | exactly the indices of VRF devices that carry mirror configuration |
| MirrorManager.Manager.CleanupMirrorLink | pkg/nl/mirror.go:626-647 | a link is deleted exactly when it is stale, filters go only from sources no rule names, and a readable former source is left without mirror filters |
| MirrorManager.Manager.CleanupMirrors | pkg/nl/mirror.go:595-621 | on success exactly the stale links are gone, nothing that is not configured is left over, and no readable former source has a mirror filter; on every exit forwarding filters and desired sources keep their filters |
| MirrorManager.Manager.ReconcileMirror | pkg/nl/mirror.go:56-76 | on every exit forwarding filters are unchanged on every remaining link, mirror priorities at each hook are old ones or consecutive from 0x8000, and only deletable links are gone; on success every source sends exactly what its rules ask for, former sources are clean, no unconfigured device is left, loopbacks and tunnels are in place if and only if cleanup spares their names, and a tunnel is up if and only if it was not left down before |
| RouteMap.LayerBGP.MkPrefixList | pkg/cra-vsr/layerbgp.go:143-160 | entries are appended to the list of that name and family, or a new list is added |
| RouteMap.LayerBGP.MkCommunityList | pkg/cra-vsr/layerbgp.go:178-191 | a new list is added, and entries for a known name are lost |
| RouteMap.LayerBGP.SetupRouteMap | pkg/cra-vsr/layerbgp.go:193-287 | the item's lists and its entry are added to the configuration |
| RouteMap.LayerBGP.SetupRouteMaps | pkg/cra-vsr/layerbgp.go:289-298 | all items and the default entry are added, in order |
| RouteMap.LayerBGP.SetupVRFImport | pkg/cra-vsr/layerbgp.go:343-353 | the selector entry is added to the VRF's map and the filter to the map it calls |
| RouteMap.LayerBGP.SetupAll | pkg/cra-vsr/layerbgp.go:644-651 | any sequence of filters and imports leaves the configuration of its steps in order |
| RouteMap.NamesInjective | pkg/cra-vsr/layerbgp.go:193-287 | a list name determines its map and index, for each kind of list |
| RouteMap.KindsCollide | pkg/cra-vsr/layerbgp.go:226-272 | a match list and a removal list share a name if and only if one map's name is remove_ followed by the other's, at the same index |
| RouteMap.CarriedIff | pkg/cra-vsr/layerbgp.go:243-280 | the set clause has the asked effect on every community set if and only if the modification is carried |
| RouteMap.MatchAgrees | pkg/cra-vsr/layerbgp.go:193-242 | an entry matches a route exactly when the item does |
| RouteMap.FilterIsReady | pkg/cra-vsr/layerbgp.go:289-298 | in a configuration that does not use its names, a filter's entries and lists are all there |
| RouteMap.NumbersAscend | pkg/cra-vsr/layerbgp.go:193-298 | sequence numbers ascend in list order, the default entry last |
| RouteMap.VerdictsAgree | pkg/cra-vsr/layerbgp.go:193-298 | the route-map gives every route the verdict and the communities of evaluating the items in order |
| RouteMap.ItemFaithfulIff | pkg/cra-vsr/layerbgp.go:193-298 | an item that some route meets has its own verdict and communities under every plain default if and only if it is no next item, matches no community exactly, and, when it accepts, asks for a change that is carried |
| RouteMap.DefaultFaithfulIff | pkg/cra-vsr/layerbgp.go:289-298 | the default entry gives the default's verdict and communities if and only if an accepting default asks for no change of communities |
| RouteMap.ManyMapsAgree | pkg/cra-vsr/layerbgp.go:193-298 | with any number of maps in one configuration, each gives every route the verdict of its own filter |
| RouteMap.TwoMapsIff | pkg/cra-vsr/layerbgp.go:178-298 | two maps mean their own filters for all filters if and only if their names differ and neither is remove_ followed by the other |
| RouteMap.SameNameShows | pkg/cra-vsr/layerbgp.go:289-298 | a map set up twice can miss the second filter |
| RouteMap.MatchIsLost | pkg/cra-vsr/layerbgp.go:178-191 | a map named remove_n set up after n can match on the wrong list |
| RouteMap.RemovalIsLost | pkg/cra-vsr/layerbgp.go:178-191 | a map n set up after remove_n can remove the wrong communities |
| RouteMap.NextIsRejected | pkg/cra-vsr/layerbgp.go:68-74 | a route that a next item matches, and none before it, is rejected by the map, while the filter goes on to the items after it with the modified route |
| VrfImports.ImportNamesCollideIff | pkg/cra-vsr/layerbgp.go:343-353 | two imports get the same map name if and only if they are the same or one VRF name runs into the other across the separator |
| VrfImports.OwnNameCollidesIff | pkg/cra-vsr/layerbgp.go:343-353 | a VRF's selector, export or redistribution map is the one another VRF's import calls if and only if its name runs into it across the separator |
| VrfImports.OwnNamesInjective | pkg/cra-vsr/layerbgp.go:566-584 | a VRF's own maps are told apart by VRF and suffix |
| VrfImports.MapsMeanTheirFilters | pkg/cra-vsr/layerbgp.go:343-353 | with any number of filters and imports whose names do not clash, every map, called or not, means its own filter |
| VrfImports.ImportsDecide | pkg/cra-vsr/layerbgp.go:343-353 | then every route a VRF imports gets, through the VRF's selector map, the verdict and communities of the filter of that very import |
| VrfImports.OthersAreRejected | pkg/cra-vsr/layerbgp.go:343-353 | and a route from a VRF that is not imported is rejected |
| VrfImports.TwoImportsIff | pkg/cra-vsr/layerbgp.go:343-353 | two imports set up one after the other decide by their own filters, for all filters, if and only if their maps have different names, neither behind remove_, the second does not select in the first's map, and the first does not select in the second's by the same source |
| VrfImports.ImportsShareAMap | pkg/cra-vsr/layerbgp.go:343-353 | VRF a importing from b_import_c and VRF a_import_b importing from c share a map, and the second filter is lost |
| VrfImports.SelectorIsACalledMap | pkg/cra-vsr/layerbgp.go:343-353 | VRF a_import_x selects in the map that VRF a's import from x_import calls, and in either order one of the two is decided by the wrong filter |
| VsrTables.FreeFromIsLeast | pkg/cra-vsr/layer3.go:64-87 | the scan finds the least free number, and nothing exactly when the range is exhausted |
| VsrTables.AssignExtends | pkg/cra-vsr/layer3.go:123-194 | known names keep their numbers, new ones get unused numbers in the range, and distinct stays distinct |
| VsrTables.PlanIsSound | pkg/cra-vsr/layer3.go:89-194 | a generated configuration lists exactly the configured and reserved VRFs, keeps running numbers and has distinct ones if the running ones are |
| VsrTables.PlanExistsIff | pkg/cra-vsr/layer3.go:89-194 | a configuration is generated if and only if both reserved VRFs run, names have at most 15 characters and the configured VRFs that do not run yet fit into the numbers that no running VRF keeps |
| VsrTables.SeesCommittedIff | pkg/cra-vsr/manager.go:205-254 | the lookup of the working namespace finds the committed VRFs if and only if there is no metrics namespace or it is another one |
| VsrTables.HiddenIsStuck | pkg/cra-vsr/manager.go:205-254 | when both are the same namespace, no configuration can be generated after a committed one, over any run |
| VsrTables.MetricsInWorkingNamespace | pkg/cra-vsr/manager.go:243-254 | there is such a layout and running configuration: the first apply succeeds and no later one does |
| VsrTables.ApplyAfterAnyRun | pkg/cra-vsr/manager.go:176-202 | after any applies, the next generated configuration has distinct numbers and lists the configured and reserved VRFs; it keeps every number in use, the one generated after its commit keeps its numbers, and a failed one changes nothing |
| VsrTables.TableIsStable | pkg/cra-vsr/manager.go:176-202 | a VRF that every configuration in a run lists keeps its number throughout, if and only if metrics are not in the working namespace or nothing is committed |
| VsrTables.Manager.SetupTableID | pkg/cra-vsr/layer3.go:89-111 | exactly the running numbers of reserved and configured names are kept |
| VsrTables.Manager.SetupInformations | pkg/cra-vsr/layer3.go:123-194 | the result is the assignment in name order, or an error |
| VsrTables.Manager.MakeVRFs | pkg/cra-vsr/layer3.go:244-320 | one VRF per information with its number, or an error exactly when a name is too long |
| VsrTables.Manager.FindNS | pkg/cra-vsr/types.go:737-744 | the first namespace of that name |
| VsrTables.Manager.SetupKPI | pkg/cra-vsr/manager.go:243-254 | the metrics namespace is added, empty, when it is named and not there yet |
| VsrTables.Manager.MakeVRouter | pkg/cra-vsr/manager.go:205-241 | the namespaces sent are the emitted ones, the metrics namespace before the working one, which holds the plan for what the lookup sees |
| VsrTables.Manager.ApplyConfiguration | pkg/cra-vsr/manager.go:176-202 | what is sent holds the plan for what the lookup of the working namespace sees; running changes only on a successful commit, and then to exactly that; the next lookup sees it if and only if metrics are not in the working namespace |
| BpfNeighbor.EthRoundTrip | bpf/nwop-bpf.c:61-87 | the Ethernet parser recovers protocol and payload of every frame with at most one VLAN tag |
| BpfNeighbor.ArpRoundTrip | bpf/nwop-bpf.c:48-59 | the ARP layout is read back field by field, with any padding |
| BpfNeighbor.ArpIsLearned | bpf/nwop-bpf.c:114-172 | in any frame a reply teaches the sender's address, a gratuitous request the sender's, a gratuitous reply the target's hardware address, and every other request, operation or size nothing |
| BpfNeighbor.OtherTrafficIsIgnored | bpf/nwop-bpf.c:101-172 | other protocols and ARP cut short teach nothing |
| BpfNeighbor.OptionsRoundTrip | bpf/nwop-bpf.c:196-234 | the recursive option parser inverts the option encoding |
| BpfNeighbor.AdvertisementIsLearned | bpf/nwop-bpf.c:173-235 | a Neighbor Advertisement teaches its target with the first link-layer address among its first six options |
| BpfNeighbor.OtherIPv6IsIgnored | bpf/nwop-bpf.c:173-235 | an IPv6 packet that is no Neighbor Advertisement, or one without a link-layer address among its first six options, teaches nothing |
| BpfNeighbor.Ring.SameAddress | bpf/nwop-bpf.c:137-144 | the loop compares the two addresses |
| BpfNeighbor.Ring.ScanOptions | bpf/nwop-bpf.c:196-234 | for every packet the loop stays in bounds and finds what the recursive parser finds among the first six options |
| BpfNeighbor.Ring.HandleNeighborReply | bpf/nwop-bpf.c:101-238 | for every packet of any length all reads are in bounds, and at most one event is emitted, namely the one the packet teaches when there is room |
| BpfNeighbor.EventRoundTrip | pkg/neighborsync/neighborsync.go:370-378 | the decoder inverts the event layout, padding included |
| BpfNeighbor.LearnedIsDelivered | pkg/neighborsync/neighborsync.go:370-393 | interface, address and MAC read in user space are those the program learned |
| NeighborSync.NeighborSync.ReplaceNeighborReachable | pkg/neighborsync/neighborsync.go:408-471 | on success the table has the address, and an announcement was sent exactly when an IPv4 or IPv6 address moved (or the table could not be read) on a bridge that announces; on failure nothing changed |
| NeighborSync.NeighborSync.RunRecords | pkg/neighborsync/neighborsync.go:346-406 | over any ring buffer records, when every call succeeds, table and announcements are those of the decoded events on interfaces that are received, all of them on a bridge |
| NeighborSync.TaughtIsDelivered | pkg/neighborsync/neighborsync.go:370-393 | the record written for a packet brings user space exactly what the packet teaches |
| NeighborSync.NewsAtIsNews | pkg/neighborsync/neighborsync.go:408-471 | the news positions are, in ascending order, exactly the events on announcing bridges whose MAC differs from the last one learned |
| NeighborSync.AnnouncedIsNews | pkg/neighborsync/neighborsync.go:408-471 | over any sequence of events the announcements are exactly the events at the news positions, in order |
| NeighborSync.DeliverPackets | bpf/nwop-bpf.c:101-238 | from packets to announcements: when every call succeeds the table is what the packets taught, and the announcements are exactly the news among it, in order |
| NeighborSync.RelayAnnouncesOnce | pkg/neighborsync/neighborsync.go:427-441 | however one address is relayed, each bridge announces it at most once, and not at all if it has it |
| NeighborSync.RelayIsBounded | pkg/neighborsync/neighborsync.go:427-441 | relaying one address causes at most one announcement per announcing bridge in total |
| VrfName.RemoveInnerVowels | pkg/vrfname/vrfname.go:110-120 | exactly the vowels between two hard characters of the original are dropped |
| VrfName.DevowelTwice | pkg/vrfname/vrfname.go:107-120 | dropping inner vowels is idempotent |
| VrfName.DropUnderscoresRTL | pkg/vrfname/vrfname.go:124-133 | the result is the text without its last underscores, as many as the excess length or all there are |
| VrfName.LastIndexByte | pkg/vrfname/vrfname.go:136-143 | the last position of the byte, or -1 when there is none |
| VrfName.Reduce | pkg/vrfname/vrfname.go:65-76 | short names stay; otherwise inner vowels go, then the last underscores and no more than needed; consonants and digits keep their order; it fits exactly when it can |
| VrfName.CanReduce | pkg/vrfname/vrfname.go:79-81 | holds exactly when the length without inner vowels minus the underscores is at most 15 |

## Left out

- NlManager.Manager.ReconcileL2: the VNI of a kept VLAN is not reconciled by the code and is not claimed; MAC addresses, neighbor suppression, EUI generation and segmentation settings are calls that can only fail.
- FrrCra.Agent.ReconcileNetlink: the L2 claim assumes complete networks under their canonical names before the run, distinct VLAN IDs and reserved names that belong to VRFs; `waitForL3VNIs` is a no-op; policy routes and neighbor-sync registration are not part of the model.
- MirrorManager.Manager.CleanupMirrors: a link whose filters cannot be listed keeps them, as the code tolerates; which links those are is fixed for a run.
- MirrorMatch.WellFormedIsExact: prefixes are given by the bits they fix; IPv4-mapped IPv6 text is not part of the model.
- SyncProtocol.NoOrphanEver: assumes that nobody else adds the managed-by label or the source-generation annotation, edits a managed copy's spec, removes the finalizer, or replaces the copy between the controller's read and its patch; one remote client is always present.
- RouteMap.VerdictsAgree: `next` items, exact community match, changes that are not carried and a modifying default are outside; `RouteMap.ItemFaithfulIff` and `RouteMap.DefaultFaithfulIff` say that these are exactly the ones that do not hold.
- VsrTables.Manager.ApplyConfiguration: of a namespace only its name and VRFs are modelled; layer 2 and BGP setup can only fail, and the settings of the metrics namespace are left out.
- NeighborSync.AnnouncedIsNews: entries persist between events; announcements from kernel neighbor updates and the refresh timers are not part of the model.
- SyncProtocol.Promote: whether an address text is a bare host, a CIDR or malformed is given; `net.ParseIP` is not modelled.
- VrfImports.ImportsDecide: the selector maps of the cluster and management VRF start with base entries, which are not modelled; `VrfImports.MapsMeanTheirFilters` covers what their imports call. Nested calls are evaluated to a depth of ten.
- VrfImports.TwoImportsIff: entries are evaluated in list order, which is that of their sequence numbers for one filter (`RouteMap.NumbersAscend`); where maps collide numbers repeat, and the list order still counts.
- Link dumps are taken in ascending index order, and an index is never reused.
- An API read replaces the object it is read into; stale informer caches, the drain path for a lost remote cluster, several remote clusters in one namespace, secret sync and condition transition times are not modelled.
- XML, NETCONF, HTTP, TLS, D-Bus, vtysh, metrics, BPF loading and SHA-based interface names are I/O or constants around the modelled logic.
- Link-local and non-universe addresses on bridges are not tracked.
