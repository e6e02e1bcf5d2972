# The accessory-identity machinery of the bridge node, verified

The bridge exports Indigo devices to Matter ecosystems. Each accessory has a published
identity, driven at any moment by one device, and a number matter.js handed out for it. This
project models the code that keeps those three facts together through every command, failure
and restart, and proves what it guarantees.

| file | what it models |
|---|---|
| `Protocol.dfy` | published identities as both peers print and parse them, roles, endpoint specs |
| `Reconcile.dfy` | spec parsing and the reconcile planner with its mass-removal guard |
| `Registry.dfy` | the aggregator's children, the live map and the command sinks, changed together |
| `RegistryProofs.dfy`, `RegistryCommands.dfy` | what a reconcile, upsert, remove and restore guarantee, faults included |
| `RegistryCalls.dfy` | which calls to matter.js a command depends on, and that bounds are none of them |
| `RegistryWithin.dfy` | what holds of the live set from any state and under every failure, recovered or not |
| `Serialize.dfy`, `RegistryQueue.dfy` | the promise chain that serialises mutations, and the registry behind it |
| `EndpointMap.dfy`, `EndpointMapProofs.dfy` | the persisted endpoint map, its file, drift and retirement |
| `Node.dfy` | the node over both: bookkeeping, witness, factory reset, rebuild, start, the gate |
| `NodeEffects.dfy`, `NodeFaith.dfy`, `NodeRestart.dfy` | one command's effect on the map, and what a restart rebuilds from it |
| `NodeRuns.dfy`, `NodeSafety.dfy`, `Supersession.dfy` | whole runs of frames, fabric changes and restarts, whatever fails |
| `NodeSound.dfy`, `NodeClean.dfy` | whole runs on working storage: no false drift or refusal, a map a restart can rebuild from, agreement |
| `NodeOverlap.dfy` | commands of two sockets that overlap |
| `Churn.dfy` | the subscription-churn detector against the full history of events |
| `Units.dfy`, `Levels.dfy`, `ColourTemperature.dfy` | unit converters, level retention, colour-temperature bounds |
| `Inheritance.dfy` | the attribute-inheritance merge of the settings enumerator |

How it is put together:

* Objects the source updates in place are classes (`EndpointRegistry`, `EndpointMapStore`,
  `BridgeNode`, `ChurnDetector`, `ColorEndpoint`). Each operation is first a function from old
  to new state; the method does the same step by step, in place, and its `ensures` says it
  computes that function. Theorems over runs are lemmas about the functions.
* What matter.js and the disk answer is an oracle per kind of call (`Fate`, `Writes`,
  `identityWrites`) consulted at a clock that ticks with every call, so a theorem for all
  oracles is a theorem for every pattern of failures. A failed write leaves the old file, a
  successful one the new file whole.
* matter.js's own `Endpoint.id -> number` store is an environment map that allocates fresh
  numbers and that a reset or the last fabric's departure erases.
* A map visited in an order the source does not fix gets that order as a parameter, and the
  theorems hold for every order.

Where the code and its documentation differ the model follows the code. What was found:

* A failure in the middle of a reconcile leaves aggregator, live map and command sinks in
  agreement exactly when it is recovered (`AbortExactly`): the close that failed can be watched
  again, the create that failed left nothing in the aggregator, and the rekeys lost nothing.
  The rekeys lose whatever the second phase had not reached, an entry that a restore overwrote,
  or one that could be watched for neither driver (`AbortLosesExactly`). As long as no two calls
  of one recovery fail together, plans with at most one rekey are safe and no others are
  (`AbortSafety`).
* A create whose endpoint can be neither watched nor taken back out changes the child set with
  no configuration-change hook (`HookFiresExactly`).
* An empty label is recorded but dropped on reload (`EmptyLabelIsLostOnReload`), so a restart
  rebuilds the named accessories exactly.
* A remembered removal is not forgotten when its identity goes live on another device, so a
  later upsert can retire a live identity (`StalePairingArises`, `StalePairingBuriesALiveIdentity`);
  `UpsertKeepsFaithExactly` gives the exact condition.
* A start that refuses over an unreadable map while the witness never reached the disk is
  followed, after a confirmed rebuild, by a node that serves paired controllers with no
  witness (`UnwitnessedRebuildServes`). `WitnessWhileServing` holds for every other run.
* Such a node later reports drift that is none: when its last fabric leaves, matter.js erases
  its numbers, but without a witness nothing is voided, and the next check calls every live
  accessory drifted whose number came out differently (`FalseDriftArises`). `LastFabricDrift`
  gives the exact condition: the witness at the step that empties the fabric table. No run that
  starts from a right witness on working storage gets there (`SoundRun`).
* A node command reads its snapshot of the live set when its frame arrives, before it has the
  registry to itself. If an attach arrives on a second socket while another attach is bringing
  an accessory that the second does not want, the accessory is recorded by the first, closed by
  the second and marked by neither: the next start brings it back (`OverlapResurrects`). The
  exact condition is that every named accessory that left was already in the snapshot
  (`AttachFromKeepsFaithExactly`). Drift and numbers are immune to any overlap
  (`OverlapIsSound`).
* Past 2^53 the node reads two consecutive generations as the same number
  (`BumpPastTwo53IsInvisible`), so supersession is exact only where the numbers differ.
* Matter hue to degrees and back is exact although the comment speaks of the round trip as
  lossy: only the direction that starts from degrees is (`MatterHueSurvives`).

## Model

| member | source | states |
|---|---|---|
| Protocol.ParsePrinted | bridge-node/src/protocol.ts:164-196 | reading back a printed identity gives it exactly when it fits the cap, the device is a safe integer and the generation is lawful, for either peer's number reading |
| Protocol.NodeParsePrinted | bridge-node/src/protocol.ts:179-196 | the node's own round trip within those limits |
| Protocol.ParseSpelled | bridge-node/src/protocol.ts:170-196 | the prefix, an optional minus, digits and an optional tilde with digits is read as the numbers it spells, if it is at most 32 characters long, the device is safe and a spelled generation is 2 or later, and refused otherwise |
| Protocol.ParsedIsSpelled | bridge-node/src/protocol.ts:170-196 | and no string of another form is accepted |
| Protocol.PrintInjective | bridge-node/src/protocol.ts:164-168 | different (device, generation) pairs never print alike |
| Protocol.SupersedesIsStrictOrder | bridge-node/src/protocol.ts:211-218 | `supersedes` is irreflexive, asymmetric and transitive |
| Protocol.SupersedesPrinted | bridge-node/src/protocol.ts:211-218 | of two printed identities one supersedes the other exactly if it is a later generation of the same device |
| Protocol.PeersAgree | indigo-matter.indigoPlugin/Contents/Server Plugin/bridge_protocol.py:284-304 | plugin and node accept the same strings with the same device, and the same generation below 2^53 |
| Protocol.NextGenerationSupersedes | indigo-matter.indigoPlugin/Contents/Server Plugin/bridge_protocol.py:307-320 | a bump is seen as superseding exactly when it fits the cap and the node reads two different numbers |
| Protocol.NextGenerationInRange | indigo-matter.indigoPlugin/Contents/Server Plugin/bridge_protocol.py:307-320 | below 2^53 the cap alone decides |
| Protocol.BumpPastTwo53IsInvisible | bridge-node/src/protocol.ts:179-218 | a family of lawful identities whose bumps fit the cap and are accepted, yet supersede nothing, because the node reads the same generation |
| Protocol.BumpsNeverRepeat | indigo-matter.indigoPlugin/Contents/Server Plugin/bridge_protocol.py:307-320 | a chain of bumps counts up by one on one device and never repeats |
| Reconcile.PluginSpecReachesNode | bridge-node/src/reconcile.ts:57-115 | what `to_wire` sends is parsed to the identity the spec means, every other field intact, or refused exactly for role or identity |
| Reconcile.PluginWireRoundTrip | indigo-matter.indigoPlugin/Contents/Server Plugin/bridge_protocol.py:369-400 | `from_wire` after `to_wire` means the same accessory and sends the same frame |
| Reconcile.ParsedExactly | bridge-node/src/reconcile.ts:57-115 | an entry is accepted exactly when every key has a lawful type and value, then means exactly what its keys say with the defaults for the rest, and is refused as an unknown role exactly when only its role is outside the vocabulary so far |
| Reconcile.ParseEndpointSpecs | bridge-node/src/reconcile.ts:118-149 | parses every entry, reports the first bad one, and refuses exactly repeated devices or identities |
| Reconcile.CheckUnique | bridge-node/src/reconcile.ts:118-149 | the two sweeps decide distinctness of devices and identities |
| Reconcile.PlanReconcile | bridge-node/src/reconcile.ts:295-365 | the loops give the plan by buckets, refused exactly for a mass removal stated by effect |
| Reconcile.Survivors | bridge-node/src/reconcile.ts:340-362 | the guard's count is zero exactly when everything goes and no device is kept |
| Reconcile.PlanPartitions | bridge-node/src/reconcile.ts:295-365 | every desired spec is in one bucket and every live identity is kept or removed, by count |
| Registry.EndpointRegistry.ReconcileNow | bridge-node/src/registry.ts:296-500 | in place, equals the specified reconcile: gates, removals, two-phase rekeys, creates, updates, abort |
| Registry.EndpointRegistry.UpsertEndpoint | bridge-node/src/registry.ts:503-587 | in place, equals the specified upsert with its refusals and battery-gain recreate |
| Registry.EndpointRegistry.RemoveEndpoint | bridge-node/src/registry.ts:590-600 | in place, equals the specified removal |
| Registry.EndpointRegistry.RestoreAll | bridge-node/src/registry.ts:225-242 | in place, creates what it can and counts it |
| Registry.EndpointRegistry.CreateEndpoint | bridge-node/src/registry.ts:643-662 | add, watch, and take back out what could not be watched |
| Registry.EndpointRegistry.UpdateEndpoint | bridge-node/src/registry.ts:665-708 | label if the live cluster differs, reachability, the caught bounds attempt, then states, stopping at the first refusal |
| Registry.EndpointRegistry.RekeyEndpoint | bridge-node/src/registry.ts:752-794 | re-watch under the new device, or restore the old watcher and entry |
| Registry.EndpointRegistry.CloseEndpoint | bridge-node/src/registry.ts:808-832 | close first, forget only if that worked, else watch again |
| Registry.EndpointRegistry.RemoveEach | bridge-node/src/registry.ts:843-855 | the removal batch, stopping at the first failed close |
| Registry.EndpointRegistry.ComposeLive | bridge-node/src/registry.ts:253-260 | the live set by identity, and the order it was visited in |
| RegistryProofs.ReconcileExact | bridge-node/src/registry.ts:296-500 | a successful reconcile leaves exactly the desired devices, identities, roles and names, swaps and cycles included; kept identities keep their endpoint object; the three views agree |
| RegistryProofs.SinksNameDrivers | bridge-node/src/endpoints.ts:3141-3174 | the aggregator then holds the desired identities and every command sink names the device driving its identity |
| RegistryProofs.FaultFreeReconcileSucceeds | bridge-node/src/registry.ts:296-500 | without faults only the two gates can stop a reconcile |
| RegistryProofs.NeverEmptied | bridge-node/src/reconcile.ts:303-362 | without the replace intent a reconcile never empties a non-empty live set |
| RegistryProofs.CloseKeeps | bridge-node/src/registry.ts:808-832 | after a close, agreement survives exactly when it worked or the endpoint is watched again |
| RegistryProofs.CreateKeeps | bridge-node/src/registry.ts:643-662 | after a create, agreement survives exactly when nothing was left in the aggregator that is not live |
| RegistryProofs.RekeyOneExactly | bridge-node/src/registry.ts:752-794 | after a single rekey whose old driver is free, agreement survives exactly when the endpoint is watched for one driver or the other |
| RegistryProofs.AbortLosesExactly | bridge-node/src/registry.ts:423-470 | whatever failed, a rekey abort leaves out of the live map exactly the entries phase two never reached and what the failing step's restore lost or overwrote |
| RegistryProofs.AbortExactly | bridge-node/src/registry.ts:406-494 | wherever a reconcile stops, under every pattern of failures and for any number of rekeys, the three views agree exactly when the failure was recovered |
| RegistryProofs.AbortSafety | bridge-node/src/registry.ts:406-494 | under every pattern of failed adds, closes, writes and subscriptions in which no two calls of one recovery fail together the three views agree afterwards, if and only if the plan has at most one rekey |
| RegistryProofs.HookFiresExactly | bridge-node/src/registry.ts:472-494 | the configuration-change hook fires once when the child set changed and not otherwise, exactly unless the first change is a create left behind; never for rekeys alone |
| RegistryCalls.UpdateExactly | bridge-node/src/registry.ts:665-708 | an update of a live endpoint works exactly if the label was right or written, reachability was written and states were written, whatever became of the bounds |
| RegistryCalls.ReconcileVerdict | bridge-node/src/registry.ts:296-500 | a reconcile is refused by its two gates alone, done exactly if every call its plan comes to was answered, and aborted otherwise |
| RegistryCalls.UpsertVerdict | bridge-node/src/registry.ts:503-587 | an upsert is refused exactly for its three reasons and changes nothing then, and is otherwise done exactly if its calls were answered |
| RegistryCalls.RemoveVerdict | bridge-node/src/registry.ts:590-600 | a removal is done where there is nothing to remove, and otherwise exactly if the close worked |
| RegistryCalls.BoundsNeverMatter | bridge-node/src/registry.ts:690-703 | two worlds of answers that differ only in bounds writes give the same reconcile and the same upsert |
| RegistryWithin.AbortKeepsDistinct | bridge-node/src/registry.ts:406-494 | from any state with distinct live identities in the aggregator, whatever earlier failures left, a reconcile keeps them so wherever it stops, whatever failed and however many rekeys |
| RegistryWithin.UpsertWithin | bridge-node/src/registry.ts:503-587 | so does an upsert, however it ends |
| RegistryCommands.NumbersAreNeverReissued | bridge-node/src/registry.ts:643-662 | a number once given to an identity stays its own while matter.js's store is not erased |
| RegistryCommands.ReconcileGrows | bridge-node/src/registry.ts:296-500 | no reconcile, however it ends, forgets or moves a number |
| RegistryCommands.UpsertKeeps | bridge-node/src/registry.ts:503-587 | an upsert keeps the views in agreement exactly when it strands no endpoint, and fires the hook exactly on change unless it stranded a new one |
| RegistryCommands.UpsertExact | bridge-node/src/registry.ts:503-587 | a successful upsert changes its own device's entry to the request and no other |
| RegistryCommands.UpsertLosesExactly | bridge-node/src/registry.ts:551-582 | whatever fails, an upsert loses an identity exactly when a battery gain closed it and could not re-create it or watch the new endpoint |
| RegistryCommands.RemoveKeeps | bridge-node/src/registry.ts:590-600 | removal takes out that device alone, fires the hook exactly on change, and keeps the views in agreement exactly when the close worked or was recovered |
| RegistryCommands.RestoreKeeps | bridge-node/src/registry.ts:225-242 | restoring distinct specs keeps agreement exactly when no failed create left its endpoint behind |
| RegistryCommands.RestoreShape | bridge-node/src/registry.ts:225-242 | whatever fails, what was live stays and what was restored is live as its spec says |
| RegistryCommands.RestoreInTurn | bridge-node/src/registry.ts:225-242 | each spec is tried in its turn whatever became of those before it, and the successes are counted |
| RegistryCommands.RestoreSucceeds | bridge-node/src/registry.ts:225-242 | with adds and subscriptions working every spec comes back |
| RegistryCommands.WithdrawalEmpties | bridge-node/src/node.ts:666-683 | with closes succeeding, a withdrawal empties any live set |
| Serialize.OneAtATime | bridge-node/src/registry.ts:143-165 | over every interleaving one mutation at a time, in submission order, and the waiting list names it first |
| Serialize.SomethingMoves | bridge-node/src/registry.ts:157-163 | a rejection never blocks those behind it: while a caller waits, something can move |
| Serialize.SameAsSequential | bridge-node/src/registry.ts:143-165 | the final state is the sequential one, and each caller is rejected exactly when its own mutation throws there |
| RegistryQueue.CoroutinePerforms | bridge-node/src/registry.ts:225-600 | every command broken into one turn per close, rekey, create and update, with its plan, stash and flags carried across the awaits, ends, does exactly what the command specifies, and throws exactly when that is refused or aborts |
| RegistryQueue.ConcurrentCommandsAreSequential | bridge-node/src/registry.ts:143-165 | those commands, their turns interleaved with one another's arrival in any way, leave what they leave performed whole one after another, in agreement if each was lawful at its turn |
| EndpointMapProofs.LoadAfterWrite | bridge-node/src/endpoint-map.ts:353-477 | a written map loads back as itself, empty strings aside |
| EndpointMapProofs.RoundTripExactly | bridge-node/src/endpoint-map.ts:353-411 | the round trip is the identity exactly on maps without empty strings |
| EndpointMapProofs.LegacyFileKeepsNumbers | bridge-node/src/endpoint-map.ts:353-366 | a version 1 file keeps every number |
| EndpointMapProofs.LoadTells | bridge-node/src/endpoint-map.ts:353-477 | from the file alone: no map exactly when it is absent, a problem exactly when it is there and no JSON document of version 1 or 2 whose every entry carries a number, else one record for each entry saying what the entry says |
| EndpointMapProofs.CheckedMeansOnDisk | bridge-node/src/endpoint-map.ts:706-708 | over every run with any failed writes and deletes, `checked` means the file decodes to the map in memory |
| EndpointMapProofs.CheckedHasACause | bridge-node/src/endpoint-map.ts:1005-1211 | and that something was compared, seeded or rebuilt since the last load, void or discard |
| EndpointMapProofs.EmptyLabelIsLostOnReload | bridge-node/src/endpoint-map.ts:493-514 | the concrete run that tells memory and reload apart |
| EndpointMapProofs.CheckExactly | bridge-node/src/endpoint-map.ts:1005-1090 | a check reports exactly the moved, trusted numbers in order, settles each live record on its own and leaves the rest alone |
| EndpointMapProofs.CheckIsIdempotent | bridge-node/src/endpoint-map.ts:1005-1090 | repeating a check changes nothing and returns the same drift |
| EndpointMapProofs.CheckWritesExactly | bridge-node/src/endpoint-map.ts:1005-1090 | a check writes exactly when it changed a record or a write was owed, so an unchanged live set retries the owed write |
| EndpointMapProofs.CheckForgetsNothing | bridge-node/src/endpoint-map.ts:1005-1090 | a check keeps what it is not told otherwise, never gives up a battery or moves a trusted number, and adopts a void one |
| EndpointMapProofs.FirstSightRecords | bridge-node/src/endpoint-map.ts:1005-1090 | the first check that sees an identity records just what it was told of it |
| EndpointMapProofs.ForgetMarksExactly | bridge-node/src/endpoint-map.ts:897-925 | exactly the named records that carried a role or a label are un-exported, the first successor ever named stays, and nothing is written unless a record changed |
| EndpointMapProofs.DestroyDropsExactly | bridge-node/src/endpoint-map.ts:957-971 | exactly the named records are dropped, and nothing is written unless one was there |
| EndpointMapProofs.StoreTells | bridge-node/src/endpoint-map.ts:659-706 | over every run with any failed writes and deletes, the store says there is a file exactly when there is one, and calls it broken only if it is no endpoint map |
| EndpointMapProofs.SeedsExactly | bridge-node/src/endpoint-map.ts:1160-1173 | seeding refuses exactly to discard numbers and otherwise records the live entries |
| EndpointMapProofs.PrintedDeviceRestores | bridge-node/src/endpoint-map.ts:795-829 | a record without a device restores under the one its identity prints |
| EndpointMapProofs.DriftSticks | bridge-node/src/endpoint-map.ts:897-1307 | a moved trusted number is reported by every later check, reloads included, until destroy, void, seed, rebuild or discard |
| EndpointMapProofs.RetiredStaysRetired | bridge-node/src/endpoint-map.ts:795-925 | a retired identity is not restorable in any continuation in which it is neither live nor rebuilt |
| EndpointMap.EndpointMapStore.LoadFile | bridge-node/src/endpoint-map.ts:659-686 | in place, equals the specified load: absent, usable or broken |
| EndpointMap.EndpointMapStore.ListRestorable | bridge-node/src/endpoint-map.ts:795-829 | lists exactly the complete records neither un-exported nor retired, each once |
| EndpointMap.EndpointMapStore.CheckLive | bridge-node/src/endpoint-map.ts:1005-1090 | in place, equals the specified check, persisting when something changed or was owed |
| EndpointMap.EndpointMapStore.ForgetThese | bridge-node/src/endpoint-map.ts:897-925 | in place, marks records and persists only when one was newly marked |
| EndpointMap.EndpointMapStore.DestroyThese | bridge-node/src/endpoint-map.ts:957-971 | in place, drops records and persists only when one was there |
| EndpointMap.EndpointMapStore.VoidEvery | bridge-node/src/endpoint-map.ts:1127-1136 | in place, voids every number and gives up the checked flag, or does nothing to an empty map |
| EndpointMap.EndpointMapStore.SeedFrom | bridge-node/src/endpoint-map.ts:1160-1173 | in place, refuses exactly when seeding would discard numbers |
| EndpointMap.EndpointMapStore.RebuildFrom | bridge-node/src/endpoint-map.ts:1185-1211 | in place, replaces the map and answers whether it reached the disk |
| EndpointMap.EndpointMapStore.DiscardAll | bridge-node/src/endpoint-map.ts:1242-1263 | in place, empties memory and, if the delete works, the disk |
| EndpointMap.EndpointMapStore.PersistNow | bridge-node/src/endpoint-map.ts:1275-1307 | the all-or-nothing write, and what a failed one owes |
| Node.BridgeNode.Reconcile | bridge-node/src/node.ts:1627-1645 | in place: snapshot, reconcile, then what left, then the drift check, on success and failure alike, for a command that finds the registry free |
| Node.BridgeNode.ReconcileFrom | bridge-node/src/node.ts:1627-1645 | the same from its turn in the queue on, with whatever snapshot it arrived with |
| Node.BridgeNode.UpsertEndpoint | bridge-node/src/node.ts:1655-1665 | in place: upsert, check, and pairing only after success |
| Node.BridgeNode.RemoveEndpoint | bridge-node/src/node.ts:1681-1689 | in place: snapshot, removal, destroyed records, check, for a command that finds the registry free |
| Node.BridgeNode.RemoveEndpointFrom | bridge-node/src/node.ts:1681-1689 | the same from its turn in the queue on, with whatever snapshot it arrived with |
| Node.BridgeNode.ForgetRemovedNow | bridge-node/src/node.ts:1485-1532 | in place, equals the specified split into superseded, ordinary and remembered removals |
| Node.BridgeNode.NoteSupersessionNow | bridge-node/src/node.ts:1555-1562 | in place, consumes the memory and retires on a later generation |
| Node.BridgeNode.NoteFabricsNow | bridge-node/src/node.ts:865-904 | in place, the transitions between no fabric and some |
| Node.BridgeNode.FactoryResetNow | bridge-node/src/node.ts:1862-1974 | in place, equals the specified reset, preserving or discarding; an erase that throws changes nothing |
| Node.BridgeNode.RebuildEndpointMap | bridge-node/src/node.ts:1990-2037 | in place: refused for an unreadable identity, aborted over a failed write, else serving again |
| Node.BridgeNode.RestoreEndpointsNow | bridge-node/src/node.ts:549-648 | in place, restores the supported restorable records unless refusing or unreadable |
| Node.BridgeNode.AssertEndpointIdentity | bridge-node/src/node.ts:710-735 | in place, refuses or serves, bootstrapping a map that never existed |
| Node.BridgeNode.StartNow | bridge-node/src/node.ts:406-517 | in place: load, restore, decide, withdraw |
| NodeEffects.CheckRecords | bridge-node/src/node.ts:1573-1586 | after a check every live endpoint is recorded in full under its device |
| NodeEffects.SoftRemovals | bridge-node/src/node.ts:1485-1532 | an attach marks exactly the records that left the live set, retired or un-exported by the pairing rule |
| NodeEffects.SoftMarksExactly | bridge-node/src/node.ts:1485-1532 | in terms of the live sets before and after: what left is retired in favour of the later generation the mutation brought to its device, any other un-exported |
| NodeEffects.HardRemovals | bridge-node/src/node.ts:1513-1522 | a removal drops exactly the records that left |
| NodeFaith.AttachKeepsFaith | bridge-node/src/node.ts:1627-1645 | whatever an attach that nothing overlaps comes to, from whatever earlier failures left, what is live is recorded and nothing else would come back |
| NodeFaith.RemoveKeepsFaith | bridge-node/src/node.ts:1681-1689 | so does a removal |
| NodeFaith.AttachDropsNothing | bridge-node/src/node.ts:1627-1645 | an attach drops no record, however it ends |
| NodeFaith.RemovalDestroys | bridge-node/src/node.ts:1681-1689 | a removal drops the record of what it removed, exactly if it was done, and no other |
| NodeFaith.UpsertKeepsFaithExactly | bridge-node/src/node.ts:1655-1665 | whatever fails, an upsert does exactly unless a failed battery gain lost a named accessory or a stale pairing succeeded |
| NodeFaith.PairingForgets | bridge-node/src/node.ts:1555-1562 | the first create told of for a device uses its memory up, whatever comes of it |
| NodeRestart.RestartRebuilds | bridge-node/src/node.ts:549-648 | a restart rebuilds exactly the named live accessories with device, identity, role, name and any battery, is faithful again, and serves unless the witness outlived the fabrics |
| NodeRestart.FaultFreeRestoresAll | bridge-node/src/registry.ts:225-242 | without failed adds the restore is complete |
| NodeRuns.StepIsRun | bridge-node/src/node.ts:1485-1974 | every step of the node acts on the map as a named run of map operations |
| NodeRuns.NodeCheckedMeansOnDisk | bridge-node/src/endpoint-map.ts:706-708 | over every run of the node, whatever fails, `driftChecked` means the file decodes to memory and was earned |
| NodeRuns.DriftIsExact | bridge-node/src/node.ts:1573-1586 | a client is told exactly the trusted numbers that moved |
| NodeRuns.NodeDriftSticks | bridge-node/src/node.ts:1573-1586 | drift stays reported along every run, whatever fails but writes, that neither destroys, voids, rebuilds nor discards the record |
| NodeRuns.RunWithin | bridge-node/src/registry.ts:143-600 | over every run of the node, whatever fails, no two devices drive one identity and every live one is in the aggregator |
| NodeRuns.NodeRetiredStaysRetired | bridge-node/src/endpoint-map.ts:795-829 | retirement holds along every run of the node, restarts included |
| NodeSound.SoundRun | bridge-node/src/node.ts:1573-1586 | over every run on working storage, whatever matter.js refuses and whatever that leaves behind, incomplete restores included, the node serves, reports no drift, trusts only matter.js's numbers, and its witness is right in memory and on disk |
| NodeSound.RefusesOnlyWhenFabricsVanished | bridge-node/src/endpoint-map.ts:125-130 | after any such run the next start refuses exactly when the fabric store vanished |
| NodeSound.LastFabricDrift | bridge-node/src/node.ts:913-965 | when the last fabric goes, the map goes on trusting only matter.js's numbers exactly if the witness was set or the numbers came out the same; the next check reports nothing with a witness, and without one exactly the live identities whose number moved |
| NodeSound.FalseDriftArises | bridge-node/src/node.ts:913-965 | a run that gets there: unwitnessed start, rebuild, one accessory attached, last fabric gone; drift is reported exactly if the accessory was numbered differently |
| NodeOverlap.OverlapExactly | bridge-node/src/node.ts:1485-1532 | bookkeeping against any snapshot leaves the map faithful exactly if whatever would come back was live in the snapshot or is live now |
| NodeOverlap.AttachFromKeepsFaithExactly | bridge-node/src/node.ts:1627-1645 | an attach with an old snapshot, however it ends, leaves the map faithful exactly if every named accessory that left was in that snapshot |
| NodeOverlap.RemoveFromKeepsFaithExactly | bridge-node/src/node.ts:1681-1689 | so does a removal |
| NodeOverlap.OverlapResurrects | bridge-node/src/node.ts:1627-1645 | with nothing failing, an attach over a second socket that drops what the first is bringing leaves it recorded, and the next start brings it back |
| NodeOverlap.OverlapIsSound | bridge-node/src/node.ts:1485-1689 | commands of any number of sockets interleaved at snapshot, mutation and bookkeeping in any order never bring on false drift, a shared identity or a wrong trusted number |
| NodeClean.KeptRun | bridge-node/src/node.ts:1485-1689 | over every run on working storage, attaches and removals failing in any way, the map records what is live and nothing else would come back, unless an upsert lost a named accessory or completed a stale pairing or a restart was incomplete |
| NodeClean.RestartKept | bridge-node/src/node.ts:549-648 | a complete restart of such a node ends in agreement, whatever was stranded or lost before |
| NodeClean.CleanRun | bridge-node/src/node.ts:406-517 | over every such run whose failures were recovered, live set, aggregator, sinks, map, numbers and witness agree after every step |
| NodeClean.RecoveringCommandsAreLawful | bridge-node/src/node.ts:1627-1689 | when no two calls of one recovery fail together, every attach with at most one rekey, every removal and every upsert short of those two outcomes is lawful |
| NodeClean.FirstAttach | bridge-node/src/node.ts:1627-1645 | from installation, with nothing failing, any parsed attach is lawful and leaves exactly what it asked for |
| NodeClean.StepKeepsGood | bridge-node/src/node.ts:1485-2037 | each kind of step keeps that invariant |
| NodeClean.RunThenRestart | bridge-node/src/node.ts:549-648 | from installation, after attaches and removals that failed in any way, a complete restart brings back exactly the named live accessories, faithful and in agreement again |
| NodeSafety.WitnessWhileServing | bridge-node/src/node.ts:825-965 | over every run with any failed writes, while serving the witness is set exactly when there is a fabric |
| NodeSafety.StartWitness | bridge-node/src/node.ts:710-735 | a start leaves the witness right if and only if it is not an unwitnessed one |
| NodeSafety.StartDecides | bridge-node/src/node.ts:406-517 | from storage alone: a start refuses for an unreadable identity first, over fabrics exactly when there is a file that is no endpoint map, without fabrics exactly when the witness says there were some; nothing of the process before is carried over |
| NodeSafety.StartWrites | bridge-node/src/node.ts:710-735 | the one write of a start is the empty map of a paired node that had no file |
| NodeSafety.WitnessFollows | bridge-node/src/node.ts:825-965 | over any frame and fabric change the witness in the file follows the one in memory exactly when it changed and the write reached the disk |
| NodeSafety.StartFollows | bridge-node/src/node.ts:406-517 | a start reads the witness from the file, and the same holds of what it writes |
| NodeSafety.LastFabricLeaves | bridge-node/src/node.ts:913-965 | when the last fabric leaves a witnessed node the witness goes, every number is void and no drift is reported any more; without a witness the event is all |
| NodeSafety.ResetLeaves | bridge-node/src/node.ts:1862-1974 | no fabric, witness, refusal or drift is left by a reset, and the live set stays |
| NodeSafety.DiscardingReset | bridge-node/src/endpoint-map.ts:1242-1263 | a reset that does not preserve leaves memory empty; if the delete works there is no file and the next start restores nothing, else the old file is still there |
| NodeSafety.PreservingReset | bridge-node/src/endpoint-map.ts:1127-1136 | a reset that preserves keeps every record with its number void, written or owed |
| NodeSafety.RebuildExactly | bridge-node/src/node.ts:1990-2037 | a rebuild is done exactly if its write reached the disk, then serves and reports no drift; aborted, it goes on refusing and reporting as before |
| NodeSafety.RebuildRecords | bridge-node/src/endpoint-map.ts:1185-1211 | a rebuild records exactly what is live under matter.js's numbers |
| NodeSafety.DriftIsTold | bridge-node/src/node.ts:1573-1586 | the drift event is raised exactly when a live identity is trusted under another number |
| NodeSafety.UnwitnessedRebuildServes | bridge-node/src/node.ts:1990-2037 | the exception is real: a rebuild after such a start serves with no witness |
| NodeSafety.EventsAlternate | bridge-node/src/node.ts:865-904 | over every run of one process the commissioning events replay in turn to the state last seen |
| NodeSafety.ReplayAlternates | bridge-node/src/node.ts:894-903 | between two events of a kind there is one of the other |
| NodeSafety.StartRefusesEmpty | bridge-node/src/node.ts:666-683 | a start that refuses has withdrawn every endpoint, however the restore went |
| NodeSafety.OnlyRebuildPasses | bridge-node/src/ws-server.ts:294-325 | of everything that changes state, a refusing node accepts only the rebuild |
| NodeSafety.GateExactly | bridge-node/src/ws-server.ts:294-325 | while refusing exactly three commands pass, from any client; while serving a client that has not attached may only attach |
| NodeSafety.StrangersChangeNothing | bridge-node/src/ws-server.ts:294-325 | over every run of frames from clients that never attach a serving node stays as it was |
| NodeSafety.RefusalIsSafe | bridge-node/src/ws-server.ts:294-325 | until a rebuild succeeds no frame or fabric change makes anything live or lifts the refusal |
| NodeSafety.IdentityRefusalIsFinal | bridge-node/src/node.ts:1990-2009 | an unreadable identity is never cleared by a rebuild |
| Supersession.PathIndependence | bridge-node/src/node.ts:1485-1562 | retired in one attach, or removed and later paired by an upsert after any commands in between, the record ends the same: number kept, un-exported, superseded by the same identity |
| Supersession.FaultFreePathsMeet | bridge-node/src/node.ts:1485-1562 | when nothing fails, any attach that replaces the identity and any attach that drops it followed by the upsert leave the same record |
| Supersession.StalePairingArises | bridge-node/src/node.ts:1555-1562 | a removed identity exported again under another device makes a later create for its old device stale |
| Supersession.PendingRun | bridge-node/src/node.ts:1523-1532 | a remembered removal waits unchanged through any commands that leave it alone |
| Supersession.RemembersExactly | bridge-node/src/node.ts:1523-1532 | a soft mutation remembers, under each device, exactly what left it with nothing new in its place, and changes no other memory |
| Supersession.StalePairingBuriesALiveIdentity | bridge-node/src/node.ts:1555-1562 | a stale pairing retires a live identity, which would not come back |
| Churn.VerdictListsExactly | bridge-node/src/churn.ts:214-248 | the history's verdict lists exactly the peers over threshold |
| Churn.ListedExactly | bridge-node/src/churn.ts:214-248 | in terms of the events: a peer is listed exactly if four of its sessions are open, or two are and three of its subscriptions were terminated in the last thirty minutes, with those two counts; broken, nobody is and nothing was checked |
| Churn.SinceIsReported | bridge-node/src/churn.ts:229-242 | the time reported is where the streak that includes this question began |
| Churn.NewsExactly | bridge-node/src/churn.ts:251-270 | a poll is news exactly if a peer entered or left the list since the last one, whatever the counts did |
| Churn.FirstNewsExactly | bridge-node/src/churn.ts:251-270 | the first poll is news exactly if somebody is listed or the detector is broken |
| Churn.BreakIsNewsOnce | bridge-node/src/churn.ts:251-270 | once broken, a poll is news exactly if the one before was not |
| Churn.SinceIsStreakStart | bridge-node/src/churn.ts:229-242 | `since` is the first verdict of the current unbroken streak |
| Churn.PrunedIsKept | bridge-node/src/churn.ts:302-310 | dropping a prefix of ordered times is exactly keeping the half-open window |
| Churn.Prune | bridge-node/src/churn.ts:302-310 | the loop drops exactly that prefix |
| Churn.AnswerIsVerdict | bridge-node/src/churn.ts:214-248 | visiting, pruning and dropping entries answers as the full history would and keeps standing for it |
| Churn.ChurnDetector.SessionOpened | bridge-node/src/churn.ts:172-179 | keeps standing for the history |
| Churn.ChurnDetector.SessionClosed | bridge-node/src/churn.ts:181-191 | keeps standing for the history |
| Churn.ChurnDetector.SubscriptionRemoved | bridge-node/src/churn.ts:203-211 | keeps standing for the history, clean removals uncounted |
| Churn.ChurnDetector.MarkBroken | bridge-node/src/churn.ts:162-166 | from here on every verdict is unchecked |
| Churn.ChurnDetector.VerdictNow | bridge-node/src/churn.ts:214-248 | answers exactly the full, unpruned history when the clock and session ids were orderly |
| Churn.ChurnDetector.Poll | bridge-node/src/churn.ts:251-257 | news exactly when the situation differs from the last poll's |
| ColourTemperature.StoredReachesNode | indigo-matter.indigoPlugin/Contents/Server Plugin/ct_bounds.py:95-208 | stored bounds reach the node as their effective pair exactly when something is stored and the pair is lawful |
| ColourTemperature.BoundsByPrecedence | indigo-matter.indigoPlugin/Contents/Server Plugin/ct_bounds.py:86-115 | a learned bound wins over the seed, the seed over the generic one, and neither side moves the other |
| ColourTemperature.SentExactly | indigo-matter.indigoPlugin/Contents/Server Plugin/ct_bounds.py:174-208 | with anything stored both effective bounds are sent, with nothing neither is |
| ColourTemperature.UsableExactly | bridge-node/src/endpoints.ts:1469-1518 | a pair is usable exactly if both options are whole numbers with 153 <= min < max <= 500 |
| ColourTemperature.WriteOrderMatters | bridge-node/src/endpoints.ts:3063-3099 | the source's key order is never refused; with the last two keys swapped it is refused exactly when the new minimum is above the live temperature |
| ColourTemperature.PushExactly | bridge-node/src/endpoints.ts:2866-2890 | a delivered push leaves the temperature it asked for, to the nearest mired or the end of the live bounds it lies beyond, and nothing else |
| ColourTemperature.UpdateExactly | bridge-node/src/endpoints.ts:3063-3099 | a bounds update writes exactly if it brings a lawful pair that is not the live one and is delivered, and moves the temperature no further than the new bounds require |
| ColourTemperature.CreatedExactly | bridge-node/src/endpoints.ts:1469-1518 | a new light starts in its bounds, as near to its seed as they allow |
| ColourTemperature.BoundsFollowThePlugin | bridge-node/src/endpoints.ts:1469-1518 | over every run the attributes stay in bounds and the live bounds are the last usable pair the plugin delivered |
| ColourTemperature.ReWideningReachesTheNode | indigo-matter.indigoPlugin/Contents/Server Plugin/ct_bounds.py:174-208 | a re-widening to 153-500 reaches the node; the rule it replaced loses exactly that |
| ColourTemperature.ColorEndpoint.Set | bridge-node/src/endpoints.ts:3063-3099 | writes key by key, checks the couple minimum at its write, and undoes everything on a refusal |
| ColourTemperature.ColorEndpoint.ApplyBoundsUpdate | bridge-node/src/endpoints.ts:3063-3099 | in place, equals the specified bounds update, and bumps the accessory's configuration version exactly when it wrote |
| ColourTemperature.ColorEndpoint.ApplyPush | bridge-node/src/endpoints.ts:2866-2890 | in place, clamps a push to the live bounds |
| Levels.LevelIsLastNonZero | bridge-node/src/endpoints.ts:2788-2984 | over every sequence of pushes the level is the conversion of the last non-zero number delivered, or where it started |
| Levels.ZerosLeaveTheLevel | bridge-node/src/endpoints.ts:2788-2812 | zeros and on/off keys never move it |
| Levels.SplitEitherWay | bridge-node/src/endpoints.ts:2830-2984 | a combined push ends where its halves do, in either order |
| Levels.PushExactly | bridge-node/src/endpoints.ts:2830-2984 | a push sets the switch, the level and the battery each by what it says of it, if that was delivered, and by nothing else |
| Levels.AppliedExactly | bridge-node/src/endpoints.ts:2654-2984 | a push is refused exactly for a battery that is not there or when no key can be used, writing nothing, and otherwise accepted exactly if everything it says was delivered |
| Levels.SwitchIsLastDelivered | bridge-node/src/endpoints.ts:2917-2945 | over every sequence of pushes the switch is at the last boolean delivered, or where it started |
| Levels.BatteryIsLastReading | bridge-node/src/endpoints.ts:2470-2490 | and the battery at the last percentage delivered, converted, or where it started |
| Units.BatteryInHalfPercents | bridge-node/src/endpoints.ts:228-245 | a battery percentage is kept in half-percent units, to the nearest, within 0 and 200 |
| Units.PercentToMatterMonotone | bridge-node/src/endpoints.ts:219-278 | monotone, in range, both ends exact |
| Units.MatterToPercentMonotone | bridge-node/src/endpoints.ts:224-226 | monotone and in range |
| Units.HueMonotone | bridge-node/src/endpoints.ts:286-307 | both hue converters monotone and in range |
| Units.PositionAntitone | bridge-node/src/endpoints.ts:513-520 | both position converters antitone and in range |
| Units.PercentRoundTrip | bridge-node/src/endpoints.ts:219-226 | a percentage comes back within 0.5 + 50/254 |
| Units.WholePercentSurvives | bridge-node/src/endpoints.ts:219-278 | every whole percentage comes back exactly, through `currentLevel` too |
| Units.HueRoundTrip | bridge-node/src/endpoints.ts:286-307 | a hue comes back within 0.5 + 180/254 degrees, below one Matter step |
| Units.MatterHueSurvives | bridge-node/src/endpoints.ts:286-307 | every Matter hue survives a trip through degrees |
| Units.PositionRoundTrip | bridge-node/src/endpoints.ts:513-520 | a position comes back within 0.505 |
| Units.WholePositionSurvives | bridge-node/src/endpoints.ts:513-520 | every whole position comes back exactly |
| Inheritance.MergeIsOverride | tools/enumerate_settings.py:520-552 | for any finite base graph, cyclic ones included, the merge is the override along the base chain |
| Inheritance.ChainFollowsBases | tools/enumerate_settings.py:520-533 | that chain is the base chain cut before its first repeat |
| Inheritance.ResolvedKeyByKey | tools/enumerate_settings.py:480-517 | each attribute listed is applicable, carries its id and says under each key what its nearest declaration says |
| Inheritance.ListedExactly | tools/enumerate_settings.py:535-548 | an attribute is listed exactly if its nearest declaration does not make it not applicable |
| Inheritance.UnredeclaredIsInherited | tools/enumerate_settings.py:535-548 | an attribute that is not redeclared is what the base resolves to on its own, unchanged, for every cluster not on its base's own chain |
| Inheritance.MergeInherited | tools/enumerate_settings.py:520-552 | in the source's own recursion with cache and stack, terminating, computes the merge |
| Inheritance.ResolveClusterAttributes | tools/enumerate_settings.py:480-517 | lists exactly the override along the cluster's base chain |

## Left out

- KeptRun: leaves out a restart that could not restore every accessory, whose records stay in the map for the next one, and the two outcomes of an upsert that `UpsertKeepsFaithExactly` names.
- RunThenRestart: the same, and a discarding reset right before the restart with endpoints still live and unchecked.
- CleanRun: leaves out the failures that were not recovered; `AbortExactly`, `UpsertKeeps`, `RemoveKeeps` and `RestoreKeeps` say exactly what agreement they cost, and `SoundRun` and `KeptRun` what they do not touch.
- SoundRun: leaves out starts over an unreadable identity file, which refuse for good (`IdentityRefusalIsFinal`), and failed writes.
- OverlapIsSound: a mutation is one piece; the source may start the next queued mutation's first turn before the bookkeeping of the one before it.
- AttachKeepsFaith: for an attach that nothing overlaps, as are all commands in the runs of `NodeRuns`, `NodeSound`, `NodeClean`, `NodeSafety` and `Supersession`; `NodeOverlap` says what an overlap changes.
- RemoveKeepsFaith: likewise for a removal.
- WitnessWhileServing: fabric reads always succeed in the model; the source skips its bookkeeping when one fails.
- StartRefusesEmpty: assumes closes succeed; a failed withdrawal leaves what it could not close, as the source logs.
- EventsAlternate: covers the runs of one process, because a restart begins with no events raised.
- CheckedMeansOnDisk: says the file decodes to memory with empty strings dropped, and that this is equality exactly when there are none.
- PluginWireRoundTrip: `from_wire` is modelled for frames whose values have the types `to_wire` writes.
- PathIndependence: the commands in between are attaches, upserts and removals in which neither the device nor the identity comes back.
- VerdictNow: promises nothing once the clock stepped back or a session id was reused while open; the verdict's order of peers is not modelled.
- Poll: the situation is the set of peers; the source's signature also follows the order of peers that share a node id on two fabrics, which can change between polls only if `verdict` is called in between, and the node only polls.
- BoundsFollowThePlugin: assumes the couple minimum is the only key `endpoint.set` checks against another; the hue and mode attributes of the same cluster are not modelled.
- MergeInherited: the order of the listed attributes is not modelled, and neither is a boolean standing for an id.
- LevelIsLastNonZero: the role `dimmableLight` only; numbers are reals, so NaN and infinities do not occur.
- BatteryIsLastReading: a battery that has had no reading yet is `null` in the source and some number in the model.
- Registry states and options: a spec's states and options act on an endpoint only through writes that may fail, so they are not part of the live entry.
- Set-up failures: a fabric leave that throws and a failing construction of a node are not modelled.
- Observers firing inside an erase: the observer of a fabric change is modelled as a step of its own.
- Log texts, warnings, notices, quarantine file names, time stamps and removal pacing do not affect any property.
- `set_state` and `set_reachable` as commands of the node, the sessions sweep, status and pairing readouts, commissioning windows.
- The transport half of the WebSocket server, supersession of one attached client by another, socket timers, mDNS, process shutdown.
- matter.js itself beyond the contract used: adds, closes, writes and subscriptions may fail; numbers are keyed on the endpoint id and erased with the fabrics.
- Per-role device types, the logarithm of `lux`, sensor and thermostat converters, command sinks' echo guards.
- Everything else in `tools/enumerate_settings.py`: parsing JavaScript text and printing tables.
