# Verification of the CDI DRA driver

The driver publishes devices of a composable disaggregated infrastructure as Kubernetes ResourceSlices. It scans
periodically: it finds the machine behind every node, asks the fabric manager (FM) how many free devices each fabric has
and, optionally, the cluster manager (CM) for limits per node group, then updates one resource pool per fabric and device,
tells one controller per vendor driver, and labels the nodes. At shutdown it deletes what it published.

This project models that behaviour in Dafny and proves it over every run, every answer of the two managers, and every
order in which Go may walk a map.

`dafny verify dfyconfig.toml` checks everything.

## How it is organised

| file | contents |
|---|---|
| `Text.dfy`, `Naming.dfy` | `strconv.Itoa`, `strings.Split`, the names built by concatenation, and parsers that undo them |
| `Pools.dfy` | pools as values; what one scan does to the pools of all drivers (`Next`) |
| `Runs.dfy` | whole runs: pools from the history of counts, generations, what the controllers are told (`Run`, `Sent`) |
| `Conservation.dfy` | published devices add up to reported devices |
| `Providers.dfy` | provider-ID indexes, and `getMachineUUIDs` against a scan over all nodes |
| `Scans.dfy`, `ScanLaws.dfy` | one scan as values; the memoised reading phase against asking for every machine |
| `Batches.dfy` | progress of the reading phase and its number of requests |
| `Fleet.dfy`, `Reading.dfy` | the reading phase on the heap: device objects, deep copies, limits written per node group |
| `Labels.dfy` | node labels, label passes, selectors |
| `Shutdown.dfy` | what the shutdown deletes |
| `Manager.dfy` | the class `CDIManager`: one method per method of the source, over mutable state |
| `Lifecycle.dfy`, `EndToEnd.dfy` | start, scans, shutdown; independence of map order; pools against labelled nodes |
| `Token.dfy` | the cached token source, sequentially and in every interleaving |

Code that changes state is modelled by methods over classes. Each is proved equal to a value-level specification, and the
laws are proved about the specification for whole runs. `CDIManager.Valid` says that the manager's pools are
`Run(trace)` for a ghost trace of scan outcomes, and `Announced` that every controller has been handed exactly
`Sent(trace)`; both hold from the start and after every scan, successful or failed. So the lemmas about `Run` and `Sent` speak
about every state the class can be in.

Map iteration is an arbitrary choice of the next key. FM and CM replies, informer caches and API errors of one scan are a
value of type `World`, chosen anew for each scan and otherwise unconstrained. Order independence and the agreement with
asking per machine need that, within a scan, FM answers depend on fabric and model only and CM answers on node group and
model only (`Consistent`, `TablesAreConsistent`); nothing else assumes it.

## What turned out false

* A negative count, which the driver accepts because only counts above 128 are rejected, does not settle: the
  generation then rises at every scan. Repeating a report settles if and only if the count is not negative
  (`UpdateSettlesIffNotNegative`), and generations count the changes of a history if and only if no negative count is followed
  by zero or by itself (`BumpsCountChangesIff`, with `NegativeCountBumps` as the concrete input).
* A device named `fabric`, or another device's name followed by `-size-max` or `-size-min`, passes validation, yet the driver
  overwrites the very label its pools select on. `PoolSelectsItsFabric` holds with exactly that condition;
  `DeviceNamedFabric` is the concrete input.

## Model

| member | source | states |
|---|---|---|
| Text.LastPieceIsAfterLast | pkg/kube_utils/kube_utils.go:179-182 | the last piece of a split is the text after the last separator, and there is one piece if and only if there is no separator |
| Text.AfterLastIsTail | pkg/kube_utils/kube_utils.go:179-182 | the text after the last separator is the end of the string that has no separator and follows one, or the whole string |
| Text.ItoaIsDecimal | pkg/manager/manager.go:614 | a number is written in decimal, one digit per power of ten, with a leading minus sign if negative |
| Text.ItoaInjective | pkg/manager/manager.go:614 | two integers have the same decimal text if and only if they are equal, so fabric labels and selectors never confuse fabrics |
| Naming.PoolNameParses | pkg/manager/manager.go:546 | a string parses to (device name, fabric) if and only if it is that pool's name, whatever the device name contains |
| Naming.PoolNameInjective | pkg/manager/manager.go:546 | pools of different devices or fabrics never share a name |
| Naming.PoolNameAt | pkg/manager/manager.go:546 | a pool name is the device name, then `-fabric`, then the fabric's number |
| Naming.DeviceNameParses | pkg/manager/manager.go:587 | a string parses to (device name, index) if and only if it is that device's published name |
| Naming.DeviceNameIsDNSLabel | pkg/manager/manager.go:585-587 | for a validated name and fewer than 128 indexes every published device name is a DNS label of at most 63 characters |
| Naming.WrittenKeysDistinct | pkg/manager/manager.go:638-662 | the label keys the driver writes never collide with each other |
| Naming.DeviceKeyCollisions | pkg/manager/manager.go:604-662 | exactly when the key a pool selects on is one the driver writes |
| Pools.CountComparisonIsSound | pkg/manager/manager.go:566-581 | a pool that is left alone already is what would be generated now; otherwise it is regenerated one generation later; which of the two depends on the count alone |
| Pools.UpdateSettlesIffNotNegative | pkg/manager/manager.go:566-581 | a repeated report leaves the pool alone if and only if the count is not negative |
| Pools.FeedIsUnique | pkg/manager/manager.go:544-553 | within a scan at most one device of one fabric updates a given pool of a given driver |
| Pools.NextPoolsAt | pkg/manager/manager.go:541-557 | after a scan a pool exists if and only if it did before or some device feeds it, and it is updated from that device alone |
| Pools.OwnDriverWithOneMore | pkg/manager/manager.go:544-553 | one further device changes its own pool, exactly as an update of what was there at the start of the scan |
| Pools.OtherDriverWithOneMore | pkg/manager/manager.go:544-553 | one further device changes no pool of any other driver |
| Runs.PoolHistory | pkg/manager/manager.go:566-581 | after any run the pool of a device info and fabric is generated from the info and the last count seen, at generation one plus the number of bumps of its own history; it is absent until the first count |
| Runs.OnlyConfiguredPools | pkg/manager/manager.go:541-557 | every pool of every run stands for a configured device and a fabric that was scanned |
| Runs.BumpsAreChanges | pkg/manager/manager.go:573-577 | without negative counts, bumps are the consecutive counts that differ |
| Runs.BumpsCountChangesIff | pkg/manager/manager.go:573-577 | bumps count changes all along a history if and only if no negative count is followed by zero or by itself |
| Runs.NegativeCountBumps | pkg/manager/manager.go:474-478 | a concrete history for which they do not |
| Runs.GenerationBounds | pkg/manager/manager.go:567-577 | every generation is at least 1 and at most the number of scans, and every pool always has exactly one slice, so that none is ever started over |
| Runs.RunStep | pkg/manager/manager.go:566-581 | one scan keeps a pool as it is or raises its generation by exactly one |
| Runs.PoolsProgress | pkg/manager/manager.go:566-581 | between any two points of a run pools stay, generations never fall, and an unchanged generation means an unchanged pool |
| Runs.SentAfter | pkg/manager/manager.go:558-563 | a scan hands a controller one new snapshot if and only if the driver's pools changed |
| Runs.PublicationCoherent | pkg/manager/manager.go:558-563 | at any point the last snapshot equals the driver's pools, no snapshot repeats the one before, and every pool ever announced is still held |
| Conservation.DevicesConserved | pkg/manager/manager.go:538-557 | after a successful scan in any run the devices in pools of scanned fabrics add up to the counts reported per distinct fabric and device info, a negative count standing for no device |
| Conservation.OtherFabricsUntouched | pkg/manager/manager.go:538-557 | pools of fabrics the scan did not see are unchanged |
| Providers.ListProviderIDs | pkg/kube_utils/kube_utils.go:261-279 | every ID is listed as often as the index has nodes under it |
| Providers.FindNodeNameByProviderID | pkg/kube_utils/kube_utils.go:281-297 | an error if and only if several nodes are indexed under the ID; otherwise its only node, or "" |
| Providers.FindMachineUUIDByProviderID | pkg/kube_utils/kube_utils.go:299-337 | an error if and only if a non-empty ID is the UID of several hosts or of one host with unreadable annotations; a non-empty result is the text under `cluster-manager.cdi.io/machine` of the only host, and is given whenever there is one |
| Providers.HostUUIDOnHosts | pkg/kube_utils/kube_utils.go:164-177 | the index lookup of an ID says what the hosts themselves say, errors included |
| Providers.MachineFor | pkg/manager/manager.go:417-440 | the lookups for one listed ID name its only node and what a scan would give that node |
| Providers.GetMachineUUIDs | pkg/manager/manager.go:410-447 | the index lookups give the result of a scan over all nodes that uses no node index, errors included |
| Providers.UUIDsWithoutHosts | pkg/manager/manager.go:427-429 | without hosts: an error if and only if two nodes share a normalised ID; otherwise an injective map from every node with an ID to the text after its last slash |
| Providers.UUIDsWithHosts | pkg/manager/manager.go:430-441 | with hosts: a node is mapped to a UUID if and only if the non-empty text after its provider ID's last slash is the UID of exactly one host, and that host's machine annotation is this non-empty text |
| Providers.UUIDErrorsWithHosts | pkg/manager/manager.go:417-441 | with hosts: an error if and only if two nodes share an ID, or a named node's ID has several hosts, or its only host's annotations are malformed or not text under the key |
| Scans.FirstEntryCounts | pkg/manager/manager.go:701-708 | a machine's fabric is that of the first list entry with its UUID, even if that entry has none |
| Scans.FabricOfEntries | pkg/manager/manager.go:701-708 | the fabric is that of the first entry, and there is none if the list does not have the UUID |
| Scans.LastGroupCounts | pkg/manager/manager.go:293-297 | a machine's node group is the last one that lists it |
| Scans.LastGroupIsLast | pkg/manager/manager.go:291-306 | the group is the last one that lists the machine, and empty if none does |
| Scans.ProcessedMachines | pkg/manager/manager.go:266-309 | the processed nodes are exactly those whose looked-up UUID has a first entry with a fabric; each machine carries that UUID, that fabric, and its last group among the answers taken in order |
| Scans.NoMachinesIff | pkg/manager/manager.go:249-313 | exactly when a scan errs before it asks for devices: UUID lookup, machine list or a group request failed, or no node has a fabric |
| Scans.FabricRepIsFirst | pkg/manager/manager.go:318-321 | it is the first machine of a fabric, in the order of the scan, that speaks for it |
| Scans.GroupRepIsFirst | pkg/manager/manager.go:356-362 | it is the first machine of a node group that speaks for it |
| Scans.LastLimitCounts | pkg/manager/manager.go:523-534 | each bound is that of the last matching spec that gives it, whatever the specs say of the other bound |
| Scans.NoLimitGiven | pkg/manager/manager.go:523-534 | a bound is missing if and only if no matching spec gives it |
| Scans.LimitOfDetails | pkg/manager/manager.go:518-535 | an answer if and only if the node details are there; its minimum and its maximum are each the last one given by a spec with a condition on column model, operator eq and this model |
| ScanLaws.ReadListAt | pkg/manager/manager.go:322-334 | a list read through a machine holds, for each info, a copy of the info with the count reported for its model |
| ScanLaws.ReadListFromInfos | pkg/manager/manager.go:322-334 | it holds exactly one device per device info |
| ScanLaws.SharedIsAskedAlone | pkg/manager/manager.go:315-390 | sharing the answers of its fabric and group gives a machine what asking for it alone would, errors included |
| ScanLaws.MemoisedScanRefinesAskingAlone | pkg/manager/manager.go:315-390 | the memoised scan succeeds if and only if asking for each machine would, and then gives every machine exactly those counts and limits |
| ScanLaws.ScanGivesExpected | pkg/manager/manager.go:315-390 | model by model, each machine of a successful scan ends with the count reported for that machine and, in a node group, with that machine's limits; without a group it has none |
| ScanLaws.ScanLists | pkg/manager/manager.go:539-557 | the pools are updated from one list per distinct fabric, the one read through its first machine |
| ScanLaws.OrderIndependent | pkg/manager/manager.go:284-390 | two orders of the machines both succeed or both fail, and give every node the same devices and the pools the same lists |
| Batches.FabricFirstRead | pkg/manager/manager.go:318-322 | a machine whose fabric was not read before speaks for it, and its requests still fit the total |
| Batches.GroupFirstRead | pkg/manager/manager.go:356-363 | a machine whose node group was not read before speaks for it, and its requests still fit the total |
| Batches.QueriesAreProducts | pkg/manager/manager.go:315-373 | a successful scan makes (distinct fabrics) x (device infos) availability requests and, with CM, (distinct node groups) x (device infos) limit requests |
| Fleet.DeepCopy | pkg/manager/manager.go:717-725 | new device objects, all different, with equal contents |
| Fleet.CopyToFabric | pkg/manager/manager.go:340-345 | every machine of the fabric gets a copy of its own, no other machine changes, no two machines share an object |
| Fleet.CopyPerFabric | pkg/manager/manager.go:338-346 | every machine ends with its own copy of its fabric's list |
| Fleet.SetLimits | pkg/manager/manager.go:380-387 | a bound is written if and only if the limit has it |
| Fleet.CopyToGroup | pkg/manager/manager.go:376-388 | the limits reach all machines of the group and no device of any other machine |
| Fleet.CopyLimits | pkg/manager/manager.go:374-390 | after all groups, in any order, every machine has the limits of its own group only |
| Reading.GetAvailableNums | pkg/manager/manager.go:465-479 | exactly the reported count if the request succeeds and the count is at most 128, otherwise an error |
| Reading.GetMinMaxNums | pkg/manager/manager.go:513-536 | an error if and only if the request fails; the minimum is that of the last spec that has one and a condition on column model, operator eq and this model, missing if there is none; likewise the maximum |
| Reading.FetchDeviceList | pkg/manager/manager.go:322-334 | the list read through the machine with one request per info, or an error at the first failing request |
| Reading.FetchLimitsOf | pkg/manager/manager.go:363-370 | the limits of all models through one machine, in any order; an error if and only if one request fails |
| Reading.FetchFabrics | pkg/manager/manager.go:317-336 | one list per distinct fabric, read through its first machine, with the exact number of requests |
| Reading.FetchLimits | pkg/manager/manager.go:355-372 | the same for node groups, machines without a group being passed over |
| Reading.FillFromFabrics | pkg/manager/manager.go:315-346 | every machine holds its fabric's list in objects shared with no other machine, or the scan fails |
| Reading.ApplyLimits | pkg/manager/manager.go:374-389 | with the limits written, the machines are what the value-level scan says; every dereferenced device exists |
| Reading.FillMachines | pkg/manager/manager.go:315-390 | the heap phase gives exactly the result of the value-level memoised scan, and counts its requests |
| Reading.GetFabricID | pkg/manager/manager.go:701-708 | the fabric of the first entry with that UUID, none if there is no entry |
| Reading.GetNodeGroupInfos | pkg/manager/manager.go:266-280 | the infos of all groups in the order of the list, or an error if and only if any request fails |
| Reading.FindNodeGroup | pkg/manager/manager.go:291-297 | the last group that lists the machine, empty if none does |
| Reading.BuildMachine | pkg/manager/manager.go:284-308 | a node's machine carries the looked-up UUID, its fabric and its group; a node without a fabric has none |
| Reading.BuildMachines | pkg/manager/manager.go:282-309 | each node whose first entry has a fabric becomes one machine with that fabric, in any order, and no other does |
| Reading.FindMachinesOf | pkg/manager/manager.go:256-313 | the machines to process, or one of the errors of this phase, exactly when it should be one |
| Reading.ReadMachines | pkg/manager/manager.go:249-390 | the whole reading phase: machines as the value-level scan says, or an error exactly when that fails, within the request bounds |
| NodeLabels.LabelledOneMore | pkg/manager/manager.go:651-672 | writing one device's limits keeps the limits of the devices before it and every foreign label |
| NodeLabels.LabelledIsUnique | pkg/manager/manager.go:640-673 | the labels a node ends with do not depend on the order of its devices |
| NodeLabels.LabellingSettles | pkg/manager/manager.go:640-673 | labelling again with the same machine changes nothing |
| NodeLabels.SelectorOfPool | pkg/manager/manager.go:598-620 | the selector matches labels if and only if `<prefix>/<device>` is "true" and `<prefix>/fabric` is the fabric's number |
| NodeLabels.SelectorAgrees | pkg/manager/manager.go:598-673 | a pool selects a labelled node if and only if it carried the device label, is in the fabric, and the label is not overwritten |
| NodeLabels.DeviceNamedFabric | pkg/config/config.go:60 | a device named `fabric` is valid, but its pools select no labelled node |
| NodeLabels.LabelledOneFurther | pkg/manager/manager.go:632-679 | a pass that moves on by one machine keeps the nodes before it labelled and all other nodes as they were |
| NodeLabels.PassStopsAtFirstError | pkg/manager/manager.go:632-679 | a failing lookup or update ends the pass at that machine; its node and those of all later machines keep their labels; without one the pass goes through |
| NodeLabels.PassOrderIndependent | pkg/manager/manager.go:631-682 | successful passes over the same machines in two orders leave the same labels |
| NodeLabels.PassSettles | pkg/manager/manager.go:631-682 | a second pass over the same machines changes no label |
| Shutdown.ShutdownDeletesWhatWasAnnounced | pkg/manager/manager.go:185-225 | at the end of any run a slice is deleted if and only if it is cluster-wide and its driver's controller was handed its pool at any time, which means that some scan read that device and fabric |
| Shutdown.ShutdownDeletesNothingElse | pkg/manager/manager.go:195-224 | whatever requests fail, a slice is deleted if and only if it is cluster-wide, of an announced pool of a driver that could be listed, and its own deletion did not fail |
| Shutdown.ShutdownIsClean | pkg/manager/manager.go:185-225 | the same for all slices at once, and the slices that stay are unchanged |
| Manager.CDIManager.constructor | pkg/manager/manager.go:144-162 | the manager starts with the empty run |
| Manager.CDIManager.StartResourceSliceController | pkg/manager/manager.go:227-247 | an error if and only if DRA is disabled or a controller cannot start; otherwise every driver has its own controller that holds its pools |
| Manager.CDIManager.GeneratePool | pkg/manager/manager.go:583-629 | one device per reported count with its name, attributes and binding conditions, under the selector of device and fabric |
| Manager.CDIManager.UpdatePool | pkg/manager/manager.go:566-581 | only this pool may change; true if and only if it did |
| Manager.CDIManager.UpdateDevicePool | pkg/manager/manager.go:544-553 | one more device of the scan is accounted for; the drivers to notify are those whose pools differ from the start of the scan |
| Manager.CDIManager.UpdateFabricPools | pkg/manager/manager.go:542-555 | the devices of a fabric, in any order, are all accounted for |
| Manager.CDIManager.UpdatePools | pkg/manager/manager.go:539-557 | the pools are those of a scan with one list per fabric |
| Manager.CDIManager.ManageCDIResourceSlices | pkg/manager/manager.go:538-564 | the same, and each controller is updated once with its driver's pools if and only if they changed |
| Manager.CDIManager.LabelsFor | pkg/manager/manager.go:638-673 | fabric label and all limits are written, everything else is kept |
| Manager.CDIManager.ManageCDINodeLabel | pkg/manager/manager.go:631-682 | the nodes of a prefix of the machines are labelled, all of them if and only if none fails, and no other node changes |
| Manager.CDIManager.StartCheckResourcePoolLoop | pkg/manager/manager.go:249-408 | the run invariant is kept; a reading error, exactly when the value-level scan fails, changes no pool, controller or label; otherwise pools and controllers are updated for the whole scan even if labelling fails |
| Manager.CDIManager.ApplyScan | pkg/manager/manager.go:399-407 | the writing phase records the whole scan whatever labelling does |
| Manager.CDIManager.CleanupResourceSlices | pkg/manager/manager.go:185-225 | every controller is stopped and exactly the doomed slices of the drivers that could be listed are gone |
| Manager.CDIManager.DeleteSlices | pkg/manager/manager.go:199-223 | of one driver's cluster-wide slices exactly those of its pools are gone, except where the deletion failed |
| Manager.InitDriverResources | pkg/manager/manager.go:684-699 | one entry without pools for exactly the drivers of the device infos |
| Manager.CopyAttributes | pkg/manager/manager.go:593-595 | all attributes, copied in any order |
| Manager.WriteLimits | pkg/manager/manager.go:652-671 | `<prefix>/<device>-size-max` and `-size-min` become the decimal maximum and minimum of the device, "0" for a missing one |
| Manager.LabelLimits | pkg/manager/manager.go:651-672 | all devices' limits are written, in any order, and nothing else |
| Manager.NotifyControllers | pkg/manager/manager.go:558-563 | exactly the drivers to notify have their controllers updated, once |
| Manager.StartControllers | pkg/manager/manager.go:231-246 | one controller per driver with a snapshot of its pools, or an error if any cannot start |
| Lifecycle.TablesAreConsistent | pkg/manager/manager.go:315-316 | a world is consistent when counts are a function of fabric and model and limits one of node group and model |
| Lifecycle.ScanIsUnique | pkg/manager/manager.go:249-408 | a scan of a consistent world ends in one way, however maps are walked |
| Lifecycle.RunsAgree | pkg/manager/manager.go:171-179 | two runs over the same consistent worlds have the same pools and generations and have told every controller the same |
| Lifecycle.LabelsAgree | pkg/manager/manager.go:631-682 | two successful scans of a consistent world leave the same labels on every node |
| Lifecycle.RunScans | pkg/manager/manager.go:171-179 | any number of scans keeps the run invariant, and each event of the trace is the outcome of its scan |
| Lifecycle.StartCDIManager | pkg/manager/manager.go:144-181 | from start to shutdown: the run is a run of the model, and exactly the slices of pools ever announced are deleted, except where listing or deleting failed |
| EndToEnd.RunIsBounded | pkg/manager/manager.go:474-476 | no count above 128 reaches any run |
| EndToEnd.EveryPoolIsWellFormed | pkg/manager/manager.go:583-629 | every pool of every run is one slice of at most 128 devices with distinct names that are DNS labels |
| EndToEnd.EveryDeviceDescribesItsInfo | pkg/manager/manager.go:585-596 | in every run each published device parses to its info and index and carries the info's attributes and the binding conditions |
| EndToEnd.ScanSucceedsIff | pkg/manager/manager.go:315-373 | in a consistent world reading succeeds if and only if every processed machine's count is there for every model and at most 128, and its node details too if it is in a group and CM is used |
| EndToEnd.ReadFailsIff | pkg/manager/manager.go:249-373 | exactly when a scan of a consistent world ends with a reading error, on what it reads |
| EndToEnd.ScanGivesReported | pkg/manager/manager.go:315-390 | each machine's device is made of the info, the count reported for that machine, and the limits in that machine's own node details |
| EndToEnd.FirstMachineCounts | pkg/manager/manager.go:318-335 | in any world the count used for a fabric is the one reported for its first machine |
| EndToEnd.PoolsHoldWhatIsReserved | pkg/manager/manager.go:465-479 | after a successful scan of a consistent world, in any run, a pool holds exactly as many devices as reported for any machine of its fabric, none if the number is negative |
| EndToEnd.PoolSelectsItsFabric | pkg/manager/manager.go:598-646 | in any run, however far a scan got with labelling, a pool selects a labelled node if and only if the node carried the device's label, its machine is in the fabric, and the configuration does not give the device a name the driver writes itself |
| EndToEnd.NodeShowsItsFabric | pkg/manager/manager.go:640-646 | a labelled node's `<prefix>/fabric` is the number of its machine's fabric |
| EndToEnd.NodeKeepsOtherLabels | pkg/manager/manager.go:640-673 | no label is added, changed or removed other than the fabric's and, with CM, the limits' of configured devices |
| EndToEnd.NodeShowsItsLimits | pkg/manager/manager.go:640-671 | a labelled node's `-size-max` and `-size-min` are the decimal limits in its own machine's node details, "0" for a missing one or without a group |
| Token.CachedTokenSource.GetToken | pkg/client/token.go:70-93 | a fresh stored token, else a newly issued one, else the stale one, else an error; the stored token changes only by an issue while not fresh |
| Token.ErrsIffNeverIssued | pkg/client/token.go:82-88 | nothing is stored if and only if every attempt so far failed |
| Token.StaleOnlyIfIssueFails | pkg/client/token.go:76-92 | a call is handed a token past its margin only if its own attempt to issue one failed |
| Token.IssuesSpaced | pkg/client/token.go:70-93 | consecutive issues are at least the token life minus the margin apart |
| Token.RateBound | pkg/client/token.go:70-93 | any n consecutive issues of any run span at least (n - 1) x (life - margin) |
| TokenRace.StoredStays | pkg/client/token.go:70-93 | in every interleaving a stored token is never lost and issued tokens only accumulate |
| TokenRace.AlwaysSafe | pkg/client/token.go:70-93 | in every interleaving what is stored or returned was issued, no caller gets nil without an error, and a cache hit was fresh for its caller |
| TokenRace.ReturnsExplained | pkg/client/token.go:70-93 | in every interleaving a result came from the cache without asking the issuer, from the call's own issue, or after its own issue failed |
| TokenRace.ErrorMeansNothingStored | pkg/client/token.go:81-86 | an error means that the call's own issue failed and that nothing was stored at any time up to its check |
| TokenRace.AloneIsSequential | pkg/client/token.go:70-93 | an uninterrupted call of the step system returns and stores what the sequential source does |
| TokenRace.OneByOneIsSequential | pkg/client/token.go:70-93 | any number of calls that do not overlap leave what the sequential source leaves |

## Left out

- HTTP, TLS, JSON and YAML, request building and OAuth: requests either have an answer in `World` or fail.
- Splitting and decoding the access token: the issuer is abstract and yields a token with an expiry, or an error. The expiry is an unbounded integer.
- client-go informers: each scan reads one snapshot of the nodes and hosts, and one of the nodes when labels are written. Errors of listing the node cache are not modelled, since the lister cannot fail.
- The ResourceSlice controller: it takes a snapshot when started or updated, as its interface says. What it publishes, and when, is not modelled; the slices on the API server at shutdown are arbitrary.
- Controllers already started when another one fails to start: the driver returns without stopping them; what they publish by then is not modelled.
- Waiting for caches: the variable `bmhAvailable` is shadowed, so the driver does not wait for the host cache; a synced snapshot is assumed, and that the host resource exists when hosts are used (otherwise the host informer is nil).
- Nodes without any label: the driver assigns into the label map of a node, which would panic if it were nil; label maps are assumed to exist.
- Sharing of values that are never written through: the attribute map of a device info and the integers behind limit pointers are values here.
- Conflicts on the API server: an update or deletion either happens as requested or is one of the errors of the scan; deletion by others during shutdown and the shutdown timeout count as such errors.
- Data races on the stored token: reads and writes are taken to be atomic, although only the first read is under the mutex.
- Times: token times are unbounded integers on one clock, without the saturation of Go durations.
- Validation beyond uniqueness of models and names, DNS labels and the length of names; device-info changes at run time; `CanNotCoexistWith`, which the driver never reads.
- Command line, logging, random request IDs, secret length checks.
- Removal of pools or labels of fabrics that vanish, min <= max, and monotone expiries under concurrent callers: the driver promises none of them.
- Runs.BumpsAreChanges: requires counts that are not negative; `BumpsCountChangesIff` gives the exact condition.
- Runs.GenerationBounds: the generation is an unbounded integer here; the bound by the number of scans is what keeps it within int64.
