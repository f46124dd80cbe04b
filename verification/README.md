# Dynamic vHCUs of the HCU device plugin

A Dafny model of how the plugin's HAMi mode serves and reclaims virtual HCUs, with proofs.

A scheduler writes the devices of a pod into one annotation, one segment per container. Each
Allocate call reads that text, finds the next container that still waits, blanks its segment,
writes the text back, and creates a vHCU together with a mark file. A refresh goes over the mark
files, reclaims what finished containers left, and deletes running pods that lack a mark they
need. The node reports what each card has left, rounded down; an allocation rounds up.

## How it is modelled

- `GoStrings`, `GoNumbers`: the `strings` and `strconv` operations used, written out.
- `Kube`: the parts of pods and containers that matter.
- `PodDevices`, `Alignment`, `Drain`: the annotation, from text to layout and back, which segment
  belongs to which container, and the run of calls that empties it.
- `MarkFile`: mark names and the decisions taken on them.
- `Lifecycle`: the state of a node (live vHCUs, mark files, pods with their annotations, node
  lock) and its steps. Everything the outside decides is a parameter of the step: every external
  call that may fail, the index the driver hands out, which pod is pending. A failed file write
  may leave the file behind or not.
- `DevicePlugin`: the class whose methods carry these steps out, with the source's loops,
  retries and rollback; each method is proved to take exactly the step that `Lifecycle` defines.
- `Outcomes`: what these steps do, said in terms of pods, names, numbers and faults only, so that
  the definitions of `Lifecycle` and `MarkFile` are not the only witness of themselves.
- `Safety`, `Leaks`, `ForceDelete`, `Binding`, `Commitment`: what holds over all runs.
- `Scenarios`: concrete nodes and runs on which properties fail that do not hold of every run.
- `Capacity`, `FakeIds`, `ResourcePrefix`, `Shares`, `NodeDevices`: rounding, the table of
  advertised ids, the product prefix, pre-split vHCUs, and the node annotation.

Runs are sequences of steps: refresh, allocate, pod added, changed or gone, lock taken. Steps are
atomic. Taken for granted about the outside (`Lifecycle.Possible`): the driver hands out an index
that is not live; pod UIDs have no underscore and are never reused; a pod keeps its spec, ends
once and for all, and a finished classic init container stays finished. `VDevice.owner` and
`World.seen` are history that the plugin does not store; no decision reads them.

## What turned out false of the code, and exactly when it holds

- A mark must not outlive its vHCU. It does when its file cannot be removed, or a failed write
  leaves it behind, while destroying the vHCU succeeds; one step keeps the invariant if and only if
  it does not come to that (`Safety.ReclaimKeepsSound`, `Safety.AllocateKeepsSound`). After such a
  step the index can be handed out again, and if the mark is still there the next refresh destroys
  the vHCU of another container (`Safety.DanglingMarkHitsOthers`, `Scenarios.SafetyCanFail`). Over
  runs no more is claimed: a later refresh may still remove the mark in time.
- A vHCU leaks if and only if its mark is gone while every destroy call fails
  (`Leaks.ReclaimLeaks`, `Leaks.AllocateLeaks`).
- A successful request leaves a mark if and only if it is one device below the memory of its card
  or contains a whole card (`ForceDelete.SuccessMarksTrackedOnly`). Otherwise, if the container asks
  for vHCU memory and no kept mark passes for one of its own, the pod is deleted as soon as it runs
  (`ForceDelete.UntrackedIsDeleted`, `Scenarios.ServedPodCanBeDeleted`).
- Failure atomicity is about vHCUs and their marks, and holds if and only if the cleanup of a vHCU
  that was made works and takes no older mark of the same name with it (`Leaks.FailureIsAtomic`).
  Even then a mark stays behind if and only if a whole card whose mark is new comes before the first
  rejected device (`Leaks.WholeCardMarkSurvives`, `Scenarios.FailedCallCanMark`).
- The prefix test of markfile.go:133-140 takes the mark of container `a_b` for one of `a`, and the
  mark of `a` on card 0 for one of `a_0`; the comment above it promises the mark of the container
  itself. `MarkFile.PrefixTest` says exactly when it is right.
- The update handler misses a pod that ends without having been seen Running, unless an init
  container finishes in the same update, and every pod without a vHCU-memory limit, although its
  whole-card marks are written all the same (`MarkFile.ReclaimEdge`,
  `ForceDelete.MarkWithoutLimitStays`, `Scenarios.MarkCanStay`). Those marks wait for the next refresh from elsewhere.
- A refresh right after another can find work: pods whose deletion failed before, and the marks and
  vHCUs of the pods that the first one deleted. It changes nothing if and only if it touches none
  of these (`Leaks.RefreshSettles`).
- The decoder of the node annotation rejects whatever the encoder writes for names without
  delimiters, and no list at all comes back (`NodeDevices.DecoderRejectsEncoder`,
  `NodeDevices.NeverRoundTrips`).
- A report is good for one placement. Several placements against one report fit if and only if
  their percentages and what rounding up costs them fit together
  (`Capacity.PlacementsAgainstOneReport`, `Capacity.StaleReportOvercommits`), so
  `Commitment.NeverOvercommitted` asks that no vHCU stayed on the card since the report.
- When a query of the driver fails, the report offers the whole card, or slots that are taken. A
  vHCU placed by it over-commits the card if and only if it does not fit what remains; there are
  such requests if and only if the report shows a free slot and either all slots are taken, or what
  remains is unknown while compute units, or more than one MiB, are in use
  (`Commitment.PlacementFitsExactly`, `Commitment.FallbackOvercommits`).

## Model

| member | source | states |
|---|---|---|
| PodDevices.EncodeContainerDevices | internal/pkg/util/util.go:170-178 | the text of a segment: four comma-separated fields a device, each device ended by a colon |
| PodDevices.EncodePodSingleDevice | internal/pkg/util/util.go:192-200 | the text of a layout: every segment, empty ones too, ended by a semicolon |
| PodDevices.SegmentTextSpelledOut | internal/pkg/util/util.go:170-178 | the text of a segment, record by record: UUID, type, memory, cores, a colon |
| PodDevices.LayoutTextSpelledOut | internal/pkg/util/util.go:192-200 | the text of a layout, segment by segment, each with its semicolon |
| PodDevices.DecodeContainerDevices | internal/pkg/util/util.go:212-241 | which devices a segment text holds, and that one short record fails it |
| PodDevices.DecodePodDevices | internal/pkg/util/util.go:243-269 | the layout behind every annotation on the checklist, or an error if one of them is bad |
| PodDevices.ReadSegmentExactly | internal/pkg/util/util.go:212-241 | an error exactly over a record with fewer than four fields, else each field in its place |
| PodDevices.ReadSegmentsExactly | internal/pkg/util/util.go:258-264 | every segment is read, and one bad segment fails the layout |
| PodDevices.ReadPodDevicesExactly | internal/pkg/util/util.go:243-269 | exactly when decoding fails, and what is decoded under which key |
| PodDevices.SplitAnnotationExactly | internal/pkg/util/util.go:556-568 | segments are what stands between semicolons; only the empty text behind the last one is dropped |
| PodDevices.RecordRoundTrip | internal/pkg/util/util.go:173-236 | one printed device reads back as itself for all 32-bit amounts |
| GoNumbers.ParseClamps | internal/pkg/util/util.go:231-234 | a number too large for its field is read as the nearest that fits |
| PodDevices.LayoutRoundTrip | internal/pkg/util/util.go:170-269 | decoding an encoded layout returns it with every segment in its place, up to the two fields never written |
| PodDevices.LayoutTextInjective | internal/pkg/util/util.go:192-200 | layouts that print alike agree on all that is stored |
| Alignment.ContainerRequestsHygonResource | internal/pkg/util/util.go:271-278 | true exactly when some limit under hygon.com is positive |
| Alignment.ExpandPodDeviceSegments | internal/pkg/util/util.go:288-323 | positional layouts as they are, dense ones placed by rank among requesting containers, else an error |
| Alignment.AlignmentReconstructs | internal/pkg/util/util.go:280-323 | any empty segments left out of an aligned layout are put back exactly |
| Alignment.AlignmentLaws | internal/pkg/util/util.go:288-323 | one segment per container, same devices in order, idempotent, and exactly when it fails |
| Drain.GetPodContainerByIndex | internal/pkg/util/util.go:588-603 | flat index to init or app container, an error exactly outside the range |
| Kube.ContainersInOrder | internal/pkg/util/util.go:570-586 | init containers first, then app containers |
| Drain.PodLayoutExactly | internal/pkg/util/util.go:325-339 | the layout is that of the annotation, aligned with the pod; each error |
| Drain.GetNextDeviceRequest | internal/pkg/util/util.go:325-353 | the first container whose segment holds devices, with those devices, or the error |
| Drain.EraseFirstDeviceSegment | internal/pkg/util/util.go:363-382 | blanks exactly the first segment that holds devices and moves nothing |
| Drain.EraseNextDeviceType | internal/pkg/util/util.go:384-404 | the annotation to write back: the aligned layout with that segment blanked |
| Drain.DrainProtocol | internal/pkg/util/util.go:325-404 | on the real strings, call k gets the k-th requesting container, init containers before app containers, with exactly its devices; at the end one semicolon per container and nothing found |
| Drain.BlankStep | internal/pkg/util/util.go:363-382 | k erasures blank exactly the first k device segments |
| Drain.PrefixShowsDevices | internal/pkg/util/util.go:520-525 | the substring test is true exactly while some segment holds devices |
| MarkFile.MarkNameRoundTrip | internal/pkg/plugin/markfile.go:26-45 | parsing a printed mark name returns what was printed, for any container name and index, -1 included |
| MarkFile.MarkNameInjective | internal/pkg/plugin/register.go:397-398 | different marks have different names |
| MarkFile.ParsesExactly | internal/pkg/plugin/markfile.go:26-45 | exactly which names are marks, and what is read from them |
| MarkFile.PrefixTest | internal/pkg/plugin/markfile.go:133-140 | on printed names, exactly what the raw prefix test decides, whatever the containers are called |
| MarkFile.PrefixTestPlain | internal/pkg/plugin/markfile.go:133-140 | without underscores in container names prefix test and parser agree |
| MarkFile.PrefixTestConfusesNames | internal/pkg/plugin/markfile.go:133-140 | with underscores they do not, in two ways, by example |
| MarkFile.FindContainerStatus | internal/pkg/plugin/markfile.go:47-54 | the first status of that name |
| MarkFile.InitContainerByName | internal/pkg/plugin/markfile.go:56-63 | the first init container of that name |
| MarkFile.NeededUntilFinished | internal/pkg/plugin/markfile.go:79-101 | needed exactly until the pod is gone or has ended, or the container is an init container that does not restart and whose first status is terminated |
| MarkFile.ContainerRequestsVirtualHCU | internal/pkg/plugin/markfile.go:103-112 | true exactly when some positive limit names hygon.com and the memory resource |
| MarkFile.RequestsVirtualHCU | internal/pkg/util/hcu.go:301-312 | the same over all containers of a pod |
| MarkFile.PodMissingRequiredMark | internal/pkg/plugin/markfile.go:118-146 | true exactly when a running or failed pod has a container that needs a vHCU and no name starts like its mark |
| MarkFile.MissingExactly | internal/pkg/plugin/markfile.go:118-146 | the same without any other decision: a running pod, a limit, a container not done, and no such name |
| MarkFile.InitContainerTerminatedSince | internal/pkg/plugin/markfile.go:148-165 | true exactly when some new status is terminated, its container does not restart, and the first old status of that name is missing or not terminated |
| MarkFile.NoNewsNoReclaim | internal/pkg/plugin/markfile.go:148-165 | unchanged statuses with distinct names are no reason to reclaim |
| MarkFile.UpdateReclaims | internal/pkg/plugin/register.go:343-352 | when an update makes the handler reclaim, from both versions |
| MarkFile.OnlyRunningPodsLackMarks | internal/pkg/plugin/markfile.go:118-146 | the test never holds of a failed pod, although the code admits that phase |
| MarkFile.NotNeededIsStable | internal/pkg/plugin/markfile.go:79-101 | over any number of updates, once not needed is never needed |
| MarkFile.ReclaimEdge | internal/pkg/plugin/register.go:343-352 | when a mark stops being needed, exactly when the handler reclaims, for every pod |
| MarkFile.NoMissedReclaim | internal/pkg/plugin/register.go:332-361 | along any update sequence in which pods end only from Running, the change is caught at some pair exactly if the pod asks for a vHCU |
| MarkFile.MissedWhenNeverRunning | internal/pkg/plugin/register.go:347-352 | one missed family by example: failing while pending |
| Lifecycle.UsableCount | internal/pkg/plugin/plugin.go:801-822 | the position of the first device that is rejected |
| DevicePlugin.Plugin.DestroyMarkedVDevice | internal/pkg/plugin/register.go:203-229 | mark first; destroyed exactly if one of five tries succeeds, whatever stopping did; the number of calls made |
| DevicePlugin.Plugin.RefreshContainerDevices | internal/pkg/plugin/register.go:231-287 | takes the refresh step of the life cycle; fails exactly when a listing fails |
| DevicePlugin.Plugin.ReclaimMarks | internal/pkg/plugin/register.go:255-273 | the loop over the files: what is kept, removed and destroyed |
| DevicePlugin.Plugin.DeleteUnmarkedPods | internal/pkg/plugin/register.go:275-284 | the loop over the pods: deletes exactly those lacking a kept mark |
| DevicePlugin.Plugin.CreateMarkFile | internal/pkg/plugin/register.go:397-417 | the file that appears, also when the write fails half-way |
| DevicePlugin.Plugin.PodAllocationFinished | internal/pkg/util/util.go:530-554 | phase and lock, each independent of the other call's failure |
| DevicePlugin.Plugin.PodAllocationTrySuccess | internal/pkg/util/util.go:514-528 | success exactly when the pod could be read and no UUID prefix is left |
| DevicePlugin.Plugin.EraseNextDeviceTypeFromAnnotation | internal/pkg/util/util.go:384-404 | patches only the device annotation, and nothing on error |
| DevicePlugin.Plugin.AllocateHAMiHCUs | internal/pkg/plugin/plugin.go:748-881 | takes the allocate step of the life cycle in every branch, error included |
| DevicePlugin.Plugin.GrantDevicesTo | internal/pkg/plugin/plugin.go:797-840 | the loop over the devices and the choice of making a vHCU |
| DevicePlugin.Plugin.MakeVDeviceFor | internal/pkg/plugin/plugin.go:839-880 | creating the vHCU and rolling back on each fault |
| DevicePlugin.Plugin.ActualCores | internal/pkg/plugin/plugin.go:843-849 | percentage to compute units, rounded up, at least one if any |
| Outcomes.MarksAfterRefresh | internal/pkg/plugin/register.go:255-273 | a file goes exactly if it is a mark whose pod is gone or container is done, and it can be removed |
| Outcomes.VDevicesAfterRefresh | internal/pkg/plugin/register.go:203-229 | a vHCU goes exactly if such a mark names it and one of five tries destroys it |
| Outcomes.PodsAfterRefresh | internal/pkg/plugin/register.go:275-284 | a pod goes exactly if it runs, lacks a kept mark for a container that is not done, and can be deleted |
| Outcomes.FinishedInitIsReclaimed | internal/pkg/plugin/markfile.go:79-101 | while its pod runs, a finished init container loses mark and vHCU |
| Outcomes.UnfinishedKeepsItsMark | internal/pkg/plugin/markfile.go:79-101 | app containers, restartable and unfinished init containers keep theirs until the pod ends |
| Outcomes.EarlyErrors | internal/pkg/plugin/plugin.go:756-794 | the error of a call before it looks at devices, guard by guard |
| Outcomes.RejectedDevice | internal/pkg/plugin/plugin.go:801-822 | the first device not accepted decides, and with which error |
| Outcomes.AcceptedDevices | internal/pkg/plugin/plugin.go:839-875 | with all devices accepted, exactly when and how the call fails |
| Outcomes.SuccessAdds | internal/pkg/plugin/plugin.go:826-857 | the vHCU and the marks of a successful call: a single device below its card, and each whole card |
| Outcomes.CallConcludes | internal/pkg/util/util.go:514-554 | annotation, phase and lock after every call, each API call on its own |
| Safety.ReclaimTakesOnlyUnneeded | internal/pkg/plugin/register.go:255-273 | a refresh destroys only vHCUs whose own container no longer needs them and keeps every needed mark |
| Safety.ReclaimKeepsSound | internal/pkg/plugin/register.go:203-287 | marks keep naming distinct live vHCUs of their own container if and only if every destroyed vHCU lost its mark |
| Safety.AllocateChanges | internal/pkg/plugin/plugin.go:748-881 | all that a call does to vHCUs, marks and pods and whether it succeeds, from what is known before it, in any state |
| Safety.AllocateEffect | internal/pkg/plugin/plugin.go:748-881 | in a sound state the marks it writes are new and its own, and no other mark goes |
| Safety.AllocateKeepsSound | internal/pkg/plugin/plugin.go:852-875 | the invariant survives a call if and only if the call does not create a vHCU, destroy it again and leave its mark |
| Safety.LifeCycleSafety | internal/pkg/plugin/plugin.go:748-881 | over every run, the invariant, and no step takes a vHCU its container needs |
| Safety.DanglingMarkHitsOthers | internal/pkg/plugin/register.go:203-228 | three steps: destroy without removing the mark, hand the index out again, and a refresh takes a needed vHCU |
| Scenarios.SafetyCanFail | internal/pkg/plugin/register.go:203-228 | on a concrete node these steps lead from a sound state without leaks to the loss of a needed vHCU |
| Safety.NotNeededForever | internal/pkg/plugin/markfile.go:79-101 | over every run, whatever fails, a container that stopped needing its vHCU never needs it again |
| Safety.StaleDecisionIsRight | internal/pkg/plugin/register.go:240-272 | a reclaim decision on an older pod list is still right later, whatever fails in between |
| Leaks.MarksMatchVDevices | internal/pkg/plugin/plugin.go:852-857 | vHCU marks and plugin-made vHCUs are in bijection |
| Leaks.ReclaimLeaks | internal/pkg/plugin/register.go:203-229 | reclaiming leaks if and only if a removed mark's destroy calls all fail |
| Leaks.AllocateLeaks | internal/pkg/plugin/plugin.go:857-875 | a call leaks if and only if it creates a vHCU that stays without its mark |
| Leaks.NoLeakOverRuns | internal/pkg/plugin/register.go:203-273 | over every run whose destroy and cleanup calls succeed, the bijection in every state |
| Leaks.RefreshSettles | internal/pkg/plugin/register.go:231-287 | after a working refresh, exactly when the next one changes nothing |
| Leaks.MarksReclaimed | internal/pkg/plugin/register.go:231-287 | in any state, with all pods gone or ended, one refresh that works leaves no mark, and a second changes nothing |
| Leaks.EverythingReclaimed | internal/pkg/plugin/register.go:231-287 | and no plugin-made vHCU, if none had leaked |
| Leaks.FailureIsAtomic | internal/pkg/plugin/plugin.go:780-875 | in any state, a failed call leaves vHCUs and their marks as its opening refresh did if and only if its cleanup works and takes no older mark; then exactly its whole-card marks are added; the pod is failed and the lock free |
| Leaks.FailureBeforePod | internal/pkg/plugin/plugin.go:756-774 | without a pod to serve the error is known and no annotation, phase or lock changes; only pods that the opening refresh deletes go |
| Leaks.WholeCardMarkSurvives | internal/pkg/plugin/plugin.go:801-829 | in any state, exactly when a failed call that cleans up leaves a mark behind |
| Scenarios.FailedCallCanMark | internal/pkg/plugin/plugin.go:801-829 | on a concrete node, a whole card followed by a device of another product leaves one |
| ForceDelete.SuccessMarksTrackedOnly | internal/pkg/plugin/plugin.go:826-857 | exactly which successful requests leave a mark and which make a vHCU |
| ForceDelete.MarkWithoutLimitStays | internal/pkg/plugin/register.go:343-352 | the other missed family: a pod without a vHCU-memory limit is marked for a whole card, and its end does not make the handler reclaim |
| Scenarios.MarkCanStay | internal/pkg/plugin/register.go:343-352 | such a run of three steps on a concrete node |
| ForceDelete.OnlyRunningPodsDeleted | internal/pkg/plugin/register.go:275-284 | only running pods that ask for a vHCU can be deleted |
| ForceDelete.CoveredPodStays | internal/pkg/plugin/register.go:275-284 | a pod whose containers all have their marks is not deleted |
| ForceDelete.NoFalseForceDelete | internal/pkg/plugin/markfile.go:118-146 | over every run in which no failed call takes an older mark of the container, a pod served only with tracked requests is never deleted by a refresh |
| ForceDelete.CleanRunKeepsOldMarks | internal/pkg/plugin/plugin.go:867-875 | over a run without dangling marks no failed call takes an older mark |
| ForceDelete.UntrackedIsDeleted | internal/pkg/plugin/plugin.go:826-839 | an untracked vHCU-memory request succeeds, and unless a kept mark passes for its own the running pod is deleted by the next refresh |
| Scenarios.ServedPodCanBeDeleted | internal/pkg/plugin/plugin.go:826-839 | on a concrete node, all the memory with half of the cores is served and then deleted |
| Binding.AcceptedPrefixIsValid | internal/pkg/util/resource_prefix.go:34-43 | every accepted prefix shows in every UUID and gives the annotation a key of its own |
| Binding.ServeStep | internal/pkg/util/util.go:514-541 | while segments remain phase and lock stay; with the last the pod succeeds and the lock is free |
| Binding.PhaseOverRun | internal/pkg/util/util.go:514-541 | in every state of a run: allocating and locked until the call that hands out the last segment, which releases the lock and makes the pod a success for good |
| Binding.ScheduledPodStands | internal/pkg/util/util.go:280-323 | a freshly scheduled pod, dense or positional, starts such a run |
| Capacity.SimpleHealthCheck | internal/pkg/util/hcu.go:201-208 | the first verdict listed for the card decides; a card not listed is not healthy |
| Capacity.CompleteIsReported | internal/pkg/plugin/register.go:100-117 | which cards are reported |
| Capacity.InfoSpelledOut | internal/pkg/plugin/register.go:119-141 | the report of a card, field by field |
| Capacity.ApiDevicesRemain | internal/pkg/plugin/register.go:90-143 | reports exactly the complete devices, in order, each with its remaining capacity or the fallback, its names and its health |
| Capacity.GrantIsTight | internal/pkg/plugin/plugin.go:843-848 | a grant is between one unit and the card, covers its share, exceeds it by less than one unit |
| Capacity.ReportAndGrantCompose | internal/pkg/plugin/register.go:127-128 | a request fits the rounded-down report exactly if, rounded up, it takes no more than remains |
| Capacity.OvercommitBound | internal/pkg/plugin/plugin.go:843-848 | k shares of at most 100 percent together exceed the card by at most k - 1 units |
| Capacity.OvercommitBoundAttained | internal/pkg/plugin/plugin.go:843-848 | the bound is reached for every k up to 100 |
| Capacity.PlacementsAgainstOneReport | internal/pkg/plugin/register.go:124-128 | exactly when several placements against one report fit; covered by it together, k shares take at most k - 1 units too many |
| Capacity.StaleReportOvercommits | internal/pkg/plugin/register.go:124-128 | for every k there are k shares that one report covers and that take k - 1 units too many |
| Commitment.PlacementFits | internal/pkg/plugin/plugin.go:839-852 | one allocation that fits a report still valid from above keeps the card within units, memory and slots |
| Commitment.PlacementFitsExactly | internal/pkg/plugin/plugin.go:839-852 | against the state it meets, a placement keeps the card within limits if and only if it fits the report |
| Commitment.ReportIsSent | internal/pkg/plugin/register.go:119-139 | an entry of the report carries exactly these numbers, with the fallback and with whatever count the driver gave |
| Commitment.FallbackOvercommits | internal/pkg/plugin/register.go:119-125 | exactly when a report made after a failed query admits a vHCU that over-commits the card in units, memory or slots |
| Commitment.TableKnowsCard | internal/pkg/plugin/plugin.go:318-327 | the table of fake ids knows each card under its own device index |
| Commitment.NeverOvercommitted | internal/pkg/plugin/register.go:119-135 | over every run in which each vHCU that stays was placed by the latest report, whatever is destroyed or fails, the card is never over-committed |
| FakeIds.ListHAMiHCUs | internal/pkg/plugin/plugin.go:318-327 | exactly split ids for each card, each leading to its own card, no others |
| FakeIds.FakeIdInjective | internal/pkg/plugin/plugin.go:324 | different UUIDs or indices have different ids |
| FakeIds.SpellKey | internal/pkg/plugin/plugin.go:324 | an id spelled out: prefix, serial, "-fake-" and the index |
| FakeIds.LookupIsExact | internal/pkg/plugin/plugin.go:811-816 | the lookup finds exactly the card with that UUID |
| ResourcePrefix.PrefixConfig.ApplyResourcePrefix | internal/pkg/util/resource_prefix.go:46-63 | every annotation key is rebuilt from the prefix |
| ResourcePrefix.PrefixConfig.InitResourcePrefix | internal/pkg/util/resource_prefix.go:31-44 | which prefixes are accepted, that all names follow it, and that a refused one changes nothing |
| ResourcePrefix.CasesOfLetters | internal/pkg/util/resource_prefix.go:34 | letters keep their place in the alphabet, everything else stays |
| ResourcePrefix.TrimSpaceExactly | internal/pkg/util/resource_prefix.go:34 | only blanks go, at both ends, and all of them |
| ResourcePrefix.NamesOfStarPrefix | internal/pkg/util/resource_prefix.go:65-93 | the names for the prefix "*cu" |
| ResourcePrefix.PrefixShowsInUUIDs | internal/pkg/util/resource_prefix.go:70-93 | the upper-case prefix is never empty and shows in every UUID |
| ResourcePrefix.UUIDRoundTrip | internal/pkg/util/resource_prefix.go:90-98 | a formatted UUID scans back to its serial |
| ResourcePrefix.ScanSerialExactly | internal/pkg/plugin/plugin.go:803-809 | exactly which UUIDs scan, and to which serial |
| Shares.GetAllVirtualHCUs | internal/pkg/util/hcu.go:231-251 | a group for exactly the sizes that occur, each in the driver's order, under a key that spells out the size |
| Shares.RoundGiB | internal/pkg/util/hcu.go:241 | the nearest number of GiB, halves up |
| Shares.GroupsPartition | internal/pkg/util/hcu.go:238-249 | every vHCU is in the group of its size as often as listed and in no other |
| Shares.ResourceNameRecoversKey | internal/pkg/plugin/plugin.go:267 | the resource name of a group gives its key back |
| Shares.ListAndWatchVirtualHCUs | internal/pkg/plugin/plugin.go:264-276 | advertises exactly the members of the group its resource names, each id leading to its own vHCU |
| Shares.AdvertisedOnce | cmd/main.go:124-133 | of the plugins started exactly one advertises each vHCU |
| NodeDevices.EncodeNodeDevices | internal/pkg/util/util.go:159-168 | nine fields a device, each device ended by a colon |
| NodeDevices.NineFieldsSpelledOut | internal/pkg/util/util.go:159-168 | the nine fields in their order |
| NodeDevices.DecodeNodeDevices | internal/pkg/util/util.go:109-140 | demands seven fields a device and at least one colon |
| NodeDevices.ReadNodeExactly | internal/pkg/util/util.go:109-140 | exactly when decoding fails, and each field in its place |
| NodeDevices.DecoderRejectsEncoder | internal/pkg/util/util.go:109-168 | the decoder rejects every encoder output of names without delimiters, the empty list included |
| NodeDevices.NeverRoundTrips | internal/pkg/util/util.go:109-168 | no list at all comes back from its own encoding |
| NodeDevices.SevenFieldsWouldRoundTrip | internal/pkg/util/util.go:109-140 | the first seven fields alone would come back, all but the index |

## Left out

- Overlapping refreshes and allocations: the code takes no lock around them, so steps are atomic here and nothing is claimed about overlaps.
- Init containers that run again after a failure: a finished classic init container stays finished.
- Float rounding: the exact integer floor and ceiling stand for the `float64` expressions.
- The driver, device nodes, mounts and vdev configuration files: only the success or failure of each call; the files themselves and the response to the kubelet are not part of this model.
- The Kubernetes client, patches and informers: only their effect on annotations, phase, pods and lock; the pending-pod lookup of the HAMi library is a parameter.
- The node-lock library: a flag that is set or not, without the holder.
- The second lookup of the first device in Allocate: the table of cards does not change during a call, so its error branch cannot be reached.
- Go maps iterated in random order: a set worked off in any order, or a sequence in some order.
- Nil and empty slices are the same empty sequence; text is a sequence of characters, with ASCII rules for case and white space, and a prefix with blanks or `%` is not scanned as `Sscanf` would.
- The normalised device name, the health list and the answers of the driver in the capacity report: parameters; equality of health texts up to case is that of ASCII.
- MIG, whole-card and cores allocation, device watching, reconciling, topology, heartbeats and command-line handling: no hard property.
- Capacity.ReportAndGrantCompose: for one vHCU and one report; reports and placements over time are Commitment.NeverOvercommitted.
- Shares.AdvertisedOnce: for distinct indices and a resource prefix without the text "share".
- Nothing was executed.
