# Device links of the Local Storage Operator

On every node the diskmaker keeps three things in step: links under
`/mnt/local-storage/<storage class>/`, PersistentVolumes that use those links, and
LocalVolumeDeviceLink (LVDL) records that say which `/dev/disk/by-id` path each link points at.
By-id names come and go, users set a policy on the record, any call can fail between two others,
and two controllers claim devices side by side. This project models that protocol, the protocol
that deletes an owner, and the pure kernels they rest on, and proves what holds over every input,
every run and every interleaving.

State is a value: the device tree (by-id listing, what a path resolves to), the links, the volumes,
the records and the record cache. Every filesystem or API call has an outcome flag, so one function
of state and flags covers success and every failure. Code that works by changing things is written
as methods and classes with loops, proved equal to those functions or to the promised property; the
theorems about runs are lemmas over the functions.

| file | content |
|---|---|
| `PreferenceScan`, `DeviceTree` | ranking of by-id links, bucketed lookup, the facts about one device |
| `PvName` | FNV-1a volume names |
| `Objects`, `ClaimRules` | shared API objects; the decision after asking for the creation lock |
| `LinkCache` | inverted index of records |
| `LinkProtocol`, `DeviceLinkHandler` | the link protocol as functions of state and call outcomes, and as a class that changes state call by call |
| `LinkProtocolRuns`, `LinkProtocolTheorems` | effects of each operation, theorems over runs |
| `LinkProtocolSync`, `LinkProtocolRecords`, `LinkProtocolLimits` | what syncs, new links and refreshes achieve, exact limits |
| `ClaimLock` | interleaved claims |
| `DeviceSelection`, `DeviceBudget` | device lists, age gate, orphan scan, MaxDeviceCount |
| `OwnerDeletion`, `SymlinkCleanup` | finalizers, release of volumes, removal of links |
| `LsblkRow`, `NodeSelectors` | lsblk row parser, node selector aggregation |

## Where the code falls short of a promise

Each of these is a lemma with a family of inputs, next to the exact condition under which the
promise holds.

- The claim scan of a relink runs before the stale `.tmp` link is removed and sees it, so a leftover
  `.tmp` link that resolves to the device blocks every later relink (`StaleTmpBlocksRelink`; a relink
  with succeeding calls swaps iff no such link and no other link of the class holds the device,
  `RelinkSwapsIff`); such a leftover breaks "one live link per device and class" iff the old link still resolves to the device
  (`LeftoverBreaksUniqueIff`, `LeftoverDuplicates`).
- The relink scan covers one storage class: the relinked link is alone under the whole root iff no
  other class holds the device (`RelinkRootUniqueIff`, and `OtherClassDoesNotCount` for an input).
- A volume name depends only on the concatenation of file, node and class, so two links can share a
  name and a record (`NamesCanCollide`, `CollidingLinks`). The schema keeps the path that record has, so
  a sync of the other link never finishes (`CollidingSyncNeverFinishes`); with succeeding calls a sync
  finishes iff the record's path is unset or its own (`SyncFinishesIff`), which distinct names guarantee
  (`DistinctNamesFit`).
- A sync converges to the remembered by-id path while that path still resolves, so to the
  best-ranked one iff nothing else is remembered (`SyncConverges`); a sync can move a link away from
  its best target (`RememberedPathWins`).
- The LocalVolumeSet claim goes on when it holds the lock and its scan failed. A step breaks the claim
  invariant iff it is such a scan while a link to the device exists (`StepKeepsInvIff`), and the attempt
  then adds a second live link (`HarmfulScanDuplicates`, `LostScanDuplicates`).
- A removal from the record cache keeps the index exact iff the removed object carries every target
  indexed for it (`RemoveAgreesIff`, `BareRemovalLeavesEntry`).
- The pass over rejected devices ignores MaxDeviceCount. It keeps the number of live links iff the
  device has no link to refresh or the relink does not get through to swap in, or leave behind, a link
  that did not count (`RejectedCountIff`); `RejectedPassIgnoresBudget` is an input that crosses a limit
  of one.
- A volume provisioned before its owner has the protection finalizer can outlive the owner
  (`EarlyVolumeOutlivesOwner`); that is the only step that breaks the protection
  (`StepKeepsProtectedIff`).
- The in-place `remove` skips the element after each hit and reads stale elements at the end; it is
  right iff no two occurrences are adjacent and a final occurrence is the only one
  (`RemovesAllIff`, `RemoveFails`).
- The lsblk parser drops a column iff its value contains an equals sign (`ColumnsComeBack`,
  `LabelIsLost`).
- The union of both kinds of node selector terms loses "every node" when one kind has an object
  without selector and the other kind has terms (`UnionWrongIff`, `NilSelectorIsLost`); one kind alone
  goes wrong iff no object lacks a selector and no selector has a term (`OneKindAcceptsIff`,
  `EmptySelectorSelectsAll`).
- The comment on the sorted buckets (pkg/internal/diskutil.go:278-285) speaks of four buckets and
  lists five; the code has one per pattern, eleven in all, and the model follows the code.

## Model

| member | source | states |
|---|---|---|
| `PreferenceScan.ScanIsLeast` | pkg/internal/diskutil.go:277-310 | the bucketed scan answers with the verdict of the least (rank, listing position) item that is not a plain no: a match iff it precedes every error, empty iff every item is a no |
| `PreferenceScan.BucketsPartition` | pkg/internal/diskutil.go:288-296 | every path lands in exactly one bucket, as often as it is listed |
| `PreferenceScan.FillBuckets` | pkg/internal/diskutil.go:286-296 | the first loop fills each bucket with the items of its rank, in listing order |
| `PreferenceScan.BucketedScan` | pkg/internal/diskutil.go:286-310 | both loops together answer as one scan over the buckets laid end to end |
| `DeviceTree.RankFromIsLeast` | pkg/internal/diskutil.go:36-50 | a name's rank is the least index of a pattern that is a prefix of it, in both directions |
| `DeviceTree.FirstPattern` | pkg/internal/diskutil.go:290-295 | the inner loop finds that rank |
| `DeviceTree.FindDeviceInSortedSymlink` | pkg/internal/diskutil.go:277-310 | the lookup over the by-id listing is the bucketed scan with the preferred patterns |
| `DeviceTree.FindDeviceIsLeastRanked` | pkg/internal/diskutil.go:277-325 | the path found resolves to the device and is the least-ranked, earliest one; empty iff no path resolves to it or fails; no failure when every path can be evaluated |
| `DeviceTree.PathByIDIs` | pkg/internal/diskutil.go:169-232 | a device's path is the remembered by-id path while it resolves to the device, else the best-ranked one, else the kernel's own |
| `DeviceTree.GetValidByIDSymlinks` | pkg/internal/diskutil.go:236-255 | the loop lists the device's by-id links in listing order, or fails |
| `DeviceTree.ListingFailsIff` | pkg/internal/diskutil.go:244-248 | it fails iff some by-id name cannot be evaluated |
| `DeviceTree.ProbeIsSound` | pkg/internal/diskutil.go:183-255 | whatever path a device reports, remembered or looked up, resolves to that device |
| `PvName.Write` | pkg/common/provisioner_utils.go:302-305 | feeding bytes one by one is the fold of FNV-1a steps |
| `PvName.MixInvertible` | pkg/common/provisioner_utils.go:302-305 | an FNV-1a step modulo 2^32 is injective in the state and in the byte |
| `PvName.FeedInjective` | pkg/common/provisioner_utils.go:302-305 | feeding the same bytes never merges two hash states |
| `PvName.NameEqualIffHashEqual` | pkg/common/provisioner_utils.go:301-308 | two names are equal iff the hashes of the concatenated parts are |
| `PvName.NameDependsOnConcatenation` | pkg/common/provisioner_utils.go:301-308 | the name depends only on file, node and class run together |
| `PvName.OneByteApart` | pkg/common/provisioner_utils.go:298-308 | for one node and class, file names of equal length that differ in one byte get different names |
| `PvName.NamesCanCollide` | pkg/common/provisioner_utils.go:301-308 | distinct links of one node can share a name |
| `PvName.KnownNames` | pkg/common/provisioner_utils.go:301-308 | the names for two published FNV-1a test vectors |
| `LinkCache.UpdateAgrees` | pkg/common/pv_link_cache.go:177-219 | an update keeps the index equal to the latest records listing each target, with no empty entry |
| `LinkCache.RemoveAgreesIff` | pkg/common/pv_link_cache.go:228-244 | a removal keeps that agreement iff the removed object lists every target indexed for its name |
| `LinkCache.BareRemovalLeavesEntry` | pkg/common/pv_link_cache.go:228-244 | an input: a record removed by an object without targets stays in the index |
| `LinkCache.HistoryAgrees` | pkg/common/pv_link_cache.go:177-244 | after any sequence of updates and such removals, of this node or others, the index is exact |
| `LinkCache.LocalVolumeDeviceLinkCache.AddOrUpdate` | pkg/common/pv_link_cache.go:177-226 | the nested-map update: other nodes' records are ignored, the name is purged from stale targets and filed under every current one |
| `LinkCache.LocalVolumeDeviceLinkCache.PurgeStale` | pkg/common/pv_link_cache.go:193-206 | visiting entries in any order drops the name exactly where its target is no longer listed, and drops emptied entries |
| `LinkCache.LocalVolumeDeviceLinkCache.Remove` | pkg/common/pv_link_cache.go:228-244 | the removal loop, and the index is still exact afterwards iff the removed object carried enough targets |
| `LinkCache.LocalVolumeDeviceLinkCache.FindManaged` | pkg/common/pv_link_cache.go:122-153 | the lookup, direct or merged over sibling links, returns what a linear scan of the latest local records returns |
| `DeviceLinkHandler.SetLvdlCondition` | pkg/common/device_link_handler.go:420-442 | the last condition of the kind is replaced, kept when it says the same, or one is added |
| `LinkProtocolSync.StatusDescribesDevice` | pkg/common/device_link_handler.go:190-227 | a status that was set lists exactly the device's by-id links as valid targets and, unless the caller chose one, prefers the best-ranked of them; the conditions stay |
| `DeviceLinkHandler.Handler.UpdateLinks` | pkg/common/device_link_handler.go:160-188 | when it succeeds on an up-to-date record, that record names the given target and path; no other record, no volume and no set path changes |
| `DeviceLinkHandler.Handler.Apply` | pkg/common/device_link_handler.go:135-158 | when it succeeds and the volume exists, a record exists and names the given target and path; the frame is the same |
| `DeviceLinkHandler.Handler.UpdateStatus` | pkg/common/device_link_handler.go:393-415 | after a failed relink the recorded current target is unchanged and, on success, the conditions report the reason |
| `DeviceLinkHandler.Handler.ScanForClaim` | pkg/common/device_link_handler.go:291-311 | the directory scan finds a claim iff another link of the class resolves to the device |
| `DeviceLinkHandler.Handler.SwapLink` | pkg/common/device_link_handler.go:314-328 | temporary link, rename and deferred removal, with every failure |
| `DeviceLinkHandler.Handler.RecreateSymlinkIfNeeded` | pkg/common/device_link_handler.go:271-360 | the whole relink, call by call, refines the relink function the theorems are about |
| `DeviceLinkHandler.Handler.SyncPVAndLVDL` | pkg/common/provisioner_utils.go:69-296 | a finished sync without a failed relink leaves record and link in agreement and its volume provisioned with the owner's labels, the reclaim policy and the finalizer; links change only by a relink under policy PreferredLinkTarget |
| `DeviceLinkHandler.Handler.ProvisionAndRecord` | pkg/common/provisioner_utils.go:136-296 | after the relink, if any: a finished run leaves the volume provisioned and, when nothing was relinked, a record that agrees with the link; no link changes |
| `LinkProtocol.LastOfKind` | pkg/common/device_link_handler.go:421-427 | the index found is the last condition of the kind, -1 iff there is none |
| `LinkProtocolRuns.RelinkEffect` | pkg/common/device_link_handler.go:271-360 | a relink either swaps, and then the new target resolves to an unclaimed device and every other link but the temporary one is unchanged, or leaves all links but the temporary one alone; it touches one record and no volume |
| `LinkProtocolRuns.SyncEffect` | pkg/common/provisioner_utils.go:69-296 | a sync touches one volume and one record; an existing volume changes only in labels, a new one is held by the finalizer; links change only by a relink under policy PreferredLinkTarget |
| `LinkProtocolRuns.SyncProvisions` | pkg/common/provisioner_utils.go:195-285 | a sync provisions its volume or leaves the volumes alone, and if it finishes it did: a new one takes labels from the owner, reclaim policy from the class and the symlink finalizer; an existing one keeps all but labels, kept labels keep their value, missing ones are added, deprecated ones go |
| `LinkProtocolRuns.RefreshEffect` | pkg/diskmaker/controllers/lvset/reconcile.go:372-393 | the refresh of a rejected device's record touches that record, no volume, and links only under the policy |
| `LinkProtocolRecords.RefreshTellsTruth` | pkg/diskmaker/controllers/lvset/reconcile.go:372-393 | whatever the calls return: a relink makes record and link agree or leaves both, otherwise the link stays and the record agrees with it, is unchanged, or is new and empty; agreement is lost only by a lost status write |
| `LinkProtocolRecords.RefreshRecordsContent` | pkg/diskmaker/controllers/lv/reconcile.go:720-733 | with succeeding calls and no relink the record names the link's content |
| `LinkProtocolRecords.RefreshRelinks` | pkg/diskmaker/controllers/lv/reconcile.go:720-726 | with succeeding calls and a relink the link is swapped and recorded unless another link of the class holds the device |
| `LinkProtocolRuns.RecoverNames` | pkg/common/current_block_device_info.go:67-141 | a path is handed back only for the one record of the device and is that record's path in the expected storage class: for a relink only under policy PreferredLinkTarget with a current target that no longer resolves, with a refusal only under another policy |
| `LinkProtocolRuns.CreateEffect` | pkg/diskmaker/controllers/lv/reconcile.go:82-177 | creating a link never overwrites one, and with a conclusive scan no live link to the device existed |
| `LinkProtocolRecords.LocalVolumeLinkIff` | pkg/diskmaker/controllers/lv/reconcile.go:82-177 | a LocalVolume link is made iff the device is locked and seen to be free and the path is free; the sync follows then, or when the link is already its own or live |
| `LinkProtocolRecords.LocalVolumeSetLinkIff` | pkg/diskmaker/controllers/lvset/reconcile.go:655-735 | a LocalVolumeSet link is made iff the device is locked and not seen to be taken and the path is free |
| `LinkProtocolRecords.BaseIsLastPart` | pkg/common/symlink_utils.go:25-47 | a link's file name is what follows the last slash of its source |
| `LinkProtocolRecords.UnrelinkedSyncFinishes` | pkg/common/provisioner_utils.go:119-296 | with succeeding calls a sync without a relink finishes under every policy, with volume and record in place |
| `LinkProtocolRuns.ProcessNewEffect` | pkg/diskmaker/controllers/lvset/reconcile.go:583-637 | a device without a link leads to at most one new link, then to an operation on one link and its record |
| `LinkProtocolRecords.FreshDeviceIsProvisioned` | pkg/diskmaker/controllers/lv/reconcile.go:576-617 | with succeeding calls a fresh device is linked to its source by either controller, its record names that content and its volume is provisioned |
| `LinkProtocolRecords.FindManagedIff` | pkg/common/pv_link_cache.go:122-153 | the records found are those listing the path or, when none does, those listing another by-id link of the device; the search fails iff it needs these and cannot list them |
| `LinkProtocolRecords.RecoverIff` | pkg/common/current_block_device_info.go:67-141 | exactly when a lost link is recovered, when the policy refuses it, and which path is handed back |
| `LinkProtocolRecords.LostLinkIsRelinked` | pkg/diskmaker/controllers/lv/reconcile.go:588-610 | with succeeding calls a device whose link lost its target is found by its record, relinked and recorded, by either controller |
| `LinkProtocolRecords.RefusalKeepsTarget` | pkg/diskmaker/controllers/lvset/reconcile.go:604-614 | without recovery no link and no volume changes, and a record that does keeps the current target it was read with |
| `LinkProtocolRecords.RefusalUpdatesRecord` | pkg/diskmaker/controllers/lvset/reconcile.go:604-614 | when the policy refuses, the record still learns the device's present by-id links, in the loop and in the rejected pass |
| `LinkProtocolRuns.ProcessRejectedEffect` | pkg/diskmaker/controllers/lvset/reconcile.go:351-401 | a rejected device leads to an operation on one link in use and its record, links changing only by policy |
| `LinkProtocolRecords.RejectedTellsTruth` | pkg/diskmaker/controllers/lvset/reconcile.go:351-401 | the truth of a refresh holds for the whole treatment; without a link to refresh no link changes and a record keeps the current target it was read with |
| `LinkProtocolRecords.RejectedRecordsContent` | pkg/diskmaker/controllers/lv/reconcile.go:680-742 | with succeeding calls record and link agree after the treatment, relinked or not |
| `LinkProtocolTheorems.StepEffect` | pkg/diskmaker/controllers/lv/reconcile.go:576-637 | the same for every controller step of either controller |
| `LinkProtocolTheorems.StepKeepsInv` | pkg/common/provisioner_utils.go:86-134 | every step, other nodes' writes included, keeps this node's records and volumes filed under the name of the link they describe, and the cache free of other nodes' records |
| `LinkProtocolTheorems.RunKeepsInv` | pkg/common/provisioner_utils.go:86-134 | so does every run |
| `LinkProtocolTheorems.RecordPathIsForever` | pkg/common/device_link_handler.go:190-227 | if links in use have distinct names, a record's PersistentVolumeSymlinkPath is the same in all states of a run that have it set, and is its volume's path |
| `LinkProtocolTheorems.RecordPathStaysSet` | api/v1/localvolumedevicelink_types.go:98-107 | until the record is deleted its path, once set, stays as it is in every run |
| `LinkProtocolTheorems.RunKeepsHeld` | pkg/common/provisioner_utils.go:239-240 | no run takes the symlink-deleter finalizer off a volume of the node or provisions one without it |
| `LinkProtocolTheorems.TargetReplacedOnlyByPolicy` | pkg/common/device_link_handler.go:444-474 | in every run a step that replaces a link's target is a controller step that read policy PreferredLinkTarget on that link's record; the new target resolves to the step's own device, which no other link of the class holds |
| `LinkProtocolTheorems.StepKeepsUnique` | pkg/common/device_link_handler.go:284-328 | with a fixed by-id map and conclusive scans, a step that does not lose both rename and clean-up keeps "no two links of a class resolve to one device" |
| `LinkProtocolTheorems.RunKeepsUnique` | pkg/common/device_link_handler.go:284-328 | so does every run of create, relink, recover and rejected-device steps |
| `LinkProtocolSync.SyncRecordsContent` | pkg/common/provisioner_utils.go:126-141 | a finished sync without a failed relink leaves the recorded current target equal to the link's content whatever was there before; a failed relink leaves both as they were |
| `LinkProtocolSync.RelinkSwapsIff` | pkg/common/device_link_handler.go:291-328 | with succeeding calls the swap happens iff no other link of the class holds the device, and then the link resolves to the device; it is recorded iff the record's path is unset or the link's own |
| `LinkProtocolSync.SyncConverges` | pkg/common/provisioner_utils.go:119-293 | under policy PreferredLinkTarget one sync brings link content and current target to the device's path, with the preferred target equal to it and the next sync doing no relink and no record write when nothing but the best path is remembered; the path is the best-ranked one iff that is so |
| `LinkProtocolSync.LostWriteIsRepaired` | pkg/common/provisioner_utils.go:287-293 | after a swap whose later calls had any outcome, the next sync with succeeding calls finishes and record and link agree on the target |
| `LinkProtocolRecords.RelinkReportsWhy` | pkg/common/device_link_handler.go:271-332 | a relink that did not swap reports the first guard it did not pass, when the record can be written |
| `LinkProtocolRecords.StaleUpdateIsRefused` | pkg/common/device_link_handler.go:160-188 | a record read before somebody else wrote it is not written |
| `LinkProtocolRecords.ReleasedVolumeWaits` | pkg/common/provisioner_utils.go:161-169 | while a volume is Released no sync finishes or touches a volume |
| `LinkProtocolRecords.SyncWritesThrough` | pkg/common/pv_link_cache.go:155-159 | whatever a sync writes to a record of the node is in the cache at once |
| `LinkProtocolLimits.StaleTmpBlocksRelink` | pkg/common/device_link_handler.go:297-316 | a leftover temporary link that resolves to the device blocks every relink |
| `LinkProtocolLimits.LeftoverBreaksUniqueIff` | pkg/common/device_link_handler.go:314-328 | when rename and clean-up both fail, links of the class stay apart iff the old link no longer resolves to the device |
| `LinkProtocolLimits.LeftoverDuplicates` | pkg/common/device_link_handler.go:314-328 | an input: two live links in one class |
| `LinkProtocolLimits.RelinkRootUniqueIff` | pkg/common/device_link_handler.go:291-311 | after a swap the link is the only live one under the root iff no other class held the device |
| `LinkProtocolLimits.OtherClassDoesNotCount` | pkg/common/device_link_handler.go:291-311 | an input: the swap goes ahead and two classes hold the device |
| `LinkProtocolLimits.RememberedPathWins` | pkg/internal/diskutil.go:183-191 | an input: a sync moves a link from the best-ranked path to the remembered one |
| `LinkProtocolLimits.CollidingSyncNeverFinishes` | api/v1/localvolumedevicelink_types.go:98-107 | a sync of a link whose name's record holds another path never finishes, whatever the calls return, and changes no record |
| `LinkProtocolLimits.SyncFinishesIff` | pkg/common/provisioner_utils.go:119-293 | with succeeding calls and nothing else in the way, a sync finishes iff the record's path is unset or the link's own |
| `LinkProtocolLimits.DistinctNamesFit` | pkg/common/provisioner_utils.go:86-134 | with distinct names that is so in every state a run reaches |
| `LinkProtocolLimits.CollidingLinks` | pkg/common/provisioner_utils.go:301-308 | such links exist |
| `ClaimLock.StepKeepsInvIff` | pkg/internal/diskutil.go:462-480 | a call of an attempt keeps "lock holders hold the lock, and an attempt about to link has seen no link and none appeared since" iff it is not a lost scan of a locked LocalVolumeSet attempt whose device has a link |
| `ClaimLock.ScanKeepsInvIff` | pkg/diskmaker/controllers/lv/reconcile.go:107-124 | the same for the scan alone: no LocalVolume scan and no unlocked scan does harm |
| `ClaimLock.ScanDecides` | pkg/diskmaker/controllers/lvset/reconcile.go:694-711 | after its scan an attempt links iff it holds the lock and the scan found no link or, for a LocalVolumeSet, was lost; it has nothing to do iff the scan found its own link |
| `ClaimLock.ClaimSucceeds` | pkg/diskmaker/controllers/lv/reconcile.go:94-161 | from a quiet state without a link to the device either controller can claim it and gives the lock back |
| `ClaimLock.CreateKeepsOneLinkIff` | pkg/diskmaker/controllers/lvset/reconcile.go:711-715 | a created link is the only live one of its device iff there was none |
| `ClaimLock.HarmfulScanDuplicates` | pkg/diskmaker/controllers/lvset/reconcile.go:696-715 | after a lost scan that does harm the attempt may add a second live link |
| `ClaimLock.AtMostOneClaim` | pkg/internal/diskutil.go:538-573 | in every interleaving of any number of attempts of both kinds, in which a lost scan of a locked LocalVolumeSet attempt missed no link, at most one live link per device exists at every point |
| `ClaimLock.LostScanDuplicates` | pkg/diskmaker/controllers/lvset/reconcile.go:696-715 | from every quiet state with a link to the device there is such a run with two live links |
| `DeviceSelection.VisitChecks` | pkg/diskmaker/controllers/lvset/reconcile.go:421-454 | the early-exit loop over a map of checks says yes iff all say yes, in every visiting order |
| `DeviceSelection.AgesAreFirstMatches` | pkg/diskmaker/controllers/lvset/device_age.go:51-61 | after any history of reconciles the map holds exactly the spec-matched names, each with the time of its first match |
| `DeviceSelection.ValidOnlyAfterMinAge` | pkg/diskmaker/controllers/lvset/reconcile.go:479-518 | a device is valid iff it matches, passes every filter and its name was first matched more than the minimum age before the check |
| `DeviceSelection.LabelsExactly` | pkg/diskmaker/controllers/lvset/reconcile.go:474-519 | the exact condition for each of unmatched, rejected, delayed and valid |
| `DeviceSelection.ValidNeedsEarlierReconcile` | pkg/diskmaker/controllers/lvset/reconcile.go:479-518 | unless one reconcile alone outlasts the minimum age, a device valid in it was first matched in an earlier one, more than the minimum age before its check |
| `DeviceSelection.NeverDelayedAgain` | pkg/diskmaker/controllers/lvset/device_age.go:40-61 | with a clock that never goes back, a name once valid is never delayed again |
| `DeviceSelection.VisitDevice` | pkg/diskmaker/controllers/lvset/reconcile.go:474-519 | the loop body labels a device by spec match, filters and age, and stores its age iff it matches |
| `DeviceSelection.GetValidDevices` | pkg/diskmaker/controllers/lvset/reconcile.go:465-524 | the three lists are the devices labelled valid, delayed and rejected, each in input order, for every visiting order of the maps |
| `DeviceSelection.PicksPartition` | pkg/diskmaker/controllers/lvset/reconcile.go:456-464 | every occurrence of a device is counted in exactly one of valid, delayed, rejected and unmatched |
| `DeviceSelection.ListsHoldMatched` | pkg/diskmaker/controllers/lvset/reconcile.go:463-464 | the three lists together hold exactly the spec-matched devices |
| `DeviceSelection.MatchesOneOf` | pkg/internal/diskutil.go:520-529 | the inner loop says yes iff the link resolves to one of the devices, and fails iff there is a device and the link cannot be evaluated |
| `DeviceSelection.GetOrphanedSymlinks` | pkg/internal/diskutil.go:511-536 | the scan returns, in listing order and as often as listed, the links that resolve to none of the devices; the first link that cannot be evaluated ends it with the orphans found before it |
| `DeviceSelection.OrphanIffNoMatchedDevice` | pkg/diskmaker/controllers/lvset/reconcile.go:313-314 | over the concatenated lists a link is an orphan iff it resolves to no spec-matched device |
| `DeviceBudget.GetAlreadySymlinked` | pkg/diskmaker/controllers/lvset/reconcile.go:529-552 | the loops count exactly the links of the class that resolve to a listed device, list the others, and fail iff a link cannot be evaluated |
| `DeviceBudget.ProcessValidDevices` | pkg/diskmaker/controllers/lvset/reconcile.go:272-300 | the device loop, with its continue, break and error exits, refines the loop function |
| `DeviceBudget.LoopStopsIff` | pkg/diskmaker/controllers/lvset/reconcile.go:583-592 | the loop breaks off exactly at a device without a link when the limit is reached, and gives up exactly when it has to count and cannot; nothing changes then |
| `DeviceBudget.BelowLimitAddsOne` | pkg/diskmaker/controllers/lvset/reconcile.go:583-637 | below the limit a fresh device is linked and counts, when the calls succeed |
| `DeviceBudget.ExistingIsSynced` | pkg/diskmaker/controllers/lvset/reconcile.go:281-287 | a device with a link is synced: with succeeding calls record and link agree |
| `DeviceBudget.LoopKeepsBudget` | pkg/diskmaker/controllers/lvset/reconcile.go:559-637 | the number of live links of the class never exceeds the larger of its starting value and MaxDeviceCount, over the existing-link, recovery and new-link branches |
| `DeviceBudget.ExistingKeepsCount` | pkg/diskmaker/controllers/lvset/reconcile.go:281-287 | syncing an existing link never raises the count |
| `DeviceBudget.NewAddsOne` | pkg/diskmaker/controllers/lvset/reconcile.go:593-637 | a recovered or new link raises it by at most one |
| `DeviceBudget.RelinkLinks` | pkg/common/device_link_handler.go:271-328 | exactly when a relink swaps, when it leaves its temporary link behind, and that otherwise it at most removes a stale one |
| `DeviceBudget.RefreshCountIff` | pkg/diskmaker/controllers/lvset/reconcile.go:372-393 | refreshing a rejected device's record raises the number of live links iff a relink gets through and adds one |
| `DeviceBudget.RejectedCountIff` | pkg/diskmaker/controllers/lvset/reconcile.go:351-401 | the same for the whole treatment of a rejected device, whatever MaxDeviceCount is |
| `DeviceBudget.FoundLinkKeepsCount` | pkg/common/symlink_utils.go:198-208 | a live link the directory scan found never raises the number |
| `DeviceBudget.RejectedPassIgnoresBudget` | pkg/diskmaker/controllers/lvset/reconcile.go:351-401 | an input: one live link before, two after |
| `OwnerDeletion.AddOnce` | pkg/controllers/localvolume/localvolume_controller.go:287-294 | afterwards the finalizer is present, and still at most once |
| `OwnerDeletion.Remove` | pkg/controllers/localvolume/localvolume_controller.go:375-382 | the in-place loop over the shared backing array panics iff the last element is an occurrence and not the only one, and otherwise keeps everything but the hits it sees |
| `OwnerDeletion.RemovesAllIff` | pkg/controllers/localvolume/localvolume_controller.go:375-382 | that removes exactly the occurrences iff no two are adjacent and a final one is the only one; always so for at most one occurrence |
| `OwnerDeletion.RemoveFails` | pkg/controllers/localvolume/localvolume_controller.go:375-382 | inputs: one of two adjacent occurrences survives, and a repeated final occurrence panics |
| `OwnerDeletion.ApiServer.ReleaseAvailablePVs` | pkg/common/finalizer_util.go:45-100 | the loop with its early return: what it changes, what it must have changed when no update failed, and blocked iff a listed volume has Retain |
| `OwnerDeletion.PassClaimsOnly` | pkg/common/finalizer_util.go:45-100 | a pass changes only listed volumes that are Available, unclaimed and without Retain, and only their claim |
| `OwnerDeletion.FinishedPassClaimsAll` | pkg/common/finalizer_util.go:45-100 | a pass without update error has claimed every one of them, and is blocked iff a listed volume has Retain |
| `OwnerDeletion.FailureIsOfReleasable` | pkg/common/finalizer_util.go:77-91 | an update error is always that of such a volume |
| `OwnerDeletion.SecondPassIsIdle` | pkg/common/finalizer_util.go:45-100 | after such a pass a second one changes nothing and cannot fail |
| `OwnerDeletion.ReconcileProtects` | pkg/controllers/localvolumeset/finalizer.go:55-64 | a reconcile of an owner that stays puts the protection finalizer in place and keeps everything else |
| `OwnerDeletion.ReconcileReleases` | pkg/controllers/localvolume/localvolume_controller.go:205-213 | a reconcile of a deleted owner claims every releasable volume with its labels when no update fails |
| `OwnerDeletion.ReconcileLetsGo` | pkg/controllers/localvolume/localvolume_controller.go:215-244 | with succeeding calls a deleted owner without volumes loses the protection and nothing else, and is gone iff it had no other finalizer |
| `OwnerDeletion.ReconcileKeepsOwner` | pkg/controllers/localvolumeset/finalizer.go:13-67 | whatever the calls return, no reconcile touches another finalizer, the labels or the request |
| `OwnerDeletion.ProtectionGoesOnlyWhenUnowned` | pkg/controllers/localvolumeset/finalizer.go:13-67 | the protection finalizer goes only in a reconcile, after deletion was requested, when no volume carries the owner's labels |
| `OwnerDeletion.StepKeepsProtectedIff` | pkg/controllers/localvolume/localvolume_controller.go:205-244 | a step keeps "an owned volume has a protected owner" iff it does not provision a volume for an unprotected owner |
| `OwnerDeletion.NoVolumeOutlivesOwner` | pkg/controllers/localvolumeset/finalizer.go:29-53 | in every such run no volume, Bound, Retain or other, outlives its owner |
| `OwnerDeletion.EarlyVolumeOutlivesOwner` | pkg/controllers/localvolumeset/finalizer.go:55-64 | a volume provisioned before the finalizer can |
| `SymlinkCleanup.FinalizerOutlivesLink` | pkg/common/symlink_utils.go:155-196 | while the owner is being deleted, at every point of a pass no volume has lost its finalizer before its link is gone, and a directory is gone only when empty |
| `SymlinkCleanup.PassTouchesOnlyWaiting` | pkg/common/symlink_utils.go:165-193 | at every point of every pass only listed volumes with the owner's labels that are deleted, Released or Available and hold the finalizer have changed, by losing it; only their links are gone, and only while the owner is being deleted |
| `SymlinkCleanup.PassKeepsLinks` | pkg/common/symlink_utils.go:184-189 | while the owner stays, a pass with succeeding calls takes the finalizers off and leaves every link and directory alone |
| `SymlinkCleanup.TraceEndsAtResult` | pkg/common/symlink_utils.go:155-196 | the states looked at end in the result of the pass |
| `SymlinkCleanup.ErrorLeavesRest` | pkg/common/symlink_utils.go:185-193 | on an error the failing volume keeps its finalizer and it and all later volumes are untouched |
| `SymlinkCleanup.RerunFinishes` | pkg/common/symlink_utils.go:83-135 | a pass with succeeding calls finishes: every such listed volume has lost its finalizer and nothing else, its link is gone, and so is its directory unless another file is in it; every other volume is as before |
| `SymlinkCleanup.InterruptedStaysCleanable` | pkg/common/symlink_utils.go:155-196 | whatever an interrupted pass leaves behind, such a rerun applies to it |
| `SymlinkCleanup.Cleaner.DeleteLink` | pkg/common/symlink_utils.go:83-135 | on success the link is gone; in any case no volume changes, no other file appears, and a directory goes only when empty |
| `SymlinkCleanup.Cleaner.CleanupSymlinks` | pkg/common/symlink_utils.go:155-196 | the loop refines the pass the theorems are about, and touches only the volumes and links it may |
| `LsblkRow.ParseLSBLKRow` | pkg/internal/diskutil.go:378-407 | the parser loop is the fold over the pieces between quote-blank separators |
| `LsblkRow.SplitPrinted` | pkg/internal/diskutil.go:380-381 | a printed row splits into exactly its pairs |
| `LsblkRow.ParsePrinted` | pkg/internal/diskutil.go:378-407 | parsing a printed row gives back what the row says, later pairs winning, minus values with an equals sign |
| `LsblkRow.ColumnsComeBack` | pkg/internal/diskutil.go:378-407 | parsing a printed row with distinct keys: it is used iff a NAME column has a non-blank value without equals sign; then a column comes back, key lower-cased and value trimmed, iff its value has no equals sign, and nothing is added but the filesystem known for the device |
| `LsblkRow.TrimSpaceTrims` | pkg/internal/diskutil.go:389 | trimming takes off white space at both ends, all of it, and nothing else |
| `LsblkRow.LowersLetters` | pkg/internal/diskutil.go:387 | keys change in capital letters only |
| `LsblkRow.EmptyRow` | pkg/internal/diskutil.go:392-396 | a row without columns is not used |
| `LsblkRow.LabelIsLost` | pkg/internal/diskutil.go:382-386 | an input: a partition label with an equals sign does not come back |
| `NodeSelectors.StableSortSorts` | pkg/controllers/nodedaemon/aggregate.go:56-62 | the sort orders, permutes, and keeps the order of equal keys |
| `NodeSelectors.Extract` | pkg/controllers/nodedaemon/aggregate.go:49-127 | the extraction sorts the slice in place and collects tolerations, owner references and terms in that order, with no terms once an object has no selector |
| `NodeSelectors.CollectsInOrder` | pkg/controllers/nodedaemon/aggregate.go:64-86 | the collected lists hold, object after object and nothing between, each object's tolerations, owner reference and terms |
| `NodeSelectors.LessIsLexicographic` | pkg/controllers/nodedaemon/aggregate.go:57-61 | the sort order is the lexicographic one |
| `NodeSelectors.ListingOrderDoesNotMatter` | pkg/controllers/nodedaemon/aggregate.go:49-127 | every permutation of objects with distinct sort keys is put in the same order, so gives the same output |
| `NodeSelectors.OneKindAcceptsIff` | pkg/controllers/nodedaemon/aggregate.go:49-127 | the terms of one kind accept a node as its objects do, exactly when some object has no selector or some selector has a term |
| `NodeSelectors.EmptySelectorSelectsAll` | pkg/controllers/nodedaemon/aggregate.go:88-127 | an input: a lone selector without terms selects no node but is aggregated to every node |
| `NodeSelectors.UnionWrongIff` | pkg/controllers/nodedaemon/aggregate.go:18-47 | the union of both kinds answers wrongly for a node in exactly three cases, none of which arises when no selector is missing and some term exists |
| `NodeSelectors.NilSelectorIsLost` | pkg/controllers/nodedaemon/aggregate.go:37-44 | an object for every node is lost beside the other kind's terms |

## Left out

- Kubernetes client, informer and manager wiring, events, logging, metrics, alerts, TLS, templates, configuration maps, leader election: plumbing without a deep property; the API server is a map with outcome flags.
- Execution of lsblk, blkid, find, wipefs and udevadm, `/proc/1/mountinfo` and the udev debounce: foreign processes; their answers are parameters.
- The static-provisioner deleter: an environment step that changes or deletes volumes.
- Schema rules of the record other than the immutable path (list and string lengths): part of the outcome flag of a write.
- Informer updates that deliver an older version of a record: the cache step delivers the current one; older versions are covered for the index alone, by `LinkCache.HistoryAgrees`.
- Text of conditions beyond the reason and the preferred path; annotations, capacity, volume mode, mount point and storage class lookups of a volume: folded into outcome flags.
- Evaluation of a path is a function of the device tree, so a path that fails to evaluate fails in the whole step; the by-id listing is taken to be sorted, which makes the sorted set of valid links the filtered listing.
- Regular expressions, quantities and the individual filters and matchers: uninterpreted checks that say yes, no or error; the default the size matcher writes into the spec is not modelled.
- LocalVolume device-path resolution (pkg/diskmaker/controllers/lv/reconcile.go:486-551): the source path of a new link is a parameter, and the check for a device without by-id path is an outcome flag.
- Source paths of links are taken not to end in a slash, so a link's file name is what follows the last slash.
- Lower-casing is ASCII only, and white space is the ASCII and Latin-1 set.
- RoundDownCapacityPretty, StorageClassOwnerMap, event de-duplication, SetCondition of the operator and uniqueDevices: they would only add easy members.
- LinkProtocolTheorems.RunKeepsUnique: assumes that no relink loses both its rename and the clean-up of its temporary link, because `LeftoverBreaksUniqueIff` shows what happens otherwise.
- LinkProtocolTheorems.StepKeepsInv: assumes that objects of other nodes have names no link in use of this node has, as the hash is meant to ensure.
- DeviceBudget.LoopKeepsBudget: assumes fewer than 2^31 links and a limit below 2^31, because the count is compared as a 32-bit integer; and that no relink loses both its rename and its clean-up.
- SymlinkCleanup.RerunFinishes: assumes that a volume due for clean-up has a path and that what is there is a symlink, because the code refuses to remove anything else.
- LsblkRow.ParsePrinted: covers rows whose keys have no quote or equals sign and whose values have no quote and no leading blank, because the separator is a quote followed by a blank.
- NodeSelectors.SortInPlace: the sorting algorithm itself is the library's; the array is filled from the specification.
