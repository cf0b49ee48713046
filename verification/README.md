# A model of the VMware Cloud Director CSI driver

The driver gives Kubernetes volumes that live in VMware Cloud Director (VCD) as named disks. It is
a thin layer of calls around three pieces of shared state, and this project models those three and
proves what the driver keeps true of them:

- **the RDE**, a document on the VCD server that lists the cluster's persistent volumes. Any number
  of parties read it and put it back under an etag (If-Match, section 13.1.1 of RFC 9110; 412,
  section 15.5.13 of RFC 9110), and the driver moves its list from an old format to a new one;
- **the disks and their attachments**, which the controller's RPCs change one backend call at a
  time, some of them under a lock and some not (the Controller Service of the Container Storage
  Interface 1.4.0);
- **the node's mount table**, which Stage, Publish, Unpublish and Unstage change.

Every protocol is a state machine whose steps are single backend requests. `Next` is total: a step
that is not enabled changes nothing, so that every sequence of steps is a run, and a statement about
`Run(w, steps)` for all `steps` covers every interleaving, every failure and, for the controller,
every restart. Beside each machine stands the driver's own code as methods with its loops and its
in-place updates; each method is proved to end in the state that the machine reaches under the same
environment (`Play`), and to return what the machine's call or thread is done with.

| file | contents |
|---|---|
| `VolumeSizes.dfy` | bytes to MiB: binary64 in CreateVolume, integer division in ControllerExpandVolume |
| `Documents.dfy`, `RdeUpdates.dfy` | the RDE as JSON, its typed form, and the four in-memory updates |
| `Migration.dfy` | what Upgrade, Convert and a whole startup preserve |
| `RdeOutcomes.dfy` | how each RDE call ends, told from the entity it reads and the answers it gets |
| `RdeProtocol.dfy`, `RdeGuarantees.dfy` | the optimistic-concurrency machine, its invariant, and what follows over whole runs |
| `RdeClients.dfy` | the retry loops, and Setup, as the driver runs them |
| `DiskLookup.dfy`, `LookupOutcomes.dfy` | finding a disk by name or id, in one OVDC or over the zone map, and what is found |
| `Volumes.dfy` | the volume lifecycle as a machine of interleaved RPC handlers |
| `VolumeSafety.dfy`, `VolumeIndex.dfy`, `VolumeNames.dfy` | its invariants and guarantees: attachments, the list, the names |
| `VolumeExpansion.dfy`, `VolumeOverlap.dfy` | expansions: what each keeps, and exactly what others can do to one while it runs |
| `VolumeRuns.dfy` | how each handler ends that runs by itself |
| `VolumeOutcomes.dfy` | what the success of a creation or a deletion says about the disks |
| `IndexRefinement.dfy`, `IndexComposition.dfy` | why a whole RDE call is one step of that machine; both machines run together, step by step |
| `VolumeController.dfy`, `VolumeScripts.dfy`, `ControllerRuns.dfy` | the controller's RPCs as the driver runs them, under scripts of their environment, and what they come to undisturbed |
| `NodeMounts.dfy`, `NodeGuarantees.dfy`, `NodeOutcomes.dfy`, `NodeService.dfy` | the node's RPCs: on values, what they guarantee, how each ends, and as a class |
| `Wrappers.dfy`, `Text.dfy`, `Capabilities.dfy` | shared helpers |

`dafny verify dfyconfig.toml` verifies everything.

## Where the code does something other than it says

The model follows the code. Each of these has a lemma that says exactly when it matters.

- Expand announces a ceil but divides integers first (pkg/csi/controller.go:532-533):
  `ExpandMeetsRequestIff`, `ExpandAfterCreate`.
- CreateVolume's capacity can fall short of the request beyond 2^53 bytes, and overflow at the very
  end of int64: `CreateShortfallIff`, `FirstShortfall`, `CreateOverflowIff`.
- `addPvToRDE` looks for the name but stores the id (pkg/vcdcsiclient/disks.go:842 and 850):
  `AddTwiceDuplicatesIff`, `AddThenRemoveIff`.
- `removePvFromRDE` on an entity type it does not know blames the etag after all its retries. That
  is the only way to be told so without `limit` commits by others, and a call that nobody disturbs
  is told so exactly then: `ExhaustionIsHonest`, `UndisturbedExhaustionIff`, `UnsupportedKindMisreported`.
- An upgrade whose PUT brings no response at all is reported as done. In every other case nil means
  that the upgrade was committed, exactly unless there was nothing to upgrade; without a response it
  means neither: `UpgradeNilMeans`, `SilentUpgrade`.
- A conversion has an arm for a 412, but the client reports a 412 as an error, so that the first
  commit by others between its GET and its PUT makes it fail: `ConversionGivesUp`.
- A lookup over the zone map answers "not found" when an OVDC could not be read or has the name
  twice, which is enough to create a second disk of a name: `NotFoundIff`, `LookMissesIff`,
  `OneUnreadableZoneDuplicates`. That an OVDC is not in the zone map has the same effect: a cluster
  that is not zone-enabled, but has a zone map without its own OVDC, creates where it never looks
  (pkg/csi/controller.go:175-177, pkg/vcdcsiclient/disks.go:351). `CreateVolume` says when the disk
  asked for is in an OVDC that lookups cover.
- DeleteVolume can report success and leave a disk of the name. It does exactly if, when it took the
  lock, there were two disks of the name, or the only one lay in an OVDC that its lookup could not
  read, whatever the other handlers do meanwhile: `SuccessfulDeleteLeavesIff`. The runs that end so
  are `DeleteOfMissedSucceeds` and `DeleteTakesOneOfTwo`.
- An upgrade looks its volumes up by id, but finds only disks that are *named* like the id; it keeps
  the ids exactly if such disks have their name for their id: `FindsByNameOnly`, `HonestIff`.
- The node's RPCs take no lock. Two overlapping Stage calls of one device, each of which would
  succeed alone, stage it twice: `StaleStageIff`, `OverlappingStages`.
- A hit by id in the single-OVDC lookup panics, because a disk is cast to a list: `CrashesOnIdHit`.
- ONLINE expansion sends the settings of all disks of a VM, as they were read earlier, so that two
  expansions on one VM can undo each other while both report success. A PUT shrinks a disk exactly
  if another expansion has meanwhile taken it past the size to be set: `PutShrinksIff`,
  `OnlinePutShrinksIff`, `ConcurrentExpansionsShrink`.
- ONLINE expansion is for disks with exactly one VM, and that is checked when the mode is chosen,
  but a shareable disk can be attached to another VM before the PUT, which then succeeds all the
  same. There is one VM exactly if no such attach is in force: `OnlineFindsOneVmIff`,
  `OnlineWithTwoVms`.
- NodePublishVolume looks for the staging directory among the devices of the mount table, where it
  never is; a repeated Publish stacks another mount, and Unpublish then fails until the stack is
  gone: `PublishMountsAgainIff`, `PublishStacks`, `UnpublishTakesAsMany`.
- Mount flags that name both modes can override the mode that Stage appends, because duplicates are
  dropped; Stage is then not repeatable: `RequestedModeIff`, `StageTwice`.
- The search for a disk never returns an error; Stage is saved from an empty device by the three-part
  path check, Publish of a block volume is not: `StageMountsTheDiskFound`, `PublishMountsNothingIff`.

## Assumptions about the world outside

- The RDE server applies a PUT only to the version its etag names, and answers 412 only when that
  version is gone; a status below 300 means that the PUT was applied, and the generated client
  reports any other status as an error (`RdeProtocol.Allowed`). Etags are fresh per commit.
- Disk ids are fresh. VCD fails calls on a disk that is gone, the update of a disk that is attached,
  and disk settings that name a disk the VM does not have; otherwise it applies the sizes it is
  sent. The delete and attach calls are not assumed to check anything.
- A backend call that was answered or given up has no later effect, not even after a restart. The
  driver releases its lock when the wait for a task fails, and relies on this: `LateAttachBreaksSafety`
  is the run in which it does not hold, `LateAttachIsSafeIff` says when that does no harm.
- One controller process runs at a time, and all attachments and deletions go through it.
- The list of volumes of a native cluster is left alone by everybody but the handlers, who else may
  write the entity (`Considerate` in `EntityListsTheDisks`; `ConversionIsConsiderate`).
- A lookup over the zone map is one step of the volume machine, though it sends several requests.
  For a handler that holds the lock this makes no difference but for sizes: `OthersKeepDisks`.
- The RPCs of one node do not overlap for one device (`AtMostOneStaging`; the exception is above).
- A mount that succeeds adds an entry at the end of the table, an unmount removes the last entry of
  its path, a bind mount shows the device of its source, a path with a mount on it cannot be
  removed, and of several rw and ro options the last one counts.

## Model

| member | source | states |
|---|---|---|
| VolumeSizes.ConversionIsCorrectlyRounded | pkg/csi/controller.go:143 | the conversion from int64 is roundTiesToEven: no finite binary64 value is nearer, and on a tie the significand is even |
| VolumeSizes.DivisionIsExact | pkg/csi/controller.go:143 | dividing by 1024 * 1024 loses nothing: the quotient is the exact one, and a binary64 value |
| VolumeSizes.CreateSizeFormula | pkg/csi/controller.go:143 | the size is the exact ceil up to 2^53, and beyond it the ceil but for remainders of at most half a unit |
| VolumeSizes.CreateCapacityBounds | pkg/csi/controller.go:218 | for 1 <= b <= 2^53 the capacity c satisfies b <= c < b + 2^20 |
| VolumeSizes.CreateShortfallIff | pkg/csi/controller.go:218 | beyond that, exactly when the capacity is too small, and by at most 512 bytes |
| VolumeSizes.FirstShortfall | pkg/csi/controller.go:218 | 2^53 + 1 is answered with 2^53 |
| VolumeSizes.CreateOverflowIff | pkg/csi/controller.go:218 | exactly when the product overflows int64, and that it then wraps to -2^63 |
| VolumeSizes.NonPositiveSizeIff | pkg/vcdcsiclient/disks.go:63-65 | a size below 1 MiB is asked for exactly if the request is negative |
| VolumeSizes.DefaultSize | pkg/csi/controller.go:139-143 | without a required size the volume has 1 GiB |
| VolumeSizes.ExpandMeetsRequestIff | pkg/csi/controller.go:532-533 | the expanded capacity reaches the required bytes exactly if they are whole MiBs or not positive |
| VolumeSizes.ExpandAfterCreate | pkg/csi/controller.go:532-545 | the size asked for by an expansion to the bytes created for is the size the disk has if those are whole MiBs, else one less |
| Text.SplitJoins | pkg/csi/node.go:644 | Split is the inverse of joining, with no separator left in a part |
| Text.SplitIsUnique | pkg/csi/node.go:644 | and no other parts without the separator join to the string |
| Documents.StatusRoundTrip | pkg/util/defined_entity_util.go:201-225 | map-to-status after status-to-map is the identity |
| Documents.ResourceRoundTrip | vendor/github.com/vmware/cloud-provider-for-cloud-director/pkg/vcdsdk/defined_entity.go:43-48 | a resource survives encoding and decoding |
| Documents.NoticeRoundTrip | vendor/github.com/vmware/cloud-provider-for-cloud-director/pkg/vcdsdk/defined_entity.go:55-69 | so does an error or an event |
| Documents.StatusInJson | pkg/util/defined_entity_util.go:213-225 | under which keys the parts of a status stand in the JSON, and that empty ones are left out |
| Documents.ResourceInJson | vendor/github.com/vmware/cloud-provider-for-cloud-director/pkg/vcdsdk/defined_entity.go:43-48 | likewise for a resource |
| Documents.NoticeInJson | vendor/github.com/vmware/cloud-provider-for-cloud-director/pkg/vcdsdk/defined_entity.go:55-69 | likewise for an error or an event, whose time is always there |
| Documents.DecodeStatusIff | pkg/util/defined_entity_util.go:201-211 | exactly which sections can be decoded: every field missing, null or of its type |
| RdeUpdates.StringArrayRoundTrip | pkg/util/defined_entity_util.go:57-87 | the list that is stored is the list that is read back |
| RdeUpdates.RemoveFirstSplits | pkg/vcdcsiclient/disks.go:892-902 | removal deletes exactly the first occurrence and keeps the order of the rest |
| RdeUpdates.RemoveAbsent | pkg/vcdcsiclient/disks.go:892-899 | removing what is not there changes nothing |
| RdeUpdates.AddThenRemoveIff | pkg/vcdcsiclient/disks.go:840-902 | exactly when remove after add restores the list |
| RdeUpdates.AddTwiceDuplicatesIff | pkg/vcdcsiclient/disks.go:840-850 | exactly when adding twice adds once: the name is the id, or was in the list |
| RdeUpdates.NativeUpdateEffect | pkg/util/defined_entity_util.go:73-104 | an update sent changes the list as meant and nothing else in the entity |
| RdeUpdates.UpgradeSendsIff | pkg/vcdcsiclient/disks.go:939-1025 | unless a lookup crashes it, an upgrade stops with nil exactly where the status, the list or the CSI section is missing or malformed |
| Migration.AddToResourceSetEffect | pkg/util/defined_entity_util.go:162-199 | entries are appended to the set read; every other field of the section stays |
| Migration.UpgradeEffect | pkg/vcdcsiclient/disks.go:939-1025 | one entry per legacy id, in legacy order, after those already there; the legacy list goes, nothing else moves |
| Migration.UpgradedEntries | pkg/vcdcsiclient/disks.go:978-1010 | each new entry is a named disk, with the id and name of the disk found, or else the legacy id without a name |
| Migration.UpgradeKeepsPvs | pkg/vcdcsiclient/disks.go:978-1025 | with honest lookups the multiset of persistent volumes is kept |
| Migration.UpgradeKeepsPvsIff | pkg/vcdcsiclient/disks.go:983-1004 | it is kept exactly if the ids looked up are, as a multiset, the legacy ids |
| Migration.FindsByNameOnly | pkg/vcdcsiclient/disks.go:983 | a lookup of the upgrade finds no disk but one whose name is the legacy id, over the zone map and in one OVDC alike |
| Migration.HonestIff | pkg/vcdcsiclient/disks.go:983-998 | so the lookups give back the legacy ids exactly if every disk found has its name for its id |
| Migration.UpgradeKeepsTheRest | pkg/vcdcsiclient/disks.go:939-1025 | outside the CSI section and the legacy list the entity is unchanged |
| Migration.ConvertSectionEffect | pkg/vcdcsiclient/disks.go:1113-1128 | a conversion changes the version, keeps name and sets, and drops exactly unknown and empty fields |
| Migration.ConvertSectionTwice | pkg/vcdcsiclient/disks.go:1113-1128 | converting twice is converting once |
| Migration.ConvertEffect | pkg/vcdcsiclient/disks.go:1089-1129 | a conversion keeps every volume and touches nothing but its section; repeated, it sends the entity as it is |
| Migration.ConvertKeepsTheRest | pkg/vcdcsiclient/disks.go:1089-1129 | outside the CSI section the entity is unchanged, and the volumes are kept |
| Migration.StartupKeepsPvs | pkg/csi/driver.go:151-176 | upgrade-then-convert keeps the volumes and everything else in the entity |
| Migration.SecondStartupIsNoOp | pkg/csi/driver.go:151-176 | a second startup leaves the entity as the first one left it, even if lookups answer differently |
| Migration.LegacySurvivesConversion | pkg/vcdcsiclient/disks.go:1112-1129 | the conversion keeps even a malformed legacy list |
| RdeProtocol.NextKeepsInv | pkg/vcdcsiclient/disks.go:820-1160 | every step of every party keeps the invariant of the protocol |
| RdeProtocol.CommitReplays | pkg/vcdcsiclient/disks.go:847-852 | a PUT that is applied commits what its update makes of the current entity |
| RdeOutcomes.NativePvsIff | pkg/util/defined_entity_util.go:36-70 | the list of a native cluster, read off the JSON |
| RdeOutcomes.ListPlanIs | pkg/vcdcsiclient/disks.go:834-903 | what an add or a removal does with every entity: it sends exactly if the entity is native with a readable list that is not as wanted |
| RdeOutcomes.AnswersMean | pkg/vcdcsiclient/disks.go:852-869 | how each call takes each answer: after a 412 an add or a removal reads again, and after no other error |
| RdeOutcomes.FirstPassOnList | pkg/vcdcsiclient/disks.go:820-921 | undisturbed on a list, it returns nil, with exactly one commit if the list was not as wanted and none if it was |
| RdeOutcomes.FirstPassElsewhere | pkg/vcdcsiclient/disks.go:834-903 | on any other entity it commits nothing, and how it ends |
| RdeOutcomes.RetriesSucceed | pkg/vcdcsiclient/disks.go:820-921 | over runs: an add, a removal or an upgrade overtaken k times, for any k below the limit, then left alone, returns nil with one commit, made to the version it read last |
| RdeOutcomes.RetriesRunOut | pkg/vcdcsiclient/disks.go:820-921 | overtaken on all its tries it returns the error that blames the etag, with no commit |
| RdeOutcomes.ConversionGivesUp | pkg/vcdcsiclient/disks.go:1132-1143 | a conversion overtaken once returns an error, with no commit |
| RdeGuarantees.NoLostUpdate | pkg/vcdcsiclient/disks.go:820-921 | the entity is the fold of the committed updates in commit order, each made to the version before it |
| RdeGuarantees.CommittedListUpdate | pkg/vcdcsiclient/disks.go:840-902 | a committed add appends its id, its name not being listed; a committed removal takes out the first occurrence |
| RdeGuarantees.NilMeansDone | pkg/vcdcsiclient/disks.go:820-921 | an add or removal commits at most once, and during the call; nil means committed, or not needed when the call last read |
| RdeGuarantees.ExhaustionIsHonest | pkg/vcdcsiclient/disks.go:821-921 | giving up after N tries means N commits by others during the call, or a removal that met an unknown entity type; and in either case no commit of its own |
| RdeGuarantees.UndisturbedExhaustionIff | pkg/vcdcsiclient/disks.go:886-920 | a call that nobody disturbs blames the etag exactly if it is a removal on an unknown entity type |
| RdeGuarantees.UnsupportedKindMisreported | pkg/vcdcsiclient/disks.go:886-920 | on an unknown entity type a removal ends as if the etag had changed, with nothing sent |
| RdeGuarantees.FirstAttemptDecides | pkg/vcdcsiclient/disks.go:821-869 | without interference the first attempt is the last, and its success commits |
| RdeGuarantees.MigrationIsExactlyOnce | pkg/vcdcsiclient/disks.go:924-1050 | every committed upgrade appends one entry per legacy id of the version it replaces |
| RdeGuarantees.MigrationConservesPvs | pkg/vcdcsiclient/disks.go:924-1160 | over whole runs, interleaved migrations keep the multiset of volumes |
| RdeGuarantees.UpgradeNilMeans | pkg/vcdcsiclient/disks.go:924-1050 | in any run: nil after an answered PUT means that the call committed what it made of the version it last read, exactly unless there was nothing to upgrade |
| RdeGuarantees.SilentUpgrade | pkg/vcdcsiclient/disks.go:1027-1044 | without a response nil is compatible with both: from any state with something to upgrade, the two runs |
| RdeGuarantees.ConvertNilMeans | pkg/vcdcsiclient/disks.go:1058-1160 | in any run: nil from a conversion means that it committed what it made of the version it last read, exactly unless that has no CSI section |
| RdeGuarantees.ConvertPlanIs | pkg/vcdcsiclient/disks.go:1077-1129 | every other version makes it send, or fail if its CSI section cannot be decoded |
| RdeClients.GetListedPvs | pkg/util/defined_entity_util.go:119-145 | reads the legacy list, or fails, as specified |
| RdeClients.GetNativePvs | pkg/util/defined_entity_util.go:36-70 | reads the list of a native cluster, or fails, as specified |
| RdeClients.FirstIndex | pkg/vcdcsiclient/disks.go:892-898 | the first index of an id, if it is there |
| RdeClients.RemoveInPlace | pkg/vcdcsiclient/disks.go:902 | the in-place deletion of one element of a slice |
| RdeClients.AddToVcdResourceSet | pkg/util/defined_entity_util.go:162-199 | updates the status map in place; what a failure leaves behind |
| RdeClients.NativeAdd | pkg/vcdcsiclient/disks.go:834-850 | what addPvToRDE does between its GET and its PUT |
| RdeClients.NativeRemove | pkg/vcdcsiclient/disks.go:886-903 | what removePvFromRDE does between its GET and its PUT |
| RdeClients.UpgradeInMemory | pkg/vcdcsiclient/disks.go:939-1025 | what the upgrade does between its GET and its PUT |
| RdeClients.PvDetails | pkg/vcdcsiclient/disks.go:978-1004 | one entry per legacy id, named if the lookup finds the disk |
| RdeClients.ConvertInMemory | pkg/vcdcsiclient/disks.go:1089-1129 | what the conversion does between its GET and its PUT |
| RdeClients.DiskManager.AddPvToRde | pkg/vcdcsiclient/disks.go:820-870 | the retry loop ends where the protocol does, with its result |
| RdeClients.DiskManager.RemovePvFromRde | pkg/vcdcsiclient/disks.go:872-921 | the retry loop ends where the protocol does, with its result |
| RdeClients.DiskManager.UpgradeRdePersistentVolumes | pkg/vcdcsiclient/disks.go:924-1050 | the retry loop ends where the protocol does, with its result |
| RdeClients.DiskManager.ConvertToLatestCsiVersionFormat | pkg/vcdcsiclient/disks.go:1058-1160 | the retry loop ends where the protocol does, with its result |
| RdeClients.LoopSucceedsAtLast | pkg/vcdcsiclient/disks.go:820-1050 | the retry loops, overtaken fewer times than the limit and then left alone, return nil with one commit |
| RdeClients.DiskManager.Setup | pkg/csi/driver.go:136-184 | upgrade first, on a CAPVCD cluster, then convert unless that failed; undisturbed, the entity ends up as Migration.Startup says |
| RdeClients.SmoothMigration | pkg/vcdcsiclient/disks.go:924-1160 | an undisturbed upgrade or conversion is over after one pass, and the entity is what its update makes of it |
| RdeClients.DiskManager.GetDefinedEntity | vendor/github.com/vmware/cloud-provider-for-cloud-director/pkg/vcdswaggerclient_37_2/api_defined_entity_modified.go:912-1009 | the GET step of the protocol: entity and etag |
| RdeClients.DiskManager.UpdateDefinedEntity | vendor/github.com/vmware/cloud-provider-for-cloud-director/pkg/vcdswaggerclient_37_2/api_defined_entity_modified.go:1465-1578 | the conditional PUT step of the protocol |
| DiskLookup.GetDisksByName | pkg/vcdcsiclient/disks.go:253-279 | all disks of the name, or what the first that cannot be fetched makes of it |
| DiskLookup.GetDiskById | pkg/vcdcsiclient/disks.go:229-248 | what the first entity listed under the id answers |
| DiskLookup.ScanZoneMap | pkg/vcdcsiclient/disks.go:351-376 | the first OVDC, in iteration order, with a sole disk of the name |
| DiskLookup.ScanMeetsAnswer | pkg/vcdcsiclient/disks.go:351-403 | found means the sole disk of the name in some readable OVDC; not found, that no readable OVDC has one |
| DiskLookup.OrderDoesNotMatter | pkg/vcdcsiclient/disks.go:351-376 | with at most one such OVDC every iteration order gives the same answer |
| DiskLookup.OrderMatters | pkg/vcdcsiclient/disks.go:351-376 | with two of them the order decides |
| DiskLookup.NotFoundIff | pkg/vcdcsiclient/disks.go:354-373 | exactly when the answer is "not found" |
| LookupOutcomes.LooksLikeIdIff | pkg/vcdcsiclient/disks.go:281-306 | which identifiers are looked up by id, told from their characters: 8-4-4-4-12 hexadecimal digits, or four parts between colons with urn in front or such a UUID at the end |
| LookupOutcomes.ListingIs | pkg/vcdcsiclient/disks.go:253-279 | what a listing answers, told from the entities: the first disk of the name that cannot be fetched decides, else all disks of the name in order |
| LookupOutcomes.SoleInIff | pkg/vcdcsiclient/disks.go:351-376 | what the loop over the zone map takes: the one disk of the name among all entities of the refreshed OVDC |
| LookupOutcomes.LookupIdIs | pkg/vcdcsiclient/disks.go:229-248 | the first entity of the id that is a disk decides; a forbidden one counts as none |
| LookupOutcomes.InVdcIs | pkg/vcdcsiclient/disks.go:298-337 | the lookup in one OVDC, case by case |
| DiskLookup.GetDiskByNameOrId | pkg/vcdcsiclient/disks.go:340-404 | both modes, and the guards before them |
| VolumeSafety.CreateIsSound | pkg/vcdcsiclient/disks.go:110-208 | every call of CreateVolume keeps the disks in order |
| VolumeSafety.DeleteIsSound | pkg/vcdcsiclient/disks.go:453-614 | every call of DeleteVolume does, deleting only what is not attached |
| VolumeSafety.AttachIsSound | pkg/vcdcsiclient/disks.go:641-698 | every call of ControllerPublishVolume does, attaching a non-shareable disk only where it is free |
| VolumeSafety.DetachIsSound | pkg/vcdcsiclient/disks.go:701-755 | every call of ControllerUnpublishVolume does |
| VolumeSafety.ExpandIsSound | pkg/csi/controller.go:495-675 | every call of ControllerExpandVolume does, without the lock |
| VolumeSafety.MoveKeepsLock | pkg/vcdcsiclient/disks.go:113-114 | the lock is held by exactly the handler between locking and its deferred unlock |
| VolumeSafety.AttachmentSafety | pkg/vcdcsiclient/disks.go:567-692 | in every reachable state a non-shareable disk has at most one VM, and a deleted disk none |
| VolumeSafety.DeletesOnlyUnattached | pkg/vcdcsiclient/disks.go:582-600 | a disk only ever disappears unattached, by the holder of the lock |
| VolumeSafety.PublishedMeansAttached | pkg/vcdcsiclient/disks.go:651-697 | when Publish reports success the disk it looked up is attached to the VM |
| VolumeSafety.UnpublishedMeansDetached | pkg/vcdcsiclient/disks.go:707-754 | when Unpublish reports success the disk last found is not attached to the VM |
| VolumeSafety.LateAttachIsSafeIff | pkg/vcdcsiclient/disks.go:676-692 | an attach carried out after its wait was given up does no harm exactly if the disk is then free, or shareable and not on that VM |
| VolumeSafety.LateAttachBreaksSafety | pkg/vcdcsiclient/disks.go:641-697 | the run in which it does harm: the lock is released, another VM gets the disk, then the first attach happens |
| VolumeRuns.PublishEndsAsExpected | pkg/csi/controller.go:263-369 | a Publish by itself ends attached, already attached or refused, as its request deserves, and changes nothing else |
| VolumeRuns.PublishGetsThere | pkg/vcdcsiclient/disks.go:641-698 | with the lock free it gets there: the run |
| VolumeRuns.UnpublishEndsAsExpected | pkg/csi/controller.go:371-449 | an Unpublish by itself ends with success and the disk off the VM |
| VolumeRuns.UnpublishDetaches | pkg/vcdcsiclient/disks.go:701-755 | with the lock free it gets there; the other VMs, attachments, disks and the list stay: the run |
| VolumeRuns.UnpublishedIs | pkg/vcdcsiclient/disks.go:738-754 | only this VM goes, and the order of the others stays |
| VolumeRuns.DeleteEndsAsExpected | pkg/vcdcsiclient/disks.go:567-614 | a Delete by itself refuses an attached disk, and any other goes, from the disks and from the list |
| VolumeRuns.CreateEndsWithNew | pkg/vcdcsiclient/disks.go:110-208 | a Create by itself, with no disk of the name, makes the disk asked for and lists it, unless its name is listed |
| VolumeRuns.CreateEndsWithOld | pkg/vcdcsiclient/disks.go:119-148 | with one disk of the name it reports that disk if it fits, and is refused if not |
| VolumeRuns.CreateGetsThere | pkg/vcdcsiclient/disks.go:110-208 | with the lock free it gets there: the run |
| VolumeRuns.MissMeans | pkg/vcdcsiclient/disks.go:573-579 | "not found" fails a Publish and an Expand, and is success for an Unpublish and a Delete |
| VolumeRuns.FailureIsReported | pkg/vcdcsiclient/disks.go:453-755 | whatever fails, or is reported to have failed, is reported as a failure |
| VolumeRuns.GoneIsReported | pkg/vcdcsiclient/disks.go:406-443 | so is a disk that is gone when its VMs are to be read |
| VolumeIndex.QuietCall | pkg/csi/controller.go:263-675 | no other call touches the list, or which disks there are |
| VolumeIndex.IndexAgreement | pkg/vcdcsiclient/disks.go:200-205 | in every reachable state the list holds, once each, the live disks added and the deleted ones never removed |
| IndexRefinement.ListCallIsOneStep | pkg/vcdcsiclient/disks.go:820-921 | a whole add or removal under interference is one step of the volume machine, on the list of one version of its own time |
| IndexComposition.NextKeepsInv | pkg/vcdcsiclient/disks.go:193-206 | with the volume handlers and the RDE protocol run together, every step keeps the list in the entity in agreement |
| IndexComposition.RunOfBoth | pkg/vcdcsiclient/disks.go:820-921 | a run of both machines is a run of each, so that every guarantee about either holds for both |
| IndexComposition.EntityListsTheDisks | pkg/vcdcsiclient/disks.go:200-205 | over all such runs the entity itself lists, once each, the live disks added and the deleted ones never removed |
| IndexComposition.ConversionIsConsiderate | pkg/vcdcsiclient/disks.go:1058-1160 | conversions that race with the handlers leave the list alone |
| VolumeIndex.DeletedMeansGone | pkg/vcdcsiclient/disks.go:567-614 | when Delete reports success the disk it found is gone, and off the list |
| VolumeOutcomes.CreatedMeansThere | pkg/vcdcsiclient/disks.go:110-208 | when Create reports a disk it exists with the name and the properties asked for, and is listed if this call made it, unless its name was on the list |
| VolumeOutcomes.SuccessfulDeleteLeavesIff | pkg/vcdcsiclient/disks.go:567-614 | over any run of all handlers, exactly when a Delete that reports success leaves a disk of the name |
| VolumeOutcomes.DeletedMeansNoneLeft | pkg/vcdcsiclient/disks.go:567-614 | with unique names and every OVDC readable it leaves none |
| VolumeOutcomes.DeleteOfMissedSucceeds | pkg/vcdcsiclient/disks.go:573-579 | a Delete whose lookup overlooks the disks of the name succeeds in three steps, with nothing deleted: the run |
| VolumeOutcomes.DeleteTakesOneOfTwo | pkg/vcdcsiclient/disks.go:573-614 | with a disk of the name in each of two OVDCs it deletes one and succeeds: the run |
| VolumeOutcomes.OthersKeepDisks | pkg/vcdcsiclient/disks.go:567-569 | under the lock the others change no more of the disks than their sizes |
| VolumeIndex.CreateRetryChangesNothing | pkg/vcdcsiclient/disks.go:136-148 | a repeated Create, however far it gets, changes nothing, and reports the disk unless a call fails |
| VolumeIndex.CreateRetrySucceeds | pkg/vcdcsiclient/disks.go:136-148 | with the lock free it succeeds in three steps |
| VolumeIndex.DeleteRetryChangesNothing | pkg/vcdcsiclient/disks.go:573-579 | a repeated Delete changes nothing, and reports success unless a call fails |
| VolumeIndex.DeleteRetrySucceeds | pkg/vcdcsiclient/disks.go:573-579 | with the lock free it succeeds in three steps |
| VolumeNames.NamesStayUnique | pkg/vcdcsiclient/disks.go:119-148 | over whole runs there is at most one disk per name in all OVDCs, if the lookups of every Create can read them all |
| VolumeNames.LookMissesIff | pkg/vcdcsiclient/disks.go:351-376 | a lookup misses a disk exactly when it cannot read its OVDC |
| VolumeNames.OneUnreadableZoneDuplicates | pkg/vcdcsiclient/disks.go:119-182 | one such lookup is enough for a second disk of the name: the run |
| VolumeNames.DeleteSkipsDuplicates | pkg/vcdcsiclient/disks.go:367-379 | disks that share a name in one OVDC are never deleted by name, and a Delete of it, however far it gets, fails only if a call of it does |
| VolumeNames.LookupRefinesMachine | pkg/vcdcsiclient/disks.go:340-404 | whatever order Go iterates in, the driver's lookup answers what the machine allows |
| VolumeNames.SingleLookupRefinesMachine | pkg/vcdcsiclient/disks.go:377-400 | so does the lookup in one OVDC, and there "not found" means that the OVDC has no disk of the name |
| VolumeExpansion.UpdatesMeetTheirMode | pkg/csi/controller.go:576-668 | at the PUT an OFFLINE update finds no VM, an ONLINE one finds its VM, and no other if the disk is not shareable; the disk gets the size asked for |
| VolumeExpansion.SuccessReportsTheSize | pkg/csi/controller.go:534-669 | a success reports the size the disk has at that moment |
| VolumeExpansion.SizesNeverDecrease | pkg/csi/controller.go:534-669 | in any run of all handlers a disk never shrinks, if no expansion resizes it while another relies on its size; expansions of other disks may overlap freely |
| VolumeExpansion.SerialisedDiskNeverShrinks | pkg/csi/controller.go:534-669 | so it is when the expansions that rely on the disk are serialised |
| VolumeOverlap.PutShrinksIff | pkg/csi/controller.go:576-668 | over any run: the PUT of an expansion shrinks a disk exactly if another expansion took it past the size to be set and none took it back |
| VolumeOverlap.OnlinePutShrinksIff | pkg/csi/controller.go:634-657 | an ONLINE PUT shrinks another disk of the VM exactly if an expansion overtook it after the settings were read |
| VolumeOverlap.OnlineFindsOneVmIff | pkg/csi/controller.go:559-668 | an ONLINE PUT finds exactly one VM if and only if no attach since the mode was chosen is still in force |
| VolumeOverlap.OnlineWithTwoVms | pkg/csi/controller.go:559-668 | a shareable disk is published to a second VM meanwhile, and the ONLINE PUT succeeds: the run |
| VolumeExpansion.ConcurrentExpansionsShrink | pkg/csi/controller.go:634-657 | two overlapping expansions on one VM both succeed, and the first is undone: the run |
| VolumeExpansion.RepeatChangesNothing | pkg/csi/controller.go:534-540 | repeating a successful expansion changes nothing and reports the same capacity |
| VolumeExpansion.AttachBeatsOffline | pkg/vcdcsiclient/disks.go:515-522 | once the mode is OFFLINE and the disk is attached, the expansion changes nothing and can only fail |
| VolumeExpansion.RetrySucceedsOnline | pkg/csi/controller.go:559-669 | the retry then succeeds ONLINE and changes only this disk's size |
| VolumeExpansion.ExpansionEndsAsExpected | pkg/csi/controller.go:528-674 | an expansion by itself ends as its request deserves: no-op, refusal, OFFLINE without VMs, ONLINE with exactly one where allowed; only this disk changes |
| VolumeExpansion.ExpandToCreatedSize | pkg/csi/controller.go:532-545 | a volume expanded to the bytes it was created for: the call changes nothing, and succeeds exactly if those are whole MiBs |
| VolumeController.IsDiskShareable | pkg/csi/controller.go:81-93 | shareable exactly if some capability is for several nodes |
| VolumeController.IsBlockVolume | pkg/csi/controller.go:95-107 | the first block capability decides, unless an unknown mode comes before it |
| VolumeController.BlockOfIs | pkg/csi/controller.go:95-107 | the first capability of an unknown mode, or for a block volume, decides |
| VolumeController.ExpandDeserves | pkg/csi/controller.go:547-668 | an expansion by itself is granted by the VMs of the disk and the mode and kind of the capability: OFFLINE without VMs, ONLINE with exactly one unless multi-writer or block, else nothing |
| ControllerRuns.PlayIs | pkg/vcdcsiclient/disks.go:110-755 | a call under a script: as the script wants if the cloud allows that, and failed otherwise |
| ControllerRuns.ExpansionByItself | pkg/csi/controller.go:495-675 | where the script of an undisturbed Expand ends |
| ControllerRuns.PublicationByItself | pkg/csi/controller.go:263-369 | likewise for Publish |
| ControllerRuns.UnpublicationByItself | pkg/csi/controller.go:371-449 | likewise for Unpublish: off the VM, with success |
| ControllerRuns.DeletionByItself | pkg/csi/controller.go:225-261 | likewise for Delete |
| ControllerRuns.CreationByItself | pkg/csi/controller.go:109-223 | likewise for Create, with no disk of the name |
| ControllerRuns.CreationAgain | pkg/vcdcsiclient/disks.go:119-148 | and with one |
| VolumeController.OvdcOfZone | pkg/csi/controller.go:153-169 | an OVDC of the zone, if there is one |
| VolumeController.SetSize | pkg/csi/controller.go:637-650 | the in-place update sets the size of exactly the disk asked for |
| VolumeController.Controller.IsSafe | pkg/vcdcsiclient/disks.go:641-692 | every state the methods below leave is one of AttachmentSafety |
| VolumeController.Controller.GetDiskByNameOrId | pkg/vcdcsiclient/disks.go:340-404 | a lookup is one call of the machine |
| VolumeController.Controller.GovcdAttachedVM | pkg/vcdcsiclient/disks.go:406-443 | reading the attached VMs is one call of the machine |
| VolumeController.Controller.CreateDisk | pkg/vcdcsiclient/disks.go:110-208 | ends where the machine does under the same environment, with its outcome |
| VolumeController.Controller.DeleteDisk | pkg/vcdcsiclient/disks.go:567-614 | likewise |
| VolumeController.Controller.GovcdDelete | pkg/vcdcsiclient/disks.go:453-491 | likewise |
| VolumeController.Controller.AttachVolume | pkg/vcdcsiclient/disks.go:641-698 | likewise, with the disk as it was found before the lock |
| VolumeController.Controller.DetachVolume | pkg/vcdcsiclient/disks.go:701-755 | likewise |
| VolumeController.Controller.UpdateDisk | pkg/vcdcsiclient/disks.go:502-564 | likewise |
| VolumeController.Controller.CreateVolume | pkg/csi/controller.go:109-223 | the disk asked for, when its OVDC is one that lookups cover, the refusals, the capacity answered, and the run of the machine |
| VolumeController.Controller.DeleteVolume | pkg/csi/controller.go:225-261 | the run of the machine and its outcome |
| VolumeController.Controller.ControllerPublishVolume | pkg/csi/controller.go:263-369 | the refusals, the run of the machine and its outcome |
| VolumeController.Controller.ControllerUnpublishVolume | pkg/csi/controller.go:371-449 | the run of the machine and its outcome, also where it ends for want of a node or a VM |
| VolumeController.Controller.ControllerExpandVolume | pkg/csi/controller.go:495-675 | the refusals, a missing range and a shrink among them, the run of the machine, and the capacity in bytes |
| VolumeController.Controller.ExpandTo | pkg/csi/controller.go:528-674 | the lookup, the sizes that need no expansion or refuse it, and the run |
| VolumeController.Controller.ExpandFound | pkg/csi/controller.go:547-668 | the choice of mode, whose default case cannot be reached, and the update in that mode |
| VolumeController.Controller.UpdateSettings | pkg/csi/controller.go:607-668 | the ONLINE branch, with its in-place update of the settings |
| NodeGuarantees.RequestedModeIff | pkg/csi/node.go:138-156 | the mode asked for takes effect exactly if the flags do not override it |
| NodeGuarantees.StageSuccess | pkg/csi/node.go:178-239 | a successful Stage leaves the device at the staging path, in the mode asked for unless the flags override it |
| NodeGuarantees.StageNeverAddsASecondMount | pkg/csi/node.go:191-206 | with the device mounted anywhere Stage changes nothing, and succeeds exactly if it is mounted as asked |
| NodeGuarantees.StageTwice | pkg/csi/node.go:191-206 | repeating a successful Stage changes nothing, and exactly when it succeeds |
| NodeGuarantees.AtMostOneStaging | pkg/csi/node.go:103-527 | over any sequence of calls no device is staged twice |
| NodeGuarantees.StaleStageIff | pkg/csi/node.go:191-228 | a Stage that mounts after others have changed the table keeps to one staging exactly if nobody has staged the device by then |
| NodeGuarantees.OverlappingStages | pkg/csi/node.go:191-228 | two overlapping Stage calls that would succeed alone stage the device twice: the run |
| NodeGuarantees.StageMountsTheDiskFound | pkg/csi/node.go:178-228 | Stage mounts the disk it found, and never the empty path |
| NodeGuarantees.PublishMountsNothingIff | pkg/csi/node.go:402-476 | exactly when Publish bind-mounts the empty path |
| NodeOutcomes.DiskPathIs | pkg/csi/node.go:695-759 | the path found is that of the first file, not a directory, whose scsi_id output is the UUID without dashes up to case, and empty exactly if none is |
| NodeOutcomes.StagedDiskIsTheOneAsked | pkg/csi/node.go:178-228 | whatever Stage mounts carries the UUID of the publish context |
| NodeOutcomes.CheckIs | pkg/csi/node.go:769-802 | a device is mounted as asked exactly if its first entry at the path has the mode |
| NodeOutcomes.StageRefusals | pkg/csi/node.go:103-176 | exactly when Stage refuses a request |
| NodeOutcomes.StageIs | pkg/csi/node.go:178-239 | what Stage does with any other, for every table and every failure: which mount, with which options, or which failure |
| NodeOutcomes.StageWithoutDisk | pkg/csi/node.go:178-190 | without the disk it fails and changes nothing |
| NodeOutcomes.DistinctIs | vendor/github.com/akutz/gofsutil/gofsutil_removeduplicates.go:40-80 | duplicate and empty options go, the first of several stays |
| NodeOutcomes.PublishRefusals | pkg/csi/node.go:323-442 | exactly when Publish refuses a request |
| NodeOutcomes.PublishIs | pkg/csi/node.go:402-482 | what Publish does with any other, for every table and every failure |
| NodeOutcomes.UnpublishIs | pkg/csi/node.go:485-527 | exactly when Unpublish succeeds, and that the path and its mount are gone then |
| NodeOutcomes.UnstageIs | pkg/csi/node.go:282-319 | exactly when Unstage succeeds, and which one mount goes |
| NodeOutcomes.RoundTripSucceeds | pkg/csi/node.go:103-527 | with nothing failing all four calls succeed, with the mounts asked for, and the table is as before |
| NodeGuarantees.MountRoundTrip | pkg/csi/node.go:103-527 | Stage, Publish, Unpublish, Unstage restores the mount table |
| NodeGuarantees.UnpublishTwice | pkg/csi/node.go:498-507 | repeating a successful Unpublish succeeds and changes nothing |
| NodeGuarantees.UnstageTwice | pkg/csi/node.go:291-311 | repeating a successful Unstage succeeds, and changes nothing exactly if one mount was there |
| NodeGuarantees.PublishMountsAgainIff | pkg/csi/node.go:444-476 | exactly when Publish mounts again |
| NodeGuarantees.PublishStacks | pkg/csi/node.go:444-476 | n repetitions stack n mounts |
| NodeGuarantees.UnpublishTakesAsMany | pkg/csi/node.go:508-523 | n stacked mounts take n calls of Unpublish, of which only the last succeeds |
| NodeService.GetDiskPath | pkg/csi/node.go:695-759 | the first disk with the UUID, or the empty path without an error |
| NodeService.GetDevMounts | vendor/github.com/akutz/gofsutil/gofsutil_mount_unix.go:108-125 | the entries of a device |
| NodeService.IsVolumeMountedAsExpected | pkg/csi/node.go:769-802 | whether the device is mounted, and as asked |
| NodeService.IsPathMounted | pkg/csi/node.go:831-844 | whether anything is mounted at the path |
| NodeService.Service.NodeStageVolumeFilesystemMount | pkg/csi/node.go:103-239 | the node ends up where the function says |
| NodeService.Service.NodePublishVolume | pkg/csi/node.go:323-482 | the node ends up where the function says |
| NodeService.Service.NodeUnpublishVolume | pkg/csi/node.go:485-527 | the node ends up where the function says |
| NodeService.Service.NodeUnstageVolume | pkg/csi/node.go:282-319 | the node ends up where the function says |
| NodeService.Service.BindMountAt | vendor/github.com/akutz/gofsutil/gofsutil_mount_linux.go:130-140 | a bind and a remount, of which the second may fail alone |
| NodeService.Service.Rmdir | pkg/csi/node.go:872-880 | removes a path unless something is mounted on it |

## Left out

- HTTP, XML and JSON transport, link discovery, tokens and task polling: only the effect of a request on the modelled state, and how it is answered, remain.
- The RDE manager of CAPVCD clusters, and the error and event sets it writes: their writes are foreign commits that bump the etag; `vcdsdk.RDEManager` is not part of this model.
- Case-insensitive JSON keys, and the parsing of times: `occurredAt` is any string.
- The 412 arm of ConvertToLatestCSIVersionFormat after a PUT without an error: the generated client reports 412 as an error, so that arm cannot be taken.
- SearchVMAcrossVDCs: whether it finds the VM is a parameter.
- Storage-profile lookup, disk descriptions, and the volume context returned by CreateVolume: data that no other modelled step depends on.
- NodeStageVolumeBlockMount, NodeExpandVolume, NodeGetVolumeStats, SCSI host scans and file system resizing: operating-system I/O without modelled state.
- Parent directories: a path exists or not by itself.
- Formatting an unformatted disk on its first mount: the mount succeeds or fails as a whole.
- The gRPC server, the identity service, capability lists and configuration: plumbing.
- Several controller processes at once: the manifests run one.
- NodeGuarantees.MountRoundTrip: restores the mount table, not the directories; the staging directory stays.
