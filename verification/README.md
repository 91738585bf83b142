# Oxide operator: verified models

Dafny models of the parts of the Oxide Kubernetes operator that carry state: importing an image from a URL, converging
and deleting instances, keeping the Instances of an InstanceSet, caching API clients across token rotations, guarding
an OxideConnection's finalizer, and turning a reconcile's error into a condition and a requeue.
`dafny verify dfyconfig.toml` checks everything.

## How the models are built

**Image import** (`ImportChunks`, `OxideRemote`, `ImageMachine`, `ImageInvariant`, `ImageSafety`, `ImageVersions`,
`ImageTalk`, `ImageAsks`, `ImageWrites`, `ImageDeletion`, `ImageRemoval`, `ImageProgress`, `ImageSchedules`,
`ImageLimits`, `ImageController`). `OxideRemote` is the environment: one import disk with its bytes, one import
snapshot, one image in a project or the silo, and every version of the Kubernetes object. Each API call is one atomic
step that can go through, be lost, take effect and still report an error, or be refused. Between any two calls Oxide
may settle, a disk or snapshot may fault, the image may vanish, the user may delete the object, and the operator may
crash. `ImageMachine` is the controller's control flow, one program point per call; its actions are labels, so "for
all sequences of labels" means "for all runs". A reconcile may start from any version of the object that the cache can
still serve (versions never go back). `ImageController` is the code as written: methods that loop over a reused
buffer, call and branch on replies. Every method is proved to extend a run of the machine whatever the replies, faults
and interference, so what is proved of runs holds of the code at every moment.

**Instances** (`InstanceMachine`, `InstanceProofs`, `InstanceTalk`, `InstanceProgress`, `InstanceController`) follow the same
plan for stop, resize, start, and deletion with the boot disk.

`ImageTalk`, `ImageAsks`, `ImageWrites` and `InstanceTalk` look at a reconcile from outside, as its conversation: the version it
read, and its calls with their replies. They say of every run, faults included, what the outcome of a reconcile is, what each
call rests on, which bulk writes there are and when a reconcile may return, without mention of the controller's program points.

Progress is stated twice for both: a measure that every acting reconcile or settling decreases, whatever version the
reconcile reads, and what follows for endless schedules. A schedule is fair if reconciles keep coming, again and again
one reads a version that has the finalizer or is the newest, and nothing that can settle is put off for ever.

**InstanceSets** (`Decimal`, `InstanceSets`), **client cache** (`ClientCache`), **connections** (`Connections`) and
**verdict** (`Verdict`) model the remaining parts: methods over the mutable state, specified by functions, and theorems
about those functions for every store, interleaving, history or error tree.

## Premises

- The file at the URL does not change. A body is a prefix of it, the whole of it unless the body is cut short or
  breaks. The declared length covers the file (net/http never delivers more than it) and `length + GiB - 1` fits an int64;
  beyond that bound the disk size comes out too small, which `DiskSizeIsLeast` states exactly.
- Spec fields stay fixed. The CRD rules do not enforce this for `blockSize`, nor for removing `url` or `bootDisk`
  (`api/oxide/v1alpha1/image_types.go:42-57`, `instance_types.go:49-51`).
- `deletionProtection` is off, and nobody else uses the names of the image, its temporaries or the boot disk.
- Disks move from creating to import-ready; Start and Stop lead to importing and back; Finalize leads through finalizing to
  detached, taking the snapshot on the way if one was named; only a detached disk can be deleted. Image IDs are never reused.
- Oxide stops only a running instance, starts, resizes and deletes only a stopped one (deletes also a failed one), and
  keeps a boot disk while its instance exists. `AsksToDeleteHalted` and `AsksInOrder` do not rest on these refusals.
- A Secret's resourceVersion is the revision that wrote it, and the Secret is unchanged until a later revision.

## Where the code does less than its comments suggest

Each of these is proved, with the exact condition where there is one.

- *A deletion can leave the import snapshot behind.* `handleDelete` deletes the snapshot first and the disk second
  (`image_controller.go:313-317`). If the disk is still being finalized into the snapshot when the first call finds
  none, the snapshot appears afterwards, the detached disk is deleted, and the finalizer goes. No fault is needed
  (`DeletionCanLeak`). One `handleDelete` can leave something behind if and only if the disk is being finalized
  into a snapshot at its first call (`LeavesBehindIffSnapshotting`).
- *A truncated download can become the image.* `writeChunks` takes `io.ErrUnexpectedEOF` for a normal last chunk
  (`image_controller.go:258`, `268-270`). All images of all runs hold the file if and only if every prefix that downloads may be cut to
  and that matches `spec.sha256` (any prefix if that is unset) misses only zeros (`ImagesHoldFileIffSafeSpec`).
- *Skipped zero chunks need an unchanged file.* A pass over any disk is exact if and only if every byte it skips already
  reads as zero (`PassIsExactIff`), so rewriting after the file changed is exact if and only if the old file is zero wherever
  the new one is skipped (`RewriteIsExactIff`); otherwise the disk can hold neither file (`ChangedFileIsMixed`).
- *A failed instance of the wrong size is reported as progressing for ever* (`FailedIsReportedBySize`), since the size
  check comes before the failed-state case (`instance_controller.go:107-109`, `131`).
- *Stray children of an InstanceSet can stay.* `Atoi` takes "-1", "+7" and "007" (`StraysExist`); and a wanted Instance that is
  already being deleted is patched, not replaced. A finished sync is exact if and only if there is neither (`SyncIsExactIff`).
- *The in-use scan reads cached lists.* Removing the finalizer is safe for every cluster history if and only if no
  list is older than the deletion (`ScanIsSafeIff`); nothing in the code enforces that.
- *In-flight transitions can count as drift.* The watcher sees drift exactly when a stop, resize or start is needed or the
  instance is being created or repaired, has failed or is destroyed (`DriftIff`). So an instance being created or
  repaired drifts though it needs nothing (`NeedlessDrift`), against the comment at `fetcher.go:117-118`.
- *A failed import's message can be hidden.* A failure's condition keeps the text of the whole error if and only if no API
  error in the tree has a short form, or the first one's is that text (`FailureTextIsKeptIff`); when cleanup also fails with
  an API error, only the cleanup's message is left (`CleanupCanHideTheReason`).

## Model

| member | source | states |
|---|---|---|
| ImportChunks.DiskSizeIsLeast | internal/controller/oxide/image_controller.go:195 | the requested size is at least 1 GiB, whole GiB, and holds the length if and only if length + GiB - 1 does not overflow int64; then it is the least such size, and otherwise 1 GiB |
| ImportChunks.DiskSizeHolds | internal/controller/oxide/image_controller.go:194-195 | a disk of that size is filled by whole 512 KiB chunks, so writing chunk by chunk cannot run over its end |
| ImportChunks.PaddingFits | internal/controller/oxide/image_controller.go:261-262 | zero-padding a chunk to whole blocks never leaves the buffer, for every block size that divides a chunk |
| ImportChunks.PaddingIsLeast | internal/controller/oxide/image_controller.go:261-262 | a padded chunk is less than a block longer than what was read |
| ImportChunks.WriteFits | internal/controller/oxide/image_controller.go:251-272 | a non-empty write starts inside the data at a chunk boundary and ends within the disk |
| ImportChunks.PayloadByte | internal/controller/oxide/image_controller.go:254-264 | each byte written is the stream's byte at that position, or zero past its end |
| ImportChunks.WrittenKeeps | internal/controller/oxide/image_controller.go:251-272 | after any number of chunks every byte of the disk is zero or the file's, and the chunks passed are complete: the invariant of an interrupted pass |
| ImportChunks.PassIsExact | internal/controller/oxide/image_controller.go:249-272 | from an all-zero disk, or one that earlier attempts at the same file left, a finished pass leaves the bytes followed by zeros, for every length and block size |
| ImportChunks.SkippingRefinesWritingAll | internal/controller/oxide/image_controller.go:249-250 | skipping all-zero chunks gives the same disk as writing every chunk |
| ImportChunks.RewritingIsIdempotent | internal/controller/oxide/image_controller.go:167-175 | however many attempts broke off after however many chunks, the next whole pass leaves what one clean pass would |
| ImportChunks.PassIsExactIff | internal/controller/oxide/image_controller.go:237 | on any disk whatever, a pass leaves the data followed by zeros if and only if every position it does not write already reads as zero |
| ImportChunks.RewriteIsExactIff | internal/controller/oxide/image_controller.go:237 | a pass of one file over a disk that holds another is exact if and only if the old file is zero wherever the pass skips |
| ImportChunks.ChangedFileIsMixed | internal/controller/oxide/image_controller.go:237 | two files for which the disk of the first, rewritten with the second, holds neither |
| ImageMachine.CallsDecrease | internal/controller/oxide/image_controller.go:64-128 | whatever the replies, every call brings a reconcile closer to its return: phase and bytes left decrease lexicographically |
| ImageInvariant.StepKeepsInv | internal/controller/oxide/image_controller.go:131-247 | the invariant (disk, snapshot and image bytes, recorded IDs, object versions, what each program point knows) survives every call under every fault, every event and a crash |
| ImageInvariant.RunKeepsInv | internal/controller/oxide/image_controller.go:64-128 | and so every run |
| ImageInvariant.InitHasInv | internal/controller/oxide/image_controller.go:64-79 | and it holds of a fresh object |
| ImageSafety.ImageHoldsFile | internal/controller/oxide/image_controller.go:131-247 | in every run with crashes, lost and late calls anywhere, an image or import snapshot of a safe spec holds exactly the file followed by zeros |
| ImageSafety.WholeDownloadsOrDigestAreSafe | internal/controller/oxide/image_controller.go:230-232 | a spec is safe if downloads are never cut short unnoticed, or if spec.sha256 is the file's digest under an injective digest |
| ImageSafety.RecordedImageHasNoTemporaries | internal/controller/oxide/image_controller.go:106-112 | in every run, if any version of the object records the existing image's ID, neither import disk nor import snapshot exists |
| ImageSafety.FinalizerComesFirst | internal/controller/oxide/image_controller.go:74-79 | in every run nothing exists in Oxide unless the finalizer is stored or the object is gone |
| ImageSafety.WritesFit | internal/controller/oxide/image_controller.go:224-229 | in every run each bulk write is at a multiple of 512 KiB, a positive number of whole blocks up to 512 KiB, and within the disk |
| ImageSafety.SnapshotSurvives | internal/controller/oxide/image_controller.go:136-175 | once taken, the snapshot keeps its contents whatever follows until an image exists or the object is deleted, so deleting the detached disk after a stale snapshot view loses nothing |
| ImageSafety.NilMeansPlaced | internal/controller/oxide/image_controller.go:115-127 | in every run, after a nil result an existing image is in the silo exactly when spec.promote is set |
| ImageTalk.OutcomesAreTold | internal/controller/oxide/image_controller.go:65-247 | in every run with any faults, the outcome of a reconcile that returned follows from its conversation: failed exactly when a download was refused for good, or a body ended without breaking, every write went through and its digest is not spec.sha256; progressing exactly when the last reply leaves more to do; nil exactly when placing the image and recording its ID went through; an error otherwise; of a deletion, terminal exactly when deleting or finding something failed, and done exactly when the finalizer went |
| ImageAsks.EveryCallIsWarranted | internal/controller/oxide/image_controller.go:65-374 | in every run each call rests on replies of its own reconcile: an image is made only if it is in neither place and the snapshot is ready or faulted, a disk is made only for a body of that size, started only if the body fits, finalized into the snapshot only after a whole write with the right digest, and dropped only if it is no good or no longer needed; stop, finalize and delete come in that order, an ID is recorded only after cleanup, and the finalizer goes last |
| ImageAsks.EveryReturnIsWarranted | internal/controller/oxide/image_controller.go:65-374 | and no reconcile returns early: after a write that failed, broke off or has the wrong digest it has tried to delete the disk, after finding an image it has placed it and tried to record its ID, and a deletion without errors has come to the finalizer |
| ImageWrites.WritesAreThePass | internal/controller/oxide/image_controller.go:224-272 | in every run a reconcile that started the disk has made exactly the writes of the body's non-zero chunks, each once and in order: all of them unless one failed, and none of the part of a chunk in which the body broke; one that did not start it has written nothing |
| ImageDeletion.GoneMeansNothingLeft | internal/controller/oxide/image_controller.go:349-374 | in every run without the finalizing race, once the object is gone so are import snapshot, import disk and image, through crashes and lost calls |
| ImageDeletion.LeavesBehindIffSnapshotting | internal/controller/oxide/image_controller.go:307-330 | from its first call on, one handleDelete can leave something behind if and only if the disk is being finalized into a snapshot then |
| ImageDeletion.RaceLeaks | internal/controller/oxide/image_controller.go:313-330 | the actions that do it |
| ImageRemoval.UndisturbedDelete | internal/controller/oxide/image_controller.go:349-374 | without faults, handleDelete of any version that shows the deletion leaves nothing in Oxide if there is no import disk or a detached one, whatever else there is, and the object goes with it if that version is the newest; otherwise only the snapshot goes and the disk moves on, with a terminal failure |
| ImageLimits.DeletionCanLeak | internal/controller/oxide/image_controller.go:307-330 | every import has a fault-free run from a fresh object after which the object is gone and its snapshot is not |
| ImageLimits.ImagesHoldFileIffSafeSpec | internal/controller/oxide/image_controller.go:230-270 | the images of all runs hold the file if and only if every accepted prefix misses only zeros |
| ImageLimits.TruncatedImport | internal/controller/oxide/image_controller.go:258-270 | for each unsafe prefix, a run whose image is not the file |
| ImageLimits.ImportEndsWithFile | internal/controller/oxide/image_controller.go:92-247 | a safe import from nothing ends with the file in the image, the temporaries gone, the ID recorded and a nil result |
| ImageVersions.RunKeepsFullInv | internal/controller/oxide/image_controller.go:106-112 | in every run IDs are recorded in the order the images were made, at every program point |
| ImageVersions.RecordedInNewest | internal/controller/oxide/image_controller.go:107 | so if any version the cache can serve records the existing image's ID, the newest does |
| ImageProgress.ReconcileAdvances | internal/controller/oxide/image_controller.go:65-181 | a fault-free reconcile of any version with the finalizer, however old, or of the newest decreases the measure, or changes nothing in Oxide while Oxide is settling or all is done, and returns nil exactly when all is done; one of any other version changes nothing at all |
| ImageProgress.SettlingDecreases | internal/controller/oxide/image_controller.go:171-176 | each settling step that changes anything decreases the measure |
| ImageSchedules.RoundsNeverRegress | internal/controller/oxide/image_controller.go:65-181 | no fault-free reconcile of any version and no settling increases the measure, and one that changes anything in Oxide decreases it |
| ImageSchedules.ActingRoundsAreBounded | internal/controller/oxide/image_controller.go:92-128 | in any schedule of reconciles of any versions and settling at most measure-many rounds act, each paid for by the measure |
| ImageSchedules.ImportCompletes | internal/controller/oxide/image_controller.go:92-128 | from every healthy state some schedule of at most measure + 1 rounds ends with everything done and a nil result |
| ImageSchedules.FairSchedulesFinish | internal/controller/oxide/image_controller.go:92-181 | every fair endless schedule comes to a round from which everything is done for good and every reconcile of a usable version returns nil |
| ImageProgress.FinishPass | internal/controller/oxide/image_controller.go:224-246 | a pass over an accepted body ends with the disk being finalized into the snapshot, however many chunks it takes |
| ImageProgress.RankZeroIsDone | internal/controller/oxide/image_controller.go:106-127 | the measure is zero exactly when the image exists, is recorded and placed, and nothing temporary is left |
| ImageProgress.DoneIsStable | internal/controller/oxide/image_controller.go:93-128 | a further reconcile creates, promotes, demotes and records nothing: the silo fallback finds a promoted image |
| ImageProgress.SnapshotBecomesImage | internal/controller/oxide/image_controller.go:136-154 | a ready snapshot left by an interrupted import becomes the image, contents and all, at the next reconcile |
| ImageController.BodyReader.ReadFull | internal/controller/oxide/image_controller.go:254 | io.ReadFull through the digest's TeeReader: fills the buffer from the body, and tells the three endings apart |
| ImageController.IsZero | internal/controller/oxide/image_controller.go:263 | the buffer's prefix is all zeros |
| ImageController.ImageReconciler.WriteChunks | internal/controller/oxide/image_controller.go:251-272 | a nil result leaves the disk as one whole pass over all bytes read; an error leaves it as the first chunks of such a pass do |
| ImageController.ImageReconciler.WritePadded | internal/controller/oxide/image_controller.go:261-267 | pads in place and writes unless all is zero: exactly the next chunk of the pass, or an error with it done or not |
| ImageController.ImageReconciler.Send | internal/controller/oxide/image_controller.go:98-127 | one call with any interference before it and any fault extends the run and moves to the program point its reply leads to |
| ImageController.ImageReconciler.WriteDisk | internal/controller/oxide/image_controller.go:210-247 | follows the machine from the download to the finalize or the dropped disk, never nil; Failed if and only if the download was refused for good, or the body ended without breaking, every write went through and its digest is not spec.sha256; progressing if and only if the finalize went through |
| ImageController.ImageReconciler.ImportDisk | internal/controller/oxide/image_controller.go:158-181 | one step of the import, chosen by the disk's state; never nil, so no image is taken for made |
| ImageController.ImageReconciler.CreateImportDisk | internal/controller/oxide/image_controller.go:184-204 | follows the machine from the download for the length to the created disk, never nil; a refused download is Failed, a transient failure Erred, a created disk progressing |
| ImageController.ImageReconciler.CreateImage | internal/controller/oxide/image_controller.go:131-154 | an image returned is in the project with the contents of the ready import snapshot; otherwise the reconcile ends without nil |
| ImageController.ImageReconciler.ViewImage | internal/controller/oxide/image_controller.go:333-340 | here, missing, or unknown, with the silo looked at when the project has none |
| ImageController.ImageReconciler.DeleteImport | internal/controller/oxide/image_controller.go:308-318 | snapshot first, disk second; an error stops it |
| ImageController.ImageReconciler.DeleteImportDisk | internal/controller/oxide/image_controller.go:322-330 | stop, finalize without a snapshot, delete; only the last error counts and not-found is none |
| ImageController.ImageReconciler.HandleImageOperations | internal/controller/oxide/image_controller.go:93-128 | an ID is to be recorded exactly when the import was cleaned up, even if promoting or demoting failed |
| ImageController.ImageReconciler.HandleDelete | internal/controller/oxide/image_controller.go:350-374 | follows the machine from the import's deletion to the removed finalizer; Failed exactly when deleting or finding something failed, Deleted exactly when the finalizer went |
| ImageController.ImageReconciler.Reconcile | internal/controller/oxide/image_controller.go:65-90 | one reconcile of any version the cache may serve extends the run and ends it idle with the returned outcome, which is the one its conversation tells |
| ImageController.ImageReconciler.HoldsInEveryRun | internal/controller/oxide/image_controller.go:64-90 | so the controller's world at any moment has the runs' properties: file in the image, placement after nil, no temporaries under a recorded ID |
| ImageController.ImageReconciler.CrashNow | internal/controller/oxide/image_controller.go:171 | a restart may come at any moment: what was going on is forgotten, the world stays, and the run goes on |
| ImageController.ReachesByRun | internal/controller/oxide/image_controller.go:64-90 | a state the methods reach is the end of a run of allowed actions |
| InstanceProofs.ResizeKeepsTheRest | internal/controller/oxide/instance_controller.go:280-298 | a resize sets CPUs and memory and every other field of the instance is as before, although the update replaces them all |
| InstanceProofs.NothingOutlivesTheObject | internal/controller/oxide/instance_controller.go:163-211 | in every run with crashes, faults, interference and reads as old as the cache allows, instance and boot disk exist only under a stored finalizer and are gone when the object is |
| InstanceMachine.CallsDecrease | internal/controller/oxide/instance_controller.go:54-211 | whatever the replies, each call brings a reconcile closer to its return, and it makes at most four |
| InstanceTalk.OutcomesAreTold | internal/controller/oxide/instance_controller.go:54-222 | in every run with any faults and interference, a reconcile that returned is Erred exactly when a reply was an error or the instance viewed has failed at the right size, Nil exactly when without such a reply the instance viewed is as the spec asks, and Progressing otherwise; a deletion is Erred exactly on an error, Progressing exactly when the instance viewed has still to halt, and else Deleted |
| InstanceTalk.EveryCallIsWarranted | internal/controller/oxide/instance_controller.go:83-222 | in every run each call rests on the version and replies of its own reconcile: a stop on a running instance that does not match or must go, a resize on a stopped one of the wrong size, a start on a stopped one of the right size that should run, a delete on one seen halted, the boot disk's only if the spec created it and the instance is gone, the finalizer's removal after both |
| InstanceProofs.DeletionIsOrdered | internal/controller/oxide/instance_controller.go:190-211 | in every run, against the modelled API, an instance goes only when stopped or failed, its boot disk only after it, the finalizer only after both |
| InstanceProofs.AsksToDeleteHalted | internal/controller/oxide/instance_controller.go:196-203 | in every run in which nobody else changes run states, the controller asks to delete an instance only when it is gone, stopped or failed, whatever the API would accept |
| InstanceProofs.AsksInOrder | internal/controller/oxide/instance_controller.go:185-209 | in every run with interference, it asks to delete the boot disk only when the instance is gone and to remove the finalizer only when both are |
| InstanceProofs.AtMostOneOfEach | internal/controller/oxide/instance_controller.go:106-135 | with a fixed spec and no interference, the stops, resizes and starts that take effect are exactly those the instance needs, at most one each, through crashes and late effects |
| InstanceProofs.ResizesOnlyStopped | internal/controller/oxide/instance_controller.go:106-118 | only a stopped instance of the wrong size is ever resized |
| InstanceProgress.ReconcileAdvances | internal/controller/oxide/instance_controller.go:54-153 | each fault-free reconcile of any version with the finalizer, however old, or of the newest decreases the steps to go, waits for Oxide, or finds the instance converged and leaves it, and returns nil in the last case and progressing in the others; one of any other version changes nothing |
| InstanceProgress.RoundsNeverRegress | internal/controller/oxide/instance_controller.go:54-153 | no fault-free reconcile of any version and no settling increases the steps to go, and one that changes the instance decreases them |
| InstanceProgress.ConvergenceEnds | internal/controller/oxide/instance_controller.go:83-153 | from every sound state there is a calm run that ends with the wanted size and power state and a nil result |
| InstanceProgress.FairSchedulesConverge | internal/controller/oxide/instance_controller.go:83-153 | every fair endless schedule comes to a round from which size and power state are as wanted for good and every reconcile of a usable version returns nil |
| InstanceProgress.DeletionAdvances | internal/controller/oxide/instance_controller.go:163-222 | each fault-free reconcile of any version that shows the deletion comes closer to its end or waits for Oxide |
| InstanceProgress.FairSchedulesDelete | internal/controller/oxide/instance_controller.go:163-222 | once a reconcile has read the deletion, every fair endless schedule ends with the object gone and neither instance nor boot disk left |
| InstanceProgress.FailedIsReportedBySize | internal/controller/oxide/instance_controller.go:107-132 | a failed instance is left alone, as an error with the right size and as progressing with the wrong one |
| InstanceProofs.DriftIff | pkg/oxideclient/fetcher.go:78-128 | for every run state the watcher sees drift exactly when the instance needs a stop, resize or start, or is being created or repaired, failed or destroyed |
| InstanceProofs.NeedlessDrift | pkg/oxideclient/fetcher.go:117-128 | an instance of the right size that is being created as wanted, or repaired and wanted running, drifts though it needs nothing |
| InstanceProofs.DriftMeansWork | pkg/oxideclient/fetcher.go:78-128 | for a running or stopped instance the watcher sees drift exactly when the controller's next call is a stop, resize or start |
| InstanceProofs.NoDriftNoCalls | pkg/oxideclient/fetcher.go:117-128 | an instance without drift gets no stop, resize or start in any run without interference |
| InstanceController.Addresses | internal/controller/oxide/instance_controller.go:141-149 | an address is reported exactly when an ephemeral or floating IP with it is listed |
| InstanceController.AddressesInOrder | internal/controller/oxide/instance_controller.go:141-149 | the addresses of a list are those of its parts one after the other: in order, and none twice or dropped |
| InstanceController.InstanceReconciler.InstanceUpdate | internal/controller/oxide/instance_controller.go:282-298 | the request built field by field changes nothing but the size |
| InstanceController.InstanceReconciler.HandleInstanceOperations | internal/controller/oxide/instance_controller.go:83-153 | the outcome is told by the replies: an error exactly on a bad reply or a failed instance of the right size, nil exactly if the instance viewed is as wanted, progressing otherwise; the state recorded is that of the instance viewed or made, if any, and on nil the one wanted; the addresses recorded are, on nil, the reachable ones the instance has, and otherwise as before |
| InstanceController.InstanceReconciler.DeleteInstance | internal/controller/oxide/instance_controller.go:190-211 | nil exactly when only the finalizer is left to remove |
| InstanceController.InstanceReconciler.Reconcile | internal/controller/oxide/instance_controller.go:54-80 | one reconcile extends the run and ends it idle with the returned outcome, which is the one its conversation tells |
| InstanceController.InstanceReconciler.HoldsInEveryRun | internal/controller/oxide/instance_controller.go:54-80 | so the controller never leaves anything without a finalizer |
| Decimal.AtoiOfDec | internal/controller/oxide/instanceset_controller.go:80-107 | parsing a printed index gives it back, exactly up to the int64 range |
| Decimal.AtoiIff | internal/controller/oxide/instanceset_controller.go:107 | what parses is exactly an optional sign, any leading zeros and the decimal digits of an int64 number |
| InstanceSets.SpecNamesFollow | internal/controller/oxide/instanceset_controller.go:88-91 | a named template gives each Instance a distinct Oxide name ending in its index; an unnamed one is copied, and so is everything else |
| InstanceSets.AllReadyIff | internal/controller/oxide/instanceset_controller.go:97-120 | the ready count is complete, and the result nil, exactly when every wanted Instance was ready |
| InstanceSets.CountIsOfReady | internal/controller/oxide/instanceset_controller.go:94-98 | the ready count is the number of wanted Instances that were ready |
| InstanceSets.NameInjective | internal/controller/oxide/instanceset_controller.go:79-81 | the printed name determines the set and the index, even for set names with dashes and digits |
| InstanceSets.IndexOfName | internal/controller/oxide/instanceset_controller.go:107 | trimming and parsing a printed name gives its index |
| InstanceSets.KeepsIff | internal/controller/oxide/instanceset_controller.go:102-110 | the prune loop passes over exactly the names that go on after the prefix, or without it consist, of a numeral below replicas |
| InstanceSets.Namespace.Sync | internal/controller/oxide/instanceset_controller.go:76-121 | a result that is no error leaves the synced store, with every wanted Instance as wanted, and reports the ready count; an error leaves some Instances put, or all put and some children pruned, and needs a failed call or an Instance that another controller owns; no such Instance is ever touched |
| InstanceSets.SyncIsExact | internal/controller/oxide/instanceset_controller.go:76-121 | with labelled names all printed by sync, the children left and not being deleted are exactly the wanted names less those already being deleted before |
| InstanceSets.SyncKeepsPrinted | internal/controller/oxide/instanceset_controller.go:76-121 | a finished sync leaves labelled names printed, so the next one is exact again |
| InstanceSets.SyncIsExactIff | internal/controller/oxide/instanceset_controller.go:102-114 | for every store, the result is exact if and only if no wanted Instance was being deleted and no unwanted name parses to a small index |
| InstanceSets.SyncedHasDesired | internal/controller/oxide/instanceset_controller.go:78-93 | every wanted Instance exists, as its patch made it, and carries the set's label |
| InstanceSets.SyncedIsAsWanted | internal/controller/oxide/instanceset_controller.go:78-93 | the Instance <set>-i has the template's spec with its name followed by -i, the set's label, the template's other labels, every other label it had and no more, the set as owner, and readiness, finalizer and deletion mark as before |
| InstanceSets.StraysExist | internal/controller/oxide/instanceset_controller.go:107-110 | children named with -1, +7 or 007 are kept and are not wanted |
| InstanceSets.NothingDeletedEarly | internal/controller/oxide/instanceset_controller.go:76-114 | at any point a failing sync can stop, something was deleted only if all wanted Instances exist, and never a wanted one |
| InstanceSets.SyncIsIdempotent | internal/controller/oxide/instanceset_controller.go:76-114 | repeating a sync with nothing else changed changes nothing |
| InstanceSets.AllStayPrinted | internal/controller/oxide/instanceset_controller.go:78-114 | under any interleaving of many sets' writes, labelled names stay printed by the set their label names |
| InstanceSets.SetsDoNotInterfere | internal/controller/oxide/instanceset_controller.go:78-114 | no write of a set's sync, however old the list behind it, changes or makes a child of another set, nor deletes an Instance the set wants |
| InstanceSets.InterleavingIsSerial | internal/controller/oxide/instanceset_controller.go:76-121 | however syncs interleave, each set's part of the namespace is what its own writes alone make of it |
| ClientCache.TagInjective | pkg/oxideclient/client.go:74 | since a UID has no slash, the tag determines UID, generation and recorded version |
| ClientCache.TrimmedIsMiddle | pkg/oxideclient/client.go:96 | what is trimmed off a token is all white space |
| ClientCache.TokenAmongBlanks | pkg/oxideclient/client.go:96 | a token with blanks, line ends or other Latin-1 white space around it is taken as the token alone |
| ClientCache.RunKeepsInv | pkg/oxideclient/client.go:73-87 | under any interleaving of callers and rotations every cached entry serves whoever its tag fits |
| ClientCache.ClientsServeTheirCallers | pkg/oxideclient/client.go:72-109 | any caller, however stale its view, gets host and TLS setting of its UID and generation and the trimmed token of a Secret version no older than the recorded one |
| ClientCache.RecordedRotationIsServed | internal/controller/oxide/oxideconnection_controller.go:73-81 | once the current version is recorded, a view that has it gets what building afresh gives |
| ClientCache.ServedIff | pkg/oxideclient/client.go:73-109 | in every run a caller gets again the client of the name's last answered caller exactly if their views agree, even if the Secret is gone or cannot be read; any other caller gets a client of the Secret as it is now, and one exactly when the read works and there is a token |
| ClientCache.Cache.ClientFor | pkg/oxideclient/client.go:73-87 | the answer and the new cache are the run's; a hit answers the cached client, a miss answers one exactly when the read works and the Secret has a token; an error leaves the cache as it was, and entries of other names stay |
| ClientCache.Cache.NewClient | pkg/oxideclient/client.go:90-109 | a client exactly when the calls work, the Secret is there, the key is in its data and some character under it is not white space; it has the spec's host and TLS setting and the trimmed token |
| Connections.InUse | internal/controller/oxide/oxideconnection_controller.go:114-160 | an error exactly when some kind cannot be listed, even if another shows a use; otherwise in use exactly when one of the seven lists shows a resource of its kind whose connection is this one |
| Connections.ConnectionObject.HandleDelete | internal/controller/oxide/oxideconnection_controller.go:97-110 | the finalizer goes exactly when the scan was complete and saw nothing and the update took effect, whatever it reports; a use is looked at again later |
| Connections.WhatAScanMisses | internal/controller/oxide/oxideconnection_controller.go:118-160 | whatever still names the connection after a clear scan appeared after its kind was listed and before the deletion |
| Connections.FreshScanIsSafe | internal/controller/oxide/oxideconnection_controller.go:95-110 | with no new references after the deletion and no list older than it, nothing names the connection once all lists are made and clear |
| Connections.ConnectionOutlivesItsResources | internal/controller/oxide/oxideconnection_controller.go:95-97 | so at any moment a resource names the connection, the connection is still there |
| Connections.ScanIsSafeIff | internal/controller/oxide/oxideconnection_controller.go:97-160 | the scan is safe for every cluster history if and only if no list is older than the deletion |
| Verdict.AsFindsFirst | internal/controller/oxide/helpers.go:99-104 | what errors.As finds is in the tree, at a path before which nothing of the kind occurs |
| Verdict.AsIffContains | internal/controller/oxide/helpers.go:99-104 | errors.As finds something if and only if it occurs anywhere in the tree, through joins and wraps |
| Verdict.DecisionIsGrade | internal/controller/oxide/helpers.go:88-111 | progressing exactly when the tree contains progress and no failure, Ready exactly on nil, an error returned otherwise; terminal whenever it contains a failure and, unless the tree was already marked terminal, only then |
| Verdict.MessageIs | internal/controller/oxide/helpers.go:93-116 | of a failure or other error, condition and returned error have the first API error's short form if it has one and the whole text otherwise; of progress the condition has the whole text |
| Verdict.UnscheduledIff | internal/controller/oxide/helpers.go:88-116 | nothing is scheduled exactly for failures and for errors already marked terminal that no API error hides |
| Verdict.OnlyFailuresAreUnscheduled | internal/controller/oxide/helpers.go:88-116 | without such marks, exactly failures are left unscheduled |
| Verdict.JoinIsAsBadAsItsWorst | internal/controller/oxide/helpers.go:100 | a joined error is graded as its worst part in any order, so a failure joined with a progressing cleanup stays a failure |
| Verdict.JoinedText | internal/controller/oxide/helpers.go:99-106 | the message of a join of any parts is their texts on lines of their own |
| Verdict.PartsInOrder | internal/controller/oxide/image_controller.go:238 | errors.Join drops the nils and keeps the other parts in order |
| Verdict.TextHoldsEveryPart | internal/controller/oxide/helpers.go:99-106 | however deep an error is wrapped or joined, its text stands in the text of the whole |
| Verdict.FailureTextIsKeptIff | pkg/oxideclient/errors.go:29-38 | for every error with a failure in it, the Failed condition has the whole error's text if and only if no API error has a short form or the first one's is that text |
| Verdict.CleanupCanHideTheReason | pkg/oxideclient/errors.go:29-38 | a failure joined with an API error: its text is lost |
| Verdict.SetConditionFinds | internal/controller/oxide/helpers.go:112 | looked up by kind, the condition set is the one given and every other is as before |
| Verdict.SetConditionReplaces | internal/controller/oxide/helpers.go:112 | the condition takes the place of the first of its kind, or comes last if there is none; no other condition moves or changes |
| Verdict.Status.SetReady | internal/controller/oxide/helpers.go:93-117 | the object is Ready exactly on nil; its Ready condition is replaced in place or added, so one of that kind stays one, and every other condition stays where it is; a warning is emitted exactly when an error is returned |

## Left out

- Images from `spec.snapshot` (no url): creating one is a single call with no temporaries.
- Two leaders at once, and calls still in flight that take effect after a crash and the next reconcile.
- Deletion with `deletionProtection`, which cleans up nothing.
- ImageRemoval.UndisturbedDelete: one reconcile; image deletion errors are terminal, so nothing is said of later ones.
- InstanceProofs.AtMostOneOfEach: excludes failed instances and interference, because the code does not converge them.
- InstanceProgress.FairSchedulesConverge: calls go through; a schedule in which they fail for ever need not converge. The same holds of FairSchedulesDelete and of ImageSchedules.FairSchedulesFinish.
- InstanceProofs.NoDriftNoCalls: about runs without interference; what else the watcher calls is not modelled.
- ImageDeletion.GoneMeansNothingLeft: needs the race excluded, because with it the statement is false (LeavesBehindIffSnapshotting).
- InstanceSets.Namespace.Sync: its list is of the current store and no other set writes during it; old lists and interleaving are in SetsDoNotInterfere and InterleavingIsSerial.
- ClientCache.Cache.ClientFor: the mutex is taken to make it one atomic step; one Secret read per call.
- HTTP, TLS, base64 and the SDK's error decoding; HTTP 400 from a view counts as not found, as in `viewImage`.
- SHA-256 is an arbitrary function on byte sequences, injective only where a theorem says so.
- Status fields other than the recorded ID, state and addresses, condition timestamps, and status patches that fail after an error.
- `ImportName`: the temporaries' name, and the collision of truncated names with equal UID prefixes.
- `instanceCreate` and firewall rules: field-by-field translation.
- Project, Vpc, VpcSubnet, Disk and Snapshot controllers: the same create-and-finalize shape with fewer steps.
- The reconcile-mode annotation, events other than the verdict's warning, and logs.
