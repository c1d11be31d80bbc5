# Verification of the file mover, the atomic uploads and the log calendar

This project models four pieces of the repository over one abstract filesystem and
proves what they promise. A path is a sequence of names, a filesystem is a finite map
from paths to directories or file contents (`FileSystem.dfy`), and everything the
programs do not control is a parameter: the order in which directories list their
entries, which calls fail and where a copy breaks off, and the order in which threads,
requests and uploads take their steps.

* **The job engine** (`TreeWalk`, `Jobs`, `Sums`, `TransferPool`, `TransferProofs`,
  `TransferTheorems`, `AnyPlan`, `SingleThread`, `Schedules`, `Collisions`,
  `Determinism`, `ByteCount`, `Chains`, `MoveJob`, `Directories`, `MoveTheorems`,
  `FastPath`, `Overlap`, `JobCollisions`, `AnyDestination`, `Examples`, `DeletePool`,
  `DeleteJob`). The walks are methods on their accumulators. The worker pool is a state
  machine whose steps are the single calls a worker makes (claim, stat, announce, rename,
  open, copy one buffer, remove, count, report, tally), so a run is any sequence of worker
  numbers. `TransferTheorems` states the result of every run against one thread that takes
  the files in list order, and `SingleThread` proves that one thread does that; `AnyPlan`
  says what holds of every run even where files go to places other files still have to
  come from, and `Determinism`, `ByteCount` and `Chains` say exactly when that shows,
  with schedules made by `Schedules`. `MoveJob.RunJob` and `DeleteJob.RunDeleteJob` are
  the whole jobs, for any two paths; `Overlap` says when a move of overlapping paths is
  safe, and `JobCollisions` when what a job leaves depends on the schedule.
* **The search** (`SearchWalk`, `SearchRun`) streams into a shared record; its result is
  stated against the unbounded list of matches, which is characterised without the walk.
* **The registry and the request handler's choice of a destination** (`PathText`,
  `Registry`, `FreeName`). Jobs carry the texts of their requests, which is what the
  registry compares.
* **The uploads** (`Decimal`, `Padding`, `TempNames`, `Upload`, `UploadServer`,
  `Namespace`). `Upload.AtomicFile` is the handle, `UploadServer` any number of handles
  with crashes, `Namespace` any number of PUT and MKCOL requests overtaking one another
  between their calls. SHA-256 is an arbitrary function of the bytes.
* **The sequential copier** of the privileged helper (`HelperCopy`), compared with the
  parallel job for every outcome of every call (`HelperTheorems`).
* **The calendar** (`Gregorian`, `Calendar`, `Timestamp`): the era formula on 64-bit
  integers against the leap-year rule of Appendix C of RFC 3339, and the text of a
  timestamp.

`dafny verify dfyconfig.toml` checks all of it.

What the proofs bring to light about the code:

* A move of a directory, with no call failing and under any schedule, keeps every file
  exactly if none of them goes to a place inside the source
  (`Overlap.MoveSurvivesExactly`). Nothing checks that: the handler refuses only equal
  paths, and compares them before it changes the name (`src/bin/file-mover.rs:1023`,
  `src/bin/file-mover.rs:1034`). A destination below the source loses files
  (`Examples.DestinationBelow`), one above it can lose them (`Examples.DestinationAbove`)
  or be safe (`Examples.OverlapCanBeSafe`), and a changed name can be the source itself.
  `FreeName.GoesBelow`, `FreeName.GoesOnto` and `FreeName.GoesAbove` say exactly which
  requests get through with such a destination.
* Where a file goes to the place of another that is still to be moved, the schedule can
  decide what is left. With two threads or more, every schedule of the pool leaves the same
  exactly if in a move no file goes to the place of another, and in a copy only empty files
  to the places of empty files (`JobCollisions.PoolAlikeExactly`; for what a move of a
  directory leaves in the end, after its source has been removed,
  `JobCollisions.MoveAlikeExactly`). With one thread there is one outcome.
* The bytes counted can exceed the total: exactly if some file goes to the place of a
  smaller one (`JobCollisions.RecordSaneExactly`). `Examples.CollisionDependsOnSchedule` and
  `Examples.CollisionOvercounts` are inputs for both that the handler lets through.
* The registry compares request texts (`src/bin/file-mover.rs:1099-1104`) while the job
  works on the path a text denotes, so a path that is spelled in two ways can be moved
  twice at once (`Registry.TwoSpellings`); `Registry.CoexistExactly` says which requests
  can be under way together.
* The status of a finished transfer is "done" even after failures
  (`src/bin/file-mover.rs:626`); the error field is the signal, and it is set exactly when
  some file failed. A directory that cannot be made is no error of its own: it only shows
  in `done_dirs`. A file whose size cannot be read (`src/bin/file-mover.rs:555`) is
  copied without an error while its bytes go uncounted
  (`Examples.StatFailureHidesBytes`); `TransferTheorems.BytesComplete` says exactly when
  the bytes are complete.
* A search that is not marked truncated may still have missed matches when it found
  exactly 1000: the check on entering a directory returns silently
  (`src/bin/file-mover.rs:323-328`). `SearchRun.SearchFinds` gives the exact condition.
* After a write that broke off, the byte counter is ahead of the file
  (`src/autofs.rs:423`, `src/autofs.rs:458`), and a flush can then publish a short file
  (`Upload.ShortFileAfterFailedWrite`), which the comment on the type rules out. Over
  whole runs a publication has its announced length exactly when no write of that upload
  left bytes unwritten (`UploadServer.PublishedWholeExactly`). A flush of an incomplete
  upload answers success without publishing (`src/autofs.rs:380-393`).
* The helper may copy files of a tree that it cannot read to the end; the job does
  nothing at all then (`HelperTheorems.HelperCopiesSubset`,
  `HelperTheorems.HelperMayCopyMore`).
* The comment on `walk_delete` speaks of post-order; the code records directories before
  their contents (`src/bin/file-mover.rs:742-747`), and the sweep depends on that.

## Model

| member | source | states |
|---|---|---|
| FileSystem.MkdirAllSucceeds | src/bin/file-mover.rs:517-528 | making a directory with all its parents works if and only if no component is a file and none that is missing is refused |
| TreeWalk.PreorderVisits | src/bin/file-mover.rs:210-228 | the walk order holds exactly what is at or below the root, once each, directories before their contents, for every listing order |
| TreeWalk.Walk.WalkFiles | src/bin/file-mover.rs:210-228 | the walk succeeds if and only if everything below is readable, and then has pushed the files, directories and bytes of the preorder, with their relative paths |
| TreeWalk.DeleteWalk.Collect | src/bin/file-mover.rs:736-756 | the same for the walk of a delete, with whole paths |
| Jobs.CurrentIsLatest | src/bin/file-mover.rs:520-526 | the list of current paths always is the latest six announced, in order |
| Jobs.FirstErrorStays | src/bin/file-mover.rs:598-607 | of several failures the first is kept |
| TransferPool.TargetPathInjective | src/bin/file-mover.rs:256-262 | no two walked files share a target, and the empty remainder maps to the destination itself |
| TransferProofs.StepInv | src/bin/file-mover.rs:548-615 | every atomic step of every worker keeps the invariant: each index held once, each file as far as its holder's phase says, counters equal to the sums over the files that are past them |
| TransferTheorems.TransferOneLocal | src/bin/file-mover.rs:562-595 | how a file fares depends on its own two places only |
| TransferTheorems.InOrderShows | src/bin/file-mover.rs:548-615 | one thread in list order leaves each file's own outcome at its places and nothing else changed |
| TransferTheorems.EveryScheduleAgrees | src/bin/file-mover.rs:530-618 | if no file goes where one still has to come from: for every number of workers, every interleaving and whatever fails, a pool that has stopped has the filesystem, failures, files and bytes of one worker in list order, and an error if and only if some file failed |
| Determinism.AlikeExactly | src/bin/file-mover.rs:530-618 | with two workers or more and no call failing, all interleavings leave the same, namely what list order leaves, if and only if no file is moved to the place of another and none is copied there unless both are empty |
| Determinism.QuietMeans | src/bin/file-mover.rs:530-618 | for a move between different paths that condition is that no file goes where one still has to come from |
| SingleThread.OneThread | src/bin/file-mover.rs:530-618 | one worker leaves what list order leaves, for every plan and whatever fails |
| Collisions.MovesDiffer | src/bin/file-mover.rs:530-618 | for every two files of which one is moved to the place of the other: one interleaving of two workers leaves a file there, another none |
| Collisions.CopiesDiffer | src/bin/file-mover.rs:530-618 | for every two files of which one is copied to the place of the other and not both are empty: two interleavings that leave different files |
| Chains.OutsideAlikeExactly | src/bin/file-mover.rs:530-618 | if all files are renamed and each has a worker, all interleavings leave the same outside the source if and only if every file that comes to the place of another, from where a way leads out, has the same content |
| AnyPlan.StepGeneral | src/bin/file-mover.rs:530-618 | every step of every worker keeps the general invariant, also where files collide |
| AnyPlan.StoppedTallied | src/bin/file-mover.rs:608-618 | then too, when all workers have stopped every file is tallied and an error is set if and only if a failure was counted |
| AnyPlan.NothingFails | src/bin/file-mover.rs:548-615 | and if no call is refused, nothing is in the way and every file can be placed, nothing fails on any schedule |
| TransferTheorems.NothingLost | src/bin/file-mover.rs:548-615 | in every state of every run each file is whole at its source or its target, and for a copy at its source |
| TransferTheorems.OthersUntouched | src/bin/file-mover.rs:548-615 | nothing outside the two trees changes in any state |
| ByteCount.CountersSane | src/bin/file-mover.rs:491-495 | if no file goes to the place of a smaller one: at every moment of every run the counters are within the totals and at most six paths are current, whatever fails |
| ByteCount.WithinExactly | src/bin/file-mover.rs:555-614 | with no call failing and a worker for each file, the bytes counted stay within the total on every interleaving if and only if no file goes to the place of a smaller one |
| TransferTheorems.BytesComplete | src/bin/file-mover.rs:555-614 | at the end all bytes are counted if and only if every non-empty file arrived and its size could be read |
| AnyPlan.StepDecreases | src/bin/file-mover.rs:548-552 | every step of a worker that has not stopped lowers a measure, so every run ends, also where files collide |
| MoveJob.WalkLists | src/bin/file-mover.rs:481-495 | the job's lists are the files and the directories of the source tree, parents first |
| MoveJob.MakeDirsExact | src/bin/file-mover.rs:517-528 | with a fresh destination and nothing refused exactly the walked directories appear |
| Directories.JobMakes | src/bin/file-mover.rs:517-528 | with any destination the loop makes exactly the directories no file and no refusal is in the way of, and nothing that does not lead to one of them |
| Directories.FilePlaces | src/bin/file-mover.rs:517-528 | after it a file can be placed if the initial filesystem says so, and only then if all directories could be made |
| MoveJob.PlanValid | src/bin/file-mover.rs:532-543 | the plan of a job meets the pool's premise if and only if no walked file goes to the place of a walked file |
| MoveJob.PoolAgrees | src/bin/file-mover.rs:530-624 | for any two paths for which that is so, every schedule leaves what one thread in list order leaves |
| JobCollisions.PoolAlikeExactly | src/bin/file-mover.rs:530-618 | if no call fails and there are two threads or more, every schedule of a job's pool leaves the same if and only if no walked file goes to the place of another, or both are empty and are copied |
| JobCollisions.QuietEnds | src/bin/file-mover.rs:530-624 | then the job ends with what list order leaves |
| JobCollisions.CopyAlikeExactly | src/bin/file-mover.rs:530-626 | a copy ends alike on every schedule if and only if its files are quiet in that sense |
| JobCollisions.MoveAlikeExactly | src/bin/file-mover.rs:530-624 | a move of a directory whose files are renamed, with a thread for each, ends alike on every schedule if and only if files that come to the places of others, from where a way leads out of the source, are the same as those |
| JobCollisions.MoveAlike | src/bin/file-mover.rs:530-624 | one half of that for any number of threads |
| JobCollisions.OneThreadEnds | src/bin/file-mover.rs:530-624 | with one thread a job has one outcome, whatever the paths are and whatever fails |
| JobCollisions.RecordSaneExactly | src/bin/file-mover.rs:475-627 | if no call fails and there is a thread for each file, the record is within its bounds at every moment if and only if no file goes to the place of a smaller one |
| MoveJob.RunJob | src/bin/file-mover.rs:475-627 | the whole job for any two paths: an unreadable source changes nothing, the fast path renames the tree, and otherwise the result is that of some schedule, with all files tallied and an error if and only if one failed; the counters are within the totals if no file goes to the place of a smaller one, and if none goes to the place of any, it is the result of every schedule |
| MoveJob.TransferTree | src/bin/file-mover.rs:517-626 | the slow path for any two paths: directories, pool, and the source removed only when nothing failed |
| MoveJob.MakeDirectories | src/bin/file-mover.rs:517-528 | the loop makes what the fold over the list says and counts the directories made |
| MoveTheorems.MoveLosesNothing | src/bin/file-mover.rs:497-624 | if no file goes to a place inside the source: at every moment of a move, in the middle of a copy, after any failure, and during the removal of the source, each file's whole content is at its old or new place |
| MoveTheorems.JobStaysInside | src/bin/file-mover.rs:475-627 | for any two paths and at every moment, what has changed are directories leading to or in the destination, the places files go to, and for a move the source |
| MoveTheorems.OutsideStays | src/bin/file-mover.rs:475-627 | so outside both trees nothing changes but for new directories leading to the destination, and a copy to elsewhere keeps its source |
| MoveTheorems.FreshOverwritesNothing | src/bin/file-mover.rs:1032-1034 | a job to a name that was free changes no existing entry outside its source, at any moment |
| MoveTheorems.RecordSane | src/bin/file-mover.rs:475-627 | at every lock release of the whole job, walk, directories and pool, files, directories and current paths are within their bounds, and bytes too if no file goes to the place of a smaller one |
| FastPath.FastEqualsSlow | src/bin/file-mover.rs:503-624 | with a fresh destination and no failing call the piecemeal move leaves the filesystem of the whole-tree rename |
| FastPath.SlowCountersComplete | src/bin/file-mover.rs:508-513 | the slow path's counters end where the fast path sets them |
| AnyDestination.DriveNeverMatters | src/bin/file-mover.rs:477-479 | onto any destination, fresh or there already: if no call fails and no file goes to the place of another, neither the drives, the listing order, the number of threads nor single renames that fall back show in what a job leaves |
| Overlap.ClearNothingFails | src/bin/file-mover.rs:548-615 | if the initial filesystem and the calls stand in nothing's way, nothing fails on any schedule and for any two paths |
| Overlap.MoveSurvivesExactly | src/bin/file-mover.rs:497-624 | for any two paths, no call failing and any schedule: every file of a moved directory survives if and only if none of them goes to a place inside the source; a single file unless it is moved onto itself without a rename |
| Overlap.InsideLost | src/bin/file-mover.rs:620-624 | a file that does go there is gone from both its places in the end |
| Examples.DestinationBelow | src/bin/file-mover.rs:1023-1028 | a directory, a destination inside it, no failing call, and the file lost on every schedule |
| Examples.DestinationAbove | src/bin/file-mover.rs:1021-1037 | the same with a destination above the source, which a merge into the root chooses |
| Examples.OverlapCanBeSafe | src/bin/file-mover.rs:1021-1037 | a destination above the source that keeps the file on every schedule |
| Examples.CollisionDependsOnSchedule | src/bin/file-mover.rs:1021-1037 | a merge into the root, no failing call, and two schedules after which the job has left different files |
| Examples.CollisionOvercounts | src/bin/file-mover.rs:1021-1037 | the same merge, and a moment at which more bytes are counted than there are |
| Examples.StatFailureHidesBytes | src/bin/file-mover.rs:555-555 | a copy without error that ends with fewer bytes done than in total |
| DeletePool.StepInv | src/bin/file-mover.rs:683-708 | every step of the deleting threads keeps their invariant |
| DeletePool.EveryScheduleDeletes | src/bin/file-mover.rs:677-710 | for every number of threads and every interleaving of them, both of the following hold when all have stopped |
| DeletePool.PoolDeletes | src/bin/file-mover.rs:677-710 | when all threads have stopped, exactly the files that cannot be removed are left |
| DeletePool.PoolCounts | src/bin/file-mover.rs:696-706 | removed and failed files add up to all, and an error is set if and only if one failed |
| DeleteJob.RemovableNow | src/bin/file-mover.rs:713-722 | in reverse order a directory can be removed if and only if nothing in it was pinned |
| DeleteJob.SweepDirs | src/bin/file-mover.rs:713-726 | the sweep leaves exactly the directories above something that cannot be removed and counts the others |
| DeleteJob.RecordSane | src/bin/file-mover.rs:632-731 | at every lock release of a tree delete the counters are within the totals and at most six paths are current |
| DeleteJob.RunDeleteJob | src/bin/file-mover.rs:632-731 | a delete leaves exactly what cannot be removed and the directories above it; counters, status and error match, for a tree and for a single file |
| SearchWalk.VisitsReach | src/bin/file-mover.rs:316-369 | the search comes past exactly the entries that can be got to through readable directories, once each |
| SearchWalk.Search.WalkSearch | src/bin/file-mover.rs:316-369 | from any state of the record: the first matches are added as long as there is room, and truncation is set if and only if one more is noticed |
| SearchRun.AllHitsMeans | src/bin/file-mover.rs:333-361 | which entries there are to find, without the walk, and none twice |
| SearchRun.VisitsArePreorder | src/bin/file-mover.rs:333-368 | with everything readable the search goes in preorder |
| SearchRun.SearchFinds | src/bin/file-mover.rs:316-369 | the first min(1000, total) matches in order; fewer than 1000 is complete; truncated means exactly 1000 of more, and when it is set |
| SearchRun.SortSorts | src/bin/file-mover.rs:376-381 | sorting by path gives a sorted permutation |
| SearchRun.RunSearch | src/bin/file-mover.rs:371-384 | the finished list is the sorted permutation of those first matches |
| Registry.NeverTwoAtOnce | src/bin/file-mover.rs:1087-1131 | in every reachable state at most one move per source text and one copy per pair of texts is queued or running |
| Registry.CoexistExactly | src/bin/file-mover.rs:1098-1109 | two moves, or two copies, can be under way at once if and only if their source texts differ, or for copies their destination texts |
| Registry.TwoSpellings | src/bin/file-mover.rs:1098-1109 | so every path but the root can be moved twice at once, by a text and the same text with a slash behind it |
| PathText.TextDenotes | src/bin/file-mover.rs:1021-1021 | the text of a path denotes that path |
| PathText.SlashDenotes | src/bin/file-mover.rs:1021-1021 | a slash behind a text does not change what it denotes |
| Registry.EveryRequestAnswered | src/bin/file-mover.rs:1097-1131 | a request gets its own job if and only if no active job has its texts; a deduplicated answer names one that does |
| Registry.StatusOnlyAdvances | src/bin/file-mover.rs:475-476 | along every run a job stays the same job, its status only advances, and a finished one never changes |
| Registry.IdsAreFresh | src/bin/file-mover.rs:1097-1097 | an id that is drawn was in no earlier state |
| Registry.Shared.DrawId | src/bin/file-mover.rs:1097-1097 | the counter hands out its value and moves on: a step of the transition system |
| Registry.Shared.Register | src/bin/file-mover.rs:1098-1131 | look-up and insertion under the lock are one step: a duplicate answers, otherwise the new job is inserted |
| Registry.Shared.RegisterDelete | src/bin/file-mover.rs:1290-1310 | deletes are inserted without a look-up, again one step |
| Registry.Shared.JobUpdate | src/bin/file-mover.rs:202-208 | what a worker changes in its job is one of its steps, and nothing if the job is not there |
| FreeName.StemAndExtension | src/bin/file-mover.rs:163-172 | stem and extension make up the name again, and when there is an extension |
| FreeName.CandidatesDiffer | src/bin/file-mover.rs:173-179 | all numbered names are beside the original and differ from it and from one another |
| FreeName.FreeDst | src/bin/file-mover.rs:159-180 | the lowest free number is chosen; a taken name is returned if and only if the name and all its numbers are taken (the helper's copy of the function, src/bin/file-mover-sudo.rs:91-112, is the same) |
| FreeName.Decide | src/bin/file-mover.rs:1021-1049 | which requests are refused, and where the others go: the destination itself, or the lowest free number |
| FreeName.GoesBelow | src/bin/file-mover.rs:1021-1049 | a request gets through with a destination below its source if and only if the client named the source or something in it |
| FreeName.GoesOnto | src/bin/file-mover.rs:1023-1034 | with the source itself if and only if the name is changed, all numbers are taken and the source is the last of them |
| FreeName.GoesAbove | src/bin/file-mover.rs:1021-1049 | with one above it exactly when the client named a directory above it that has the source's name on the way, or the last number is on it |
| TempNames.TempNameInjective | src/autofs.rs:206-216 | two uploads share a temporary name only with the same name and slot |
| TempNames.TempPathInjective | src/autofs.rs:205-216 | the same for whole paths |
| TempNames.TempPathReserved | src/autofs.rs:210-216 | temporary files always have the reserved shape |
| TempNames.CreateTemp | src/autofs.rs:205-231 | the lowest free slot is taken; "exists" is reported if and only if all sixteen are taken |
| Upload.DrainPrefix | src/autofs.rs:434-454 | however writes are cut short, a prefix of the buffer is written, and all of it if and only if no write failed |
| Upload.AtomicFile.WriteAll | src/autofs.rs:412-426 | file, counter and hasher after a write, also one that breaks off |
| Upload.AtomicFile.WriteChunks | src/autofs.rs:428-461 | the loop over chunks and short writes does what the recursive definition says |
| Upload.AtomicFile.Finish | src/autofs.rs:349-410 | commit, as flush and metadata call it: checksum, completeness, rename, and the recorded digest |
| Upload.AtomicFile.Release | src/autofs.rs:494-501 | dropping removes the temporary file unless committed |
| Upload.WritesStayCoupled | src/autofs.rs:412-461 | successful writes of either kind keep file, counter and hash in step, and are the same |
| Upload.CoupledExactlyWhen | src/autofs.rs:412-461 | exactly after which write a handle that was in step still is |
| Upload.CommitPublishes | src/autofs.rs:349-393 | a commit of a coupled upload publishes exactly the received bytes, of the announced length and checksum; when it succeeds without publishing |
| Upload.ShortFileAfterFailedWrite | src/autofs.rs:423-424 | after a failed write a flush can publish a file shorter than announced |
| UploadServer.StepInv | src/autofs.rs:325-501 | every step of every upload keeps the server's invariant |
| UploadServer.PublishedOrInitial | src/autofs.rs:349-393 | over all interleavings and crashes a target has its initial content or what was last published, one upload's bytes, never a mix; each upload publishes at most once |
| UploadServer.PublishedWholeExactly | src/autofs.rs:349-461 | every publication of every run has the announced length, and all bytes offered, if and only if no write of its upload left any unwritten; and a checksum that was checked is that of the data if and only if the hasher was never ahead of the file |
| UploadServer.TempsComeAndGo | src/autofs.rs:205-231 | in crash-free runs the temporary files are those of the start and one per streaming upload; with all uploads dropped they are as at the start |
| UploadServer.DropTouchesNothingElse | src/autofs.rs:494-501 | a drop removes at most its own temporary file, which is no target and nobody else's |
| Namespace.AutoMkcolFs.EnsureParent | src/autofs.rs:70-85 | parents are made when the option is on and the parent is not the root |
| Namespace.AutoMkcolFs.Open | src/autofs.rs:89-139 | the order of the checks of an atomic PUT and what each answers |
| Namespace.AutoMkcolFs.CreateDir | src/autofs.rs:161-168 | parents first, then the collection itself strictly |
| Namespace.AnyOrderServes | src/autofs.rs:70-168 | requests that fit together may overtake one another between any two calls, also between the single directories on the way to a parent and between the checks of an upload: every PUT is created, every collection is there, and the tree is determined |
| Namespace.AloneMakesAll | src/autofs.rs:70-85 | if nothing comes between them, those single calls do what `create_dir_all` does in one go |
| Namespace.AloneChecks | src/autofs.rs:106-128 | and the single checks of an upload answer what all of them together do |
| Namespace.OrdersAgree | src/autofs.rs:70-168 | any two orders end in the same tree |
| Namespace.StepsFinish | src/autofs.rs:89-168 | every call brings a request nearer to its answer and changes no other's state, so it is answered after a number of calls that grows with its depth only |
| Namespace.ParentsMatter | src/autofs.rs:70-85 | without the option a PUT is refused if and only if its parent is missing, with it never for that reason |
| HelperCopy.Disk.CopyFile | src/bin/file-mover-sudo.rs:43-60 | the read and write loop copies the whole file or what preceded the error |
| HelperCopy.Disk.CopyRecursive | src/bin/file-mover-sudo.rs:62-73 | the recursion on the live filesystem is the fold over the preorder that stops at the first failure |
| HelperTheorems.HelperLays | src/bin/file-mover-sudo.rs:62-73 | the helper gets past an entry if and only if it and all before it are good by the initial filesystem, and what it then has laid out |
| HelperTheorems.HelperAgreesWithJob | src/bin/file-mover-sudo.rs:62-73 | for every outcome of every call the helper succeeds if and only if the job makes all directories and no file fails, and then the filesystems are equal |
| HelperTheorems.HelperCopiesSubset | src/bin/file-mover-sudo.rs:62-73 | every file the helper copies completely the job delivers, except exactly when the tree is unreadable for the job and some file, with all the walk comes past before it, can be copied |
| HelperTheorems.NoneCopied | src/bin/file-mover-sudo.rs:62-73 | the helper copies no file at all if and only if no file is in reach by the initial filesystem |
| HelperTheorems.HelperMayCopyMore | src/bin/file-mover-sudo.rs:62-73 | a tree for which that exception occurs |
| Gregorian.NextDayCounts | src/logging.rs:118-129 | counting days agrees with stepping from day to day under the leap-year rule |
| Gregorian.CountOrders | src/logging.rs:118-129 | counting orders the dates and tells them apart |
| Calendar.EraRange | src/logging.rs:120-121 | division towards zero of the adjusted number is the floor, so the day of the era is in range |
| Calendar.YearOfEraRight | src/logging.rs:122-124 | the four divisions find the year; the day of the year is in range and neither subtraction underflows |
| Calendar.CivilInverts | src/logging.rs:118-129 | on every input that does not overflow the date is valid and its count is the input |
| Calendar.CivilReaches | src/logging.rs:118-129 | every valid date in range comes from its own day number |
| Calendar.CivilIsStepped | src/logging.rs:118-129 | n days after any day is its n-th next day |
| Calendar.CivilFromEpoch | src/logging.rs:117-129 | in particular from 1970-01-01 on, and up to it |
| Timestamp.FieldsReconstruct | src/logging.rs:109-115 | the six fields are a valid date and time and give the second back |
| Timestamp.TimestampRoundTrip | src/logging.rs:109-115 | the second can be read off the text, for every 64-bit input |
| Timestamp.TimestampInjective | src/logging.rs:109-115 | different seconds have different texts |
| Timestamp.FixedWidth | src/logging.rs:114-114 | the text has 19 characters if and only if the year is below 10000 |
| Timestamp.TimestampOrder | src/logging.rs:109-115 | up to then later seconds have lexicographically greater texts |
| Timestamp.OrderEndsThere | src/logging.rs:114-114 | at that point the order breaks |

## Left out

- MoveTheorems.MoveLosesNothing: the moments inside one `create_dir_all` are not told apart, in a job the directories of one call appear at once.
- Overlap.MoveSurvivesExactly: when calls fail only one half is claimed, by `MoveTheorems.MoveLosesNothing`; what a failing move of overlapping paths leaves depends on where it stops.
- FastPath.FastEqualsSlow: for a destination that is absent with its parent there; otherwise the whole tree is never renamed, and `AnyDestination.DriveNeverMatters` compares the slow paths.
- TransferTheorems.EveryScheduleAgrees: which of several failing files the error names depends on the schedule, so only whether one is named is claimed.
- Determinism.AlikeExactly: for pools in which no call fails; where files collide and calls fail only what `AnyPlan.StepGeneral` keeps is claimed.
- JobCollisions.MoveAlikeExactly: for moves whose files are all renamed; where a rename falls back to copying, `JobCollisions.PoolAlikeExactly` says what shows before the source is removed. That the schedule shows when they do not match is for a thread for each file, and the code takes eight at most.
- JobCollisions.RecordSaneExactly: needs a thread for each file; with fewer, one half holds, which is `MoveTheorems.RecordSane`.
- AnyPlan.StepGeneral: an open file is read under its name, so where files collide a copy that is overtaken in its middle is not that of the handle; the results about collisions do not interleave two copies but at the opening of a target.
- MoveJob.RunJob: the text of errors is reduced to the path concerned, and the paths that are current at the end are only bounded.
- UploadServer.PublishedOrInitial: targets with the reserved shape of temporary names are not uploaded to, and no handle seeks or reads; the digest attribute is only part of `Upload.AtomicFile.Finish`.
- Upload.AtomicFile.Finish: the existence check for uploads that must not overwrite is made on opening only, as in the code, so exclusivity is not claimed.
- Namespace.AnyOrderServes: temporary files, which never have the name of a request that does not use the reserved shape, are not in the tree; free space is a given answer per request.
- HelperCopy.Disk.CopyRecursive: asks that no entry goes to a place inside the source; otherwise the recursion comes past its own work, and ends only where a path becomes too long.
- HelperTheorems.HelperAgreesWithJob: for a source tree that the job can read; `HelperTheorems.HelperCopiesSubset` says what happens otherwise.
- Registry.NeverTwoAtOnce: ids and counters are unbounded; the 64-bit wrap-around is not modelled.
- PathText.TextDenotes: texts are absolute, and a component `..` is a name like any other.
- FreeName.FreeDst: the filesystem root has no name to number, and is no final destination: `FreeName.Decide` shows that no request gets there; empty path strings are refused before this point.
- SearchWalk.Search.WalkSearch: which names match is an arbitrary predicate; parsing the query and lower-casing are not modelled, and neither is a record removed during the search.
- Symbolic links, permissions, modification times, FUSE caching and other programs writing to the same trees.
- fsync durability, `statvfs`, the xattr system call, and parsing of the checksum header (its result is a field of the handle).
- `AtomicFile::seek`, `read_bytes`, partial PUT, and everything inside `dav-server` and `LocalFs`; strict `create_dir` is taken to be the operating system's.
- The helper's move with merge, `list_entries`, `put`, `rename`, and running the helper through sudo.
- TLS, HTTP, authentication, the update webhook, the browser UI, scripts and units.
- Reading the clock, writing the log file, and log levels.
