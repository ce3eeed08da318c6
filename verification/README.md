# Verified models of the image workspace's shared machinery

This project models, in Dafny, the parts of the workspace whose correctness depends on order, failure and
timing, and proves what they promise over every input, schedule or run.

- `Slots.dfy`: the bounded parallel map. Threads claim indices from an atomic counter, read a relaxed and
  possibly stale hint of the lowest failure, and leave outcomes that a merge puts back in order. Every
  schedule gives what a sequential map gives.
- `TempNames.dfy`, `Publishing.dfy`, `PublishingOutcome.dfy`, `PublishingCalls.dfy`, `PublishingClashes.dfy`,
  `PublishingCrashes.dfy`, `AtomicFile.dfy`:
  atomic publication of files. `Publishing` is a machine of any number of concurrent writers over a disk with a
  volatile and a durable part, in which every call can fail and a crash can come at any point;
  `PublishingOutcome` proves what an outcome tells and what is left on the disk, and `PublishingCalls` which
  calls an outcome comes of; `PublishingClashes` proves
  exactly when writers whose processes share an id can hurt one another, and `PublishingCrashes` exactly which
  destinations a crash can tear; `AtomicFile` is the code one writer
  runs, with any steps of the others between its calls, each of its calls a step of that machine.
- `RowGroups.dfy`: rows driven through a vector step one group at a time, with an overlapping or a padded
  last group, in all four drivers.
- `ProjectFiles.dfy`, `ProjectCopy.dfy`: the walk of a project's folder, and its copy into the session directory,
  with the folder and the copy on one disk, where they may overlap.
- `Watch.dfy`: the debounced event of a watched directory, over timed traces, and the node that owns the
  watch.
- `Session.dfy`: the editor's session on its own thread, its end, and the panics around it.
- `ErrorChain.dfy`: an error chain printed as one line, each layer's own text once.
- `ConfigNode.dfy`: a config's fields as node inputs, and the config rebuilt from them.
- `Buffers.dfy`: pixels as channel planes and back, written row by row in any order.
- `Sample.dfy`: channel values moved between storage types, and a weighted sum in fixed point.
- `HexText.dfy`: bytes as hex digits and back.
- `Dispatch.dfy`: a kernel's invocations as rows of workgroups, and the index each thread takes.
- `Exp.dfy`: the range reduction and the quotient under `exp`, over the reals.
- `Wrappers.dfy`: the `Option` and `Result` the other modules use.

## What is taken as given

- `platform::replace` is an atomic rename and `platform::sync_parent` a directory synchronization
  (`common/src/platform/unix.rs:88-94`). A path's entry after a crash is the live one or one it held since its
  directory was last synchronized; the bytes of a file survive a crash once the file is synchronized.
- Where a row below says "names safe", no three processes with one id publish to one destination, one of them
  durably. Two may. That is exactly what keeps a destination whole (`NeverTearsExactlyWhenNoThreeShare`).
- The outcome of a job of the parallel map depends on its index alone.
- A vector step is a function of its group whose results are each a function of their own pixel.
- The folder a project walk reads does not change during the walk, and the paths of the folder and of the
  session's copy go through no link. A link names the path it finally leads to.
- A pulse wakes a waiting event at once or up to a stated lag later; computing takes no time.
- `f32` division is off by at most one part in 2^24, and `f64` holds its product with a full scale exactly.

## Findings

- A reader can see a torn destination, though every writer goes through a temporary. It takes three processes
  with one id, as three hosts that share a directory can have, and one destination: the first writer, durable,
  renames its temporary and fails to synchronize the directory; a second creates the freed name and is about to
  rename; the first one's drop removes it; a third creates the name again and is still writing when the second
  renames that file over the destination, and, where it is a cache's, succeeds. `ThreeTear` builds the run, and
  `NeverTearsExactlyWhenNoThreeShare` proves that nothing less tears.
- With two such processes the destination stays whole, but the drop removes the other writer's temporary, whose
  publication then fails. `DropsOwnExactlyWhenNamesDistinct` proves the exact condition.
- A crash can leave any bytes at a destination that a durable writer published, once a cache writer has published
  there too: the cache's file is never synchronized (`CacheAfterDurableTears`). `CrashSafeExactlyWhenDurable`
  proves that a destination is safe exactly where every replacement that may come back is a durable writer's.
- A copy of a project removes the session's old copy before it reads the project's files again. A project that is
  the old copy, or lies in it, loses all its files, and the copy fails (`InsideIsLost`, `InsideLeavesNoFile`): so
  it does for a document of the open copy opened as a copy once more. A project around the session's directory
  keeps a file of the old copy only where the walk listed the file it was a copy of first
  (`AroundIsReadAfterItsOriginal`), and then with that file's bytes (`AroundDependsOnTheOrder`).
  `CopyProject` succeeds exactly where every file is read outside the copy or from what the copy put back, and
  its result is the tree walked exactly where those bytes are the same; a folder of which nothing is read under
  the copy is safe in any order (`OutsideIsWhole`).
- A dispatch of nearly 2^32 invocations runs a kernel twice for the first indices of its work: the spare threads
  of the last row have indices past 32 bits, which wrap to zero. `EachIndexTakenOnceExactlyWhenNumbered` proves
  that this happens exactly where the threads dispatched are more than 2^32, and `LargestDispatchTakesTwice` is
  one such dispatch. Of the kernels only an affine warp to more than 4,294,901,760 pixels of one byte reaches
  it, as the others dispatch a quarter of their bytes; its wrapped threads write the same bytes again.
- A panic can be reported as another. A panic that unwinds past the hook is named by whatever is on record: a
  panic that a job caught itself, which can then be the reason the session ends for
  (`CaughtPanicEndsTheSession`), or one in the drop of a driver that an earlier panic dropped
  (`DropIsReportedLater`). `PanicIsNamedExactlyWhenFresh` proves that a panic is named rightly exactly if the
  hook saw it or nothing else was on record.
- `ErrorChain` reads a layer that prints only its own text as a repetition where that text happens to end as
  its cause's does, after a space or a colon: "cannot read: disk full" over "disk full" prints as "cannot read"
  and its cause (`DiskFullIsMisread`). A layer that runs its cause's text into its own keeps both, as it is meant
  to, and one that ends in a colon loses it (`WordsAndColonsStay`). `PartsExactlyTheirOwn` proves, for any
  layers, that the parts of a line are each layer's own text exactly where every layer says its own: it prints
  alone and does not end as its cause, or sets its cause apart, or adds nothing.
- A config of unedited inputs is its default exactly if its `f32`s are finite (`InfiniteIsRefused`) and its enum
  variants are the first of their `snake_case` name: `AB` and `Ab` share one (`AcronymsCollide`), and the later
  reads back as the earlier. An integer default outside `i64` panics as the inputs are declared
  (`LargeIntegerPanics`).

## Model

| member | source | states |
|---|---|---|
| Slots.SequentialFails | common/src/par/mod.rs:105-115 | The map run one index at a time fails with the error of the least failing index. |
| Slots.SequentialSucceeds | common/src/par/mod.rs:105-115 | Where every job succeeds it gives every value in index order. |
| Slots.StepKeeps | common/src/par/mod.rs:140-152 | Each claim, check of the hint (however stale) and job keeps the invariant: an index has one owner, and one passed over lies above a failure. |
| Slots.HintStaysLowest | common/src/par/mod.rs:133-150 | The history of the hint only falls and ends at the least failure recorded. |
| Slots.EverySchedule | common/src/par/mod.rs:135-158 | For every schedule: steps and claims are bounded by the indices and the slots, no job begins twice, a slot gets a thread if and only if it has an index, and the outcomes of a joined run hold every index up to the first failure. |
| Slots.EveryJobRuns | common/src/par/mod.rs:141-154 | With no failure each index's job ran in every joined schedule, so a value is there for each. |
| Slots.FreshCheckStopsPastFailures | common/src/par/mod.rs:143-150 | A slot that reads the hint's latest value begins no index past a recorded failure. |
| Slots.TakeFindsTheItem | common/src/par/mod.rs:182-210 | In the owned map the item of an index is still in its cell when the job takes it, and that cell alone is emptied. |
| Slots.Merge | common/src/par/mod.rs:159-180 | From complete outcomes, in whatever slots, the merge gives the sequential map's result, and each value expected is there. |
| Slots.Map | common/src/par/mod.rs:117-180 | For every choice of slot and of stale value at each step, the map ends and its result is the sequential map's. |
| Slots.Pool.FetchIndex | common/src/par/mod.rs:142 | The counter's `fetch_add` as a step of the machine. |
| Slots.Pool.CheckIndex | common/src/par/mod.rs:143-145 | The check against the length and a value of the hint as a step. |
| Slots.Pool.FinishJob | common/src/par/mod.rs:146-153 | The value pushed, or the hint lowered and the failure kept, as a step. |
| TempNames.TempNameIsInjective | common/src/fs/mod.rs:319-329 | A temporary's name determines the destination, the process id and the draw it was made for. |
| TempNames.TempNameIsBeside | common/src/fs/mod.rs:319-329 | A temporary lies in its destination's directory, under a name that goes on from the destination's and ends in `.tmp`. |
| Publishing.StepKeeps | common/src/fs/mod.rs:166-233 | Names safe: every step of every writer, failed or not, keeps the invariant: a writer's temporary is its own or gone for good, a file that replaced a destination is its writer's whole payload for ever, and what a crash may bring back is a recent entry. |
| Publishing.DestinationIsWhole | common/src/fs/mod.rs:340-356 | Names safe: in every interleaving a destination reads as its initial content or the last replacer's whole payload. |
| Publishing.CrashLeavesAVersion | common/src/fs/mod.rs:166-191 | From a state that keeps the invariant: where the replacements a crash may bring back are durable writers', it leaves a whole version, no older than the oldest of them. One half of `CrashSafeExactlyWhenDurable`. |
| PublishingCrashes.CrashSafeExactlyWhenDurable | common/src/fs/mod.rs:340-347 | Names safe: after any run no crash leaves a destination other than a whole version, no older than the oldest that may come back, if and only if every replacement that may come back is a durable writer's. |
| PublishingCrashes.CacheSurvivorTears | common/src/fs/mod.rs:183-190 | Where a cache writer's replacement may come back, a crash can leave any bytes whatever. |
| PublishingCrashes.CacheAfterDurableTears | common/src/fs/mod.rs:340-347 | A durable writer's `Ok` and then a cache writer's to the same destination let a crash leave any bytes there. |
| PublishingCrashes.UnsyncedStep | common/src/fs/mod.rs:183-190 | Names safe: no step makes a cache writer's file, open or published, one that a crash keeps. |
| Publishing.DurablePublicationSurvivesCrashes | common/src/fs/mod.rs:340-347 | Names safe: in every run, where the replacements a crash may bring back are durable writers', a crash leaves a whole version, and after a durable writer returned `Ok`, its own or a later one. |
| PublishingOutcome.OutcomeTellsWhatHappened | common/src/fs/mod.rs:166-199 | Whatever names the writers share: `Ok` means the writer replaced its destination, once; an error means it never did, or that it did, durably, and the directory's synchronization failed. |
| PublishingOutcome.OnlyReplaceShows | common/src/fs/mod.rs:170 | Names safe: only a successful rename changes what a reader sees of any destination, and it shows the whole payload. |
| PublishingOutcome.NothingIsLeft | common/src/fs/mod.rs:193-199 | Whatever names the writers share: once all returned and removals succeeded, the disk has the initial entries and the replaced destinations and no temporary. |
| PublishingCalls.CallsDecide | common/src/fs/mod.rs:166-191 | Over every run, whatever names are shared, and from the calls alone: a writer succeeds or replaces only by every call its mode asks for; one with a call that failed up to the rename never does; and one that returned an error had a call that failed, no file name, or lost its temporary. |
| PublishingCalls.DrawsAreCounted | common/src/fs/mod.rs:319-329 | Over every run a process's counter is what it was and one for each draw of its writers, those for a path with no file name aside. |
| PublishingClashes.DropsOwnExactlyWhenNamesDistinct | common/src/fs/mod.rs:193-199 | From every start and in every run a drop removes only its own writer's file, if and only if no two processes with one id publish to one destination, one of them durably. |
| PublishingClashes.NeverTearsExactlyWhenNoThreeShare | common/src/fs/mod.rs:340-356 | From every start and in every run no reader sees what is neither a destination's initial content nor a writer's whole payload, if and only if no three processes with one id publish to one destination, one of them durably. |
| PublishingClashes.ThreeTear | common/src/fs/mod.rs:166-233 | Three such processes have a run after which the destination reads as any bytes whatever, while the writer that put them there, where it is a cache's, returned `Ok`. |
| PublishingClashes.OwnedStep | common/src/fs/mod.rs:193-233 | While no two such processes share names, every step leaves each temporary to its own writer. |
| PublishingOutcome.TempNamesPin | common/src/fs/mod.rs:326-328 | The names the code gives meet what the theorems ask of names. |
| AtomicFile.FileSystem.TemporaryPath | common/src/fs/mod.rs:319-329 | A draw takes the counter's next number, and a path with no file name is refused. |
| AtomicFile.FileSystem.CreateNew | common/src/fs/mod.rs:213-230 | The exclusive create fails on a name that is there, leaving the disk alone, and is a step of the machine. |
| AtomicFile.FileSystem.Rename | common/src/platform/unix.rs:88-90 | The rename as a step of the machine. |
| AtomicFile.FileSystem.SyncParent | common/src/platform/unix.rs:92-94 | The directory synchronization as a step of the machine. |
| AtomicFile.Publication.Seal | common/src/fs/mod.rs:183-190 | On `Ok` each of the calls of the writer's mode was made and none failed; an error comes of one that failed, and nothing is called after it. |
| AtomicFile.Publication.Commit | common/src/fs/mod.rs:166-181 | Whatever other writers do between its calls: on `Ok` the writer succeeded, by its calls and none that failed, and the temporary is forgotten; on an error the temporary is still named, and the stage tells whether it replaced. |
| AtomicFile.Publication.Drop | common/src/fs/mod.rs:193-199 | A drop tries a removal exactly while a temporary is named, and replaces nothing. |
| AtomicFile.New | common/src/fs/mod.rs:208-233 | The retry loop ends, however many names other writers take meanwhile, with a new temporary of the writer's own or a refusal. |
| AtomicFile.Publish | common/src/fs/mod.rs:340-368 | Names safe, from any state and with any steps of other writers between its calls: on `Ok` the writer replaced its destination once, and no call of it failed; where one up to the rename failed it is an error and nothing was replaced; on any error nothing was, or durably and only the directory's synchronization failed; every destination reads as before or as the whole payload of the last to replace it since. |
| AtomicFile.FileSystem.Others | common/src/fs/mod.rs:340-356 | Names safe: whatever others do leaves a writer where it is, its file as it is, and its retry loop no longer. |
| AtomicFile.TryNew | common/src/fs/mod.rs:211-231 | A try that finds its name taken has fewer names ahead that can be. |
| RowGroups.RunRow | imaginarium/src/interleaved/row_groups.rs:16-49 | For a row of any length and any two pixel widths, each destination pixel is the function of its source pixel, and each element is stored once. |
| RowGroups.RunGroups | imaginarium/src/interleaved/row_groups.rs:28-37 | The whole groups give their pixels, and fewer pixels than a group are left. |
| RowGroups.LastGroup | imaginarium/src/interleaved/row_groups.rs:38-48 | The elements kept of the overlapping or padded last group are the missing pixels. |
| RowGroups.InPlace | imaginarium/src/interleaved/row_groups.rs:85-103 | Each pixel of the row becomes the function of its old self, stepped and stored once. |
| RowGroups.Zip | imaginarium/src/interleaved/row_groups.rs:52-83 | Each pixel is the function of the two pixels at its place, stored once. |
| RowGroups.Fill | imaginarium/src/interleaved/row_groups.rs:105-123 | Each pixel is the function of its place, whichever group made it, stored once. |
| RowGroups.Padded | imaginarium/src/interleaved/row_groups.rs:125-131 | A part comes first in its group and the rest is the default value. |
| RowGroups.PixelOfPart | imaginarium/src/interleaved/row_groups.rs:28-48 | A pixel of a run of whole pixels is the row's pixel at the shifted place. |
| ProjectFiles.Of | darkroom/src/driver/mod.rs:319-344 | The walk ends, succeeds if and only if nothing is a link to a folder or unreadable, lists every folder and file once with the exact sum of bytes, and a failure names a real cause. |
| ProjectFiles.ListFolder | darkroom/src/driver/mod.rs:325-341 | One folder's entries, listed in any order, are all taken, or one of them stops the walk. |
| ProjectFiles.WalkIsWhole | darkroom/src/driver/mod.rs:322-343 | With no folder pending, every folder and file of the tree is found. |
| ProjectCopy.MakeFolders | darkroom/src/driver/mod.rs:348-352 | The folders made are the copy's and the tree's in it, nothing else changes, and without faults it succeeds if and only if nothing but folders is in the way. |
| ProjectCopy.ReadsItsOrigin | darkroom/src/driver/mod.rs:353-357 | What is read for a listed file is its own bytes, or those of the earlier file copied to where it is read, and can be read exactly where there is such a file. |
| ProjectCopy.CopyFiles | darkroom/src/driver/mod.rs:353-357 | The files copied get the bytes they are read with, nothing else is new, and without faults all are copied if and only if every one can still be read, and the first that cannot is named. |
| ProjectCopy.WholeExactlyWhenSame | darkroom/src/driver/mod.rs:346-359 | A whole copy is the tree with each link to a file replaced by the file, if and only if every file got the bytes the walk saw. |
| ProjectCopy.RemoveOld | darkroom/src/driver/mod.rs:300-303 | An old copy is removed with all it holds, or is left because it is no folder, or leads nowhere; a fault takes nothing outside it. |
| ProjectCopy.Replace | darkroom/src/driver/mod.rs:300-305 | What is outside the copy stands; without faults the copy succeeds if and only if it can be made there and every file can still be read; what is left of one that does not is its own. |
| ProjectCopy.CopyProject | darkroom/src/driver/mod.rs:272-306 | Which refusal each project gets: no folder, paths that leave it, a walk's own error for a folder that cannot be walked, and, if and only if a walkable one holds more than the limit, that with its exact bytes; that a refusal leaves the disk alone; and past those, when the copy succeeds, which file it fails for, and when it is the tree walked. |
| ProjectCopy.WalkableOnDisk | darkroom/src/driver/mod.rs:322-341 | On the disk: a folder can be walked if and only if each folder under it can be listed and each link leads to a file. |
| ProjectCopy.BlamedOnDisk | darkroom/src/driver/mod.rs:325-341 | What a refused walk names is on the disk: a link to a folder, a link to nothing, or a folder that cannot be listed. |
| ProjectCopy.FilesCountOnDisk | darkroom/src/driver/mod.rs:334-341 | Each file adds its own length to the bytes, a link to one that of the file it leads to, and a folder none. |
| ProjectCopy.ResolvedOnDisk | darkroom/src/driver/mod.rs:346-359 | The tree a whole copy is: its folders, each file's own bytes, and for each link the bytes of the file it leads to. |
| ProjectCopy.OutsideIsWhole | darkroom/src/driver/mod.rs:293-305 | A folder of which no file is read under the copy is copied whole, whatever order it was listed in. |
| ProjectCopy.InsideIsLost | darkroom/src/driver/mod.rs:300-304 | A folder that is the copy, or lies in it, cannot be read back, if it has a file. |
| ProjectCopy.InsideLeavesNoFile | darkroom/src/driver/mod.rs:300-304 | Such a copy leaves no file of the old one. |
| ProjectCopy.AroundIsReadAfterItsOriginal | darkroom/src/driver/mod.rs:300-304 | In a folder around the copy, a file of the old copy is read back if and only if the file it was a copy of is listed before it and read. |
| ProjectCopy.AroundDependsOnTheOrder | darkroom/src/driver/mod.rs:322-357 | One folder around its copy is copied, or not, by the order its walk lists it in, and copied exactly if the old copy was up to date. |
| Watch.Changed | lens/src/fs_watch/mod.rs:231-252 | The event fires if and only if a change is pending or still to come; the fire absorbs all pulses up to one followed by a debounce of quiet, or fires at once without a debounce. |
| Watch.Run | lens/src/fs_watch/mod.rs:231-252 | Armed again and again, its fires absorb consecutive blocks of pulses and leave none behind before it waits for a change that does not come. |
| Watch.EveryPulseFires | lens/src/fs_watch/mod.rs:34-38 | Each absorbed pulse is in exactly one fire, which comes after it. |
| Watch.FireFollowsQuiet | lens/src/fs_watch/mod.rs:29-33 | A reading of the contract of `Watch.Changed`: no change lies within a debounce before a fire; without lag the fire is exactly a debounce after its last change or its arming. |
| Watch.BurstFiresOnce | lens/src/fs_watch/mod.rs:29-33 | Changes each less than a debounce apart are in one fire. |
| Watch.QuietSplits | lens/src/fs_watch/mod.rs:29-33 | A reading of the contract of `Watch.Changed`: a change after more than a debounce of quiet is in another fire. |
| Watch.Signal.Notified | lens/src/fs_watch/mod.rs:240 | A wait takes the one permit at once or the next pulse, and never ends if there is none. |
| Watch.Signal.Timeout | lens/src/fs_watch/mod.rs:244-246 | A bounded wait absorbs a pulse, or ends after the debounce with none pending. |
| Watch.Node.Invoke | lens/src/fs_watch/mod.rs:143-198 | Which calls fail, with which error: those that need a watch built, where the one held is over another directory or of another mode, and cannot; and what a call leaves as its watch. |
| Watch.WatchIsTheLastAsked | lens/src/fs_watch/mod.rs:143-194 | After any calls the watch is over the directory, its subdirectories if and only if asked, and with the debounce, none for a negative one, of the last call not cut short, or none where that one cleared or could not build it, and keeps its signal while directory and mode stay. |
| Session.Session.End | app/src/mcp/session_thread.rs:227-243 | A live session drops its driver, then tells why; a panic in the drop overrides all but a panic, and an ended session is left alone. |
| Session.PanicIsNamedExactlyWhenFresh | app/src/mcp/session_thread.rs:172-179 | After any jobs, a job that panics is answered with its own panic, and ends a live session for it, if and only if the hook saw that panic or no other was on record. |
| Session.LiveRecord | app/src/mcp/session_thread.rs:275-300 | While the session lives, what is on record is the last panic a job caught itself, and nothing if and only if none did. |
| Session.RecordIsLastNoted | app/src/mcp/session_thread.rs:275-300 | Over every run, live or ended, and up to any act of one more job, what is on record is the last panic noted since the last take, of a job or of a drop. |
| Session.DropIsNamedExactlyWhenFresh | app/src/mcp/session_thread.rs:235-239 | A drop that panics gives its own panic as the reason under the same condition. |
| Session.DropIsReportedLater | app/src/mcp/session_thread.rs:227-243 | The record of a drop that panicked after a panic is what a later panic, unseen by the hook, is answered with. |
| Session.CaughtPanicEndsTheSession | app/src/mcp/session_thread.rs:275-286 | A panic a job caught is the reason the session ends for at a later panic, unseen by the hook. |
| Session.Session.Perform | app/src/mcp/session_thread.rs:186-222 | A job's steps act on the session in order, up to one that needs a driver gone. |
| Session.Serve | app/src/mcp/session_thread.rs:167-184 | The loop over a queue of jobs is the fold of single jobs, each answered before the next is taken; `EachAnswerIsDue` says with what. |
| Session.EachAnswerIsDue | app/src/mcp/session_thread.rs:167-201 | Over every run, the answer of each job, by the jobs before it: one whose acts all go through is answered with its content, its error, or the report of its panic, and one that needs the driver after the session's end with the reason it ended for. |
| Session.EndIsExplained | app/src/mcp/session_thread.rs:188-201 | That answer names the end: the quit, the closed window, or the panic with its message. |
| Session.EndIsToldOnce | app/src/mcp/session_thread.rs:167-243 | Over every run of jobs the end is told at most once, right after the driver is dropped, for the reason of the run's first end, which is the session's; each job is answered once, in order. |
| Session.ReasonStands | app/src/mcp/session_thread.rs:188-201 | Whatever runs after it, the reason stays the session's, nothing seen is taken back, and a job that needs the driver is answered with it. |
| Session.CloseOutlastsTheDriver | app/src/mcp/session_thread.rs:119-131 | When a close is answered, whatever ran before, the driver is dropped and the server told. |
| ErrorChain.Display | common/src/error_chain.rs:28-58 | The loop prints the layers' own texts that are not empty, joined in order. |
| ErrorChain.PartsExactlyTheirOwn | common/src/error_chain.rs:35-56 | For any layers: the parts printed are what each layer says of its own, if and only if every layer prints alone and does not end as its cause, or sets its cause apart, or adds nothing. |
| ErrorChain.LayerSaysItsOwn | common/src/error_chain.rs:36-44 | One layer's printed text is cleaned to its own text under that condition and no other. |
| ErrorChain.WordsAndColonsStay | common/src/error_chain.rs:37-44 | Two layers that do not meet it. |
| ErrorChain.ColonAndSpaceTellApart | common/src/error_chain.rs:37-44 | A cause's text is taken off its layer's after a colon, a space or both, with them, and stays with neither. |
| ErrorChain.EachMessageOnce | common/src/error_chain.rs:11-17 | Where every layer that repeats its cause sets it apart, the joined line is each layer's own text, if and only if no layer that prints alone ends as its cause does at a boundary. |
| ErrorChain.SeparatorsAreWhatIsCleaned | common/src/error_chain.rs:40-44 | What cleaning takes off a layer's text is exactly blank space with at most one colon, that colon included where the text ends in one. |
| ErrorChain.PlainSaysItsOwn | common/src/error_chain.rs:37-44 | A layer that prints alone keeps its text if and only if that does not end as its cause's at a boundary, and is cut shorter otherwise. |
| ErrorChain.PartsAreSaid | common/src/error_chain.rs:35-56 | Where every layer that repeats its cause sets it apart, the parts printed are those the layers say, or less in all where one is misread. |
| ErrorChain.TrimEndOf | common/src/error_chain.rs:42-43 | Trimming takes off all the blank space at the end and nothing else. |
| ErrorChain.DiskFullIsMisread | common/src/error_chain.rs:37-44 | A chain whose outer layer says it all itself, and prints less than it says. |
| ConfigNode.UneditedInputsGiveTheConfig | lens/src/config_node.rs:110-139 | The inputs of a config can be declared if and only if its integers fit an `i64`, and then build that config, whatever the defaults, if and only if its `f32`s are finite and its variants own their names. |
| ConfigNode.InputsAuthorTheConfig | lens/src/config_node.rs:175-187 | Each input of a config is authored as a constant of its field's own kind, with what the field holds, a variant by its name. |
| ConfigNode.BuildExactly | lens/src/config_node.rs:127-205 | For any fields, defaults and edited inputs: building panics if and only if an input cannot be read as its field's kind; else it is refused, with the first such field's error, if and only if an integer is outside its type or an `f32` not finite or out of range; else each field holds what its input gives, or its default where that names no variant. |
| ConfigNode.NegativeIsRefused | common/src/introspect/mod.rs:226-237 | An input of -1 for a `u32` is refused, and not read as its default. |
| ConfigNode.EveryIntegerIsDescribed | common/src/introspect/mod.rs:125-170 | Every integer of a type up to 128 bits is described as itself. |
| ConfigNode.FieldGivenBack | common/common-derive/src/kind.rs:90-249 | One field, required or optional, described, made a constant, read as an input and read back, is itself under the same condition. |
| ConfigNode.FirstOfItsName | common/common-derive/src/lib.rs:146-157 | A variant's name parses back, and to the variant itself if and only if no earlier one has its name. |
| ConfigNode.NameKeepsLetters | common/common-derive/src/lib.rs:184-202 | A variant's name is its identifier in lower case, with an underscore before each capital, the first aside, that follows a lower letter or a digit or is followed by a lower letter, and nowhere else. |
| ConfigNode.AcronymsCollide | common/common-derive/src/lib.rs:184-202 | Two identifiers can share a name, and the later then reads back as the earlier. |
| ConfigNode.InfiniteIsRefused | common/src/introspect/mod.rs:275-285 | A config whose `f32` is infinite is carried by its inputs and refused when it is built from them. |
| ConfigNode.LargeIntegerPanics | lens/src/config_node.rs:175-180 | A config whose `u64` is past `i64` has no inputs. |
| ConfigNode.CastsTowardsZero | scenarium/src/data/const_value.rs:59-66 | A finite float read as an integer is the nearest towards zero that an `i64` holds, and no other. |
| ConfigNode.BuiltIsAConfig | common/src/introspect/mod.rs:226-298 | Whatever its inputs are edited to, a config that is built holds only values of its fields' types. |
| Buffers.Interleave | common/src/buffer2.rs:146-155 | Planes of one size give the pixels of their values, and others are refused. |
| Buffers.ChannelPlanes | common/src/buffer2.rs:165-195 | One pass over the rows, in any order, gives each plane its channel of every pixel, for every size, and finds a row of each plane. |
| Buffers.RowStarts | common/src/buffer2.rs:175-184 | Each row of an image that has pixels has its own part of a plane. |
| Buffers.WriteRow | common/src/buffer2.rs:185-193 | A row's pixels go to that row of every plane, and no other value changes. |
| Buffers.IntoPlanes | common/src/buffer2.rs:197-208 | The shortcut of one channel gives the planes the pass gives. |
| Buffers.PlanesOfPixels | common/src/buffer2.rs:146-163 | The planes of the pixels of any planes are those planes. |
| Buffers.PixelsOfPlanes | common/src/buffer2.rs:146-163 | The pixels of the planes of any image are its pixels. |
| Sample.ConvertsExactly | imaginarium/src/color/sample.rs:38-45 | For every value and any quotient within the bound, `u8` to `u16` is 257·v, `u16` to `u8` is v over 257 rounded, and a type to itself through `f32` is v. |
| Sample.NoNearTie | imaginarium/src/color/sample.rs:38-41 | No quotient by 257 lies nearer than 1/514 to a rounding boundary. |
| Sample.UnitIsStoredNearest | imaginarium/src/color/sample.rs:66-100 | For every number: a unit float is stored as the integer nearest to it at full scale, the even one of two, kept in range, and as no other. |
| Sample.FloatIsStoredNearest | imaginarium/src/color/sample.rs:72-105 | So is a float in the type's own units. |
| Sample.SpecialsAreStored | imaginarium/src/color/sample.rs:66-105 | A NaN is stored as 0, and an infinity as the end it is past. |
| Sample.RoundsToNearestEven | imaginarium/src/color/sample.rs:5-8 | Rounding gives the one nearest integer, even where two are. |
| Sample.WideningIsUndone | imaginarium/src/color/sample.rs:38-41 | Widening and narrowing is the identity; narrowing and widening is for multiples of 257 alone. |
| Sample.ShiftRoundsToNearestEven | simd/src/isa.rs:365-377 | Adding one less than half, and the quotient's lowest bit, before a shift gives the nearest quotient, the even one of two, for every sum and every shift. |
| Sample.WeightedSumIsNearest | simd/src/isa.rs:365-377 | Within the weights' bounds the 32-bit sum does not overflow, the cast loses nothing, and the result is the integer nearest to the weighted sum, the even one of two. |
| Sample.EachByteHasItsWeight | simd/src/isa.rs:365-377 | A byte alone gives its product with the weight at its own place, rounded to the nearest. |
| Sample.GreyStaysGrey | simd/src/isa.rs:365-377 | Weights that add up to one leave a grey as it is. |
| HexText.Encode | common/src/serde/hex_bytes.rs:43-51 | The loop writes each byte as its two digits, in order. |
| HexText.SixteensComeFirst | common/src/serde/hex_bytes.rs:43-51 | A byte's first digit is its sixteens and its second the rest, in lower case. |
| HexText.RoundTrip | common/src/serde/hex_bytes.rs:43-63 | What is written is read back, for every byte string. |
| HexText.ReadsExactlyHex | common/src/serde/hex_bytes.rs:53-63 | A text is read if and only if it is an even count of hex digits of either case. |
| HexText.WritesBackLower | common/src/serde/hex_bytes.rs:43-63 | What is read is written back as the same text in lower case. |
| Dispatch.RowsCover | imaginarium/src/gpu/compute_kernel.rs:160-165 | Rows of workgroups no longer than allowed cover the work, one row less does not, and more than one are as long as allowed. |
| Dispatch.NumbersRunOn | imaginarium/src/gpu/packed.wgsl:52-56 | Threads are numbered from 0 along a row and on into the next. |
| Dispatch.EachIndexTakenOnceExactlyWhenNumbered | imaginarium/src/gpu/packed.wgsl:52-56 | In 32-bit arithmetic each index of the work is taken by exactly one thread, if and only if there is no work or the threads are at most 2^32. |
| Dispatch.LargestDispatchTakesTwice | imaginarium/src/gpu/compute_kernel.rs:183 | The largest count in rows of 65535 workgroups has two threads at index 0. |
| Exp.ExpIsDefined | simd/src/math.rs:92-116 | For every real the power of two is in `pow2i`'s range, the reduced argument under 0.347 in size, and the divisor positive. |
| Exp.PartsAddUp | simd/src/math.rs:92-98 | Clamped, the argument is its reduced part and, for each multiple taken off, both parts of the constant for ln 2. |
| Exp.QuotientIsDefined | simd/src/math.rs:101-113 | On every reduced argument the divisor is at least 1.6. |

## Left out

- Slots.Map: a job's outcome is a function of its index, so the state a slot carries from one job to its next is not modelled; nor is the wrap of the counter past the machine's integers.
- Panics in a job of the parallel map, and the refusal to nest parallel loops.
- AtomicFile.Publish: the permissions the temporary takes over are not modelled, only that taking them can fail; nor are reads and seeks on the open file.
- The asynchronous `AtomicFile`, whose steps are those of `publish` with the seal on another thread.
- The Windows side of a replacement, and a crash during the removal of a session directory.
- The vector steps themselves (`GroupStep::step`) and their instruction sets.
- ProjectFiles.Of: a folder that cannot be listed and one whose listing fails half-way are one case; a tree that changes during the walk is not modelled.
- Which documents hold paths that leave their folder: the answer is a parameter of `CopyProject`.
- Watch.Run: an event whose wait is abandoned half-way, as a worker that stops does, is not modelled; nor is what a watch rebuilt meanwhile does to an event that waits; nor is which file-system events count as changes.
- Session.Serve: the bounded channel is the order in which it accepts requests; a caller that stops waiting for its answer is not modelled, as the answer is made the same.
- Starting a session, and what a job does with the driver.
- ErrorChain.Display: a formatter that refuses a write is not modelled.
- ConfigNode.AcronymsCollide: `snake_case` is modelled on ASCII identifiers.
- ConfigNode.UneditedInputsGiveTheConfig: rounding to `f32` and to `f64` is any function that keeps what those hold; the sign and payload of a NaN are one number.
- Registration of enum types and declared port types on the library, and labels.
- `Buffer2`'s accessors, `from_fn` and `reshape`, and the lane shuffles, whose contracts would repeat their bodies.
- Exp.ExpIsDefined: it is over the reals; the rounding of each vector operation and the accuracy of the result are not modelled, nor are the logarithms and `asinh`.
- GPU calls, codecs, raw camera files, windows and the tools of the server: foreign interfaces.
