# Verified model of GeST's root services, disk pipeline, installer and config editors

GeST is a system-administration toolkit for Gentoo. This project models the parts of it that
carry state, loops or text transformations, and proves what they promise:

* **Root services** (`Streaming`, `SoftwareService`, `KernelPipeline`, `Stage3`): process output
  arrives in arbitrary chunks, timers fire when they like, calls come at any time. A run is any
  feasible sequence of such callbacks.
* **Disk and fstab** (`DiskPlans`, `CommandLines`, `MountPlans`, `Fstab`, `FstabService`,
  `EssentialLines`, `DiskWorld`, `DiskExecution`): choices become a disk plan, ordered commands, a mount plan, mount commands and
  fstab text. The commands have a meaning over an abstract machine (partition nodes, file systems,
  mounts, directories, swaps), and the plan is carried out in two independent ways.
* **Installer** (`StateStore`, `InstallEngine`, `ChrootMounts`): a resumable loop with retry, skip
  and abort over a completed-step store kept in two files, and the chroot's mounts and teardown.
* **Config texts** (`Firewall`, `RulesetReader`, `GrubDefault`, `KernelCmdline`): a printer with a parser that undoes
  it, and in-place line editors.
* **Drydock recipes** (`LutrisImport`, `RecipePlan`, `RecipeRun`, `Materialize`): import, compile,
  execute, name, export.
* **Keyring** (`KeyAgreement`): Diffie-Hellman over the second Oakley group (section 6.2 of
  RFC 2409) and HKDF (section 2.3 of RFC 5869).

`Splitting`, `Characters` and `Texts` hold what the texts and streams share. Where the code updates
fields or lists step by step there is a class or a loop, proved equal to a function of the old state;
the laws are lemmas about those functions. `dafny verify dfyconfig.toml` checks everything.

## Where the code does less than its words

Each of these is a lemma; where the promise can be kept, the lemma gives the exact condition.

* `fixed sizes`: a UEFI or BIOS layout whose ESP or swap size is `rest` is accepted by every
  validator but cannot be laid out, because an earlier partition takes all the space
  (`DiskWorld.UefiInstallsCleanlyIffFixed`, `DiskWorld.BiosInstallsCleanlyIffFixed`; a case:
  `DiskWorld.RestEspCannotBeLaidOut`).
* `active swap`: the safety checks read the mount table only, so a disk with an active swap passes
  them and the commands then run into it (`DiskExecution.ChecksMissSwapsIff`; a case:
  `DiskExecution.ActiveSwapGoesUnnoticed`).
* `late refusal`: for a plan with an unacceptable file system, or one on a device that is not there
  or is mounted, the direct path and the backend differ; the backend may partition first and refuse
  afterwards (`DiskExecution.ProvisioningPathsAgreeIff`; a case:
  `DiskExecution.UnknownKindIsRefusedLate`). Mounting one device twice is refused by the
  backend only (`DiskExecution.MountingPathsAgreeIff`).
* `unreadable fstab`: the service treats an fstab it cannot read as empty, so the guard sees nothing
  to protect; if the write then succeeds the essential lines are gone from the file (they are in the
  backup) (`FstabService.OneCallKeepsEssential`, `FstabService.UnreadableFstabLosesRoot`).
* `short line`: the guard looks at parsed entries, which have at least four fields, while the edits
  match every line with two. In a readable fstab whose only line is `/dev/sda2 / ext4` the entry `/`
  can be removed, and the file is then empty (`EssentialLines.ShortRootLineIsRemoved`). A readable
  file is safe exactly when each of its essential lines is long enough to be seen, or shares its
  mount point with one that is, or has none the service accepts
  (`EssentialLines.ReadableFileIsSafeIff`).
* `early reload`: a save onto the target replaces its state file instead of adding to it. A store
  loaded before the target is mounted erases the earlier marks with its first save
  (`StateStore.RebootForgetsNothingIff`, `StateStore.EarlyReloadLosesMarks`), and steps marked before
  run again, partitioning included (`InstallEngine.MarkedStepRunsAgainIff`,
  `InstallEngine.EarlyReloadRepartitions`).
* `unsaved mark`: a step that marks itself and cannot save the mark fails, but the mark stays in
  memory. Retrying passes the step with nothing written; if no later save succeeds, the next run does
  not know it was done (`InstallEngine.UnsavedMarkPassesOnRetry`).
* `partial preparation`: the engine tears down only what a completed chroot step opened, and once
  `proc` is mounted that step looks done. A preparation that fails after its first mount therefore
  leaves its mounts behind, whether the user retries, skips or aborts
  (`ChrootMounts.InstallLeavesNoMountsIff`; a case: `ChrootMounts.PartialPreparationStaysMounted`).
* `verbs as one string`: the importer keeps `"a b"` as one verb of the barrel, while the planner
  installs two (`RecipePlan.RecordedVerbsAreInstalledIff`).
* `ok with a human still needed`: an execution report is ok when the last operation is a manual step
  nobody has done (`RecipeRun.OkIff`).
* `bare prefix`: `/mnt/`, `/mnt//` and `/mnt/.` are accepted as target roots although only paths
  below the prefix are meant to be (`MountPlans.StrictlyBelowIff`, `MountPlans.BarePrefixIsAccepted`).
* `long names`: a recipe name whose slug is longer than 128 gives a barrel the store refuses
  (`Materialize.BarrelIsStorableIff`).

## Model

| member | source | states |
|---|---|---|
| Streaming.EveryRunDeliversTheOutput | gest/backend/service.py:675-745 | For every cut of the output into chunks and every interleaving of timers: all batches, concatenated after end of output, are exactly the lines of the whole output; batches hold 1 to 200 lines; at every event boundary a flush timer is pending exactly when lines wait; nothing can be emitted after the end |
| Streaming.ChunkingIsInvisible | gest/backend/service.py:714-737 | Two runs over the same output show the same lines, however it was cut and whenever timers fired |
| Streaming.ChunkConserves | gest/backend/service.py:718-737 | One chunk: lines sent, lines waiting and the partial line together remain the newline split of everything fed so far |
| Streaming.BatchesPartition | gest/backend/service.py:707-712 | Queueing lines one by one up to the batch size loses, repeats and reorders nothing, and leaves fewer than a batch |
| Streaming.EofDelivers | gest/backend/service.py:724-731 | At end of output the partial line and the buffer are flushed, the timer is gone, and the subscriber has every line |
| Streaming.LineStreamer.OnChunk | gest/backend/service.py:718-737 | The callback's loop on its cells computes exactly the chunk step |
| Streaming.LineStreamer.OnTimer | gest/backend/service.py:702-705 | The timer callback clears the timer and emits what waits |
| Streaming.LineStreamer.OnEof | gest/backend/service.py:724-731 | The end-of-output branch computes exactly the end step |
| Streaming.LineStreamer.FlushNow | gest/backend/service.py:695-700 | Cancels the pending timer, then emits the buffer |
| Splitting.SplitAppend | gest/backend/service.py:732-737 | Splitting a longer text is splitting the shorter one and then its unfinished last piece together with what followed |
| Splitting.SplitOfJoin | gest/core/disk/fstab.py:117-119 | The pieces are the only separator-free list that joins to the text |
| SoftwareService.EveryRunIsSerial | gest/backend/service.py:213-254 | In every run, told by its history alone: the running operation is the one granted last, if it has not exited, and counter and label say so; operations never interleave on the bus; each ended one delivered exactly the lines its process wrote and then exactly one Finished, with the code that process exited with |
| SoftwareService.EndOpNeverClamps | gest/backend/service.py:219-225 | When a streamed operation ends the counter was one, so the clamp at zero is never used |
| SoftwareService.BlockingEndNeverClamps | gest/backend/service.py:540-604 | Nor is it by a blocking call, which begins and ends its operation inside the call, leaves the bus alone and reports every process it ran |
| SoftwareService.LockDecision | gest/backend/service.py:227-256 | Every call's answer from the history alone: the lock is granted exactly when nothing runs here or outside, the caller is authorized and the arguments pass, with the refusals in that order and the running operation's own label in the sentence; the status call says whether and why; the rest never look at the lock |
| SoftwareService.KindsAre | gest/backend/service.py:355-604 | Which methods stream, which block, which check their arguments, and under which label |
| SoftwareService.ExitOnlyWhenIdle | gest/backend/service.py:258-272 | The idle exit is requested exactly when no operation is active and the code changed or 120 seconds have passed since the last call or exit |
| SoftwareService.PackageService.OnMethodCall | gest/backend/service.py:355-368 | The handlers' common shape (busy check, authorization, argument check, begin, spawn) computes the call step |
| SoftwareService.PackageService.RunAll | gest/backend/service.py:540-558 | A blocking call runs every process, also after a failure: its report has one section per process, in order, each with that process's own outcome, and it is ok exactly when all exited 0 |
| SoftwareService.PackageService.OnDone | gest/backend/service.py:739-743 | The exit callback emits Finished with the process's code and releases the lock |
| SoftwareService.PackageService.OnIdleCheck | gest/backend/service.py:264-272 | The idle callback asks for the exit under exactly that condition |
| KernelPipeline.CommandsRunInOrder | gest/backend/kernel.py:97-138 | The commands started are a prefix of the pipeline, in order; the next one starts only when all earlier ones exited 0 with all their lines emitted |
| KernelPipeline.FinishedBuild | gest/backend/kernel.py:69-138 | A finished build emitted exactly one Finished, last, with the first non-zero exit or else 0; before it come all started commands' lines in order; nothing can follow |
| KernelPipeline.PipelineStreamer.OnDone | gest/backend/kernel.py:130-138 | The exit callback finishes on failure or at the end, else starts the next command |
| KernelPipeline.PipelineStreamer.OnChunk | gest/backend/kernel.py:109-128 | The chunk callback on the shared cells computes the pipeline's output step |
| Stage3.TarOnlyAfterTheGate | gest/backend/stage3.py:206-274 | In every run tar is started, and into the requested root, only for a download that arrived, could be read and matches a non-empty digest set |
| Stage3.CommandsAreCalledFor | gest/backend/stage3.py:182-281 | At every moment of every run the commands started are exactly the ones the exits so far call for, in order and with these arguments: the download of the url, the signature's if it is an http address and the download arrived, the signature check exactly if the gate passed, a signature came and gpg is there, tar into the root exactly if the gate passed |
| Stage3.VerifiedIff | gest/backend/stage3.py:247-269 | The signature is said to be verified exactly when gpg was run on it and exited 0 |
| Stage3.TarStaysConfined | gest/backend/stage3.py:298-333 | Whatever is asked for: a tar that is started is started for an authorized caller and into a root below an allowed prefix, never into / |
| Stage3.EndedRun | gest/backend/stage3.py:182-281 | Exactly one Finished, last; its code is fixed by download, hash check and unpack and is 0 exactly when all three succeeded; tar ran exactly when the gate passed; before it came the whole transcript, every said line and every output line, in order |
| Stage3.SignatureIsAdvisory | gest/backend/stage3.py:206-274 | Runs that agree on download, content and unpack agree on the result and on whether tar ran, whatever happened to the signature |
| Stage3.Stage3Runner.CheckHashes | gest/backend/stage3.py:223-245 | The hash check refuses an empty digest set, an unreadable file and any mismatch, and otherwise goes on to the signature |
| Stage3.Stage3Runner.OnExit | gest/backend/stage3.py:206-281 | Each phase's exit callback computes the next phase, the command it starts included |
| Fstab.ParseFstab | gest/core/disk/fstab.py:90-106 | The parsing loop yields the entries of the data lines, in order, protected flag recomputed |
| Fstab.WordsRead | gest/core/disk/fstab.py:90-106 | Any line of words: an entry exactly from four words on, absent or non-numeric dump and pass read as 0, protected exactly if essential mount point or swap |
| Fstab.RenderRoundTrip | gest/core/disk/fstab.py:109-114 | A rendered valid entry parses back to itself |
| Fstab.FstabRoundTrip | gest/core/disk/fstab.py:181-194 | Parsing a rendered fstab gives back exactly the valid entries rendered, and it passes the generated-fstab gate exactly when there is one |
| Fstab.UpsertEntry | gest/core/disk/fstab.py:122-137 | The loop replaces the first data line of the mount point in place, or appends |
| Fstab.UpsertIdempotent | gest/core/disk/fstab.py:122-137 | Writing the same entry twice is writing it once, as text |
| Fstab.UpsertKeepsOthers | gest/core/disk/fstab.py:122-137 | Every line of other mount points, and every comment, stays in order |
| Fstab.RemoveAfterUpsert | gest/core/disk/fstab.py:140-143 | Removing a mount point after writing it is just removing it |
| Fstab.UpsertedParses | gest/core/disk/fstab.py:122-137 | Afterwards the file parses to the new entry and to the others' entries unchanged |
| Fstab.RemovedParses | gest/core/disk/fstab.py:140-143 | Afterwards the file parses to exactly the other mount points' entries |
| FstabService.OneCallKeepsEssential | gest/backend/disk.py:359-393 | One call keeps the essential entries the file parses to if and only if there are none or the call is not blind (acceptable in itself, while the file cannot be read but can be copied and replaced); a done call left the old file in the backup |
| FstabService.CallsKeepEssentialIff | gest/backend/disk.py:359-393 | The same over any sequence of calls: once a blind call has lost them no later call brings them back |
| FstabService.EssentialNeverChanges | gest/backend/disk.py:366-393 | Over any sequence of calls on a readable fstab the ordered essential entries it parses to never change |
| FstabService.UnreadableFstabLosesRoot | gest/backend/disk.py:359-364 | The named case: a one-line fstab for the root that cannot be read but can be copied and replaced, and a write of /data; it is done and the root line is gone |
| FstabService.UnreadableFstabLosesEssential | gest/backend/disk.py:359-383 | The same for every essential and every other valid entry |
| FstabService.DiskService.WriteFstab | gest/backend/disk.py:372-383 | The handler validates, guards, backs up and replaces, computing exactly the request's effect on both files |
| FstabService.DiskService.RemoveFstab | gest/backend/disk.py:385-393 | The same for removal |
| FstabService.DiskService.GuardNotProtected | gest/backend/disk.py:366-370 | The loop refuses exactly when an entry of the file protects the mount point |
| FstabService.CallOutcome | gest/backend/disk.py:359-393 | What each answer means: refused exactly for an unacceptable argument or a protected mount point, failed only if the file could not be copied or replaced, and neither changes fstab; a done write left the new entry, a done removal none, both every other entry as read; the backup holds what was there before |
| EssentialLines.GuardedIff | gest/backend/disk.py:366-370 | The guard fires exactly when some line of the mount point is essential and has at least four fields |
| EssentialLines.RemovalKeepsLinesIff | gest/core/disk/fstab.py:140-143 | A removal the guard lets through keeps every line that names an essential mount, in order, if and only if the mount point has no such line of fewer than four fields |
| EssentialLines.WriteKeepsLinesIff | gest/core/disk/fstab.py:122-137 | The same for a write, where only the overwritten line counts |
| EssentialLines.CallKeepsLinesIff | gest/backend/disk.py:359-393 | For every content, request and weather: the essential lines stay exactly as they are if and only if the call is neither blind nor hits an essential line the guard cannot see; otherwise there are fewer |
| EssentialLines.CallsKeepLinesIff | gest/backend/disk.py:359-393 | Over any sequence of calls they end as they began if and only if no call of it loses one |
| EssentialLines.ReadableFileIsSafeIff | gest/backend/disk.py:366-393 | No sequence of calls on a readable file changes its essential lines if and only if each is seen by the guard, shares its mount point with one that is, or has none the service accepts |
| EssentialLines.ShortLineIsRemoved | gest/backend/disk.py:385-393 | Every readable one-line file whose line is an essential one of fewer than four fields is emptied by one removal |
| EssentialLines.ShortRootLineIsRemoved | gest/core/disk/fstab.py:81-98 | The named case: `/dev/sda2 / ext4` as the only line, and a removal of `/`; it is done and the file is empty |
| DiskPlans.PlanSteps | gest/core/disk/provision.py:156-179 | Builds the ordered commands, or refuses exactly when a device, size, type, label or kind is invalid |
| DiskPlans.UefiPlan | gest/core/disk/provision.py:188-235 | The running-number builder yields the ESP, swap, root and home slots numbered in order, or refuses |
| DiskPlans.BiosPlan | gest/core/disk/provision.py:238-285 | The same for BIOS |
| DiskPlans.LayoutsAre | gest/core/disk/provision.py:188-285 | Which partitions the two layouts have, in order, how large, and each with the type code and the file system of its role |
| DiskPlans.StepsAre | gest/core/disk/provision.py:156-179 | The commands of a plan by place: wipe and zap if asked for, one creation with the very partitions, re-read, settle, then each file system with its own device, kind and label |
| DiskPlans.DeviceNamesAre | gest/core/disk/commands.py:103-105 | The devices let through are exactly the /dev/ names of letters, digits, slashes, dashes and underscores, at most 255 characters |
| DiskPlans.PartitionDeviceInjective | gest/core/disk/provision.py:182-185 | Different numbers name different partition devices on every disk |
| DiskPlans.PartitionTouchesDisk | gest/core/disk/provision.py:84-86 | Every partition name touches its disk, so the mounted check covers it |
| CommandLines.SgdiskPartitionArgv | gest/core/disk/commands.py:145-166 | The argument loop spells all partitions in one call, or refuses exactly when the device, a size, a type code or a label is invalid or there is no partition |
| CommandLines.PartitionsReadBack | gest/core/disk/commands.py:145-166 | The partitions of an sgdisk call read back from its arguments exactly, in order, "rest" and missing labels included |
| CommandLines.ArgvReadsBack | gest/core/disk/commands.py:81-207 | Every command the builders let through can be read off its argument list |
| CommandLines.MkfsWords | gest/core/disk/commands.py:32-41 | The program, flags and label flag of ext4, ext3 and xfs, word by word |
| CommandLines.MoreMkfsWords | gest/core/disk/commands.py:32-41 | The same for btrfs, f2fs and exfat |
| CommandLines.ForeignMkfsWords | gest/core/disk/commands.py:32-41 | The same for vfat and ntfs |
| CommandLines.OtherWords | gest/core/disk/commands.py:81-207 | The other commands, word by word |
| CommandLines.SpellingIsInjective | gest/core/disk/commands.py:81-207 | Two command sequences are spelled alike exactly when they are the same, so equal runs of commands are equal runs of argument lists and conversely |
| CommandLines.AcceptedStepsAreSpellable | gest/core/disk/provision.py:156-179 | Every command of an accepted plan is one the builders let through |
| MountPlans.DeriveMountPlan | gest/core/disk/mount.py:122-138 | Collects and sorts the mounts, or refuses a bad root or a file system without a label |
| MountPlans.StrictlyBelowIff | gest/core/disk/mount.py:76-85 | An accepted target root lies strictly below one of the prefixes if and only if some component after the prefix is neither empty nor `.` |
| MountPlans.BarePrefixIsAccepted | gest/core/disk/mount.py:76-85 | The failing family: `/mnt/` followed by any mix of slashes and dots is accepted and names `/mnt` itself |
| MountPlans.AncestorsMountFirst | gest/core/disk/mount.py:107-138 | For every disk plan an ancestor path is mounted before its descendants |
| MountPlans.MountOrderSorts | gest/core/disk/mount.py:116-119 | The order is sorted by depth then path and is a permutation |
| MountPlans.BuildMountSteps | gest/core/disk/mount.py:143-153 | mkdir and mount per mount, then swapon per swap, or a refusal for an invalid device or path |
| MountPlans.TargetsStayBelowRoot | gest/core/disk/mount.py:76-102 | Followed name by name, a mount goes through the root's names, then its own path's, and never back up |
| MountPlans.TargetsStayConfined | gest/core/disk/mount.py:76-102 | Whatever is appended to a valid root is a valid root path again if it is a valid path |
| MountPlans.GeneratedFstabIsExact | gest/core/disk/mount.py:246-262 | The generated fstab passes the gate and parses to one entry per mount and per swap, in order: the UUID, the mount point, the type, no dump; sw and 0 for swap, umask=0077 and 2 for vfat, noatime and 1 for a root that is not, defaults and 2 for all others; pass number 1 on the root and nowhere else |
| MountPlans.InstallFstabIsExact | gest/core/disk/fstab.py:159-181 | The same from the disk plan on: labels and kinds of an accepted plan always give valid entries, and every file system of it has its entry |
| MountPlans.RolePathIs | gest/core/disk/mount.py:107-113 | The root goes to /, the ESP to /efi, any other file system under its own label |
| DiskWorld.UefiFstab | gest/core/disk/fstab.py:159-181 | The fstab of every accepted UEFI plan has the first partition at /efi with umask=0077 and 2, and the root partition at / with noatime and 1 |
| DiskWorld.ProvisioningIsLegal | gest/core/disk/provision.py:156-179 | No provisioning step is illegal on a ready disk: every mkfs hits a partition created and settled before, nothing mounted is touched, every file system ends as planned |
| DiskWorld.ProvisioningIsLegalIff | gest/core/disk/provision.py:119-179 | For a layable plan on a disk that is there and unmounted, with a consistent table: legal if and only if no active swap is on the disk and, without a wipe, no planned partition is there already |
| DiskWorld.LayoutInstallsIff | gest/core/disk/provision.py:156-285 | Any accepted layout whose file systems have distinct known roles installs cleanly on a ready disk if and only if only its last partition takes the rest |
| DiskWorld.InstallPipelineIsLegal | gest/core/disk/mount.py:122-153 | Provisioning then mounting never takes an illegal step: each mount is of a formatted device not yet mounted, on a directory not hidden, each swap is activated once after mkswap; the end state has exactly the planned mounts and swaps added |
| DiskWorld.UefiInstallsCleanlyIffFixed | gest/core/disk/provision.py:188-235 | An accepted UEFI plan installs cleanly on a ready disk if and only if its ESP and swap sizes are fixed |
| DiskWorld.BiosInstallsCleanlyIffFixed | gest/core/disk/provision.py:238-285 | The same for BIOS and its swap size |
| DiskWorld.RestEspCannotBeLaidOut | gest/core/disk/provision.py:188-235 | The named case: a UEFI layout whose ESP takes the rest passes every validator and is illegal on every world |
| DiskExecution.ProvisioningPathsAgree | gest/core/disk/provision.py:355-452 | For every accepted plan on its own partitions, every world and every way the machine answers, the backend path runs the same commands as the direct path, up to and including the first failure; both refuse exactly when the disk is absent or something on it is mounted, never mid-run |
| DiskExecution.ProvisioningPathsAgreeIff | gest/core/disk/provision.py:355-452 | For every plan whatever and every world: the paths agree for all answers of the machine if and only if both refuse at once, or the live medium is elsewhere and after partitioning every file system's device is valid, there and not mounted |
| DiskExecution.ChecksMissSwapsIff | gest/core/disk/provision.py:89-153 | Both paths' checks look at mounts only: on a disk they let through all commands run, and they are all legal if and only if no active swap is on the disk (and nothing is in the way of a plan that does not wipe) |
| DiskExecution.ActiveSwapGoesUnnoticed | gest/core/disk/provision.py:89-153 | The named case: the disk's only partition is an active swap; both paths run every command, for all answers of the machine, and zap the table in use |
| DiskExecution.UnknownKindIsRefusedLate | gest/core/disk/provision.py:404-452 | The named case of a late refusal: a file system kind no builder knows; the direct path refuses at once, the backend after wiping and partitioning |
| DiskExecution.MountingPathsAgree | gest/core/disk/mount.py:167-236 | With present, unmounted, distinct devices both ways of mounting run the same commands up to and including the first failure; no re-check refuses mid-run |
| DiskExecution.MountingPathsAgreeIff | gest/core/disk/mount.py:167-236 | For every accepted mount plan and every world the two ways agree for all answers of the machine if and only if the devices are there, unmounted and distinct |
| DiskExecution.InstallPathsAgree | gest/backend/disk.py:292-345 | From disk plan to mounted target on every world: provisioning agrees, and after one that went through mounting agrees for all answers if and only if no two mounts share a device |
| DiskExecution.GuardIsMountCheck | gest/core/disk/provision.py:89-116 | The guard's extra clause about the running root adds nothing to the mounted check |
| DiskExecution.Machine.ApplyPlan | gest/core/disk/provision.py:355-382 | The direct path validates the plan against the machine, then runs its commands up to the first failure |
| DiskExecution.Machine.ApplyMountPlan | gest/core/disk/mount.py:167-181 | The direct mount path guards the root, then runs the commands up to the first failure |
| DiskExecution.Machine.ApplyPlanViaBackend | gest/core/disk/provision.py:404-452 | The phase loop makes exactly the backend calls in order and stops at the first refusal or failure |
| DiskExecution.Machine.RunSequence | gest/backend/disk.py:160-169 | The backend's loop runs commands in order and stops at the first failure |
| DiskExecution.Machine.ApplyMountPlanViaBackend | gest/core/disk/mount.py:198-236 | The mount loop and then the swap loop, each stopping at the first failure |
| DiskExecution.Machine.MountAt | gest/backend/disk.py:330-345 | Re-validates path and device, then mkdir and mount |
| StateStore.ReloadForgetsNothing | gest/core/install/context.py:72-138 | Over any history of marks, target arrivals, crashes, and reboots after a settled mark, a store loaded now holds exactly the marks on disk at the start and every mark made |
| StateStore.NothingIsLostIff | gest/core/install/context.py:72-138 | From any disk and over any history whatever: no mark is ever missing from the disk if and only if no save replaces a target file holding a known mark the store does not know, and no reboot comes while the run file alone knows a mark |
| StateStore.RebootForgetsNothingIff | gest/core/install/context.py:96-112 | For every run of marks, target arrivals and restarts after a reboot: a store loaded at its end knows every mark if and only if the earlier ones were made again, or were on the target and the target was read before it was written |
| StateStore.MigrationKeepsLiveMarks | gest/core/install/context.py:106-112 | A store that is behind on the live-session file carries its marks over: after any marks on the target and a reboot the target holds them with the store's own |
| StateStore.EarlyReloadLosesMarks | gest/core/install/context.py:96-112 | A store loaded before the target is mounted erases every earlier mark with its first save |
| StateStore.Store.MarkStep | gest/core/install/context.py:72-75 | Marking updates memory and files exactly as the model step |
| StateStore.Store.constructor | gest/core/install/context.py:61-66 | Construction loads the union of the files that can be read |
| InstallEngine.RunInstall | gest/core/install/engine.py:60-94 | The while loop with its early exits and its finally computes the run function |
| InstallEngine.EveryRun | gest/core/install/engine.py:60-94 | Steps are probed, run and passed in list order; a step is passed only when its recorded probe said satisfied (the key it asks for was in the store or marked earlier in the run, or the world said so) or right after its own mark was saved because it succeeded or was skipped; it marks itself exactly when its run does, and a run that cannot save that mark fails; the run raises if and only if its last turn's probe raised, its step failed with nobody to ask or with abort for an answer, or its mark could not be saved, and completes if and only if all steps were passed; the store is what the marks in the log make of it; on every exit there is exactly one teardown, last, if and only if a chroot-opening step succeeded in this run |
| InstallEngine.EveryAnswerIsObeyed | gest/core/install/engine.py:74-91 | After every run of a step in every run: a success, or a failure to be skipped, whose mark can be saved is marked, passed and followed by a probe of the next step; a failure to be retried is followed by a probe of the same step; anything else ends the run, raising |
| InstallEngine.EndsWithinBudget | gest/core/install/engine.py:62-91 | A run ends within one turn per step and one per retry answer |
| InstallEngine.RunStep | gest/core/install/registry.py:241-302 | A step's run changes store and log as the model says, the mark it may make itself included |
| InstallEngine.MarkedStepsNeverRerun | gest/core/install/engine.py:60-94 | From any disk, across any number of resumed attempts: a step that asks the store for a key never runs again after that key's mark was saved, as long as no reboot leaves the next store without it |
| InstallEngine.CanRunIff | gest/core/install/context.py:96-106 | From any disk: some attempt runs a step that asks for a key no earlier step marks if and only if a store loaded from that disk does not know the key |
| InstallEngine.MarkedStepRunsAgainIff | gest/core/install/context.py:96-112 | After an attempt that saved or knew the mark, the next one can run the step again if and only if a reboot came in between and the target was not mounted again first or its file does not hold the mark |
| InstallEngine.EarlyReloadRepartitions | gest/core/install/registry.py:91-105 | The named case: partitioning is marked on the target, the machine reboots, the store loads before the target is mounted; partitioning runs again |
| InstallEngine.BehindMarkNeverRuns | gest/core/install/registry.py:108-119 | A step that asks for the mark of an earlier step which asks for its own is never run, in any run from any store |
| InstallEngine.UnsavedMarkPassesOnRetry | gest/core/install/registry.py:241-302 | A step that failed only to save its own mark is passed on retry, at every loop, and the disk is as it was |
| ChrootMounts.TeardownUndoesPrefix | gest/core/chroot/prepare.py:37-79 | The teardown after any prefix of the preparation removes exactly that prefix's mounts, carried submounts included, and beyond that only detaches the points the prefix had not mounted |
| ChrootMounts.TeardownRestoresIff | gest/core/chroot/prepare.py:111-132 | The original mount table is restored if and only if no point the prefix left unmounted was a mount point before |
| ChrootMounts.PreparedTable | gest/core/chroot/prepare.py:37-61 | A complete preparation adds exactly proc, the host's /sys and /dev with everything mounted below them at the same place, and the host's /run alone |
| ChrootMounts.PreparationIsSealed | gest/core/chroot/prepare.py:37-90 | Every mount has its directory made just before it; every bind is made a slave just after it, recursively exactly if it is recursive; the resolver is copied last |
| ChrootMounts.TeardownMirrorsMounts | gest/core/chroot/prepare.py:64-79 | The teardown is the four mounts the other way round, recursive exactly where the mount was |
| ChrootMounts.InstallLeavesNoMountsIff | gest/core/install/engine.py:60-94 | For every failing preparation step, every retry, skip and abort, and every course of the other steps, if those mount nothing themselves: a finished run that reached the chroot step leaves the mount table as it found it, its own teardown included, if and only if proc was mounted already or no attempt failed after its first mount |
| ChrootMounts.PartialPreparationStaysMounted | gest/core/install/engine.py:60-94 | The named case: nothing is mounted, the command after the first mount fails and the user aborts; the run is over and proc is still mounted |
| ChrootMounts.OneFailureIff | gest/core/chroot/prepare.py:37-61 | With one failing attempt, however the user goes on, that is exactly a failure before the first mount |
| ChrootMounts.Kernel.RunSteps | gest/core/exec/steps.py:43-62 | Commands run in order up to and including the first failure |
| ChrootMounts.Kernel.Prepare | gest/core/chroot/prepare.py:93-108 | Guards the root, then runs the preparation up to its first failure |
| ChrootMounts.Kernel.Teardown | gest/core/chroot/prepare.py:111-132 | Refuses a bad root, otherwise attempts every unmount whatever the earlier ones returned |
| Firewall.RenderRuleset | gest/core/firewall/nft.py:57-91 | Appending rules as the policy asks yields exactly the ruleset text |
| Firewall.ParseRuleset | gest/core/firewall/nft.py:103-129 | The search for the tagged line and the field loop compute the parse, None without marker or tag |
| Firewall.ParsePorts | gest/core/firewall/nft.py:94-100 | The loop keeps the numeric pieces, in order |
| Firewall.RulesetRoundTrip | gest/core/firewall/nft.py:44-129 | Parsing a rendered ruleset gives back the very policy, for port lists of any length |
| Firewall.ReadingIsStable | gest/core/firewall/nft.py:103-129 | Whatever managed text was read, printing its policy and reading again changes nothing more |
| Firewall.LastFieldWins | gest/core/firewall/nft.py:115-117 | The fields read are the names the words give, each with the value of its last occurrence |
| Firewall.UnsaidFields | gest/core/firewall/nft.py:121-129 | A missing or unknown default is read as drop, a missing ping answer as yes, missing ports as none |
| Firewall.Decision | gest/core/firewall/nft.py:22-80 | First-match evaluation of the rules: tracked traffic always in, invalid never, loopback and everything listed in under either default, the rest by the default |
| Firewall.SameFirewallIff | gest/core/firewall/nft.py:57-80 | Two policies admit the same packets if and only if they have the same effective default and, when it drops, list the same ports and agree on ping |
| RulesetReader.RulesReadBack | gest/core/firewall/nft.py:57-91 | The rules that stand in the printed file, read line by line without the tagged line, are the policy's rules, in order, and no others |
| RulesetReader.DefaultReadsBack | gest/core/firewall/nft.py:76-79 | The input chain's policy that stands in the file is the policy's default |
| RulesetReader.OtherChainsStand | gest/core/firewall/nft.py:81-90 | In every printed file the forward chain drops and the output chain accepts |
| RulesetReader.PrintedFileMeansItsPolicy | gest/core/firewall/nft.py:57-129 | What the file's own lines decide about any packet is what its policy means, and the tagged line describes that same policy |
| GrubDefault.ApplyGrubDefault | gest/core/bootloader/seamless.py:48-71 | The rewriting loop and the appended block compute the edited text |
| GrubDefault.ApplyTwiceIsOnce | gest/core/bootloader/seamless.py:48-71 | Applying the same settings twice is applying them once, for every file body |
| GrubDefault.ApplySetsExactly | gest/core/bootloader/seamless.py:55-70 | Afterwards the first line of every key that was set is its assignment, and the first line of every other key is what it was |
| GrubDefault.ApplyKeepsOtherLines | gest/core/bootloader/seamless.py:57-63 | Lines of other keys, comments and repeated lines stay verbatim and in place, up to trailing newlines |
| GrubDefault.BlockStandsApart | gest/core/bootloader/seamless.py:65-70 | The pending settings follow the untouched lines in order under one title, which opens the text or follows a blank line |
| GrubDefault.PassByLine | gest/core/bootloader/seamless.py:57-63 | Exactly the first line of each key that is set is rewritten |
| KernelCmdline.ApplyResumeCmdline | gest/core/bootloader/seamless.py:96-119 | The loop rewrites the first command line or appends one, and is the identity without a swap |
| KernelCmdline.ApplyGpuCmdline | gest/core/install/gpu.py:127-149 | The same for the GPU arguments, the identity when none are needed |
| KernelCmdline.MergeAddsExactly | gest/core/bootloader/seamless.py:107-119 | Existing arguments stay first and in order; afterwards the arguments are exactly the old and the wanted ones |
| KernelCmdline.MergedArgsAre | gest/core/bootloader/seamless.py:107-119 | The arguments after a merge, to the word and in order: the old ones, then the wanted ones that were not there |
| KernelCmdline.InstallerArgs | gest/core/install/gpu.py:107-149 | After the installer's two steps the kernel is told what it was told before, the swap to resume from if there is one, and for the proprietary driver exactly its four arguments |
| KernelCmdline.SeamlessSets | gest/core/bootloader/seamless.py:22-45 | What a seamless boot sets, key by key and as written |
| KernelCmdline.MergeIsIdempotent | gest/core/install/gpu.py:127-149 | Repeating a merge changes nothing, also with another merge in between, as text |
| KernelCmdline.MergeOrderKeepsSet | gest/core/bootloader/seamless.py:80-119 | Either order of two merges leaves the same set of arguments |
| KernelCmdline.AppendedStandsApart | gest/core/bootloader/seamless.py:115-119 | Without a command line the title and the new one follow the untouched lines, set off by a blank line |
| KernelCmdline.MergeKeepsOtherLines | gest/core/bootloader/seamless.py:107-119 | Every line but the first command line stays verbatim and in place |
| KernelCmdline.ResumeAndGpuCompose | gest/core/install/gpu.py:107-149 | The installer's two merges on any body: repeating either changes nothing and no argument is lost |
| KernelCmdline.SettingKeepsArgs | gest/core/bootloader/seamless.py:48-71 | Setting other keys leaves the kernel arguments exactly as they were |
| KernelCmdline.MergeKeepsOtherKeys | gest/core/bootloader/seamless.py:96-119 | Merging arguments leaves the line of every other key as it was |
| KernelCmdline.KeylessTitles | gest/core/install/gpu.py:147 | The titles both merges append are not read as an assignment of any key |
| KernelCmdline.SeamlessAndMergesCompose | gest/core/bootloader/seamless.py:34-77 | A seamless body stays seamless under a merge, and applying the seamless settings again keeps every key and every kernel argument |
| LutrisImport.ConvertibleIff | gest/core/drydock/lutris_import.py:87-93 | A runner name is let through if and only if, case and padding aside, it is "wine" or empty |
| LutrisImport.ImportConserves | gest/core/drydock/lutris_import.py:109-170 | Steps are the directives neither malformed nor rejected, in order, each represented by its own step; the rejected ones are noted in order; the warnings are, in order, the very warning of each malformed directive and of each one left to a human |
| LutrisImport.DirectiveTableIs | gest/core/drydock/lutris_import.py:29-40 | A directive's step bears its name, except that merging is copying |
| LutrisImport.TaskTableIs | gest/core/drydock/lutris_import.py:43-52 | So does a task's, except the three that edit the registry |
| LutrisImport.ImportCollectsVerbs | gest/core/drydock/lutris_import.py:156-162 | The barrel's verbs are exactly the ones the winetricks tasks name, each once |
| LutrisImport.Importer.ConvertDirective | gest/core/drydock/lutris_import.py:132-149 | Appends to the shared lists exactly what the directive adds |
| LutrisImport.Importer.ConvertTask | gest/core/drydock/lutris_import.py:152-170 | The same for a task |
| LutrisImport.Convert | gest/core/drydock/lutris_import.py:87-111 | Only Wine scripts are converted, by the directive loop |
| RecipePlan.ImportedPlanIsManualWhereFlagged | gest/core/drydock/interpreter.py:80-84 | An imported script compiles to one operation per kept directive, manual at exactly the flagged ones |
| RecipePlan.ManualIffUnknown | gest/core/drydock/interpreter.py:178-217 | The planner handles exactly the recipe vocabulary: a step is left to a human if and only if it is marked so or its action is not one of the vocabulary's words |
| RecipePlan.TransfersPlanned | gest/core/drydock/interpreter.py:178-189 | Moving and copying go from the source to the destination, extracting into the given directory or the game's; a source that is a file's id is where that file was downloaded to |
| RecipePlan.WritesPlanned | gest/core/drydock/interpreter.py:190-197 | Marking executable and writing act on the file named, under either name, with the step's own parameters and format |
| RecipePlan.FixedPlanned | gest/core/drydock/interpreter.py:199-290 | The words of the commands without parameters, for both runners |
| RecipePlan.ProgramPlanned | gest/core/drydock/interpreter.py:220-290 | A program runs through the runner with the arguments the step lists, in order |
| RecipePlan.ExecutePlanned | gest/core/drydock/interpreter.py:156-175 | `execute` runs the downloaded or named program, through the runner exactly if it is a Windows program |
| RecipePlan.RegistryPlanned | gest/core/drydock/interpreter.py:126-153 | The words of the registry commands: the key, the value or its default, type and data, unattended |
| RecipePlan.VerbsPlanned | gest/core/drydock/interpreter.py:112-118 | winetricks gets the listed verbs, in order |
| RecipePlan.CommandsAreConfined | gest/core/drydock/interpreter.py:220-290 | Every command that is not native runs through the chosen runner inside the context's prefix, and a Windows program is never run natively |
| RecipePlan.RunnerChangesOnlyItsCommands | gest/core/drydock/interpreter.py:178-217 | Choosing the other runner changes only the commands that go through it |
| RecipePlan.SubstReplaces | gest/core/drydock/interpreter.py:97-101 | A reference in either form becomes the variable's value, an unknown one stays as written, values are not expanded again |
| RecipePlan.SubstCopies | gest/core/drydock/interpreter.py:97-101 | Text without a dollar sign is copied, wherever it stands |
| RecipePlan.RecordedVerbsAreInstalledIff | gest/core/drydock/interpreter.py:112-118 | The verbs the importer records are the verbs the command installs if and only if they were not written as one string of several or no words |
| RecipeRun.Execute | gest/core/drydock/executor.py:55-79 | The loop with its halted flag records exactly the outcome of every operation and makes exactly these runner calls |
| RecipeRun.RunnerCalls | gest/core/drydock/executor.py:55-79 | The runner gets the non-manual operations up to the halt, once each and in order; everything after the halt is recorded as skipped |
| RecipeRun.DryRunCallsNothing | gest/core/drydock/executor.py:66-73 | A dry run never calls the runner and reaches everything |
| RecipeRun.OkIff | gest/core/drydock/executor.py:46-49 | The report is ok exactly when the run never halted or halted at a manual step that is the last operation |
| RecipeRun.ImportedRunStopsAtFirstFlag | gest/core/drydock/executor.py:55-79 | Import, compile, run: when commands succeed, exactly the steps before the first flagged directive are run, in order |
| Materialize.BarrelFromRecipe | gest/core/drydock/materialize.py:16-37 | The nested loops build exactly the named barrel |
| Materialize.FreeId | gest/core/drydock/materialize.py:28-33 | The naming loop ends and yields the first candidate not in use |
| Materialize.Pigeonhole | gest/core/drydock/materialize.py:28-33 | No more candidates can be taken than there are ids in use |
| Materialize.IdsAreDistinctSlugs | gest/core/drydock/materialize.py:26-36 | All ids of a barrel are pairwise distinct and consist of lower-case letters, digits and single dashes between them |
| Materialize.IdsAreFirstFree | gest/core/drydock/materialize.py:26-36 | A program's id is the slug of its name, else of its executable, else of "app", with the smallest number from 2 up that no earlier program has taken |
| Materialize.BarrelIsStorableIff | gest/core/drydock/barrels.py:19-28 | A materialized barrel's id is one the store accepts if and only if the slug of its name is at most 128 long, as for every name of at most 128 characters |
| Materialize.LongNameIsRefused | gest/core/drydock/barrels.py:19-28 | A longer name that is a slug already gives a barrel the store refuses |
| Materialize.ExportKeepsPrograms | gest/core/drydock/materialize.py:40-54 | Exporting gives back every program in order; only an unnamed one comes back under its id |
| Materialize.ExportKeepsConfig | gest/core/drydock/materialize.py:16-54 | The barrel has the recipe's runner, arch, verbs, DXVK, VKD3D and env, its name, and the id of its sources in order; exporting gives them back, with all named programs, as a game exactly if some program is one |
| Materialize.RematerializingIsStable | gest/core/drydock/materialize.py:16-54 | Materialize, export, materialize: the second barrel is the first, ids included |
| Materialize.SlugOfSlug | gest/core/drydock/barrels.py:26-28 | A slug is its own slug |
| KeyAgreement.GenerateKeypair | gest/keyringd/dh.py:33-37 | The exponent is the draw moved into range, and the public octets encode the right power |
| KeyAgreement.ExponentsCommute | gest/keyringd/dh.py:33-43 | For any modulus and base the order of two exponents does not matter |
| KeyAgreement.FixedWidthIsExact | gest/keyringd/dh.py:37-43 | Fixed-width big-endian encoding is an exact inverse below the width's bound and refuses everything above |
| KeyAgreement.BothSidesAgree | gest/keyringd/dh.py:40-43 | Both sides compute the same 128 octets for all private exponents, however many leading zeros the peer's number has |
| KeyAgreement.PrimeFits | gest/keyringd/dh.py:20-30 | The prime has exactly 1024 bits, so 128 octets are its width |
| KeyAgreement.Hkdf | gest/keyringd/dh.py:52-63 | The loop computes the derivation, and fails exactly when the one-octet counter would overflow |
| KeyAgreement.DerivedOctets | gest/keyringd/dh.py:52-63 | The output octet by octet: extracted with 32 zero octets as the key; the first 32 octets are the HMAC of the info and 1, every later 32 that of the 32 before, the info and the next counter, and the rest begins such a value |
| KeyAgreement.AesKeyIs | gest/keyringd/dh.py:46-49 | The session key is the first 16 octets of one such HMAC |
| KeyAgreement.DerivedLength | gest/keyringd/dh.py:57-63 | Exactly the requested length, up to 255 blocks and not beyond |
| KeyAgreement.DerivedPrefix | gest/keyringd/dh.py:57-63 | A shorter output is a prefix of a longer one |
| KeyAgreement.BothSidesDeriveTheSameKey | gest/keyringd/dh.py:40-49 | Both sides end with the same 16-octet key, and which octets those are |

## Left out

- D-Bus, polkit, audit logging, GLib and real processes: calls, chunks, timers, exit codes and what a file holds are events, oracles or parameters.
- Bytes are modelled as characters and UTF-8 decoding is not modelled; the only line separator is the newline, and whitespace, case and digits are ASCII.
- Failure to create a process at all: starting one always succeeds.
- SoftwareService: only package operations count towards the idle exit, as in the code, so a kernel build or a stage3 run in the same process does not hold it open; that a running operation survives the exit is not claimed for those.
- SoftwareService.PackageService.OnMethodCall: the argument checks of the individual handlers and the authority's answer are one boolean each, and which arguments a spawned tool gets is not modelled.
- SoftwareService.PackageService: an operation's stream cells are held as a value, not as a shared object; the callbacks' own code on such cells is `Streaming.LineStreamer`, so aliasing between operations is not modelled.
- Stage3: the parsed digest set is a parameter (the digest parser is not part of this model), hash functions are uninterpreted, and the said lines are abridged.
- CommandLines.ArgvReadsBack: tools are named without their directory, so that the backend calls them by absolute path is not modelled; the preview form of `wipefs` is not either.
- DiskWorld.InstallPipelineIsLegal: disk capacity is not modelled; a layout of fixed sizes that does not fit is beyond it. A device that appears later than `udevadm settle` promises is too.
- DiskExecution.ProvisioningPathsAgree: the direct path's device listing is the set of present nodes.
- StateStore.ReloadForgetsNothing: reboots are allowed only after a mark was saved on the target and with the target mounted before the store loads; the two exact conditions beside it cover all other histories.
- ChrootMounts.TeardownRestoresIff: mount propagation between peer groups is not modelled, and every unmount of something mounted succeeds.
- ChrootMounts.InstallLeavesNoMountsIff: only the chroot step and its teardown change the mount table; what the other steps of an install mount is not replayed.
- ChrootMounts: the argument builders' own path checks are not repeated; the root guard comes first.
- InstallEngine: what a step does, and how its own check probes the world, is an oracle; a step marks itself, if at all, as the last thing its run does, as every step of the registry does; cancellation in the middle of a step is not modelled.
- RulesetReader.PrintedFileMeansItsPolicy: the reader knows only the match forms the printer uses, not the whole nftables syntax; that every port is between 1 and 65535 is checked by the backend and not needed here; the forward and output chains are text only.
- GrubDefault.ApplyTwiceIsOnce: the keys are upper-case words and the values hold no newline, as for every setting the code passes; which line the shell would obey (a rewritten comment, a repeated key) is not claimed.
- LutrisImport.Convert: the files, system and game sections of a script are single-branch mappings and not modelled; how a list or number prints as a string is schematic.
- RecipePlan: display summaries are left out, and joining the cache directory to a file name does not normalize the path.
- Materialize: runner version, prefix, window class and graphics profile of a hand-edited barrel are not part of a recipe and not modelled; the round trip is about materialized barrels.
- KeyAgreement: HMAC is a parameter of fixed output length; AES, padding and randomness are not modelled.
- `assemble_plan` validation, the keychain vault, portage codecs, the terminal and Qt front ends, `coreservice`, packaging and hardware tables: chains of single checks, thin wrappers or data.
