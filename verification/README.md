# hostpack: verified model

hostpackd runs one Minecraft modpack at a time on one machine. A router reads a client's handshake,
finds the pack that the hostname is for, and asks the lifecycle manager for it; the manager restores
the pack's world from a backup store when it is not on the disk, starts the server, polls it, and
when it stops or another pack is wanted, saves the world, commits a new backup generation, and
optionally evicts the local copy. This project models that core in Dafny and proves what it keeps.

`dafny verify dfyconfig.toml` checks everything.

## How the model is built

* **Lifecycle.** `Sections` holds each lock-protected section of the manager as a function on the
  guarded fields and the persisted state; `Manager` is the object itself, whose methods update those
  fields in place and are tied to those functions. `Lifecycle` is the whole system as a step machine:
  a program counter per goroutine in flight, the live children, the pack directories, the backup
  vaults, and a machine crash possible between any two steps. `LifecycleInvariant`,
  `LifecycleControl` and `LifecycleSteps` hold the invariant and its preservation by every step;
  `LifecycleTheorems` states the results over all runs that need an assumption, `LifecycleWorlds`
  those about the disk that need none, and `LifecycleStore` carries the runs over to the store of
  string keys. `LifecycleStatus` says what the recorded state promises: pending backups, ready packs,
  the answers to logins, and how starts and stops end. `Traces` has the runs in which a guarantee fails.
* **Backups.** `Generations` is one pack's numbered archives and manifests, with uploads that may
  complete, complete but report an error, tear, or do nothing. `Keys` and `Store` are the program's
  string keys and the store object; refinement lemmas connect the two. `Paths`, `Archive` and
  `RoundTrip` model the tree walk, the archive entries and the restore with its path checks. `Strings`
  holds the text helpers that several modules share.
* **Wire**, **Limiter**, **LogBuffer**, **Monitor**, **FlyMachine**, **Config** and **Identity** model the
  handshake codec, the per-address limiter, the dashboard log, the idle ticker, the machine resize,
  validation with routing, and lock files with instance identity.

### Assumptions of the lifecycle results

The code does not enforce these. Failing reads, torn or falsely failed uploads, interrupted evictions
and crashes between any two steps are part of every run and need no assumption.

1. A FAILED pack is retried only when no start or stop goroutine is still in flight (`quietRetry`).
2. `Shutdown` is entered only when no start or stop is in flight (`quietShutdown`).
3. An idle stop begins while the pack it was decided for is still the active one (`promptIdle`). The
   tick captures the pack ID before its status query and uses it after the stop has failed.
4. `Head` fails, or reports the greatest complete generation (`honestHead`). The code passes over a
   manifest or an archive that it cannot open or read, and goes on to an older one without a word.
   `Store.HonestExactlyHarmless` says that this is exactly the read fault that can cost a backup.

Which result needs which, and what fails without it:

* 1-3: `Singleton`, `AtMostOnePackOnVolume`, `SamePackResumed` and the first half of
  `BackupBeforeSwitch`. Without 1, two children run at once (`Traces.EagerRetryTwoChildren`); without
  3, the active pack changes back while the other one's child runs (`Traces.LateIdleStopMisfiles`).
* 1-4: `WorldDurable`, `NoGenerationConflict`, `GenerationsImmutable`, `EvictedStep`,
  `EvictedWorldReturns` and the second half of `BackupBeforeSwitch`. Without 2, a world is evicted and
  its only archive then torn (`Traces.EagerShutdownLosesWorld`); without 4, a commit can tear a complete
  generation (`Store.HonestExactlyHarmless`), and a new world is launched in place of an evicted one
  (`Traces.OverlookedHeadStartsAfresh`).
* 1-3 also: `PendingExactly` and `ReadyExactly`; 1-4 also: `GenerationGrows`.
* None: `ServerDeath`, `NotReadyUntilPolled`, `RunTrees`, `WholeUnlessInterrupted`, `UploadNeverBlocked`, `RunOnStore` and `RunHead`.

Throughout, one committer works on a pack, SHA-256 is injective, and saving the state is a single
step. `Generations.TwoCommittersLoseAGeneration` shows why the first is needed.

### Where the code and its promises differ

* An eviction that is cut short, by a crash or an error, leaves part of a directory. The next start
  launches on that part although the backup holds the whole, because only an absent directory is
  restored (`Traces.InterruptedEvictionRunsOnRemains`). Nothing else leaves such a directory
  (`LifecycleWorlds.WholeUnlessInterrupted`), and the generation that holds the whole stays complete
  (`LifecycleTheorems.GenerationsImmutable`).
* A start that cannot read the head of a pack on the disk goes on to a ready server, whose next stop
  may present an old generation and is refused (`Traces.UnreadableHeadConflicts`); that happens only
  while a backup is pending (`LifecycleTheorems.NoGenerationConflict`).
* A poll that was answered just before the server died may be recorded after the exit was observed.
  The pack is then READY without a server: every login is told so, and a shutdown does nothing because
  no child is registered (`Traces.ReadyAfterDeath`; exactly `LifecycleStatus.ReadyExactly`).
* A world with a symbolic link is backed up, verified and evicted, but its restore is refused
  (`Traces.OneLinkStranded`); restores succeed exactly when no link survives
  (`RoundTrip.ArchiveRoundTrip`).
* `.rcon-cli.env` and `.rcon-cli.yaml` are excluded by name only: a directory of that name keeps its
  children in the archive (`RoundTrip.CredentialDirectoryKept`, and in general
  `RoundTrip.SkippedOnComponents`).
* A logged line of one mebibyte or more makes the next start of the daemon fail
  (`LogBuffer.LongLineStopsRestart`, exactly `LogBuffer.RestartKeepsSuffix`), and blank lines are
  skipped in memory but come back after a restart (`LogBuffer.BlankLineReturns`, exactly
  `LogBuffer.MemoryMatchesDisk`). A rotation that fails closes the log for good
  (`LogBuffer.Buffer.Write`).
* The 256 MB of headroom that validation promises outside the Java heap is missed when the heap size
  is within 256 of the largest machine integer (`Config.HeadroomMissed`, exactly
  `Config.HeadroomExact`).
* A final dot is dropped from a hostname, but not in front of a port (`Config.DotBeforePort`).
* A state file that cannot be decoded leaves a manager in no phase at all, which refuses everything
  (`Manager.UnreadableStateIsStuck`).
* The empty-since mark survives restarts, so one empty poll after a long stop is enough to stop the
  server again (`Monitor.StopOnFirstPollAfterRestart`).

## Model

| member | source | states |
|---|---|---|
| `LifecycleTheorems.Singleton` | internal/runtime/manager.go:63-338 | over every run under assumptions 1-3, at most one child is live, it runs the active pack, and a live child that is not registered belongs to the one start in flight |
| `LifecycleTheorems.WorldDurable` | internal/runtime/manager.go:274-338 | in every state reachable under assumptions 1-4 a pack that held a world has it whole on disk, or the head of its backups restores to exactly what a backup keeps of it, refused only if a symbolic link survives; a directory that is not whole is what an unfinished eviction left; a pending backup implies the directory is present |
| `LifecycleTheorems.AtMostOnePackOnVolume` | internal/runtime/manager.go:331-337 | over every run under assumptions 1-3, with eviction, every directory present belongs to the active pack, and none is present when idle |
| `LifecycleTheorems.NoGenerationConflict` | internal/runtime/manager.go:314-330 | under assumptions 1-4 a stop presents the store's head generation, or an older one while a backup is pending, never a newer one, and each pack's complete generations are exactly 1 to the head |
| `LifecycleTheorems.BackupBeforeSwitch` | internal/runtime/manager.go:254-273 | under assumptions 1-3 the active pack changes only with no child and no pending backup left and, when Head is honest, with the head of its backups holding exactly the world given up |
| `LifecycleTheorems.CrashResumes` | internal/runtime/manager.go:50-55 | a crash in a non-idle phase restarts the same pack in RECOVERING, with disk and store as they were; an idle manager stays idle |
| `LifecycleTheorems.SamePackResumed` | internal/runtime/manager.go:63-102 | under assumptions 1-3, after such a crash the same pack stays active, and every login for another one is refused, until some state is ready or idle |
| `LifecycleTheorems.EvictedStep` | internal/runtime/manager.go:159-180 | under assumptions 1-4, one step from a state in which a world exists only as a backup leaves it there or brings back exactly what the backup kept; it is never replaced by a new world |
| `LifecycleTheorems.EvictedWorldReturns` | internal/runtime/manager.go:159-180 | over every run under assumptions 1-4, whenever an evicted world is on the disk again it first came back as what its backup kept |
| `LifecycleTheorems.RestoreSucceeds` | internal/runtime/manager.go:159-172 | a start that finds its world evicted brings back exactly what the backup kept, or fails exactly when that holds a symbolic link |
| `LifecycleTheorems.GenerationsImmutable` | internal/runtime/manager.go:314-330 | over every run under assumptions 1-4, a complete generation keeps its archive and manifest for ever and the head never goes back |
| `LifecycleWorlds.RunTrees` | internal/runtime/manager.go:159-180 | over all runs, with no assumption, each pack directory is the content of a well-formed tree, restored ones included, each stored archive is the archive of one, and a pack with a backup has held a world |
| `LifecycleWorlds.WholeUnlessInterrupted` | internal/runtime/manager.go:331-335 | over all runs, with no assumption, every directory is the world it held last unless an eviction was cut short |
| `LifecycleWorlds.UploadNeverBlocked` | internal/runtime/manager.go:317 | over all runs, a stop that has come to its upload can always take that step, with any ending |
| `LifecycleWorlds.StepsOffered` | internal/runtime/manager.go:46-364 | what the step machine leaves to chance: success, trouble, deadlines, failing reads, edits, exits, interrupted evictions and crashes at any point |
| `LifecycleWorlds.ChildWrites` | internal/runtime/manager.go:190-203 | what a running child writes is its pack's world from then on, and nothing else changes |
| `LifecycleStore.StepsAreCommit` | internal/store/store.go:92-144 | however its uploads end, the four commit steps of a stop leave the vault that Commit leaves, and record a generation exactly when Commit succeeds |
| `LifecycleStore.RunOnStore` | internal/store/store.go:92-144 | every lifecycle run, whatever its timing, fills one store of string keys: at most one upload a step, under a key of the pack backed up, and at every moment the keys hold exactly the vaults of the step machine; under the timing assumptions that pack is the active one |
| `LifecycleStore.RunHead` | internal/store/store.go:55-90 | in every state of every run the scan over the keys of the store it fills finds the head that the lifecycle results speak of |
| `LifecycleStatus.PendingExactly` | internal/runtime/manager.go:181-189 | over every run under assumptions 1-3, a backup is pending, in memory and on disk, if and only if a commit or a head check failed and no generation was recorded since, and its pack stays active through crashes, failures and retries |
| `LifecycleStatus.FailedCommitEnds` | internal/runtime/manager.go:318-324 | a failed commit leaves the backup pending and, unless a shutdown asked for it, the pack FAILED |
| `LifecycleStatus.GenerationGrows` | internal/runtime/manager.go:181-189 | over every run under assumptions 1-4, the recorded generation never goes back while its pack stays active |
| `LifecycleStatus.ServerDeath` | internal/runtime/manager.go:229-244 | over all runs, with no assumption, the observed exit of the registered child that no stop expects leaves the pack FAILED in memory and on disk, and the next login for it begins a start |
| `LifecycleStatus.NotReadyUntilPolled` | internal/runtime/manager.go:205-222 | over all runs, with no assumption, from a state that is not ready no login is told that a server is ready before a poll of its start succeeds |
| `LifecycleStatus.ReadyExactly` | internal/runtime/manager.go:205-222 | over every run under assumptions 1-3, a ready pack has been ready, with the same registered child or the same lack of one, since a poll that succeeded, and no stop is expected of it |
| `LifecycleStatus.LoginAnswer` | internal/runtime/manager.go:63-102 | which answer a login gets, for each of the six, exactly by phase, active pack, child and emptiness, and what it changes |
| `LifecycleStatus.LoginStarts` | internal/runtime/manager.go:63-86 | a login begins a start exactly when the machine is idle or it retries its failed pack, and otherwise changes nothing |
| `LifecycleStatus.StopsBegin` | internal/runtime/manager.go:254-262 | a switch or an idle stop begins exactly from READY, a shutdown exactly when a child is registered outside IDLE, and what each saves |
| `LifecycleStatus.StartEnds` | internal/runtime/manager.go:122-227 | a start that ends has failed its pack, made it ready, or was cancelled, and trouble at any point leaves FAILED and no child |
| `LifecycleStatus.StopEnds` | internal/runtime/manager.go:274-338 | how each kind of stop can end, and what trouble at each of its points leads to |
| `LifecycleStatus.SizerSteps` | internal/runtime/manager.go:128-158 | what a start shows while the machine is resized, and how a submitted resize or another active pack ends it |
| `LifecycleStatus.Registration` | internal/runtime/manager.go:195-203 | a child is registered, with no stop expected of it, exactly while its pack is active, and is killed otherwise |
| `LifecycleStatus.ReadTrouble` | internal/runtime/manager.go:162-189 | a head check that fails is never taken for an answer: a stop does not commit or record, and a start goes on only with its world on the disk, marking its backup |
| `LifecycleStatus.UnreadExactly` | internal/runtime/manager.go:162-189 | a start takes its backup to be unread exactly when its head check failed, never after a restore |
| `LifecycleTheorems.RunInv` | internal/runtime/manager.go:46-364 | every state reachable under the timing assumptions meets the control invariant, and the data invariant when Head is honest |
| `LifecycleSteps.StepKeeps` | internal/runtime/manager.go:46-364 | every step of every goroutine, failing reads, the interrupted eviction, the abandoned shutdown and the cancelled poll among them, every step of a child, and every crash keeps the invariant |
| `Traces.SecondReady` | internal/runtime/manager.go:254-273 | a whole switch, with backup, eviction and the start of the other pack, is a run whichever of the assumptions are made |
| `Traces.EagerRetryTwoChildren` | internal/runtime/manager.go:80-86 | without assumption 1, two children of one pack can be live at once |
| `Traces.EagerShutdownLosesWorld` | internal/runtime/manager.go:341-364 | without assumption 2, any world can be lost: evicted after its backup, whose only archive a second stop then tears |
| `Traces.LateIdleStopMisfiles` | internal/runtime/manager.go:445-466 | without assumption 3, the active pack can change back without a backup while the other pack's child runs on |
| `Traces.OverlookedHeadStartsAfresh` | internal/store/store.go:67-80 | without assumption 4, an evicted world whose only backup is passed over is replaced by any new world |
| `Traces.InterruptedEvictionRunsOnRemains` | internal/runtime/manager.go:159-176 | under all assumptions, a crash during an eviction leads to a server that runs on any remains of its world, while the head of its backups holds all of it |
| `Traces.UnreadableHeadConflicts` | internal/runtime/manager.go:162-189 | under all assumptions, a run reaches a stop with a pending backup that presents generation 0 to a store whose head is 1, and is refused |
| `Traces.ReadyAfterDeath` | internal/runtime/manager.go:205-222 | under all assumptions, a pack can become ready after the exit of its server was observed, and every login for it is then told that it is ready |
| `Traces.LinkedWorldStranded` | internal/store/store.go:267-268 | under all assumptions, a world with a surviving symbolic link can be evicted, and exactly such a world is then refused by its restore |
| `Traces.OneLinkStranded` | internal/store/store.go:267-268 | for instance a world of one link |
| `Manager.StateFile.Load` | internal/runtime/state.go:41-59 | the state last saved, the idle state when there is no file, and a zero record with an error when the file cannot be read or decoded |
| `Manager.StateFile.Save` | internal/runtime/state.go:60-95 | replaces the whole persisted state, leaves it as it was, or replaces it and still reports an error |
| `Manager.Manager.constructor` | internal/runtime/manager.go:46-58 | a new manager holds what it could load and, unless idle, marks it RECOVERING; memory and disk agree, which every section keeps |
| `Manager.Manager.Ensure` | internal/runtime/manager.go:63-102 | the outcome of a login, a switch after a long empty stretch included, and the whole new state, in memory and on disk |
| `Manager.Manager.Enter` | internal/runtime/manager.go:128-158 | start changes the phase only while its pack is active |
| `Manager.Manager.RecordHead` | internal/runtime/manager.go:181-189 | the head's generation is taken over when there is one, and an unreadable head marks the backup pending |
| `Manager.Manager.Register` | internal/runtime/manager.go:195-203 | a child is registered only while its pack is active |
| `Manager.Manager.Exited` | internal/runtime/manager.go:229-244 | the exit of the registered child is expected or fails the pack; any other child's exit changes nothing |
| `Manager.Manager.Fail` | internal/runtime/manager.go:245-253 | the phase becomes FAILED and the given pack becomes the active one |
| `Manager.Manager.DrainForSwitch` | internal/runtime/manager.go:254-262 | a switch begins only from READY and to another pack |
| `Manager.Manager.DrainWhenIdle` | internal/runtime/manager.go:446-454 | an idle stop begins only from READY |
| `Manager.Manager.DrainForShutdown` | internal/runtime/manager.go:341-349 | a shutdown begins only with a registered child and outside IDLE |
| `Manager.Manager.EnterSaving` | internal/runtime/manager.go:274-280 | the stop works on the pack and child registered at this moment |
| `Manager.Manager.ExpectStop` | internal/runtime/manager.go:287-293 | sets or withdraws the expectation that the child exits |
| `Manager.Manager.RecordCommit` | internal/runtime/manager.go:318-330 | a committed generation is recorded and clears the pending mark; a failed commit sets it |
| `Manager.Manager.Conclude` | internal/runtime/manager.go:268-271 | the state becomes that of a fresh start of the target, or idle |
| `Manager.Restart` | internal/runtime/manager.go:50-55 | a crash between any two sections loses nothing a section saved |
| `Manager.UnreadableStateIsStuck` | internal/runtime/manager.go:50-51 | a state file that cannot be read leaves a manager that refuses every login and begins no stop, for ever |
| `Generations.ArchivePutHarmless` | internal/store/store.go:111-123 | however the archive upload of the next generation ends, nothing complete changes and nothing new becomes complete |
| `Generations.ManifestPutDecides` | internal/store/store.go:133-135 | the manifest upload completes exactly the next generation when it lands, and changes nothing that counts otherwise |
| `Generations.CommitStep` | internal/store/store.go:92-144 | one attempt, however it ends: when it succeeds, when it conflicts, what the new head holds, and that nothing complete is altered |
| `Generations.CommitHistorySafe` | internal/store/store.go:92-144 | over any history of attempts the complete generations are 1 to the head, every decodable manifest has its archive, none is altered, and the head never goes back |
| `Generations.TwoCommittersLoseAGeneration` | internal/store/store.go:92-111 | two committers pass the head check of an empty store, the first commits, and the torn upload of the second destroys the only generation |
| `Keys.GenerationKeys` | internal/store/store.go:101 | twenty zero-padded digits order and differ as all 64-bit generations do |
| `Keys.ManifestKeyOrder` | internal/store/store.go:132 | manifest keys of a pack sort as their generations |
| `Keys.ArchiveKeyInjective` | internal/store/store.go:101 | archive keys of a pack are distinct for distinct generations |
| `Keys.KeysLawful` | internal/store/store.go:56-66 | the program's key names have every property that the store relies on |
| `Keys.KeysWriteGeneration` | internal/store/store.go:101-132 | the keys of a generation hold its twenty decimal digits below the pack's directory |
| `Keys.PacksApart` | internal/store/store.go:56 | no key lies under the prefixes of two packs |
| `Store.HeadRefines` | internal/store/store.go:55-90 | the descending scan over keys finds the numerically greatest complete generation, or none exactly when there is none |
| `Store.CommitRefines` | internal/store/store.go:92-144 | a commit on string keys whose reads work is the attempt on generation numbers, with the same result |
| `Store.UnreadableHeadIsOlder` | internal/store/store.go:67-89 | with objects that cannot be read, Head still reports a complete generation, at most the true head |
| `Store.FaultyReadsOnlyJudge` | internal/store/store.go:93-140 | after a head check that sees the true head or fails, read faults leave the store as it was or as a commit with working reads does, and a success is a true one |
| `Store.SuccessIsVerified` | internal/store/store.go:93-140 | a commit succeeds only if both its head checks could list the store and the last one saw exactly the new generation |
| `Store.HonestExactlyHarmless` | internal/store/store.go:67-111 | on every store that Commit has written, no attempt can alter a complete generation if and only if its head check fails or sees the true head |
| `Store.SkippedHeadLosesGeneration` | internal/store/store.go:67-71 | for instance a head check that passes over an unreadable head lets a second attempt tear the only generation |
| `Store.CommitTouchesOnePack` | internal/store/store.go:92-144 | a commit for one pack leaves every other pack's backups alone |
| `Store.StoreHistorySafe` | internal/store/store.go:92-144 | over any history of commits of any packs on one store, whose head checks see the true head or fail, every pack's generations stay gap-free and sound and none is altered |
| `Store.CommitThenRestore` | internal/store/store.go:92-291 | after a successful commit of a tree, the head restores to exactly what a backup keeps of it, or is refused exactly when a symbolic link survives |
| `Store.SortDescending` | internal/store/store.go:66 | the given keys in descending order, as often as given |
| `Store.ArchiveStore.List` | internal/store/store.go:56 | exactly the stored keys with the prefix |
| `Store.ArchiveStore.Put` | internal/store/store.go:111 | what each ending of an upload leaves under its key |
| `Store.ArchiveStore.Scan` | internal/store/store.go:60-89 | the manifest under the greatest key that passes every test of Head, among the objects that can be read |
| `Store.ArchiveStore.Head` | internal/store/store.go:55-90 | the same under the program's key names, or an error when the listing fails |
| `Store.ArchiveStore.Commit` | internal/store/store.go:92-144 | the whole new store and the result, read errors included, equal to the specification that the refinement is about |
| `Store.ArchiveStore.Publish` | internal/store/store.go:132-143 | its second half: the manifest upload and the verification |
| `Store.ArchiveStore.Restore` | internal/store/store.go:204-291 | succeeds exactly when the listing works, a head exists, what its archive opens to replays and has its checksum, the volume works at each point and the destination is absent; when the checksum or the destination refuses; a failure leaves the destination unchanged |
| `Archive.ExtractAll` | internal/store/store.go:233-276 | the extraction loop computes the replay of the entries and stops at the first refused one |
| `Archive.AcceptedIffInside` | internal/store/store.go:242-251 | the path checks accept an entry exactly when its name is relative and resolves to a place strictly inside the staging directory |
| `Archive.WrittenNameAccepted` | internal/store/store.go:242-251 | every name the walk writes is left alone by the cleaning, accepted, and leads back to its own path |
| `RoundTrip.ArchiveRoundTrip` | internal/store/store.go:146-291 | for every directory tree, replaying what was written rebuilds exactly the surviving paths with their contents, refused if and only if a symbolic link survives |
| `RoundTrip.EmittedIsKept` | internal/store/store.go:152-193 | the walk emits exactly the surviving paths |
| `RoundTrip.LinkEntries` | internal/store/store.go:173-180 | the walk writes a link entry exactly when a symbolic link survives |
| `RoundTrip.ReplayForest` | internal/store/store.go:233-276 | replaying the walk of a link-free tree into a compatible directory adds exactly that tree |
| `RoundTrip.SkippedOnComponents` | internal/store/store.go:163-168 | the skipped names are the two root credential files and everything below the root's logs directory |
| `RoundTrip.LeftOutByName` | internal/store/store.go:163-168 | the left-out names themselves, and names like them that are written |
| `RoundTrip.AnyReplay` | internal/store/store.go:228-272 | any archive whose replay succeeds holds only files and directories and leaves a proper tree in which nothing was removed |
| `RoundTrip.LogsSilent` | internal/store/store.go:166-168 | nothing below the logs directory is written |
| `RoundTrip.KeptIsTree` | internal/store/store.go:146-202 | what a backup keeps of a directory tree is again one |
| `RoundTrip.SecondRoundTrip` | internal/store/store.go:146-291 | a restored world, archived and restored a second time, comes back without any further loss |
| `RoundTrip.LinkedWorldRefused` | internal/store/store.go:267-268 | a world of one symbolic link is archived and its restore is refused |
| `RoundTrip.CredentialDirectoryKept` | internal/store/store.go:163-165 | a directory with the name of a credential file keeps its child and itself through backup and restore |
| `Wire.VarintRoundTrip` | internal/mcproto/protocol.go:24-57 | reading what was written returns the number and exactly the suffix; negative 32-bit numbers come back raised by 2^32 |
| `Wire.VarintMinimal` | internal/mcproto/protocol.go:24-57 | a read consumes one to five bytes, yields less than 2^35, and the written form is the only shortest one |
| `Wire.GroupBits` | internal/mcproto/protocol.go:35-48 | masking, testing and marking a group byte are a remainder, a comparison and an addition |
| `Wire.GroupOr` | internal/mcproto/protocol.go:35 | placing a group above the bits read so far adds it |
| `Wire.GroupOff` | internal/mcproto/protocol.go:45-46 | taking a group off a 32-bit number is division with remainder by 128 |
| `Wire.TextRoundTrip` | internal/mcproto/protocol.go:58-76 | a written string of any length reads back exactly when it is at most 32767 bytes long, and what happens to longer ones |
| `Wire.HandshakeReplay` | internal/mcproto/protocol.go:84-121 | for every accepted input, parsing the forwarded frame succeeds, consumes all of it and gives the same handshake; it equals the bytes read exactly when their length prefix was minimal |
| `Wire.ProbeAccepted` | internal/mcproto/protocol.go:180-186 | the status probe for any host parses back to protocol 767, that host, port 25565 and state 1 exactly when the host is at most 32767 bytes |
| `Wire.AcceptsExactly` | internal/mcproto/protocol.go:84-121 | a stream yields a handshake and a rest if and only if it is a spelling of that handshake, field by field, followed by that rest |
| `Wire.HandshakeComplete` | internal/mcproto/protocol.go:84-121 | every protocol, host of at most 32767 bytes, port and next state 1 or 2, with any trailing bytes that fit, reads back to exactly these fields |
| `Wire.KnownVarints` | internal/mcproto/protocol.go:24-57 | known encodings: groups of seven bits, the lowest first |
| `Wire.MarkedGroups` | internal/mcproto/protocol.go:24-41 | five marked groups are refused as too long, an input that ends inside a number as cut off |
| `Wire.Reader.Take` | internal/mcproto/protocol.go:32 | a full read, or an end-of-input error that uses up what there was |
| `Wire.Reader.ReadVarint` | internal/mcproto/protocol.go:24-41 | the number of the first groups and what is left, or the error |
| `Wire.Reader.ReadText` | internal/mcproto/protocol.go:65-76 | the string and what is left, or the error |
| `Wire.Reader.ReadPort` | internal/mcproto/protocol.go:109-112 | two bytes, big-endian |
| `Wire.Reader.ReadHandshake` | internal/mcproto/protocol.go:84-121 | the handshake and what is left, or the error of the first check that fails |
| `Wire.Buffer.WriteVarint` | internal/mcproto/protocol.go:42-57 | appends the encoding of the number taken modulo 2^32 |
| `Wire.Buffer.WriteText` | internal/mcproto/protocol.go:58-64 | appends length and bytes |
| `Wire.BuildProbe` | internal/mcproto/protocol.go:180-186 | the framed probe for a host |
| `Limiter.IpLimiter.Allow` | internal/router/server.go:125-144 | the whole new table and the answer; no bucket kept is older than two minutes |
| `Limiter.PruningInvisible` | internal/router/server.go:138-142 | under a non-decreasing clock every call gets the answer that a table never pruned would give |
| `Limiter.AnswerIsOwn` | internal/router/server.go:125-144 | the answer depends on the calls of its own address alone |
| `Limiter.BucketMeaning` | internal/router/server.go:129-143 | each bucket opens at some call, lasts under a minute, and admits exactly its first `limit` calls |
| `Limiter.TwiceTheLimit` | internal/router/server.go:125-144 | any half-open one-minute interval admits at most twice the limit per address |
| `Limiter.WindowIsOneMinute` | internal/router/server.go:129-143 | a window lasts exactly sixty seconds from the first call of its bucket |
| `LogBuffer.NewLogBuffer` | internal/webui/logbuffer.go:24-46 | opening succeeds exactly with positive limits, a directory, files that open and readable lines, and then holds the last lines of both files |
| `LogBuffer.Buffer.Load` | internal/webui/logbuffer.go:48-62 | succeeds exactly on an absent file or on one that opens and has no overlong line, and then keeps the last maxEntries lines |
| `LogBuffer.Buffer.Write` | internal/webui/logbuffer.go:65-81 | the whole new state, for full and short writes and failing rotations; a log that a failed rotation closed takes nothing more |
| `LogBuffer.Buffer.Rotate` | internal/webui/logbuffer.go:83-100 | the live file replaces the rotated one and starts empty; a failure at each point leaves the files as far as it came and the log closed |
| `LogBuffer.Buffer.AppendEntry` | internal/webui/logbuffer.go:102-108 | keeps the last `maxEntries` lines |
| `LogBuffer.Buffer.Recent` | internal/webui/logbuffer.go:110-119 | the newest lines, all of them unless a smaller positive number is asked for |
| `LogBuffer.LogAgrees` | internal/webui/logbuffer.go:24-119 | over any history of writes of proper lines and restarts, memory and both files are stretches of the lines ever written |
| `LogBuffer.MemoryIsLastLines` | internal/webui/logbuffer.go:65-108 | without a restart, memory is exactly the last `maxEntries` lines ever written |
| `LogBuffer.ScannedLineByLine` | internal/webui/logbuffer.go:56-62 | a file is read back line by line, a carriage return before the newline dropped |
| `LogBuffer.WrittenLineByLine` | internal/webui/logbuffer.go:72-77 | a write adds its lines one by one, without the blank ones |
| `LogBuffer.FailedRotationKeeps` | internal/webui/logbuffer.go:80-98 | a rotation that fails keeps the live lines in one of the two files |
| `LogBuffer.RestartKeepsSuffix` | internal/webui/logbuffer.go:24-63 | when a restart succeeds, the suffix it holds, and exactly when that is all of what memory held |
| `LogBuffer.LiveIsBounded` | internal/webui/logbuffer.go:65-76 | the live file is within its limit or is a single write |
| `LogBuffer.MemoryMatchesDisk` | internal/webui/logbuffer.go:76-79 | one write reads alike from memory and from disk exactly when no piece is blank or ends in a carriage return |
| `LogBuffer.LongLineStopsRestart` | internal/webui/logbuffer.go:57-62 | one logged line of 1048576 bytes makes the next start fail, one of a byte less does not |
| `LogBuffer.BlankLineReturns` | internal/webui/logbuffer.go:76-79 | a blank line is skipped in memory and comes back after a restart |
| `Config.Config.Validate` | internal/config/config.go:112-210 | the domain is normalised in place and the problems listed are exactly the conditions violated |
| `Config.PackFaults` | internal/config/config.go:160-204 | exactly the faults of one pack |
| `Config.Config.PackForHost` | internal/config/config.go:212-227 | the routed ID, its pack and whether it is configured, as the specification that the routing theorems are about |
| `Config.RoutingExact` | internal/config/config.go:212-227 | a host reaches a pack exactly when its normal form is that pack's hostname |
| `Config.HostsExactly` | internal/config/config.go:212-229 | a host reaches a pack if and only if its name is the pack's hostname whatever the capitals, with spaces around it, a colon and what follows, and one final dot taken off |
| `Config.SpellingRoutesAlike` | internal/config/config.go:212-229 | capitals, spaces around a host, one final dot and a port never change the answer |
| `Config.EverySpellingRoutes` | internal/config/config.go:212-229 | every such spelling of a configured pack's hostname reaches the pack |
| `Config.RoutedNames` | internal/config/config.go:212-229 | the answer names the first label of a host directly below the domain, and is positive exactly when that is configured |
| `Config.CatalogRoutesBack` | internal/webui/guest.go:38-41 | every published hostname routes back to its own pack |
| `Config.AcceptedRoutes` | internal/config/config.go:112-227 | both of the above for every configuration that validation accepts |
| `Config.HostnameInjective` | internal/webui/guest.go:40 | no host stands for two packs |
| `Config.DotBeforePort` | internal/config/config.go:213-216 | a port is cut off, but a host with a final dot before its port reaches no pack |
| `Config.AcceptedDomainStable` | internal/config/config.go:117 | an accepted domain is left alone by another validation |
| `Config.DomainSpellings` | internal/config/config.go:117 | every spelling of a domain is normalised to the one in small letters |
| `Config.LabelExactly` | internal/config/config.go:93 | a label is one to sixty-three small letters, digits and hyphens with no hyphen at either end |
| `Config.PatternExactly` | internal/config/config.go:198-203 | an exclusion pattern is good exactly when it has a visible character and no comma or line break |
| `Config.AcceptedExactly` | internal/config/config.go:112-210 | a configuration has no problem exactly when each of its parts is in order, the packs included |
| `Config.HeadroomExact` | internal/config/config.go:174-179 | an accepted pack leaves 256 MB outside its heap exactly when adding them does not overflow |
| `Config.HeadroomMissed` | internal/config/config.go:174-179 | a pack with the largest heap passes every check on a machine of 256 MB |
| `Identity.Validate` | internal/config/lock.go:48-65 | a lock is accepted exactly when its schema, digest and every pack are lawful; each error has its own cause, and names a real culprit |
| `Identity.LawfulExactly` | internal/config/lock.go:48-66 | a lawful lock, field by field |
| `Identity.CheckImmutable` | internal/config/lock.go:67-78 | an update is accepted exactly when no pack disappears and no identity digest changes |
| `Identity.ExtendsIdentities` | internal/config/lock.go:67-78 | between valid locks that is the same as keeping every pack's five identity fields |
| `Identity.ChainKeepsIdentity` | internal/config/lock.go:67-78 | along any chain of accepted updates the pack set only grows and the five fields stay fixed |
| `Identity.Matches` | internal/config/lock.go:80-97 | passes exactly when the catalog digest agrees and lock and catalog have the same packs with the same five fields |
| `Identity.Generate` | internal/config/lock.go:106-139 | a generated lock is lawful and matches its catalog; there is none exactly when some pack does not resolve |
| `Identity.Instances.EnsureIdentity` | internal/runtime/manager.go:366-401 | compares with the record beside the instance, or writes it the first time; reading and writing may fail |
| `Identity.LaunchIdentityFixed` | internal/runtime/manager.go:177-180 | over all runs on one volume, whatever locks it is restarted with and whatever records become unreadable, every launch of an ID uses the identity first recorded |
| `Identity.LaunchIffRecorded` | cmd/hostpackd/main.go:104-117 | once launched, a pack launches again exactly when its record can be read and the served catalog has that identity |
| `Monitor.Monitor.Begin` | internal/runtime/manager.go:414-427 | when the ticker polls, and when it gives up an idle machine |
| `Monitor.Monitor.Process` | internal/runtime/manager.go:428-446 | the new empty-since mark, in memory and on disk, and the decision |
| `Monitor.MarkIsStretch` | internal/runtime/manager.go:429-444 | the mark is the first poll of the current empty stretch |
| `Monitor.StopExact` | internal/runtime/manager.go:414-446 | for every clock, the ticker decides to stop if and only if the poll that opened the current empty stretch lies at least the configured length back |
| `Monitor.StopJustified` | internal/runtime/manager.go:414-446 | for every clock, a decision to stop has a stretch of that length behind it in which every processed poll found the server empty, across restarts; with a clock that never steps back, every such stretch leads to the decision |
| `Monitor.PlayersPreventStop` | internal/runtime/manager.go:428-446 | after a poll that found one player or no server, a stop needs a whole new stretch of polls that found nobody |
| `Monitor.NobodyStops` | internal/runtime/manager.go:428-446 | polls that find nobody for the configured length lead to the stop under a steady clock |
| `Monitor.StopOnFirstPollAfterRestart` | internal/runtime/manager.go:439-445 | one empty poll after a long stop decides, and a replaced state does not |
| `FlyMachine.Machine.Ensure` | internal/flymachine/client.go:74-118 | the machine's new configuration and the result, for every answer of the platform |
| `FlyMachine.WantedOnlyResources` | internal/flymachine/client.go:94-103 | an update makes the machine fit and changes the three guest resources only |
| `FlyMachine.AnyKindIsResized` | internal/flymachine/client.go:83-103 | a guest with whole memory and CPU numbers and any CPU kind is resized unless all three agree with the pack |
| `FlyMachine.LaunchFits` | internal/runtime/manager.go:128-158 | Java is launched only on a machine that fits, however the platform behaves |
| `FlyMachine.ResizeConverges` | internal/runtime/manager.go:137-145 | when updates are applied as sent, at most one attempt reboots and every later one that can read the machine launches |
| `FlyMachine.TwoAttemptsLaunch` | internal/runtime/manager.go:137-145 | on a well-formed machine two undisturbed attempts end in a launch, with a resize before it exactly when needed |
| `FlyMachine.OthersUntouched` | internal/flymachine/client.go:94-103 | over all attempts the configuration outside the three resources stays as it was |
| `FlyMachine.IgnoredUpdatesRebootForEver` | internal/flymachine/client.go:118 | a platform that accepts updates without applying them makes every attempt reboot |

## Left out

- Manager.Manager.Save: takes every save as written, because the manager ignores the error of one that is not; `Manager.StateFile.Save` has all three endings.
- Manager.Manager.RecordHead: requires a set phase, because it runs only inside a start; so do Enter and RecordCommit.
- Store.ArchiveStore.Commit: requires that the next generation fits in 64 bits.
- Store.ArchiveStore.Restore: takes its checksum over the whole object that it opened, as if the decompressor always read to the end.
- Store.ArchiveStore.List: fails through the read faults of Head, not by itself.
- FlyMachine.Machine.Ensure: takes numbers as exact, so counts beyond 2^53 are not modelled.
- Limiter.IpLimiter.Allow: takes every clock reading to be more than two minutes after the zero time of an absent bucket.
- Config.Config.Validate: lists the problems without order and wording.
- LogBuffer.Buffer.Write: takes the files to be left alone by others; `Close` is not modelled.
- Identity.Generate: takes the providers' answers as given.
* Connection proxying, HTTP handlers, pages, shell scripts and infrastructure files: no state worth proving.
* Process spawning, ownership and environment: a launch creates the directory if absent and yields a child or fails.
* zstd, tar bytes, SHA-256 and JSON text: abstract injective encodings; a stored object is an archive, a manifest, or anything else.
* The pipe between archiving and uploading: a Put that succeeds has stored exactly the bytes hashed.
* S3, rclone and filesystem backends: one key-to-object map with a fallible Put.
* Manifest fields that nothing compares (creation time, lock digest) and `LastError`.
* Deadlines and sleeps inside the lifecycle: timeouts are steps that may happen. The empty-since condition of a switch is one too, so the step machine allows more switches than the code.
* The wait of a login for its pack (`waitReady`), which changes no state.
* Sockets, fifos and devices in a world, file modes, ownership and umask.
* RCON packets, status responses and their JSON.
* Unicode: text is ASCII or bytes; case folding and spaces are those of ASCII.
* The operator's restore command and manual edits under the state root.
