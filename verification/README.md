# NodeHarbor: durable state machines, proved

NodeHarbor lets an owner share a computer: a host agent runs a Linux guest, a controller admits
it to a fleet. Most of what can go wrong in it happens between two durable writes: a power loss
in the middle of storage maintenance, a heartbeat answered late, a copy cut half way. This project
models those parts in Dafny and proves what they promise over every input, every run and every
point at which they may be cut.

Six components are modelled, each in its own group of files.

- **Storage pool journal** (`Pool*.dfy`, guest/storage_pool.py). The guest partitions disks, builds
  one LVM volume over them and writes its state file under a journal. The world is the disks,
  partitions, physical volumes, groups, volumes, filesystem, state file and journal. Each external
  command is one step (`PoolSteps`), chosen by looking at the world, as the source does. A run is
  cut after any number of steps. `PoolTheorem.Convergence` says that any number of cut direct calls
  and boots, followed by one complete attempt, ends exactly where the run that was never cut ends.
  `PoolGuest.Guest` is the program in its own imperative form, each method equal to a run of steps.
- **Remote configuration** (`Remote*.dfy`, the agent's store, remote and remote storage modules and
  the controller's queue). A node applies edits under the owner's consent and a revision; a
  controller learns of them only from heartbeats. `RemoteSystem` puts both together with owner
  changes, crashes, interrupted resizes, and reports that are processed late, twice or never.
  `RemoteInvariant.Sound` holds in every reachable state and gives the agreement theorems.
- **Backup stream** (`Backup*.dfy`, guest/storage_backup.py and guest/android_storage.py). A tree of
  names and inodes is walked, recorded with hard links and sparse extents, written as bytes, read
  back under short reads, restored and verified. JSON is any codec whose decoding undoes its encoding.
- **Packets and output lines** (`Packet*.dfy`, `OutputLines.dfy`). A ring buffer and a frame reader over
  arrays, and the line splitter of command output, against whole-stream specifications.
- **Sparse images and relocation** (`SparseImage.dfy`, `Relocation.dfy`). Two image verifiers, the
  sparse copy, and the staged creation, move and copy of a worker's disks cut at any step.
- **Admission** (`Health.dfy`, `HealthStore.dfy`, `Percentile.dfy`, `StoragePlan.dfy`, `StorageLayout.dfy`). Connectivity slots,
  the disk planner, the split of the system disk, and the request the guest then accepts.

In each group some files say what an operation comes to without the order of its checks, in both
directions: which requests the guest accepts, what each journal step decides and what boot and
retirement do (`PoolOutcome`, `PoolDecides`, `PoolBoot`), what a heartbeat, a delivered edit and a write
leave (`RemoteOutcome`, `RemoteUptake`, `RemoteSaves`), which bytes are a backup, which streams a
destination accepts, what they leave there and what they never touch (`BackupGrammar`, `BackupAccepts`,
`BackupResult`, `BackupConfined`).

Where the code and what it is for disagree, the model follows the code and the difference is proved:

- A request with a member the guest does not know is accepted and journaled, but boot cannot resume
  it, because boot rebuilds the request from five keys and its digest no longer matches
  (`PoolTheorem.BootReached` gives the exact condition; a direct call with the original request resumes it).
- A migration marked complete while a journal is pending is forgotten when that journal commits
  (`PoolMonotone.PendingForgetsMigration`).
- Asking for a worker's replacement clears the mark of an unverified allocation but keeps the old
  figure. What a node reports is the VM's in every run in which no replacement was granted while a
  recorded allocation was unverified (`RemoteAgreement.EffectiveIsReal`). That guard is exact: with such
  an allocation the VM may have any other for all the node can tell (`RemoteGuard.AnyVm`), so granting
  the request keeps a true report in every state it could be in if and only if there is none
  (`RemoteGuard.GuardExact`). After a failed or interrupted resize the allocation is already cleared,
  and replacing the worker is harmless; during a resize it is not (`RemoteAgreement.LostMark`,
  `RemoteReplacement.ReplacementReportsOld`).
- Replaying a restore is refused when a later name of a symbolic link already stands in the
  destination. After any interrupted attempts the next one succeeds exactly when none does
  (`BackupReplay.ReplayRebuilds`), so replay always works exactly for the sources in which no
  symbolic link has two names (`BackupReplay.ReplaysAlways`).
- A disk that looks blank may hide a signature where its first partition will begin. The request is
  accepted and journaled, and then refused at every attempt. A first pool is finished exactly when no
  disk does, and no volume group has its name (`PoolFirst.FirstRequestDone`); a later request exactly
  when none of the disks it adds does (`PoolGrow.GrowthRequestDone`).
- A staging directory cut before its receipt is written is refused by every later run
  (`Relocation.DiskHome.StageCopy` is declined exactly then).

## Model

| member | source | states |
|---|---|---|
| PoolTheorem.Convergence | guest/storage_pool.py:265-501 | however often direct calls and boots are cut after any durable step, the next complete attempt ends with the disks, identities, state file and verdict of the uncut run, and with the pool mounted when that run succeeds |
| PoolTheorem.BootReached | guest/storage_pool.py:265-277 | boot resumes a journal that was cut anywhere, and changes nothing exactly when the worker is not stopped or the original request had a member boot does not rebuild |
| PoolTheorem.ApplyReached | guest/storage_pool.py:380-501 | a direct call from any world the journal has reached continues it to the same outcome |
| PoolTheorem.TryReached | guest/storage_pool.py:265-501 | one attempt of either kind stays among the worlds of that journal, and a complete one ends with its outcome |
| PoolTheorem.TriesReached | guest/storage_pool.py:265-501 | any sequence of cut attempts stays among the worlds of that journal |
| PoolTheorem.ApplyFinished | guest/storage_pool.py:390-398 | a finished journal is only reactivated, with the same identities |
| PoolResume.WalkReady | guest/storage_pool.py:414-498 | every step a cut run completed would be a no-op if issued again, so the world is ready for resumption |
| PoolResume.WalkResumes | guest/storage_pool.py:411-498 | starting the whole procedure over from a cut run ends exactly where the uncut run ends |
| PoolResume.ReadyQuiet | guest/storage_pool.py:414-498 | in a ready world all completed steps leave the world alone |
| PoolResume.MemberStepReady | guest/storage_pool.py:414-451 | one member's partition, physical volume and size, once settled, stay settled while the others are prepared |
| PoolBuild.GroupDone | guest/storage_pool.py:456-475 | creating or extending the volume group leaves every journaled physical volume in the one owned group |
| PoolBuild.BuildDone | guest/storage_pool.py:456-498 | every later step keeps what the earlier ones built |
| PoolConvergence.OtherPartitionStays | guest/storage_pool.py:414-446 | preparing one member never unsettles another member's partition |
| PoolConvergence.FitDone | guest/storage_pool.py:447-451 | resizing a physical volume keeps its partition, its identity and its own completion |
| PoolConverges.RunWalk | guest/storage_pool.py:411-501 | a run with a limited number of steps performs exactly a prefix of the procedure |
| PoolConverges.WalkFiles | guest/storage_pool.py:497-500 | until the state file is written the saved state and the journal are untouched |
| PoolRuns.NewJournalSound | guest/storage_pool.py:399-410 | the journal a request writes keeps the known identities, and its new partitions and physical volumes are distinct and on no disk yet |
| PoolRuns.NewMembersDistinct | guest/storage_pool.py:402-407 | no two members of a journal share a partition or a physical volume |
| PoolRuns.HistoryInvariant | guest/storage_pool.py:265-501 | over every history of requests, boots, retirements and power losses the pending journal stays resumable |
| PoolCommands.HistoryGuarded | guest/storage_pool.py:265-501 | over every history, each destructive command any event issues is for the pending journal and meets its guard |
| PoolSafety.EveryCommandGuarded | guest/storage_pool.py:414-498 | partitioning touches only blank disks, physical volumes are made only on signature-free partitions of the journal, and a filesystem only on the owned empty volume of a pool without a state |
| PoolDecides.NewPartitionIs | guest/storage_pool.py:426-435 | a new member's disk is partitioned exactly while no partition has its uuid and it is a blank disk of its own |
| PoolDecides.KnownPartitionIs | guest/storage_pool.py:418-425 | a known member's first partition is grown exactly when the member is to be larger, and it is refused unless its only partition holds its volume on a disk that is large enough |
| PoolDecides.PvIs | guest/storage_pool.py:436-446 | a physical volume is made exactly on a blank partition that is the new member's only one, alone on an unmounted disk that is large enough and not the root's |
| PoolDecides.FitIs | guest/storage_pool.py:447-451 | a member is resized exactly where its only partition holds its volume |
| PoolDecides.NoGroupIs | guest/storage_pool.py:456-461 | a group is made only for a first pool, once every member has its one partition, and of exactly those |
| PoolDecides.GroupThereIs | guest/storage_pool.py:462-475 | a group that is there is extended exactly by the members' volumes in no group yet, and only if it is the pool's own and mixed with no other |
| PoolDecides.VolumeIs | guest/storage_pool.py:476-483 | a volume is made only in an empty group of a first pool, and any but the pool's own one is refused |
| PoolDecides.FillIs | guest/storage_pool.py:484-487 | the volume is filled exactly in a group with its one volume, the recorded identities and exactly the journal's members, while space is free |
| PoolDecides.FilesystemIs | guest/storage_pool.py:489-495 | a filesystem is made only on the bare volume of a first pool, and any but the journaled one is refused |
| PoolSafety.ForeignDisksKept | guest/storage_pool.py:84-113 | over every history a disk that was neither blank nor the pool's keeps its table and all its contents, and every volume group with a part on it its volumes and filesystems |
| PoolMonotone.PoolOnlyGrows | guest/storage_pool.py:67-81 | without retirement the generation never falls and no member is removed, re-created or shrunk, nor any identity changed |
| PoolMonotone.OtherRequestRefused | guest/storage_pool.py:386-389 | while a journal is pending any other request changes nothing |
| PoolMonotone.BeginsStarted | guest/storage_pool.py:396-410 | an accepted request writes a journal the convergence theorem starts from |
| PoolMonotone.FinishedPool | guest/storage_pool.py:452-500 | a finished journal leaves each member under its journaled identity, one filled volume with the journaled filesystem, no journal, and a state file that is the journal's field by field: its generation, identities and digest, each member on the disk it stands on, and the group and volume as they are |
| PoolOutcome.ApplySaves | guest/storage_pool.py:380-501 | a new request that ends Done has saved exactly itself: its generation and digest, each disk at its size under the identities it had or the ones drawn for it, on the disk where its one partition stands, and the group and volume as they are |
| PoolOutcome.OlderRefused | guest/storage_pool.py:67-81 | once a request has ended Done, any request of a smaller generation is refused and changes nothing |
| PoolOutcome.AcceptedIs | guest/storage_pool.py:380-410 | exactly which requests are accepted and what each goes on to do: resume the journal of its own, install and mount what it finished before, or write a new journal before anything else |
| PoolOutcome.RequestIs | guest/storage_pool.py:37-64 | a request is valid exactly when its texts are UUIDs, names and virtio disks, its sizes whole gibibytes up to a pebibyte, and each name and disk is used once |
| PoolOutcome.TransitionIs | guest/storage_pool.py:67-81 | a request may follow a saved state exactly when it is of the same pool and keeps every member, and is a later one that shrinks none or repeats the same members and sizes |
| PoolOutcome.PlacesPlanned | guest/storage_pool.py:84-113 | if every disk has a place, known members where their only partition holds their volume and new ones on blank disks of their own, that is the plan found |
| PoolOutcome.PlannedPlaces | guest/storage_pool.py:84-113 | every plan found places each disk so |
| PoolOutcome.GroupsApart | guest/storage_pool.py:209-214 | two pools never share a group name, and a group's tags are those of one device and pool only |
| PoolBoot.IntactIs | guest/storage_pool.py:224-239 | the inspection before activation passes exactly when the saved state is sound, every member is where its only partition holds its volume, and the group has the recorded identities, tags, one volume and exactly the members |
| PoolBoot.BootIs | guest/storage_pool.py:278-288 | without a journal boot changes no disk, and mounts the recorded filesystem exactly when the pool is intact and that filesystem is on its volume over an empty directory, or mounted already |
| PoolBoot.BootResumes | guest/storage_pool.py:265-277 | with a journal pending boot is exactly the direct call it can rebuild from five members, or refused |
| PoolBoot.RetiredIs | guest/storage_pool.py:513-522 | retirement touches the service, the state file and the journal only, in this order, and only of the pool it was asked for while the worker is stopped |
| PoolMonotone.PendingForgetsMigration | guest/storage_pool.py:452-454 | the committed migration flag is the one recorded when the journal was written |
| PoolFirst.FirstRequestDone | guest/storage_pool.py:399-501 | an accepted request for a first pool ends with the pool built exactly when none of its disks hides a signature and no volume group has the pool's name |
| PoolFirst.FirstPoolDone | guest/storage_pool.py:414-501 | the same of its journal: otherwise every attempt is refused |
| PoolFirst.SavedActivates | guest/storage_pool.py:265-293 | the state a first pool saves passes the inspection of the next boot |
| PoolGrow.GrowthRequestDone | guest/storage_pool.py:399-501 | an accepted request for a finished pool is carried out exactly when none of the disks it adds hides a signature, and leaves a finished pool |
| PoolGrow.GrowthDone | guest/storage_pool.py:411-501 | the same of its journal |
| PoolGrow.FirstFinishes | guest/storage_pool.py:411-501 | a first pool that is built is a finished pool |
| PoolGrow.KnownMember | guest/storage_pool.py:414-451 | a member the pool had is found, grown and fitted, and only sizes change |
| PoolRuns.PlansApart | guest/storage_pool.py:84-113 | an accepted plan finds every known member where its partition is, and no two disks of it share a device |
| PoolRuns.PlansHold | guest/storage_pool.py:92-100 | the partition a known member is found at holds its physical volume |
| PoolGuest.Guest.PrepareMember | guest/storage_pool.py:414-451 | one turn of the member loop is its three steps |
| PoolGuest.Guest.BuildPool | guest/storage_pool.py:414-498 | the whole preparation is a run of its steps under the remaining power |
| PoolGuest.Guest.BuildGroup | guest/storage_pool.py:456-475 | group creation or extension is one decided step |
| PoolGuest.Guest.WriteState | guest/storage_pool.py:452-498 | the state written is the specified next one, which `PoolMonotone.FinishedPool` and `PoolOutcome.ApplySaves` give field by field |
| PoolGuest.Guest.ApplyRequest | guest/storage_pool.py:380-501 | the new world and status are those of the specified call, for any power left |
| PoolGuest.Guest.ActivatePool | guest/storage_pool.py:265-293 | the new world and status are those of the specified boot, for any power left |
| RemoteAgreement.Agreement | crates/controller/src/configuration.rs:200-279 | a settled policy row is applied exactly when the node committed that very edit, and stays so for ever; a rejected edit was not and never will be applied |
| RemoteAgreement.TerminalForever | crates/controller/src/configuration.rs:228-276 | a terminal row never changes, whatever reports arrive later |
| RemoteAgreement.SoundKept | crates/agent/src/remote.rs:103-348 | every event of node, controller or network keeps the joint invariant |
| RemoteAgreement.Authority | crates/agent/src/store.rs:349-362 | whatever is pending has consent and stands at the execution revision, or else at its expected revision |
| RemoteAgreement.RevisionStep | crates/agent/src/store.rs:260-337 | a durable write moves the revision by nothing or by one, and by nothing only if nothing saved under it moved |
| RemoteAgreement.EqualRevisions | crates/agent/src/store.rs:275-337 | two saved states of one run with equal revisions have equal policy, consent and storage choices |
| RemoteAgreement.CompareAndSwap | crates/agent/src/remote.rs:242-315 | each committed edit replaced exactly the policy of its expected revision, none is committed twice, and no two policy changes were made for one revision |
| RemoteAgreement.DistinctAlways | crates/agent/src/remote.rs:103-127 | no edit enters the log of committed edits twice, however many receipts were evicted |
| RemoteAgreement.Resolved | crates/agent/src/remote.rs:242-348 | whatever ends a pending policy edit either saves policy, allocation and applied receipt at one revision after a successful resize, or saves nothing of it; an applied edit is what the VM has and no allocation is reported that it lacks, unless a replacement was granted while a recorded allocation was unverified |
| RemoteAgreement.EffectiveIsReal | crates/agent/src/remote.rs:83-94 | in every run in which no replacement was granted while a recorded allocation was unverified, an allocation reported as effective is the VM's |
| RemoteGuard.GuardExact | crates/agent/src/agent.rs:363-377 | granting a replacement keeps a true report, in every state the node could be in for all it can tell, if and only if no recorded allocation of its worker is unverified |
| RemoteGuard.GuardOfConfig | crates/agent/src/agent.rs:363-377 | the same for any settings, whether or not a run leads to them |
| RemoteGuard.AnyVm | crates/agent/src/remote.rs:256-330 | while a recorded allocation is unverified, for every allocation some run leads to the same node with a VM that has it |
| RemoteAgreement.LostMark | crates/agent/src/agent.rs:363-377 | asked for during a resize, a replacement makes the node report the old allocation whatever the resize leaves |
| RemoteReplacement.ReplacementReportsOld | crates/agent/src/agent.rs:363-377 | a run from an initial state ends with a reported allocation the VM does not have |
| RemoteExchange.AcknowledgedAt | crates/controller/src/configuration.rs:228-248 | a report's receipts change only active rows of their own id, to the status reported |
| RemoteExchange.CommittedStays | crates/controller/src/configuration.rs:249-276 | a committed edit is never rejected by the controller, however late the report |
| RemoteExchange.PendingStays | crates/controller/src/configuration.rs:254-264 | what the node still holds as pending stays active |
| RemoteProcess.IssuedUnseen | crates/controller/src/configuration.rs:265-275 | an edit is only issued if no report and no receipt of the node ever mentioned it |
| RemoteProcess.ProcessNet | crates/controller/src/configuration.rs:200-279 | a report processed late, twice or current keeps rows, reports and the issued edit truthful |
| RemoteChannel.DeliverNet | crates/agent/src/agent.rs:1285-1305 | delivering an issued edit keeps the invariant |
| RemoteChannel.AskFacts | crates/controller/src/configuration.rs:100-197 | a request joins the queue only with an id no row has, for the revision last reported under consent, and while no row is active |
| RemoteChannel.AskNet | crates/controller/src/configuration.rs:100-197 | a request that joins the queue keeps rows, reports and the issued edit truthful |
| RemoteWrites.OwnerFacts | crates/agent/src/store.rs:275-333 | an owner's write either leaves what is pending alone or cancels it in the same write, at the new revision |
| RemoteWrites.StorageFacts | crates/agent/src/store.rs:300-315 | a write under a request's authority keeps it pending and stamps its receipt with the new revision |
| RemoteWrites.CommitFacts | crates/agent/src/remote.rs:281-317 | the committing write saves exactly the edit, under the revision it was made for |
| RemoteWrites.FailFacts | crates/agent/src/remote.rs:318-330 | a failure rejects the edit and saves nothing else of it |
| RemoteWrites.RecoverFacts | crates/agent/src/remote.rs:332-348 | recovery after a crash marks the allocation unverified and rejects what was pending |
| RemoteWrites.FinishFacts | crates/agent/src/remote_storage.rs:109-148 | a finished storage request leaves one terminal receipt and nothing pending |
| RemoteWrites.DeliverFacts | crates/agent/src/remote.rs:103-215 | an unseen edit is taken up as pending at its revision or answered with a rejection |
| RemoteUptake.DeliverIs | crates/agent/src/remote.rs:103-215 | an unseen edit is taken up exactly under consent, at the revision, with nothing local under way, leaving alone what only the owner may change, with a plan reviewed at this revision for a storage change, and for new rules with no storage work and no disk to shrink or move; otherwise one rejection is recorded; either receipt carries the policy in effect |
| RemoteUptake.TakenUp | crates/agent/src/remote.rs:103-187 | in every run, an edit that arrives becomes pending exactly under those conditions |
| RemoteUptake.ClaimedIs | crates/agent/src/remote.rs:250-271 | it is begun exactly if they still hold then |
| RemoteUptake.CommitChanges | crates/agent/src/remote.rs:281-315 | in every run, a commit changes nothing saved but the policy, leaves start-at-login alone, keeps the disk size of a worker that is pooled or does not run in Lima, and enables only a configured one |
| RemoteUptake.DiskNeverShrinks | crates/agent/src/remote.rs:175-180 | in every run, no event lowers the recorded disk of a worker, and only a commit writes it |
| RemoteUptake.OwnerPauses | crates/agent/src/store.rs:305-310 | an owner's change that cancels a begun storage request pauses a running phase and drops a draft |
| RemoteUptake.FailurePauses | crates/agent/src/remote_storage.rs:150-178 | and so does the request's failure |
| RemoteUptake.ReceiptsTell | crates/agent/src/remote.rs:117-348 | in every run a receipt that is new and settled tells the policy and revision it is saved with, the allocation if nothing makes it doubtful, the reviewed plan if there is one, and how its request ended |
| RemoteSaves.UpdateIs | crates/agent/src/store.rs:260-362 | every write exactly: a request's own only while granted; unstamped exactly when nothing its revision stands for moved; otherwise at the next revision if there is one, carrying the request on with its receipt restamped, or rejecting what was pending and pausing what it began |
| RemoteSaves.AnsweredOnce | crates/agent/src/remote.rs:108-215 | an edit that is pending or was answered changes nothing when it comes again, and another beside a pending one is only answered |
| RemoteSaves.CommitIs | crates/agent/src/remote.rs:281-315 | the commit is made exactly while its edit is current, replaces the policy, settles the machine on its resources and changes nothing else |
| RemoteSaves.FailIs | crates/agent/src/remote.rs:318-330 | a failure clears the mark of the application, forgets an allocation in doubt and saves nothing of the edit |
| RemoteSaves.RecoverIs | crates/agent/src/remote.rs:332-348 | recovery does nothing unless an application was cut, and then forgets the allocation and what was pending |
| RemoteSaves.StepIs | crates/agent/src/store.rs:275-362 | a storage step is saved exactly while its request is granted and a revision is left, and saves the step and no other setting |
| RemoteSaves.OwnerIs | crates/agent/src/agent.rs:363-400 | an owner's change is refused only for a second replacement or a used-up revision; whatever moves a setting leaves nothing pending |
| RemoteSaves.SettingsShown | crates/controller/src/configuration.rs:215-227 | in every run each report shows the policy its revision stands for, and the controller keeps the last of them, or no policy without consent |
| RemoteWrites.RecordFacts | crates/core/src/configuration.rs:69-77 | recording keeps one receipt a request and at most sixty-four, and forgets another only for a new id |
| RemoteUptake.RecordIs | crates/core/src/configuration.rs:69-77 | a recorded receipt takes the place of its own id at the end; a new one beyond sixty-four makes the oldest go, and only it |
| RemoteWrites.StampSound | crates/agent/src/store.rs:305-313 | the stamped list still has its one pending receipt, at the new revision |
| RemoteNodeRuns.NodeKept | crates/agent/src/store.rs:260-337 | every event keeps authority, the history of revisions and the log of committed edits |
| RemoteNodeRuns.VmKept | crates/agent/src/remote.rs:256-330 | no event leaves an allocation believed in effect that the VM does not have, but a replacement granted while a recorded one is unverified |
| RemoteNode.Settings.AddReceipt | crates/core/src/configuration.rs:70-76 | the receipt list becomes the recorded one |
| RemoteNode.Settings.Save | crates/agent/src/store.rs:260-337 | the loaded copy is stamped, cancelled or discarded exactly as the write path says |
| RemoteNode.Settings.OwnerChanges | crates/agent/src/agent.rs:379-400 | an owner's action is one write of the changed copy |
| RemoteNode.Settings.Receive | crates/agent/src/remote.rs:103-127 | an edit becomes pending only when nothing is, its id is new, and it is valid now; `RemoteUptake.DeliverIs` says exactly when |
| RemoteNode.Settings.Deliver | crates/agent/src/agent.rs:1285-1305 | an edit that cannot be taken up is rejected once |
| RemoteNode.Settings.Claim | crates/agent/src/remote.rs:250-271 | uncertainty is saved before the VM is touched |
| RemoteNode.Settings.Commit | crates/agent/src/remote.rs:281-315 | policy, allocation and receipt are saved together or not at all |
| RemoteNode.Settings.Fail | crates/agent/src/remote.rs:318-330 | the settings after a failed application |
| RemoteNode.Settings.RecoverInterrupted | crates/agent/src/remote.rs:332-348 | the settings after an interrupted application |
| RemoteNode.Settings.StorageStep | crates/agent/src/store.rs:260-362 | a storage write is saved only while its request still has authority |
| RemoteNode.Settings.FinishStorage | crates/agent/src/remote_storage.rs:109-148 | completion is saved only under the request's authority |
| RemoteNode.Settings.FailStorage | crates/agent/src/remote_storage.rs:150-178 | a begun storage phase is paused before the rejection is saved |
| RemoteController.Queue.Enqueue | crates/controller/src/configuration.rs:118-197 | the queue and the answer to a request |
| RemoteController.Queue.Acknowledge | crates/controller/src/configuration.rs:228-248 | the receipts of a report in order, or none when one is unreadable |
| RemoteController.Queue.Settle | crates/controller/src/configuration.rs:249-276 | every active row kept, rejected, or named as the next command, as `RemoteOutcome.ExchangeIs` says row by row |
| RemoteController.Queue.Heartbeat | crates/controller/src/configuration.rs:200-279 | rows, stored report and command after one heartbeat, all or nothing, as `RemoteOutcome.ExchangeIs` says |
| RemoteOutcome.ExchangeIs | crates/controller/src/configuration.rs:200-279 | for any rows and report: refused for too many or unreadable receipts, ignored when older than the last, and otherwise each waiting row takes its first deciding receipt, or stays because the node has it in hand or it stands at the reported revision under consent, or is rejected; the command is the last row of the second kind not in hand |
| RemoteOutcome.StillWaiting | crates/controller/src/configuration.rs:249-276 | a row still waiting after a report has its consent, and stands at its revision or is pending with a pending receipt at that revision |
| RemoteOutcome.NothingLingers | crates/controller/src/configuration.rs:249-276 | in every run, after a report sent between jobs is processed, what still waits is what the node has in hand, or is the very edit issued in answer |
| RemoteOutcome.OvertakenMakesRoom | crates/controller/src/configuration.rs:166-180 | in every run, once the owner has overtaken every waiting request, one report rejects them and a new request is queued |
| RemoteOutcome.RequestedIs | crates/controller/src/configuration.rs:118-197 | a request known by its id is answered from the queue or refused; a new one is queued exactly when the last report consents, its settings fit and nothing waits |
| BackupReplay.RoundTrip | guest/storage_backup.py:96-216 | the written stream reads back, and restoring it ends with the same paths, kinds, bytes, metadata and hard links; no check rejects it unless a later name of a symbolic link stands there already |
| BackupReplay.RestoresExactly | guest/storage_backup.py:175-216 | the same for every stream that describes the tree, however its extents are split |
| BackupReplay.ReplayRebuilds | guest/storage_backup.py:175-216 | however often a restore was interrupted, restoring the stream again succeeds exactly when no later name of a symbolic link stands yet, and ends in the same tree |
| BackupReplay.ReplaysAlways | guest/storage_backup.py:175-216 | it succeeds after every sequence of interrupted attempts exactly when no symbolic link of the source has two names |
| BackupRoundTrip.LinkedSymlinkRefused | guest/storage_backup.py:181-188 | anywhere in a stream, a later name of a symbolic link that already stands in the destination is refused |
| BackupReplay.CutCompatible | guest/storage_backup.py:178-214 | wherever a restore is cut inside a record, the next may start from there |
| BackupReplay.DirsFinished | guest/storage_backup.py:215-215 | the last pass gives every directory its recorded metadata and touches nothing else |
| BackupReplay.EmptyCompatible | guest/storage_backup.py:175-177 | an empty destination is one a restore may start from, and nothing in it is refused |
| BackupReplay.TopLevelRoots | guest/storage_backup.py:82-83 | with no roots given, the top entries are roots that cover everything and do not nest |
| BackupAccepts.RestoredIs | guest/storage_backup.py:175-216 | any stream is restored exactly when each record has a plain path inside the roots that no other has, nothing but directories above it, stands for a directory where one is, meets no symbolic link but the one it restores, and links only to an earlier file; every other stream is refused |
| BackupAccepts.ItemIs | guest/storage_backup.py:178-214 | the same of one record and the destination as it finds it |
| BackupResult.RestoredMeans | guest/storage_backup.py:175-216 | what any accepted stream leaves: recorded directories with their metadata, every other name as the file, link or device recorded or as the very file it links to, with the metadata of the last record of it, files shared only by links, and everything else as it was |
| BackupConfined.RestoreConfined | guest/storage_backup.py:111-216 | whatever the stream says, a restore that succeeds named only distinct paths inside the roots, left every name outside them as it was but for new or retimed directories on the way to a root, and left every inode as it was |
| BackupRoundTrip.ItemRestored | guest/storage_backup.py:178-214 | one record restored keeps all that was restored before, adds its own path, and gives it no file that stands at a path still to come |
| BackupRoundTrip.ItemsRestored | guest/storage_backup.py:178-214 | any stretch of records is restored exactly when no later name of a symbolic link stands at one of its paths |
| BackupRoundTrip.SafeHere | guest/storage_backup.py:111-119 | the path check never refuses a path of the walk |
| BackupRoundTrip.FirstRestored | guest/storage_backup.py:191-213 | the first name of an inode gets a fresh inode with the source's contents and metadata |
| BackupRoundTrip.LinkRestored | guest/storage_backup.py:200-204 | a later name becomes a link to the file restored for the first |
| BackupRoundTrip.ItemReadable | guest/storage_backup.py:122-135 | every record that is written passes the reader's checks |
| BackupExact.VerifyExact | guest/storage_backup.py:138-159 | a stream accepted for one tree, however its extents were split, is accepted for another exactly when the two are the same |
| BackupExact.WrittenAccepted | guest/storage_backup.py:96-159 | the stream written from a tree is accepted for it |
| BackupExact.VerifyWhole | guest/storage_backup.py:138-159 | without roots a stream accepted for one tree is accepted for another exactly when both are equal throughout |
| BackupExact.RestoredVerifies | guest/android_storage.py:115-122 | a stream accepted for a tree always restores into an empty destination, rebuilds that tree, and is accepted for the destination |
| BackupVerify.ComparedExact | guest/storage_backup.py:147-158 | the streamed comparison of holes and extents decides whether the data rebuilds the file |
| BackupVerify.AcceptsDescribes | guest/storage_backup.py:138-159 | a stream is accepted exactly when its records and rebuilt data are those of the live tree |
| BackupVerify.AcceptedSame | guest/storage_backup.py:141-159 | trees described by one stream agree in kinds, metadata, contents and hard-link classes |
| BackupTree.OrderVisits | guest/storage_backup.py:82-93 | the walk visits exactly what the roots cover, each path once and after its directory |
| BackupTree.SortedDistinct | guest/storage_backup.py:90-90 | a directory's entries are listed in strictly ascending order |
| BackupTree.OrderSame | guest/storage_backup.py:85-93 | trees with the same names and directories are walked alike |
| BackupRecords.RecordLinks | guest/storage_backup.py:71-78 | a path is recorded as a hard link exactly when an earlier one names its inode, and it names the first |
| BackupRecords.SocketsAre | guest/storage_backup.py:60-63 | a walk can be recorded exactly when no name of it is a socket's |
| BackupExtents.ExtentsSound | guest/storage_backup.py:32-57 | the extents of any file are ordered, disjoint, in bounds, hold every non-zero byte and pass the reader's check |
| BackupExtents.Rebuilt | guest/storage_backup.py:102-107 | streaming the extents and seeking them back rebuilds the file |
| BackupExtents.FindSegments | guest/storage_backup.py:33-46 | the allocated ranges are found by alternating data and hole seeks |
| BackupExtents.FindExtents | guest/storage_backup.py:47-57 | the loop over blocks computes those extents |
| BackupStream.StreamRoundTrip | guest/storage_backup.py:96-135 | reading a written stream returns its records and data |
| BackupGrammar.ReadSpelled | guest/storage_backup.py:122-135 | every stream that is read is the magic, pieces of decodable metadata up to a mebibyte each with the data its extents ask for, and an empty piece with nothing after it; all others are refused |
| BackupGrammar.SpelledRead | guest/storage_backup.py:122-135 | every stream spelled so is read, as nothing but those records and data |
| BackupGrammar.AcceptedIs | guest/storage_backup.py:130-134 | extents are accepted exactly when each has some bytes, lies in the file and begins at or after the end of the one before |
| BackupIO.ByteStream.Exact | guest/storage_backup.py:23-29 | whatever short reads happen, exactly the next bytes are returned, or the stream is known to be too short |
| BackupIO.ReadRecord | guest/storage_backup.py:122-135 | the next header, the end with nothing after it, or a refusal |
| BackupIO.WriteBackup | guest/storage_backup.py:96-108 | the stream of the walk, and failure exactly when there is a socket or oversized metadata |
| BackupIO.CompareFile | guest/storage_backup.py:147-158 | holes and extents compared chunk by chunk under any short reads |
| BackupIO.VerifyBackup | guest/storage_backup.py:138-159 | the verdict depends only on the bytes and the live tree, whatever the reads |
| BackupGuest.FillFile | guest/storage_backup.py:206-211 | a file of zeros with every extent written over it |
| BackupGuest.Destination.Put | guest/storage_backup.py:191-212 | the new destination after everything that is not a directory, errors included |
| BackupGuest.Destination.Restore | guest/storage_backup.py:179-213 | the new destination after one record |
| BackupGuest.Destination.RestoreBackup | guest/storage_backup.py:175-216 | the new destination after a whole stream, and success exactly as `BackupAccepts.RestoredIs` says; refused or not, for any bytes, nothing outside the roots and no inode that was there is changed |
| BackupReceipt.Work.CreateBackup | guest/android_storage.py:90-112 | at every crash point a manifest's bytes are in the archive or the partial file; a replay commits that same backup if the source still matches it; with five steps left it is done, or declined exactly for a begun cleanup, another tree or lack of room, and lack of room changes nothing |
| BackupReceipt.Work.VerifyReceipt | guest/android_storage.py:64-74 | an interrupted commit is finished, and refused only after a cleanup began |
| BackupReceipt.Work.Cleanup | guest/android_storage.py:158-169 | a begun cleanup can be completed from any crash point; it is declined, and removes nothing, exactly for a partial file without a manifest |
| PacketFrames.FramingRoundTrip | android/runtime/network/packet_loop.c:45-85 | framed packets of 14 to 65536 bytes decode to themselves with nothing left over |
| PacketFrames.DecodeGoesOn | android/runtime/network/packet_loop.c:65-85 | decoding may stop anywhere and go on from what was left |
| PacketLoop.Loop.Enqueue | android/runtime/network/packet_loop.c:38-44 | bytes are appended around the end of the ring |
| PacketLoop.Loop.SendPacket | android/runtime/network/packet_loop.c:45-53 | a packet is buffered whole as one frame, or dropped whole when the ring is too full |
| PacketLoop.Loop.FlushOutput | android/runtime/network/packet_loop.c:54-64 | bytes leave the ring in order, as many as `PacketLoop.FlushIs` says for the socket's answers, and the loop is stopped exactly when it says so |
| PacketLoop.FlushIs | android/runtime/network/packet_loop.c:54-64 | each answer that takes bytes takes as many as it says, or up to the end of the ring, or all; a flush goes on until the ring is empty, the socket would block or fails, or no answer is left, and fails exactly on a failure or a zero answer while bytes wait |
| PacketLoop.WillingEmpties | android/runtime/network/packet_loop.c:54-64 | a socket that takes something often enough empties the ring |
| PacketLoop.Loop.ReadPackets | android/runtime/network/packet_loop.c:65-85 | at most sixty-four turns, each reading what the answer gives of the current length or packet; it ends early exactly when nothing more comes, and stops the loop exactly on a bad length, a failure or a closed socket; the packets delivered and the part kept are those of the bytes read |
| PacketRuns.RunWhole | android/runtime/network/packet_loop.c:45-64 | over any interleaving of sends and flushes, sent and buffered bytes are the frames of the accepted packets |
| PacketRuns.Delivered | android/runtime/network/packet_loop.c:38-85 | what has reached the socket decodes to the first accepted packets, and an empty ring means all of them |
| PacketRuns.FlushDelivers | android/runtime/network/packet_loop.c:38-64 | one flush against a socket that takes enough delivers every packet accepted so far |
| PacketRuns.Drive | android/runtime/network/packet_loop.c:38-64 | the ring driven by any calls and socket answers sends, keeps and stops as the wire does under the same calls and answers |
| PacketRuns.AnyPieces | android/runtime/network/packet_loop.c:65-85 | however a stream is cut the same packets come out |
| OutputLines.ReadOutput | crates/agent/src/process.rs:80-141 | the progress calls are those of the whole stream, whatever the reads, and output over 4 MiB is an error |
| OutputLines.TakeByte | crates/agent/src/process.rs:103-130 | one byte advances the whole-stream specification, lines over 4096 bytes and spinner glyphs included |
| OutputLines.LinesAre | crates/agent/src/process.rs:103-130 | the calls are the texts between line feeds and carriage returns, and on a terminal backspaces and escapes, empty ones left out, long ones replaced, an escape kept with what follows it |
| OutputLines.VisibleIs | crates/agent/src/process.rs:104-109 | a byte is hidden exactly where it is printable and follows a backspace on a terminal |
| SparseImage.VerifySparseCopy | crates/agent/src/lima_storage.rs:934-974 | the single pass accepts exactly byte-equal images |
| SparseImage.VerifyCopiedImage | crates/agent/src/runtime_storage.rs:179-211 | the pass that reads every range accepts exactly byte-equal images |
| SparseImage.UnionEnough | crates/agent/src/lima_storage.rs:950-954 | images that agree on the ranges of both agree everywhere |
| SparseImage.Skipped | crates/agent/src/lima_storage.rs:957-972 | what the single pass skips lies inside a range already compared |
| SparseImage.SparseCopy | crates/agent/src/lima_storage.rs:895-932 | the copy of the allocated ranges is byte-equal |
| SparseImage.CopyAndVerify | crates/agent/src/lima_storage.rs:838-861 | a finished copy passes both verifiers, whatever the destination allocates |
| Relocation.DiskHome.StageCopy | crates/agent/src/lima_storage.rs:791-861 | at every crash point the image survives and the destination exists only complete; declined exactly for a staging directory without its receipt |
| Relocation.DiskHome.Create | crates/agent/src/lima_storage.rs:274-376 | at every crash point the new disk's image survives and a registration leads to a complete directory; with enough steps left it is done and its mark gone, or declined exactly in the states no run gets past; no image but the new blank one is ever taken for the disk |
| Relocation.DiskHome.CommitMove | crates/agent/src/lima_storage.rs:452-475 | one rename switches the registration between complete directories, and until then it stays; declined exactly without both, or for another registration |
| Relocation.DiskHome.StageMove | crates/agent/src/lima_storage.rs:424-450 | staging a move leaves the registration alone and completes the destination with five steps left, unless the disk is not registered or its staging directory has no receipt |
| Relocation.RuntimeHome.CopyRuntime | crates/agent/src/runtime_storage.rs:400-532 | the destination's worker directory exists only as a complete copy, at every crash point, and is there after two steps more than there are files |
| Health.SlotIsAll | crates/controller/src/health.rs:20-35 | a slot is healthy exactly when all its samples are |
| Health.SlotMeans | crates/controller/src/health.rs:24-35 | a slot keeps the time of its first sample and the slowest of its response times |
| Health.CiMeans | crates/controller/src/health.rs:36-64 | CI is admitted exactly when each of the last 21 slots has samples and all of them are of a ready worker that answered, the first sample of the last slot is at most ninety seconds old, and the rule accepts its age and the percentile of the slots |
| Health.ExtraNeverHelps | crates/controller/src/health.rs:36-64 | one more measurement of an occupied slot never turns CI admission on |
| Health.ServicesMeans | crates/controller/src/health.rs:65-76 | services are admitted exactly with CI, a complete day, at least 2867 of 2881 healthy slots and a fast percentile, and then the last 21 slots are healthy |
| Health.RowIsAll | crates/controller/src/reconcile.rs:71-80 | a stored slot is the conjunction of its measurements with the slowest response |
| Health.UpsertsReordered | crates/controller/src/reconcile.rs:80-82 | the order of measurements does not matter |
| HealthStore.HealthIsAll | crates/controller/src/reconcile.rs:71-96 | after any measurements the slots assessed are those measured within the day, each healthy exactly when every one of its measurements succeeded |
| HealthStore.UpsertNeverHelps | crates/controller/src/reconcile.rs:80-96 | one more measurement upserted into an occupied slot never turns CI admission on |
| HealthStore.StoredReordered | crates/controller/src/reconcile.rs:80-82 | the stored rows do not depend on the order of the measurements, within slots or between them |
| HealthStore.AssessedRows | crates/controller/src/reconcile.rs:82-96 | the slots assessed are exactly the rows read back of the day |
| HealthStore.Table.Record | crates/controller/src/reconcile.rs:76-81 | the rows after one more observation are those of the longer log |
| Health.FoldSamples | crates/controller/src/health.rs:21-35 | the loop computes the slots |
| Health.Assess | crates/controller/src/health.rs:20-89 | both admissions are those of the day's slots, and neither is given without samples |
| Health.P95Means | crates/controller/src/health.rs:49-51 | the percentile is a measured value that at least 95 % of the values do not exceed, and no smaller one is |
| Percentile.OrderStatisticMonotone | crates/controller/src/health.rs:49-51 | slower responses never lower a percentile |
| StoragePlan.Plan | crates/agent/src/storage.rs:309-448 | a plan is accepted exactly when every selection is usable, directories do not nest, no disk is kept twice, every pool used keeps ten GiB free on its fullest used volume, and the total suffices; it then lists kept disks in their previous order before new ones |
| StoragePlan.AcceptableIs | crates/agent/src/storage.rs:309-448 | the condition of acceptance said of each disk, each pool, each pair and the sum, with no least free space in it |
| StoragePlan.NeedIs | crates/agent/src/storage.rs:375-412 | a disk that stays in its directory and volume needs only what it has not allocated yet, and any other its whole size |
| StoragePlan.TooMuch | crates/agent/src/storage.rs:394-412 | a pool overdrawn by the first selections is overdrawn by all of them, so checking early refuses nothing that would fit |
| StoragePlan.SortedByPrevious | crates/agent/src/storage.rs:440-446 | sorting keeps every disk, orders kept ones as before, and keeps the order of new ones |
| StorageLayout.SplitThenAdd | crates/agent/src/storage_layout.rs:50-80 | splitting the system disk off and adding it back is the identity |
| StorageLayout.AddThenSplit | crates/agent/src/storage_layout.rs:50-80 | adding the system disk and splitting it off is the identity |
| StorageLayout.ResolvedSplits | crates/agent/src/storage_layout.rs:23-48 | a resolved layout can always be split off |
| StorageLayout.ResolvedIs | crates/agent/src/storage_layout.rs:23-48 | a layout is resolved exactly when the total leaves 14 GiB of data and a location has room for the system disk and more, on the location it was on if that has, and else on the first that has |
| StorageLayout.TransformIs | crates/agent/src/storage_layout.rs:50-80 | exactly the system location's size changes, by the system disk's, and exactly when the layout is supported, the location is there on its volume and its size allows it |
| StorageLayout.RequestContinues | guest/storage_pool.py:67-81 | a request of a later generation passes the guest's transition check exactly when the plan keeps every member and shrinks none |
| StorageLayout.InitializeIsNew | crates/agent/src/lima.rs:280-286 | a disk is to be initialized exactly when it is not a member yet |
| StorageLayout.PlanReachesGuest | crates/agent/src/lima.rs:273-286 | the request derived from a split plan passes the guest's validation |
| StorageLayout.AcceptedPlanReachesGuest | guest/storage_pool.py:37-64 | whatever the planner accepts and a layout resolves, the guest's validation accepts |

## Left out

- Pool journal: SHA-256 digests are the requests themselves; typing errors inside the JSON files are not modelled; the request file, the machine-cache link and udev are left out.
- Pool journal: disks keep their paths across reboots, physical volumes are on partitions, volume group names are unique, extents are not rounded, a group has at least one physical volume, drawn identifiers never repeat, and a failing tool leaves the world unchanged.
- Pool journal: the pool's mount point is empty underneath and nothing but the pool is mounted there; replacing a pool and migrating legacy directories are single events.
- Remote configuration: format migration at load time, timestamps, actors, error texts, hardware limits and the 90-second freshness are left out or are arbitrary verdicts.
- Remote configuration: creating and recreating the worker, the owner's local resize and the inside of the storage lifecycle are arbitrary changes or left out; a remote storage step may save any policy, choices and lifecycle state, but does not change the recorded allocation.
- RemoteAgreement.EffectiveIsReal: covers remote edits only, because the local resize records its allocation after the fact.
- Remote configuration: deliveries and applications of one node happen one after the other, as in its supervisor, and only the last report can still be answered.
- Backup: the JSON library is any faithful codec; a path is a list of components; walking through a symbolic link in a root's own path is not modelled; extents are found on the file's bytes and allocation map.
- Backup: space estimates, quiescing the worker and the device check of the command line are left out; sizes and digests of an archive stand for its bytes.
- BackupGuest.Destination.RestoreBackup: after a failure it promises only what is not touched; `CutCompatible` covers what an interruption leaves inside the roots.
- Packets: timers, polling, the JNI entry and the packets' contents are left out.
- OutputLines.ReadOutput: decoding the bytes as UTF-8 happens to each finished line; a caller without progress gets the output only.
- Sparse images: cancellation, volume identity checks and a source that changes during the copy are left out.
- Relocation: locks, permissions, volume identities and the runtime's own commands are single steps; the VM stays stopped throughout; growing and retiring disks is left out; links and directories of a copied runtime are not distinguished from its files.
- Health: response times are reals that are absent or not negative, as the reconciler ensures; service eligibility is not antitone in failures, because its percentile is taken over healthy slots only, so nothing of the kind is claimed.
- Health: the shared admission rule is any rule antitone in the response time; node evidence and quantities are left out.
- Planner: canonical paths, volume discovery and permission probes are given; sums do not overflow within its limits.
- Drives, networks, telemetry, the activity log, worker reset, updates, packaging and the user interfaces are left out.
