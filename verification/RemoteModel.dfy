/**
 The node's side of owner-approved remote configuration: the durable settings, the single
 write path that stamps revisions, and the steps that receive, apply, fail and recover an edit.
 Sources: crates/core/src/configuration.rs, crates/agent/src/store.rs, crates/agent/src/remote.rs.
 */
module RemoteModel {
  import opened Outcomes

  const MAX_RECEIPTS: nat := 64
  const U64: nat := 0x1_0000_0000_0000_0000

  datatype Resources = Resources(cpus: nat, memoryMib: nat, diskGib: nat)

  datatype Policy = Policy(enabled: bool, startAtLogin: bool, resources: Resources, rules: nat)

  datatype Operation =
    | StoragePreview
    | StorageApply(plan: nat)
    | StorageRecovery(enabled: bool)
    | StorageRetry

  datatype Edit = Edit(operation: Option<Operation>, requestId: string, expectedRevision: nat,
                       policy: Policy, acknowledgeInterruption: bool)

  /** `UnknownStatus` stands for any text the controller does not accept. */
  datatype ReceiptStatus = Pending | Reviewed | Applied | Rejected | UnknownStatus

  datatype Receipt = Receipt(requestId: string, status: ReceiptStatus, revision: nat, result: Option<nat>,
                             effectivePolicy: Policy, effectiveResources: Option<Resources>)

  /** A storage change: not begun, or begun and possibly paused. */
  datatype StorageWork = NoWork | Draft | Running(paused: bool)

  /**
   The settings whose change advances the revision. `choices` stands for the identity, provider,
   fleet, location, layout and recovery settings.
   */
  datatype Saved = Saved(policy: Policy, consent: bool, choices: nat, storageRevision: nat, recreation: bool,
    updating: bool)

  /** The remote request being carried out, and the receipts of past ones. */
  datatype Remote = Remote(pending: Option<Edit>, execution: Option<nat>, storageStarted: bool, receipts: seq<Receipt>)

  /**
   What is saved about the VM. `busy` stands for prepare and stop requests, `storageDown` for
   disabled or missing storage.
   */
  datatype Machine = Machine(applying: bool, repairRequired: bool, allocation: Option<Resources>,
                             created: bool, configured: bool, lima: bool, pooled: bool,
                             busy: bool, work: StorageWork, storageDown: bool)

  datatype Config = Config(revision: nat, saved: Saved, remote: Remote, machine: Machine)

  // ---------------------------------------------------------------- receipts

  predicate HasReceipt(receipts: seq<Receipt>, id: string) {
    exists r <- receipts :: r.requestId == id
  }

  function Without(receipts: seq<Receipt>, id: string): (r: seq<Receipt>)
    ensures |r| <= |receipts|
    ensures forall x :: x in r <==> x in receipts && x.requestId != id
  {
    if receipts == [] then []
    else if receipts[0].requestId == id then Without(receipts[1..], id)
    else [receipts[0]] + Without(receipts[1..], id)
  }

  /** RemoteConfiguration::record: one receipt a request, newest last, oldest dropped beyond sixty-four. */
  function Record(receipts: seq<Receipt>, receipt: Receipt): seq<Receipt> {
    var all := Without(receipts, receipt.requestId) + [receipt];
    if |all| > MAX_RECEIPTS then all[1..] else all
  }

  /** The first pending receipt is stamped with the revision of a scoped write. */
  function StampPending(receipts: seq<Receipt>, revision: nat): (r: seq<Receipt>)
    ensures |r| == |receipts|
    ensures forall i :: 0 <= i < |r| ==>
      r[i] == receipts[i] || (receipts[i].status == Pending && r[i] == receipts[i].(revision := revision))
  {
    if receipts == [] then []
    else if receipts[0].status == Pending then [receipts[0].(revision := revision)] + receipts[1..]
    else [receipts[0]] + StampPending(receipts[1..], revision)
  }

  // ------------------------------------------------------------- acceptance

  predicate IdCharacter(c: char) {
    'a' <= c <= 'z' || 'A' <= c <= 'Z' || '0' <= c <= '9' || c == '-' || c == '_'
  }

  predicate ValidId(id: string) {
    1 <= |id| <= 128 && forall c <- id :: IdCharacter(c)
  }

  /** `allowed` is the verdict of validate_policy against the host's hardware. */
  predicate ValidEdit(edit: Edit, policy: Policy, consent: bool, revision: nat, allowed: bool) {
    consent && edit.expectedRevision == revision && ValidId(edit.requestId) &&
    (edit.acknowledgeInterruption || edit.operation == Some(StoragePreview)) &&
    edit.policy.startAtLogin == policy.startAtLogin &&
    if edit.operation.Some? then edit.policy == policy else allowed
  }

  predicate ValidRuntime(c: Config, edit: Edit) {
    var m := c.machine;
    var disk, saved := edit.policy.resources.diskGib, c.saved.policy.resources.diskGib;
    !m.repairRequired && !c.saved.recreation && !m.busy && !c.saved.updating &&
    match edit.operation
    case Some(StorageApply(plan)) =>
      exists r <- c.remote.receipts :: r.status == Reviewed && r.revision == c.revision && r.result == Some(plan)
    case Some(_) => true
    case None =>
      m.work == NoWork &&
      (!m.pooled || disk == saved) && (disk == saved || m.lima) &&
      (m.allocation.Some? ==> disk >= m.allocation.value.diskGib) &&
      (edit.policy.enabled ==> m.configured)
  }

  // -------------------------------------------------------------- the write path

  /** What may be reported as the allocation in effect. */
  function Effective(m: Machine): Option<Resources> {
    if m.repairRequired || m.work != NoWork || m.storageDown then None else m.allocation
  }

  predicate Authorized(c: Config, edit: Edit) {
    c.saved.consent && c.remote.pending == Some(edit) &&
    c.revision == (if c.remote.execution.Some? then c.remote.execution.value else edit.expectedRevision)
  }

  function Paused(work: StorageWork): StorageWork {
    match work
    case NoWork => NoWork
    case Draft => NoWork
    case Running(_) => Running(true)
  }

  /** A request left by the owner's change: its begun storage phase is paused. */
  function Interrupted(m: Machine, storageStarted: bool): Machine {
    if storageStarted then m.(work := Paused(m.work)) else m
  }

  function CancelReceipt(c: Config, id: string, m: Machine): Receipt {
    Receipt(id, Rejected, c.revision, None, c.saved.policy, if m.applying || m.work != NoWork then None
      else m.allocation)
  }

  /** An owner's change cancels whatever was pending, in the same write. */
  function Cancelled(c: Config): Config {
    if c.remote.pending.None? then c
    else
      var m := Interrupted(c.machine, c.remote.storageStarted);
      var receipt := CancelReceipt(c, c.remote.pending.value.requestId, m);
      c.(machine := m, remote := Remote(None, None, false, Record(c.remote.receipts, receipt)))
  }

  /** Store::update: `after` is what the caller's change made of `before`. */
  function Update(before: Config, scope: Option<Edit>, after: Config): Result<Config> {
    if scope.Some? && !Authorized(before, scope.value) then Refused
    else if before.saved == after.saved && before.revision == after.revision then Ok(after)
    else if before.revision + 1 >= U64 then Refused
    else
      var stamped := after.(revision := before.revision + 1);
      if scope.Some? then
        Ok(stamped.(remote := Remote(after.remote.pending, Some(stamped.revision),
                                     after.remote.storageStarted ||
                                       before.saved.storageRevision != after.saved.storageRevision,
                                     StampPending(after.remote.receipts, stamped.revision))))
      else Ok(Cancelled(stamped))
  }

  // --------------------------------------------------------------- node steps

  function NewReceipt(c: Config, id: string, status: ReceiptStatus): Receipt {
    Receipt(id, status, c.revision, None, c.saved.policy, Effective(c.machine))
  }

  /** receive_configuration; an error is answered by reject_configuration. */
  function Received(c: Config, edit: Edit, allowed: bool): Result<Config> {
    if c.remote.pending.Some? then
      if c.remote.pending.value == edit then Ok(c) else Refused
    else if HasReceipt(c.remote.receipts, edit.requestId) then Refused
    else if !ValidEdit(edit, c.saved.policy, c.saved.consent, c.revision, allowed) ||
      !ValidRuntime(c, edit) then Refused
    else
      var receipts := Record(c.remote.receipts, NewReceipt(c, edit.requestId, Pending));
      Update(c, None, c.(remote := Remote(Some(edit), None, false, receipts)))
  }

  function Turned(c: Config, edit: Edit): Config {
    if HasReceipt(c.remote.receipts, edit.requestId) then c
    else c.(remote := c.remote.(receipts := Record(c.remote.receipts, NewReceipt(c, edit.requestId, Rejected))))
  }

  function Delivered(c: Config, edit: Edit, allowed: bool): Config {
    var received := Received(c, edit, allowed);
    if received.Ok? then received.value else Turned(c, edit)
  }

  /** The first write of apply_configuration: uncertainty is saved before the VM is touched. */
  function Claimed(c: Config, edit: Edit, allowed: bool): Result<Config> {
    if !ValidEdit(edit, c.saved.policy, c.saved.consent, c.revision, allowed) || !ValidRuntime(c, edit) then Refused
    else
      var touches := c.machine.created && c.machine.allocation != Some(edit.policy.resources);
      Update(c, None, c.(machine :=
        c.machine.(applying := true, repairRequired := c.machine.repairRequired || touches)))
  }

  function CommitMachine(m: Machine, edit: Edit): Machine {
    m.(applying := false, repairRequired := false,
       allocation := if m.created then Some(edit.policy.resources) else m.allocation)
  }

  /** Its last write: policy, allocation and receipt together. */
  function Committed(c: Config, edit: Edit): Result<Config> {
    if !c.saved.consent || c.revision != edit.expectedRevision || c.remote.pending != Some(edit) then Refused
    else
      var revision := c.revision + (if c.saved.policy != edit.policy then 1 else 0);
      var machine := CommitMachine(c.machine, edit);
      var receipt := Receipt(edit.requestId, Applied, revision, None, edit.policy, Effective(machine));
      Update(c, None, Config(c.revision, c.saved.(policy := edit.policy),
                             c.remote.(pending := None, receipts := Record(c.remote.receipts, receipt)), machine))
  }

  function FailMachine(m: Machine): Machine {
    m.(applying := false, allocation := if m.repairRequired then None else m.allocation)
  }

  /** The write that follows any error of apply_configuration. */
  function Failed(c: Config, edit: Edit): Config {
    var base := c.(machine := FailMachine(c.machine));
    base.(remote := c.remote.(pending := None,
      receipts := Record(c.remote.receipts, NewReceipt(base, edit.requestId, Rejected))))
  }

  /** recover_configuration, at the start of every supervisor turn. */
  function Recovered(c: Config): Config {
    if !c.machine.applying then c
    else
      var base := c.(machine := c.machine.(applying := false, repairRequired := true, allocation := None));
      if c.remote.pending.None? then base
      else base.(remote := c.remote.(pending := None, receipts := Record(c.remote.receipts,
        Receipt(c.remote.pending.value.requestId, Rejected, c.revision, None, c.saved.policy, None))))
  }

  /** What the owner, or any process acting for the owner, may change. */
  datatype OwnerChange = OwnerChange(saved: Saved, bump: bool, busy: bool, work: StorageWork, storageDown: bool,
    recreate: bool)

  function OwnerMachine(m: Machine, o: OwnerChange): Machine {
    var n := m.(busy := o.busy, work := o.work, storageDown := o.storageDown);
    if o.recreate then n.(repairRequired := false, applying := false) else n
  }

  function OwnerAfter(c: Config, o: OwnerChange): Config {
    Config(if o.bump then c.revision + 1 else c.revision,
           o.saved.(recreation := c.saved.recreation || o.recreate), c.remote, OwnerMachine(c.machine, o))
  }

  function OwnerUpdated(c: Config, o: OwnerChange): Result<Config> {
    if o.recreate && c.saved.recreation then Refused else Update(c, None, OwnerAfter(c, o))
  }

  /** What a step of the storage lifecycle may change under a request's authority. */
  datatype StorageChange = StorageChange(policy: Policy, choices: nat, storageRevision: nat, work: StorageWork,
    storageDown: bool)

  function StorageAfter(c: Config, s: StorageChange): Config {
    c.(saved := c.saved.(policy := s.policy, choices := s.choices, storageRevision := s.storageRevision),
       machine := c.machine.(work := s.work, storageDown := s.storageDown))
  }

  function StorageWritten(c: Config, edit: Edit, s: StorageChange): Result<Config> {
    Update(c, Some(edit), StorageAfter(c, s))
  }

  /** finish_remote_storage, under the request's authority on success and without it on failure. */
  function FinishAfter(c: Config, edit: Edit, status: ReceiptStatus, result: Option<nat>): Config {
    var receipts := Record(c.remote.receipts, NewReceipt(c, edit.requestId, status).(result := result));
    if c.remote.pending == Some(edit) then c.(remote := Remote(None, None, false, receipts))
    else c.(remote := c.remote.(receipts := receipts))
  }

  function StorageFinished(c: Config, edit: Edit, result: Option<nat>): Result<Config> {
    Update(c, Some(edit), FinishAfter(c, edit, if result.Some? then Reviewed else Applied, result))
  }

  /** fail_remote_storage: an interrupted phase is paused before the rejection is saved. */
  function StoragePaused(c: Config, edit: Edit): Config {
    if c.remote.pending == Some(edit) then c.(machine := Interrupted(c.machine, c.remote.storageStarted)) else c
  }

  function StorageFailed(c: Config, edit: Edit): Config {
    FinishAfter(c, edit, Rejected, None)
  }
}
