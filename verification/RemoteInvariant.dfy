/** What holds between a node, its reports and its controller in every reachable state. */
module RemoteInvariant {
  import opened Outcomes
  import opened RemoteModel
  import opened RemoteController
  import opened RemoteSystem
  import opened RemoteWrites

  ghost predicate InLog(log: seq<Entry>, edit: Edit) {
    exists e <- log :: e.edit == edit
  }

  // ---------------------------------------------------------------- the node

  /** A pending request is authorized; a policy edit runs at the very revision it was made for. */
  ghost predicate PendingSound(c: Config) {
    c.remote.pending.Some? ==>
      Authorized(c, c.remote.pending.value) && (c.remote.pending.value.operation == None ==> c.remote.execution == None)
  }

  ghost predicate JobSound(job: Job, c: Config) {
    !job.NoJob? ==>
      && HasReceipt(c.remote.receipts, job.edit.requestId)
      && (c.remote.pending == None || c.remote.pending == Some(job.edit))
      && (job.Storing? <==> job.edit.operation.Some?)
  }

  ghost predicate PastSound(c: Config, past: map<nat, Saved>) {
    c.revision in past && past[c.revision] == c.saved && forall k <- past :: k <= c.revision
  }

  /** A committed edit replaced exactly the policy its revision stood for. */
  ghost predicate EntrySound(e: Entry, past: map<nat, Saved>, revision: nat) {
    && e.edit.operation == None && e.at == e.edit.expectedRevision
    && e.to == e.at + (if e.from != e.edit.policy then 1 else 0) && e.to <= revision
    && e.at in past && past[e.at].policy == e.from && past[e.at].consent
    && e.to in past && past[e.to].policy == e.edit.policy
  }

  ghost predicate LogSound(log: seq<Entry>, past: map<nat, Saved>, revision: nat) {
    && (forall e <- log :: EntrySound(e, past, revision))
    && (forall i, k :: 0 <= i < k < |log| ==> log[i].to <= log[k].at)
  }

  ghost predicate NodeSound(s: Sys) {
    && NodeReceipts(s.node) && PendingSound(s.node) && JobSound(s.job, s.node)
    && PastSound(s.node, s.past) && LogSound(s.log, s.past, s.node.revision)
  }

  /** What the job has made of the VM so far. */
  ghost predicate VmSound(s: Sys) {
    && Verified(s)
    && (s.job.Resizing? && s.node.machine.created ==> s.node.machine.repairRequired || s.node.machine.allocation.None?)
    && (s.job.Ready? && s.node.machine.created ==> s.vm == s.job.edit.policy.resources)
  }

  // -------------------------------------------------------- rows and reports

  ghost predicate UniqueRows(rows: seq<Row>) {
    forall i, k :: 0 <= i < k < |rows| ==> rows[i].edit.requestId != rows[k].edit.requestId
  }

  ghost predicate OneActive(rows: seq<Row>) {
    forall i, k :: 0 <= i < k < |rows| ==> !(Active(rows[i]) && Active(rows[k]))
  }

  ghost predicate Known(rows: seq<Row>, edit: Edit) {
    exists row <- rows :: row.edit == edit
  }

  ghost predicate ActiveRow(rows: seq<Row>, edit: Edit) {
    exists row <- rows :: row.edit == edit && Active(row)
  }

  /** What a receipt says of a request the controller made. */
  ghost predicate Tells(r: Receipt, edit: Edit, log: seq<Entry>, pending: Option<Edit>) {
    && r.revision >= edit.expectedRevision
    && (r.status == Applied && edit.operation == None ==> InLog(log, edit))
    && (InLog(log, edit) ==> r.status == Pending || r.status == Applied)
    && (pending == Some(edit) ==> r.status == Pending)
  }

  /** Every receipt belongs to a row and tells the truth about it. */
  ghost predicate ReceiptTrue(r: Receipt, rows: seq<Row>, log: seq<Entry>, pending: Option<Edit>) {
    && r.status != UnknownStatus
    && (exists row <- rows :: row.edit.requestId == r.requestId)
    && (forall row <- rows :: row.edit.requestId == r.requestId ==> Tells(r, row.edit, log, pending))
  }

  ghost predicate AllTrue(receipts: seq<Receipt>, s: Sys) {
    forall r <- receipts :: ReceiptTrue(r, s.rows, s.log, s.node.remote.pending)
  }

  /** A report as it was sent: its revision stands for its consent, its pending receipts are current. */
  ghost predicate ReportSound(h: Report, past: map<nat, Saved>, revision: nat) {
    && Listed(h.receipts) && h.revision <= revision && h.revision in past && past[h.revision].consent == h.consent
    && (forall r <- h.receipts :: r.status == Pending ==> r.revision == h.revision)
  }

  ghost predicate Sorted(sent: seq<Report>) {
    forall i, k :: 0 <= i < k < |sent| ==> sent[i].revision <= sent[k].revision
  }

  ghost predicate HasApplied(receipts: seq<Receipt>, id: string) {
    exists r <- receipts :: r.requestId == id && r.status == Applied
  }

  /** One report's receipts give the row its status. */
  ghost predicate Reports(receipts: seq<Receipt>, row: Row) {
    exists r <- receipts ::
      r.requestId == row.edit.requestId && r.status != UnknownStatus && StatusOf(r.status) == row.status
  }

  ghost predicate Told(sent: seq<Report>, row: Row) {
    exists h <- sent :: Reports(h.receipts, row)
  }

  /** What the node still owes an active row: its reports must let the controller decide rightly. */
  ghost predicate Owed(edit: Edit, s: Sys) {
    && (forall h <- s.sent :: HasReceipt(h.receipts, edit.requestId) ==>
      HasReceipt(s.node.remote.receipts, edit.requestId))
    && (InLog(s.log, edit) ==> HasApplied(s.node.remote.receipts, edit.requestId))
    && (InLog(s.log, edit) ==> forall h <- s.sent :: h.revision > edit.expectedRevision ==>
      HasApplied(h.receipts, edit.requestId))
    && (s.node.remote.pending == Some(edit) ==>
         forall h <- s.sent :: h.revision > edit.expectedRevision ==>
           h.consent && HasPending(h.receipts, edit.requestId))
  }

  ghost predicate RowSound(row: Row, s: Sys) {
    && s.stored.Some? && row.edit.expectedRevision <= s.stored.value.revision
    && row.edit.expectedRevision in s.past && s.past[row.edit.expectedRevision].consent
    && (Active(row) ==> Owed(row.edit, s))
    && (row.own ==> row.status == RowRejected && !InLog(s.log, row.edit))
    && (!row.own && !Active(row) ==> Told(s.sent, row))
  }

  ghost predicate StoredSound(s: Sys) {
    s.stored.Some? ==>
      s.stored.value.revision <= s.node.revision && s.stored.value.revision in s.past &&
      s.past[s.stored.value.revision].consent == s.stored.value.consent
  }

  /** The edits in play are rows; what is pending or issued is active; nothing in play was committed. */
  ghost predicate InPlay(s: Sys) {
    && (s.node.remote.pending.Some? ==>
      ActiveRow(s.rows, s.node.remote.pending.value) && !InLog(s.log, s.node.remote.pending.value))
    && (!s.job.NoJob? ==> Known(s.rows, s.job.edit) && !InLog(s.log, s.job.edit))
    && (forall e <- s.log :: Known(s.rows, e.edit))
  }

  ghost predicate SameIds(a: seq<Receipt>, b: seq<Receipt>) {
    forall id :: HasReceipt(a, id) <==> HasReceipt(b, id)
  }

  /** While a report waits for its answer the supervisor does nothing else. */
  ghost predicate ChannelSound(s: Sys) {
    s.outstanding ==> s.job == NoJob && |s.sent| > 0 && SameIds(s.node.remote.receipts, s.sent[|s.sent| - 1].receipts)
  }

  ghost predicate Unseen(s: Sys, id: string) {
    !HasReceipt(s.node.remote.receipts, id) && forall h <- s.sent :: !HasReceipt(h.receipts, id)
  }

  /** An issued edit is active, was never seen by the node, and was issued against its last report. */
  ghost predicate ReplySound(s: Sys) {
    s.reply.Some? ==>
      && s.outstanding && |s.sent| > 0 && s.stored.Some?
      && ActiveRow(s.rows, s.reply.value) && Unseen(s, s.reply.value.requestId)
      && s.sent[|s.sent| - 1].revision == s.reply.value.expectedRevision == s.stored.value.revision
  }

  ghost predicate RowsSound(s: Sys) {
    UniqueRows(s.rows) && OneActive(s.rows) && forall row <- s.rows :: RowSound(row, s)
  }

  ghost predicate SentSound(s: Sys) {
    && Sorted(s.sent)
    && (forall h <- s.sent :: ReportSound(h, s.past, s.node.revision))
    && (forall h <- s.sent :: AllTrue(h.receipts, s))
  }

  ghost predicate NetSound(s: Sys) {
    && AllTrue(s.node.remote.receipts, s) && SentSound(s) && RowsSound(s) && StoredSound(s)
    && InPlay(s) && ChannelSound(s) && ReplySound(s)
  }

  ghost predicate Sound(s: Sys) {
    NodeSound(s) && NetSound(s)
  }
}
