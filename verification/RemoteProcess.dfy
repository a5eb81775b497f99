/** A late, repeated or current heartbeat leaves the network sound. */
module RemoteProcess {
  import opened Outcomes
  import opened RemoteModel
  import opened RemoteController
  import opened RemoteSystem
  import opened RemoteWrites
  import opened RemoteInvariant
  import opened RemoteMoves
  import opened RemoteExchange

  /** What a taken-in report changes: rows, the stored report and perhaps the reply. */
  ghost predicate Exchanges(s: Sys, t: Sys, h: Report) {
    && Taken(s, h) && Readable(h.receipts)
    && t == s.(rows := t.rows, stored := t.stored, reply := t.reply)
    && t.rows == Settled(AcknowledgeAll(s.rows, h.receipts), h)
    && t.stored.Some? && t.stored.value.revision == h.revision && t.stored.value.consent == h.consent
  }

  lemma RowAt(s: Sys, t: Sys, h: Report, k: nat)
    requires Exchanges(s, t, h) && k < |s.rows|
    ensures |t.rows| == |s.rows| && t.rows[k] == SettledRow(AcknowledgedRow(s, h, k), h)
  {
    EditsKept(s.rows, h.receipts);
  }

  lemma RowKept(s: Sys, t: Sys, h: Report, k: nat)
    requires Exchanges(s, t, h) && RowsSound(s) && k < |s.rows|
    ensures |t.rows| == |s.rows| && RowSound(t.rows[k], t) && t.rows[k].edit == s.rows[k].edit
    ensures Active(t.rows[k]) ==> Active(s.rows[k])
    ensures Active(s.rows[k]) && s.node.remote.pending == Some(s.rows[k].edit) ==> Active(t.rows[k])
    ensures
      var edit := s.rows[k].edit;
      Active(s.rows[k]) && !HasReceipt(h.receipts, edit.requestId) && h.revision == edit.expectedRevision ==>
        t.rows[k] == s.rows[k]
  {
    hide Taken, RowSound, OneActive, AcknowledgedRow, AcknowledgeAll;
    assert s.rows[k] in s.rows;
    RowAt(s, t, h, k);
    RowProcessed(s, t, h, k);
    if Active(s.rows[k]) && s.node.remote.pending == Some(s.rows[k].edit) {
      PendingStays(s, h, k);
    }
    if Active(s.rows[k]) && h.revision == s.rows[k].edit.expectedRevision {
      var r := Acknowledging(s, h, k);
      NotStaleYet(s, h, s.rows[k]);
      assert r.Some? ==> HasReceipt(h.receipts, s.rows[k].edit.requestId);
    }
  }

  ghost predicate RowsShrink(a: seq<Row>, b: seq<Row>) {
    |a| == |b| && forall k :: 0 <= k < |a| ==> b[k].edit == a[k].edit && (Active(b[k]) ==> Active(a[k]))
  }

  lemma RowsKept(s: Sys, t: Sys, h: Report)
    requires Exchanges(s, t, h) && RowsSound(s)
    ensures RowsSound(t) && RowsShrink(s.rows, t.rows)
  {
    hide Exchanges, RowSound;
    assert |t.rows| == |s.rows| by { assert Exchanges(s, t, h); RowsLength(s, t, h); }
    forall k | 0 <= k < |s.rows|
      ensures RowSound(t.rows[k], t) && t.rows[k].edit == s.rows[k].edit && (Active(t.rows[k]) ==> Active(s.rows[k]))
    {
      RowKept(s, t, h, k);
    }
  }

  lemma RowsLength(s: Sys, t: Sys, h: Report)
    requires Exchanges(s, t, h)
    ensures |t.rows| == |s.rows|
  {
    EditsKept(s.rows, h.receipts);
  }

  lemma TrueKept(s: Sys, t: Sys, receipts: seq<Receipt>)
    requires RowsShrink(s.rows, t.rows) && t.log == s.log && t.node == s.node && AllTrue(receipts, s)
    ensures AllTrue(receipts, t)
  {
    hide Tells;
    forall r <- receipts
      ensures ReceiptTrue(r, t.rows, t.log, t.node.remote.pending)
    {
      assert ReceiptTrue(r, s.rows, s.log, s.node.remote.pending);
      var i :| 0 <= i < |s.rows| && s.rows[i].edit.requestId == r.requestId;
      assert t.rows[i] in t.rows && t.rows[i].edit == s.rows[i].edit;
      forall row <- t.rows | row.edit.requestId == r.requestId
        ensures Tells(r, row.edit, t.log, t.node.remote.pending)
      {
        var k :| 0 <= k < |t.rows| && t.rows[k] == row;
        assert s.rows[k] in s.rows;
      }
    }
  }

  lemma PlayKept(s: Sys, t: Sys, h: Report)
    requires Exchanges(s, t, h) && RowsSound(s) && InPlay(s) && RowsShrink(s.rows, t.rows)
    ensures InPlay(t)
  {
    hide InLog, Taken, RowsSound;
    forall edit | Known(s.rows, edit)
      ensures Known(t.rows, edit)
    {
      var k :| 0 <= k < |s.rows| && s.rows[k].edit == edit;
      assert t.rows[k] in t.rows;
    }
    if s.node.remote.pending.Some? {
      var k :| 0 <= k < |s.rows| && s.rows[k].edit == s.node.remote.pending.value && Active(s.rows[k]);
      RowKept(s, t, h, k);
      assert t.rows[k] in t.rows;
    }
  }

  /** An edit issued earlier and not answered yet is still active after any report. */
  lemma ReplyKept(s: Sys, t: Sys, h: Report)
    requires Exchanges(s, t, h) && RowsSound(s) && ReplySound(s) && Sorted(s.sent) && t.reply == s.reply
    ensures ReplySound(t)
  {
    hide Taken, RowsSound, AcknowledgeAll, Settled;
    if s.reply.Some? {
      var edit := s.reply.value;
      assert h in s.sent && s.stored.value.revision <= h.revision by { TakenSent(s, h); }
      var i :| 0 <= i < |s.sent| && s.sent[i] == h;
      assert i < |s.sent| - 1 ==> h.revision <= s.sent[|s.sent| - 1].revision;
      var k :| 0 <= k < |s.rows| && s.rows[k].edit == edit && Active(s.rows[k]);
      RowKept(s, t, h, k);
      assert t.rows[k] in t.rows;
    }
  }

  lemma TakenSent(s: Sys, h: Report)
    requires Taken(s, h)
    ensures h in s.sent && (s.stored.Some? ==> s.stored.value.revision <= h.revision)
  {
  }

  /** A row the report mentions is either settled by it or confirmed as still pending. */
  lemma Mentioned(s: Sys, h: Report, k: nat)
    requires Taken(s, h) && UniqueRows(s.rows) && Readable(h.receipts) && k < |s.rows| && Active(s.rows[k])
    ensures
      if HasReceipt(h.receipts, s.rows[k].edit.requestId) then !Issued(AcknowledgedRow(s, h, k), h)
      else AcknowledgedRow(s, h, k) == s.rows[k]
  {
    hide Tells, UniqueRows, AllTrue;
    var r := Acknowledging(s, h, k);
    if r.Some? && r.value.status == Pending {
      assert r.value.revision == h.revision;
      assert Confirmed(AcknowledgedRow(s, h, k), h);
    }
  }

  /** An active row the last report does not mention was never seen by the node. */
  lemma IssuedUnseen(s: Sys, h: Report, k: nat)
    requires Taken(s, h) && RowsSound(s) && ChannelSound(s) && s.outstanding && Readable(h.receipts)
    requires |s.sent| > 0 && h == s.sent[|s.sent| - 1] && k < |s.rows|
    requires Issued(AcknowledgedRow(s, h, k), h)
    ensures Active(s.rows[k]) && Unseen(s, s.rows[k].edit.requestId) && h.revision == s.rows[k].edit.expectedRevision
    ensures h.consent
    ensures AcknowledgedRow(s, h, k) == s.rows[k]
  {
    hide Tells, InLog, UniqueRows, AllTrue;
    var row := s.rows[k];
    assert RowSound(row, s);
    assert UniqueRows(s.rows);
    AcknowledgedSame(s, h, k);
    Mentioned(s, h, k);
  }

  lemma AcknowledgedSame(s: Sys, h: Report, k: nat)
    requires Taken(s, h) && UniqueRows(s.rows) && Readable(h.receipts) && k < |s.rows|
    ensures AcknowledgedRow(s, h, k).edit == s.rows[k].edit
    ensures !Active(s.rows[k]) ==> AcknowledgedRow(s, h, k) == s.rows[k]
  {
    TakenReadable(s, h);
    AcknowledgedAt(s.rows, h.receipts, k);
  }

  lemma ReplyMade(s: Sys, t: Sys, h: Report)
    requires Exchanges(s, t, h) && RowsSound(s) && ChannelSound(s) && s.outstanding && |s.sent| > 0
    requires h == s.sent[|s.sent| - 1]
    requires t.reply == CommandFor(AcknowledgeAll(s.rows, h.receipts), h)
    ensures ReplySound(t)
  {
    hide Taken, RowsSound, AcknowledgeAll, Issued, ChannelSound, Unseen, CommandFor;
    if t.reply.Some? {
      var all := AcknowledgeAll(s.rows, h.receipts);
      EditsKept(s.rows, h.receipts);
      assert exists row <- all :: Issued(row, h) && row.edit == t.reply.value by { IssuedRow(all, h); }
      var k :| 0 <= k < |all| && Issued(all[k], h) && all[k].edit == t.reply.value;
      IssuedUnseen(s, h, k);
      RowKept(s, t, h, k);
      NotMentioned(s, h, s.rows[k].edit.requestId);
      assert t.rows[k] in t.rows;
      assert Unseen(t, t.reply.value.requestId) by { UnseenSame(s, t, t.reply.value.requestId); }
    }
  }

  lemma IssuedRow(rows: seq<Row>, h: Report)
    requires CommandFor(rows, h).Some?
    ensures exists row <- rows :: Issued(row, h) && row.edit == CommandFor(rows, h).value
  {
    hide Issued;
  }

  lemma NotMentioned(s: Sys, h: Report, id: string)
    requires Unseen(s, id) && Taken(s, h)
    ensures !HasReceipt(h.receipts, id)
  {
  }

  lemma UnseenSame(s: Sys, t: Sys, id: string)
    requires Unseen(s, id) && t.node == s.node && t.sent == s.sent
    ensures Unseen(t, id)
  {
  }

  lemma ExchangeKept(s: Sys, t: Sys, h: Report)
    requires NetSound(s) && Exchanges(s, t, h) && ReplySound(t)
    ensures NetSound(t)
  {
    hide AllTrue, RowsSound, ReplySound, InPlay, Taken, RowsShrink;
    RowsKept(s, t, h);
    TrueKept(s, t, s.node.remote.receipts);
    forall x <- t.sent
      ensures AllTrue(x.receipts, t)
    {
      TrueKept(s, t, x.receipts);
    }
    PlayKept(s, t, h);
    StoredTaken(s, t, h);
  }

  lemma StoredTaken(s: Sys, t: Sys, h: Report)
    requires Exchanges(s, t, h)
    ensures StoredSound(t)
  {
    hide AllTrue;
  }

  lemma ProcessFacts(s: Sys, i: nat)
    requires NetSound(s) && i < |s.sent|
    ensures var t := Next(s, Process(i)); var h := s.sent[i];
      || t == s || t == s.(reply := None)
      || (Exchanges(s, t, h) && t.reply == s.reply)
      || (Exchanges(s, t, h) && s.outstanding && i == |s.sent| - 1 &&
        t.reply == CommandFor(AcknowledgeAll(s.rows, h.receipts), h))
  {
    hide RowsSound, StoredSound, ChannelSound, ReplySound, InPlay, AllTrue, Settled, CommandFor, AcknowledgeAll;
    hide Readable;
    var h := s.sent[i];
    assert h in s.sent && AllTrue(h.receipts, s) && ReportSound(h, s.past, s.node.revision);
    if s.stored.None? || s.stored.value.revision <= h.revision {
      TakenReadable(s, h);
    }
  }

  lemma NoReply(s: Sys)
    requires NetSound(s)
    ensures NetSound(s.(reply := None))
  {
    hide Tells, InLog, Owed, Told, Listed;
    var t := s.(reply := None);
    forall row <- t.rows
      ensures RowSound(row, t)
    {
      assert RowSound(row, s);
      assert Owed(row.edit, s) ==> Owed(row.edit, t) by { OwedSame(s, t, row.edit); }
    }
  }

  lemma OwedSame(s: Sys, t: Sys, edit: Edit)
    requires t.node == s.node && t.log == s.log && t.sent == s.sent
    ensures Owed(edit, s) ==> Owed(edit, t)
  {
    hide InLog, HasReceipt, HasApplied, HasPending;
  }

  lemma ProcessNet(s: Sys, i: nat)
    requires NetSound(s) && i < |s.sent|
    ensures NetSound(Next(s, Process(i)))
  {
    hide AllTrue, RowsSound, Exchanges, InPlay, ReplySound, StoredSound, ReportSound, Exchange;
    var t := Next(s, Process(i));
    ProcessFacts(s, i);
    NoReply(s);
    var h := s.sent[i];
    if t == s || t == s.(reply := None) {
    } else if t.reply == s.reply {
      ReplyKept(s, t, h);
      ExchangeKept(s, t, h);
    } else {
      ReplyMade(s, t, h);
      ExchangeKept(s, t, h);
    }
  }
}
