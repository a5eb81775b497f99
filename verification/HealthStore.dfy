/**
 From measurements to admission: each one is upserted into the row of its slot, the day's rows are
 read back, and the slots assessed are these. Source: crates/controller/src/reconcile.rs.
 */
module HealthStore {
  import opened Outcomes
  import opened Health

  /** One observation of a worker; a failed one has no response time. */
  datatype Measurement = Measurement(at: int, rtt: Option<real>)

  predicate AllMeasured(log: seq<Measurement>) {
    forall i :: 0 <= i < |log| && log[i].rtt.Some? ==> log[i].rtt.value >= 0.0
  }

  /** One row a slot: inserted by the first measurement, updated by every other. */
  function Recorded(rows: map<int, Row>, m: Measurement): map<int, Row> {
    var slot := SlotOf(m.at);
    rows[slot := if slot in rows then Upserted(rows[slot], m.rtt) else Inserted(m.rtt)]
  }

  function Stored(log: seq<Measurement>): map<int, Row> {
    if log == [] then map[] else Recorded(Stored(log[..|log| - 1]), log[|log| - 1])
  }

  /** The measurements of one slot. */
  function Of(log: seq<Measurement>, slot: int): (r: seq<Option<real>>)
    ensures forall i :: 0 <= i < |log| && SlotOf(log[i].at) == slot ==> log[i].rtt in r
    ensures forall x <- r :: exists i :: 0 <= i < |log| && SlotOf(log[i].at) == slot && log[i].rtt == x
  {
    if log == [] then []
    else
      var before := Of(log[..|log| - 1], slot);
      if SlotOf(log[|log| - 1].at) == slot then before + [log[|log| - 1].rtt] else before
  }

  /** Each row is the upsert of its slot's measurements, whatever came between them. */
  lemma {:induction false} StoredRow(log: seq<Measurement>, slot: int)
    ensures slot in Stored(log) <==> Of(log, slot) != []
    ensures slot in Stored(log) ==> Stored(log)[slot] == Upserts(Of(log, slot))
  {
    if log != [] {
      var last := |log| - 1;
      StoredRow(log[..last], slot);
      if SlotOf(log[last].at) == slot {
        assert Of(log, slot)[..|Of(log, slot)| - 1] == Of(log[..last], slot);
      }
    }
  }

  /** The rows from `from` on, in order of their slots. */
  ghost predicate Queried(rows: map<int, Row>, from: int, samples: seq<Sample>) {
    && (forall i, k :: 0 <= i < k < |samples| ==> samples[i].at < samples[k].at)
    && (forall i :: 0 <= i < |samples| ==>
         samples[i].at in rows && samples[i].at >= from &&
         samples[i] == Sample(samples[i].at, rows[samples[i].at].ready, rows[samples[i].at].rtt))
    && (forall k <- rows :: k >= from ==> exists i :: 0 <= i < |samples| && samples[i].at == k)
  }

  lemma {:induction false} StoredSlots(log: seq<Measurement>, slot: int)
    requires slot in Stored(log)
    ensures SlotOf(slot) == slot
  {
    if slot in Stored(log[..|log| - 1]) {
      StoredSlots(log[..|log| - 1], slot);
    }
  }

  /** Samples in slots of their own are assessed as they are. */
  lemma {:induction false} DistinctSlots(samples: seq<Sample>, now: int, slot: int)
    requires forall i, k :: 0 <= i < k < |samples| ==> samples[i].at < samples[k].at
    requires forall i :: 0 <= i < |samples| ==> SlotOf(samples[i].at) == samples[i].at
    ensures slot in SlotsOf(samples, now) <==>
      exists i :: 0 <= i < |samples| && samples[i].at == slot && InWindow(samples[i], now)
    ensures forall i :: 0 <= i < |samples| && samples[i].at == slot && InWindow(samples[i], now) ==>
      SlotsOf(samples, now)[slot] == samples[i]
  {
    if samples != [] {
      var last := |samples| - 1;
      DistinctSlots(samples[..last], now, slot);
    }
  }

  predicate InDay(slot: int, now: int) { SlotOf(now) - DAY <= slot <= now }

  /** The slots assessed are exactly the day's rows. */
  lemma AssessedRows(log: seq<Measurement>, now: int, samples: seq<Sample>, slot: int)
    requires Queried(Stored(log), SlotOf(now) - DAY, samples)
    ensures slot in SlotsOf(samples, now) <==> slot in Stored(log) && InDay(slot, now)
    ensures slot in SlotsOf(samples, now) ==>
      SlotsOf(samples, now)[slot] == Sample(slot, Stored(log)[slot].ready, Stored(log)[slot].rtt)
  {
    hide SlotOf, SlotsOf, Stored;
    forall i | 0 <= i < |samples|
      ensures SlotOf(samples[i].at) == samples[i].at
    {
      StoredSlots(log, samples[i].at);
    }
    DistinctSlots(samples, now, slot);
  }

  /**
   A slot is assessed exactly when it was measured within the day, and is healthy exactly when
   every one of its measurements succeeded, in whatever order they came.
   */
  lemma HealthIsAll(log: seq<Measurement>, now: int, samples: seq<Sample>, slot: int)
    requires AllMeasured(log) && Queried(Stored(log), SlotOf(now) - DAY, samples)
    ensures slot in SlotsOf(samples, now) <==>
      InDay(slot, now) && exists i :: 0 <= i < |log| && SlotOf(log[i].at) == slot
    ensures slot in SlotsOf(samples, now) ==>
      (Healthy(SlotsOf(samples, now)[slot]) <==>
        forall i :: 0 <= i < |log| && SlotOf(log[i].at) == slot ==> log[i].rtt.Some?)
  {
    hide SlotOf, SlotsOf, Stored, Upserts, Queried;
    AssessedRows(log, now, samples, slot);
    StoredRow(log, slot);
    var all := Of(log, slot);
    if all != [] {
      assert all[0] in all;
      RowIsAll(all);
      if Upserts(all).rtt.Some? {
        var i :| 0 <= i < |all| && all[i] == Some(Upserts(all).rtt.value);
        assert all[i] in all;
      }
      forall i | 0 <= i < |all|
        ensures exists k :: 0 <= k < |log| && SlotOf(log[k].at) == slot && log[k].rtt == all[i]
      {
        assert all[i] in all;
      }
    }
  }

  /** The order in which measurements are recorded does not matter, within slots or between them. */
  lemma StoredReordered(a: seq<Measurement>, b: seq<Measurement>)
    requires multiset(a) == multiset(b)
    ensures Stored(a) == Stored(b)
  {
    hide SlotOf, Stored, Upserts;
    forall slot
      ensures slot in Stored(a) <==> slot in Stored(b)
      ensures slot in Stored(a) ==> Stored(a)[slot] == Stored(b)[slot]
    {
      StoredRow(a, slot);
      StoredRow(b, slot);
      SameOf(a, b, slot);
      SameOf(b, a, slot);
      if Of(b, slot) != [] {
        assert Of(b, slot)[0] in Of(a, slot);
      }
      if Of(a, slot) != [] {
        assert Of(a, slot)[0] in Of(b, slot);
        UpsertsSame(Of(a, slot), Of(b, slot));
      }
    }
  }

  lemma SameOf(a: seq<Measurement>, b: seq<Measurement>, slot: int)
    requires multiset(a) == multiset(b)
    ensures forall x <- Of(a, slot) :: x in Of(b, slot)
  {
    hide SlotOf;
    forall x <- Of(a, slot)
      ensures x in Of(b, slot)
    {
      var i :| 0 <= i < |a| && SlotOf(a[i].at) == slot && a[i].rtt == x;
      assert a[i] in multiset(a);
      assert a[i] in multiset(b);
      var k :| 0 <= k < |b| && b[k] == a[i];
    }
  }

  /** An upsert leaves no slot that is healthier or faster than it was. */
  lemma UpsertNoBetter(log: seq<Measurement>, extra: Measurement, now: int, before: seq<Sample>, after: seq<Sample>)
    requires AllMeasured(log) && SlotOf(extra.at) in Stored(log)
    requires Queried(Stored(log), SlotOf(now) - DAY, before)
    requires Queried(Stored(log + [extra]), SlotOf(now) - DAY, after)
    ensures NoBetter(SlotsOf(before, now), SlotsOf(after, now))
  {
    hide SlotOf, SlotsOf, Queried;
    assert (log + [extra])[..|log|] == log;
    forall slot
      ensures slot in SlotsOf(before, now) <==> slot in SlotsOf(after, now)
      ensures slot in SlotsOf(before, now) ==>
        var b, a := SlotsOf(before, now)[slot], SlotsOf(after, now)[slot];
        a.at == b.at && (Healthy(a) ==> Healthy(b) && b.rtt.value <= a.rtt.value)
    {
      AssessedRows(log, now, before, slot);
      AssessedRows(log + [extra], now, after, slot);
      StoredRow(log, slot);
      if slot in Stored(log) {
        RowIsAll(Of(log, slot));
        RowNotNegative(log, slot);
      }
    }
  }

  lemma RowNotNegative(log: seq<Measurement>, slot: int)
    requires AllMeasured(log) && slot in Stored(log)
    ensures Stored(log)[slot].rtt.Some? ==> Stored(log)[slot].rtt.value >= 0.0
  {
    hide SlotOf, Stored, Upserts;
    StoredRow(log, slot);
    var all := Of(log, slot);
    RowIsAll(all);
    if Upserts(all).rtt.Some? {
      var i :| 0 <= i < |all| && all[i] == Some(Upserts(all).rtt.value);
      assert all[i] in all;
    }
  }

  /** One more measurement of a slot that has a row never turns CI admission on. */
  lemma UpsertNeverHelps(log: seq<Measurement>, extra: Measurement, now: int, before: seq<Sample>, after: seq<Sample>,
      latest: int, rule: Rule)
    requires AllMeasured(log) && Antitone(rule) && SlotOf(extra.at) in Stored(log)
    requires Queried(Stored(log), SlotOf(now) - DAY, before)
    requires Queried(Stored(log + [extra]), SlotOf(now) - DAY, after)
    requires IsLatest(SlotsOf(before, now), latest)
    ensures IsLatest(SlotsOf(after, now), latest)
    ensures Ci(SlotsOf(after, now), latest, now, rule) ==> Ci(SlotsOf(before, now), latest, now, rule)
  {
    hide SlotOf, SlotsOf, Queried, Stored;
    UpsertNoBetter(log, extra, now, before, after);
    assert latest in SlotsOf(before, now).Keys;
    forall k <- SlotsOf(after, now)
      ensures k <= latest
    {
      assert k in SlotsOf(after, now).Keys;
    }
    if Ci(SlotsOf(after, now), latest, now, rule) {
      NoBetterCi(SlotsOf(before, now), SlotsOf(after, now), latest, now, rule);
    }
  }

  lemma StoredNext(log: seq<Measurement>, m: Measurement)
    ensures Stored(log + [m]) == Recorded(Stored(log), m)
  {
    assert (log + [m])[..|log|] == log;
  }

  /** The table of one device. */
  class Table {
    var rows: map<int, Row>
    ghost var log: seq<Measurement>

    ghost predicate Valid()
      reads this
    {
      rows == Stored(log)
    }

    constructor ()
      ensures Valid() && log == []
    {
      rows, log := map[], [];
    }

    /** The insert, or on conflict the update, of one observation. */
    method Record(now: int, rtt: Option<real>)
      requires Valid()
      modifies this
      ensures Valid() && log == old(log) + [Measurement(now, rtt)]
    {
      hide Stored;
      StoredNext(log, Measurement(now, rtt));
      var slot := now / SLOT * SLOT;
      if slot in rows {
        var row := rows[slot];
        rows := rows[slot := Row(row.ready && rtt.Some?, Worse(row.rtt, rtt))];
      } else {
        rows := rows[slot := Row(rtt.Some?, rtt)];
      }
      log := log + [Measurement(now, rtt)];
    }
  }
}
