/**
 Connectivity slots and admission. Sources: crates/controller/src/health.rs, and the upsert of
 crates/controller/src/reconcile.rs.
 */
module Health {
  import opened Outcomes
  import opened Percentile

  const SLOT: int := 30
  const DAY: int := 86400
  const WINDOW: nat := 2881

  datatype Sample = Sample(at: int, ready: bool, rtt: Option<real>)

  /** The shared admission rule for one window: percentile response time and age of the last sample. */
  type Rule = (real, int) -> bool

  /** Slower never qualifies where faster does not. */
  ghost predicate Antitone(rule: Rule) {
    forall slow: real, fast: real, age: int :: fast <= slow && rule(slow, age) ==> rule(fast, age)
  }

  /** What the reconciler lets through: no response time, or one that is not negative. */
  predicate Measured(s: Sample) { s.rtt.Some? ==> s.rtt.value >= 0.0 }

  predicate Healthy(s: Sample) { s.ready && s.rtt.Some? && s.rtt.value >= 0.0 }

  function SlotOf(at: int): int { at / SLOT * SLOT }

  function Max(a: real, b: real): real { if a < b then b else a }

  function Worse(a: Option<real>, b: Option<real>): Option<real> {
    if a.Some? && b.Some? then Some(Max(a.value, b.value)) else None
  }

  /** One more sample in an occupied slot. */
  function Merged(first: Sample, s: Sample): Sample {
    Sample(first.at, first.ready && Healthy(s), Worse(first.rtt, s.rtt))
  }

  predicate InWindow(s: Sample, now: int) {
    s.at <= now && s.at >= SlotOf(now) - DAY
  }

  function AddSample(slots: map<int, Sample>, s: Sample, now: int): map<int, Sample> {
    if !InWindow(s, now) then slots
    else
      var slot := SlotOf(s.at);
      slots[slot := if slot in slots then Merged(slots[slot], s) else s]
  }

  function SlotsOf(samples: seq<Sample>, now: int): map<int, Sample> {
    if samples == [] then map[]
    else AddSample(SlotsOf(samples[..|samples| - 1], now), samples[|samples| - 1], now)
  }

  // ---------------------------------------------------------- a slot is all of its samples

  predicate Hits(s: Sample, slot: int, now: int) { InWindow(s, now) && SlotOf(s.at) == slot }

  /** A slot exists when a sample hits it, and is healthy exactly when every one of them is. */
  lemma {:induction false} SlotIsAll(samples: seq<Sample>, now: int, slot: int)
    requires forall i :: 0 <= i < |samples| ==> Measured(samples[i])
    ensures slot in SlotsOf(samples, now) <==> exists i :: 0 <= i < |samples| && Hits(samples[i], slot, now)
    ensures slot in SlotsOf(samples, now) ==>
      Measured(SlotsOf(samples, now)[slot]) &&
      (Healthy(SlotsOf(samples, now)[slot]) <==>
        forall i :: 0 <= i < |samples| && Hits(samples[i], slot, now) ==> Healthy(samples[i]))
  {
    if samples != [] {
      var last := |samples| - 1;
      SlotIsAll(samples[..last], now, slot);
      if Hits(samples[last], slot, now) {
        assert exists i :: 0 <= i < |samples| && Hits(samples[i], slot, now);
      }
    }
  }

  /** Every key is the start of one of the day's slots. */
  lemma {:induction false} KeysAreSlots(samples: seq<Sample>, now: int, slot: int)
    requires slot in SlotsOf(samples, now)
    ensures slot % SLOT == 0 && SlotOf(now) - DAY <= slot <= SlotOf(now)
    ensures SlotOf(SlotsOf(samples, now)[slot].at) == slot && InWindow(SlotsOf(samples, now)[slot], now)
  {
    if samples != [] {
      var last := |samples| - 1;
      var s := samples[last];
      if slot in SlotsOf(samples[..last], now) {
        KeysAreSlots(samples[..last], now, slot);
      }
      SlotBounds(s.at, now);
    }
  }

  lemma SlotBounds(at: int, now: int)
    ensures SlotOf(at) % SLOT == 0 && SlotOf(at) <= at < SlotOf(at) + SLOT
    ensures at <= now ==> SlotOf(at) <= SlotOf(now)
    ensures at >= SlotOf(now) - DAY ==> SlotOf(at) >= SlotOf(now) - DAY
  {
  }

  // ------------------------------------------------------------------ admission

  ghost predicate IsLatest(slots: map<int, Sample>, latest: int) {
    latest in slots && forall k <- slots :: k <= latest
  }

  predicate AllHealthy(slots: map<int, Sample>, latest: int) {
    forall i :: 0 <= i < 21 ==> latest - 600 + 30 * i in slots && Healthy(slots[latest - 600 + 30 * i])
  }

  function WindowRtts(slots: map<int, Sample>, latest: int): (r: seq<real>)
    requires AllHealthy(slots, latest)
    ensures |r| == 21
  {
    seq(21, i requires 0 <= i < 21 => slots[latest - 600 + 30 * i].rtt.value)
  }

  function P95(rtts: seq<real>): real
    requires rtts != []
  {
    SortedKeeps(rtts);
    Sorted(rtts)[Index95(|rtts|)]
  }

  /** The ninety-fifth percentile is a measured value: the least that at least 95 % of them do not exceed. */
  lemma P95Means(rtts: seq<real>, v: real)
    requires rtts != []
    ensures P95(rtts) in rtts && 100 * AtMost(rtts, P95(rtts)) >= 95 * |rtts|
    ensures v < P95(rtts) ==> 100 * AtMost(rtts, v) < 95 * |rtts|
  {
    var k := Index95(|rtts|);
    SortedKeeps(rtts);
    assert Sorted(rtts)[k] in Sorted(rtts);
    CountDecides(Sorted(rtts), k, P95(rtts));
    SortedCounts(rtts, P95(rtts));
    CountDecides(Sorted(rtts), k, v);
    SortedCounts(rtts, v);
  }

  /** Ten minutes of healthy slots up to a recent last one, and a response time the rule accepts. */
  predicate Ci(slots: map<int, Sample>, latest: int, now: int, rule: Rule)
    requires latest in slots
  {
    Healthy(slots[latest]) && now - slots[latest].at <= 90 &&
    AllHealthy(slots, latest) &&
    rule(P95(WindowRtts(slots, latest)), if now > slots[latest].at then now - slots[latest].at else 0)
  }

  /** A sample of the thirty seconds from `start`, not in the future and not older than the day. */
  ghost predicate SeenIn(s: Sample, start: int, now: int) {
    start <= s.at < start + 30 && now - now % 30 - 86400 <= s.at <= now
  }

  /** There was a sample in these thirty seconds, and every one was of a ready worker with a response time. */
  ghost predicate FineIn(samples: seq<Sample>, start: int, now: int) {
    && (exists i :: 0 <= i < |samples| && SeenIn(samples[i], start, now))
    && forall i :: 0 <= i < |samples| && SeenIn(samples[i], start, now) ==>
         samples[i].ready && samples[i].rtt.Some? && samples[i].rtt.value >= 0.0
  }

  /** The first of the samples in a slot. */
  ghost predicate FirstIn(samples: seq<Sample>, start: int, now: int, i: nat) {
    i < |samples| && SeenIn(samples[i], start, now) && forall k :: 0 <= k < i ==> !SeenIn(samples[k], start, now)
  }

  /** Of the samples in a slot, none was slower, and one was as slow. */
  ghost predicate SlowestIn(samples: seq<Sample>, start: int, now: int, rtt: real) {
    && (forall i :: 0 <= i < |samples| && SeenIn(samples[i], start, now) ==>
         samples[i].rtt.Some? && samples[i].rtt.value <= rtt)
    && exists i :: 0 <= i < |samples| && SeenIn(samples[i], start, now) && samples[i].rtt == Some(rtt)
  }

  lemma HitsSeen(s: Sample, slot: int, now: int)
    requires slot % 30 == 0
    ensures Hits(s, slot, now) <==> SeenIn(s, slot, now)
  {
    SlotBounds(s.at, now);
    var n, m := s.at / 30, slot / 30;
    assert slot == 30 * m && SlotOf(s.at) == 30 * n;
  }

  /** A slot keeps the time of its first sample and the slowest of its response times. */
  lemma {:induction false} SlotMeans(samples: seq<Sample>, now: int, slot: int)
    requires slot in SlotsOf(samples, now) && slot % 30 == 0
    ensures exists i: nat :: FirstIn(samples, slot, now, i) && SlotsOf(samples, now)[slot].at == samples[i].at
    ensures SlotsOf(samples, now)[slot].rtt.Some? ==>
      SlowestIn(samples, slot, now, SlotsOf(samples, now)[slot].rtt.value)
  {
    hide Hits, SeenIn;
    var last := |samples| - 1;
    var init, s := samples[..last], samples[last];
    assert forall i :: 0 <= i < last ==> init[i] == samples[i];
    HitsSeen(s, slot, now);
    assert InWindow(s, now) && SlotOf(s.at) == slot <==> SeenIn(s, slot, now) by { HitsAre(s, slot, now); }
    if slot in SlotsOf(init, now) {
      SlotMeans(init, now, slot);
      var i: nat :| FirstIn(init, slot, now, i) && SlotsOf(init, now)[slot].at == init[i].at;
      assert FirstIn(samples, slot, now, i);
      SlowestGrows(init, s, slot, now);
    } else {
      NoneSeen(init, now, slot);
      assert FirstIn(samples, slot, now, last);
    }
  }

  lemma HitsAre(s: Sample, slot: int, now: int)
    ensures Hits(s, slot, now) <==> InWindow(s, now) && SlotOf(s.at) == slot
  {
  }

  lemma SlowestGrows(init: seq<Sample>, s: Sample, slot: int, now: int)
    ensures forall rtt :: SlowestIn(init, slot, now, rtt) && !SeenIn(s, slot, now) ==>
      SlowestIn(init + [s], slot, now, rtt)
    ensures forall rtt :: SlowestIn(init, slot, now, rtt) && s.rtt.Some? && SeenIn(s, slot, now) ==>
      SlowestIn(init + [s], slot, now, Max(rtt, s.rtt.value))
    ensures |init + [s]| == |init| + 1
  {
    hide SeenIn;
    var all := init + [s];
    assert forall i :: 0 <= i < |init| ==> all[i] == init[i];
    assert all[|init|] == s;
    forall rtt | SlowestIn(init, slot, now, rtt) && !SeenIn(s, slot, now)
      ensures SlowestIn(all, slot, now, rtt)
    {
      var i :| 0 <= i < |init| && SeenIn(init[i], slot, now) && init[i].rtt == Some(rtt);
      assert SeenIn(all[i], slot, now);
    }
    forall rtt | SlowestIn(init, slot, now, rtt) && s.rtt.Some? && SeenIn(s, slot, now)
      ensures SlowestIn(all, slot, now, Max(rtt, s.rtt.value))
    {
      var i :| 0 <= i < |init| && SeenIn(init[i], slot, now) && init[i].rtt == Some(rtt);
      assert SeenIn(all[i], slot, now) && SeenIn(all[|init|], slot, now);
    }
  }

  lemma {:induction false} NoneSeen(samples: seq<Sample>, now: int, slot: int)
    requires slot !in SlotsOf(samples, now) && slot % 30 == 0
    ensures forall i :: 0 <= i < |samples| ==> !SeenIn(samples[i], slot, now)
  {
    hide SeenIn, Hits;
    if samples != [] {
      var last := |samples| - 1;
      HitsAre(samples[last], slot, now);
      HitsSeen(samples[last], slot, now);
      NoneSeen(samples[..last], now, slot);
    }
  }

  /**
   CI is admitted exactly when each of the 21 slots of the last ten minutes was fine, the first sample
   of the last of them is at most ninety seconds old, and the rule accepts its age and the percentile
   of the slots' response times.
   */
  lemma CiMeans(samples: seq<Sample>, now: int, latest: int, rule: Rule)
    requires forall i :: 0 <= i < |samples| ==> Measured(samples[i])
    requires IsLatest(SlotsOf(samples, now), latest)
    ensures
      var slots := SlotsOf(samples, now);
      var fine := forall i :: 0 <= i <= 20 ==> FineIn(samples, latest - 30 * i, now);
      var age := now - slots[latest].at;
      && (fine <==> AllHealthy(slots, latest))
      && (Ci(slots, latest, now, rule) <==> fine && 0 <= age <= 90 && rule(P95(WindowRtts(slots, latest)), age))
  {
    hide FineIn, Healthy, P95, SlotsOf;
    var slots := SlotsOf(samples, now);
    KeysAreSlots(samples, now, latest);
    forall i | 0 <= i <= 20
      ensures FineIn(samples, latest - 30 * i, now) <==> latest - 30 * i in slots && Healthy(slots[latest - 30 * i])
    {
      FineIs(samples, now, latest - 30 * i);
    }
    if forall i :: 0 <= i <= 20 ==> FineIn(samples, latest - 30 * i, now) {
      forall i | 0 <= i < 21
        ensures latest - 600 + 30 * i in slots && Healthy(slots[latest - 600 + 30 * i])
      {
        assert latest - 600 + 30 * i == latest - 30 * (20 - i);
        assert FineIn(samples, latest - 30 * (20 - i), now);
      }
    }
    if AllHealthy(slots, latest) {
      forall i | 0 <= i <= 20
        ensures FineIn(samples, latest - 30 * i, now)
      {
        assert latest - 600 + 30 * (20 - i) == latest - 30 * i;
      }
      assert latest - 600 + 30 * 20 == latest;
    }
  }

  lemma FineIs(samples: seq<Sample>, now: int, slot: int)
    requires (forall i :: 0 <= i < |samples| ==> Measured(samples[i])) && slot % 30 == 0
    ensures FineIn(samples, slot, now) <==> slot in SlotsOf(samples, now) && Healthy(SlotsOf(samples, now)[slot])
  {
    hide SlotsOf, SeenIn, Hits;
    SlotIsAll(samples, now, slot);
    forall i | 0 <= i < |samples|
      ensures Hits(samples[i], slot, now) <==> SeenIn(samples[i], slot, now)
    {
      HitsSeen(samples[i], slot, now);
    }
  }

  // ------------------------------------------------------- an extra measurement

  ghost predicate NoBetter(better: map<int, Sample>, worse: map<int, Sample>) {
    worse.Keys == better.Keys &&
    forall k <- better ::
      worse[k].at == better[k].at &&
      (Healthy(worse[k]) ==> Healthy(better[k]) && better[k].rtt.value <= worse[k].rtt.value)
  }

  lemma NoBetterCi(better: map<int, Sample>, worse: map<int, Sample>, latest: int, now: int, rule: Rule)
    requires NoBetter(better, worse) && latest in better && latest in worse && Antitone(rule)
    requires Ci(worse, latest, now, rule)
    ensures Ci(better, latest, now, rule)
  {
    forall i | 0 <= i < 21
      ensures latest - 600 + 30 * i in better && Healthy(better[latest - 600 + 30 * i])
    {
      assert latest - 600 + 30 * i in worse.Keys;
    }
    var a, b := WindowRtts(better, latest), WindowRtts(worse, latest);
    forall i | 0 <= i < 21
      ensures a[i] <= b[i]
    {
      assert latest - 600 + 30 * i in better;
    }
    OrderStatisticMonotone(a, b, Index95(21));
  }

  /** One more measurement of an occupied slot, early or late, never turns CI admission on. */
  lemma ExtraNeverHelps(samples: seq<Sample>, extra: Sample, now: int, latest: int, rule: Rule)
    requires (forall i :: 0 <= i < |samples| ==> Measured(samples[i])) && Measured(extra) && Antitone(rule)
    requires SlotOf(extra.at) in SlotsOf(samples, now) && IsLatest(SlotsOf(samples, now), latest)
    ensures IsLatest(SlotsOf(samples + [extra], now), latest)
    ensures Ci(SlotsOf(samples + [extra], now), latest, now, rule) ==> Ci(SlotsOf(samples, now), latest, now, rule)
  {
    var before, after := SlotsOf(samples, now), SlotsOf(samples + [extra], now);
    assert (samples + [extra])[..|samples|] == samples;
    SlotIsAll(samples, now, SlotOf(extra.at));
    assert NoBetter(before, after);
    if Ci(after, latest, now, rule) {
      NoBetterCi(before, after, latest, now, rule);
    }
  }

  // ------------------------------------------------------------------- services

  function HealthySlots(slots: map<int, Sample>): set<int> {
    set k | k in slots && Healthy(slots[k])
  }

  predicate AllGood(slots: map<int, Sample>, keys: seq<int>) {
    forall i :: 0 <= i < |keys| ==> keys[i] in slots && Healthy(slots[keys[i]])
  }

  function Rtts(slots: map<int, Sample>, keys: seq<int>): seq<real>
    requires AllGood(slots, keys)
  {
    seq(|keys|, i requires 0 <= i < |keys| => slots[keys[i]].rtt.value)
  }

  /** `keys` are the day's healthy slots in order; an empty day has no finite percentile. */
  predicate Services(slots: map<int, Sample>, keys: seq<int>, latest: int, now: int, rule: Rule)
    requires latest in slots && AllGood(slots, keys)
  {
    var availability := |keys| as real / WINDOW as real;
    Ci(slots, latest, now, rule) && SlotOf(now) - DAY in slots &&
    availability >= 0.995 && 1.0 - availability < 0.005 && keys != [] && P95(Rtts(slots, keys)) < 300.0
  }

  ghost predicate Enumerates(keys: seq<int>, all: set<int>) {
    (forall i, k :: 0 <= i < k < |keys| ==> keys[i] != keys[k]) && forall x :: x in keys <==> x in all
  }

  lemma {:induction false} EnumeratesSize(keys: seq<int>, all: set<int>)
    requires Enumerates(keys, all)
    ensures |keys| == |all|
  {
    if keys != [] {
      var rest := keys[1..];
      forall x
        ensures x in rest <==> x in all - {keys[0]}
      {
        assert keys == [keys[0]] + rest;
      }
      EnumeratesSize(rest, all - {keys[0]});
    } else {
      assert forall x :: x in all ==> x in keys;
      assert all == {};
    }
  }

  /** The slots of a day, both ends included. */
  function DaySlots(end: int): set<int> {
    set i | 0 <= i < 2881 :: end - DAY + 30 * i
  }

  lemma DaySlotsSize(end: int, n: nat)
    requires n <= 2881
    ensures |set i | 0 <= i < n :: end - DAY + 30 * i| == n
    decreases n
  {
    var s := set i | 0 <= i < n :: end - DAY + 30 * i;
    if n > 0 {
      DaySlotsSize(end, n - 1);
      var t := set i | 0 <= i < n - 1 :: end - DAY + 30 * i;
      assert s == t + {end - DAY + 30 * (n - 1)};
    } else {
      assert s == {};
    }
  }

  lemma SubsetSize(a: set<int>, b: set<int>)
    requires a <= b
    ensures |a| <= |b|
  {
    assert a + b == b && a * b == a;
    assert |a + b| + |a * b| == |a| + |b|;
    assert |b - a| + |a * b| == |b|;
  }

  lemma NoMoreThanDay(samples: seq<Sample>, now: int)
    ensures |HealthySlots(SlotsOf(samples, now))| <= WINDOW
  {
    var all := HealthySlots(SlotsOf(samples, now));
    forall k <- all
      ensures k in DaySlots(SlotOf(now))
    {
      KeysAreSlots(samples, now, k);
      SlotBounds(now, now);
      var i := (k - (SlotOf(now) - DAY)) / 30;
      assert k == SlotOf(now) - DAY + 30 * i && 0 <= i < 2881;
    }
    SubsetSize(all, DaySlots(SlotOf(now)));
    DaySlotsSize(SlotOf(now), 2881);
  }

  /**
   Services are admitted exactly when CI is, the day's window is complete, its healthy slots
   respond within 300 ms at the ninety-fifth percentile, and they are at least 2867 of 2881.
   */
  lemma ServicesMeans(samples: seq<Sample>, keys: seq<int>, now: int, latest: int, rule: Rule)
    requires IsLatest(SlotsOf(samples, now), latest) && Enumerates(keys, HealthySlots(SlotsOf(samples, now)))
    ensures
      var slots := SlotsOf(samples, now);
      && AllGood(slots, keys)
      && (Services(slots, keys, latest, now, rule) <==>
           Ci(slots, latest, now, rule) && SlotOf(now) - DAY in slots && 2867 <= |HealthySlots(slots)| <= WINDOW &&
           keys != [] && P95(Rtts(slots, keys)) < 300.0)
      && (Services(slots, keys, latest, now, rule) ==> AllHealthy(slots, latest))
  {
    var slots := SlotsOf(samples, now);
    EnumeratesSize(keys, HealthySlots(slots));
    NoMoreThanDay(samples, now);
    forall i | 0 <= i < |keys|
      ensures keys[i] in slots && Healthy(slots[keys[i]])
    {
      assert keys[i] in keys;
    }
    Threshold(|keys|);
  }

  /** 99.5 % of 2881 slots is 2867 of them, and falling short of 0.5 % loss is the same bound. */
  lemma Threshold(n: nat)
    ensures n as real / WINDOW as real >= 0.995 && 1.0 - n as real / WINDOW as real < 0.005 <==> n >= 2867
  {
    var x := n as real / 2881.0;
    assert x * 2881.0 == n as real;
    if n >= 2867 {
      assert n as real >= 2867.0;
      assert x >= 2867.0 / 2881.0;
    } else {
      assert n as real <= 2866.0;
      assert x <= 2866.0 / 2881.0;
    }
  }

  // ------------------------------------------------------------- the database's upsert

  /** The row of one slot; a measurement that failed has no response time. */
  datatype Row = Row(ready: bool, rtt: Option<real>)

  function Inserted(m: Option<real>): Row { Row(m.Some?, m) }

  /** MIN of the flags; MAX of the times, which is no time when either is missing. */
  function Upserted(row: Row, m: Option<real>): Row {
    Row(row.ready && m.Some?, Worse(row.rtt, m))
  }

  function Upserts(measurements: seq<Option<real>>): Row
    requires measurements != []
  {
    if |measurements| == 1 then Inserted(measurements[0])
    else Upserted(Upserts(measurements[..|measurements| - 1]), measurements[|measurements| - 1])
  }

  ghost predicate IsMax(x: real, measurements: seq<Option<real>>) {
    (exists i :: 0 <= i < |measurements| && measurements[i] == Some(x)) &&
    forall i :: 0 <= i < |measurements| && measurements[i].Some? ==> measurements[i].value <= x
  }

  /** A stored slot is the conjunction of its measurements, in whatever order, with the slowest response. */
  lemma {:induction false} RowIsAll(measurements: seq<Option<real>>)
    requires measurements != []
    ensures Upserts(measurements).ready <==> forall i :: 0 <= i < |measurements| ==> measurements[i].Some?
    ensures Upserts(measurements).ready == Upserts(measurements).rtt.Some?
    ensures Upserts(measurements).rtt.Some? ==> IsMax(Upserts(measurements).rtt.value, measurements)
  {
    var last := |measurements| - 1;
    if last > 0 {
      var before := measurements[..last];
      RowIsAll(before);
      if Upserts(measurements).rtt.Some? {
        var x := Upserts(before).rtt.value;
        var i :| 0 <= i < last && before[i] == Some(x);
        assert measurements[i] == Some(x);
      }
    } else {
      assert measurements[0] == measurements[last];
    }
  }

  /** What is stored depends only on which measurements there were, not on their order or number. */
  lemma UpsertsSame(a: seq<Option<real>>, b: seq<Option<real>>)
    requires a != [] && b != [] && forall m :: m in a <==> m in b
    ensures Upserts(a) == Upserts(b)
  {
    RowIsAll(a);
    RowIsAll(b);
    if Upserts(a).ready {
      forall i | 0 <= i < |b|
        ensures b[i].Some?
      {
        assert b[i] in a;
        var k :| 0 <= k < |a| && a[k] == b[i];
      }
      SameMax(a, b, Upserts(a).rtt.value, Upserts(b).rtt.value);
    } else {
      var i :| 0 <= i < |a| && a[i].None?;
      assert a[i] in b;
      var k :| 0 <= k < |b| && b[k] == a[i];
    }
  }

  /** Reordering measurements changes nothing that is stored. */
  lemma UpsertsReordered(a: seq<Option<real>>, b: seq<Option<real>>)
    requires a != [] && b != [] && multiset(a) == multiset(b)
    ensures Upserts(a) == Upserts(b)
  {
    forall m
      ensures m in a <==> m in b
    {
      assert m in a <==> m in multiset(a);
      assert m in b <==> m in multiset(b);
    }
    UpsertsSame(a, b);
  }

  lemma SameMax(a: seq<Option<real>>, b: seq<Option<real>>, x: real, y: real)
    requires IsMax(x, a) && IsMax(y, b) && (forall i :: 0 <= i < |a| ==> a[i] in b) && forall i :: 0 <= i < |b| ==>
      b[i] in a
    ensures x == y
  {
    var i :| 0 <= i < |a| && a[i] == Some(x);
    var k :| 0 <= k < |b| && b[k] == a[i];
    var j :| 0 <= j < |b| && b[j] == Some(y);
    var m :| 0 <= m < |a| && a[m] == b[j];
  }

  // ------------------------------------------------------------------ the loop

  /** assess_health's fold: samples in turn, each into its own slot. */
  method FoldSamples(samples: seq<Sample>, now: int) returns (slots: map<int, Sample>)
    ensures slots == SlotsOf(samples, now)
  {
    slots := map[];
    var end := now / SLOT * SLOT;
    for i := 0 to |samples|
      invariant slots == SlotsOf(samples[..i], now)
    {
      var s := samples[i];
      assert samples[..i + 1][..i] == samples[..i];
      if s.at <= now && s.at >= end - DAY {
        var slot := s.at / SLOT * SLOT;
        if slot in slots {
          var existing := slots[slot];
          existing := existing.(ready := existing.ready && Healthy(s));
          existing := existing.(rtt := Worse(existing.rtt, s.rtt));
          slots := slots[slot := existing];
        } else {
          slots := slots[slot := s];
        }
      }
    }
    assert samples[..|samples|] == samples;
  }

  /** Every slot of the day in order: the latest one, and the healthy ones. */
  method ScanSlots(slots: map<int, Sample>, end: int) returns (latest: Option<int>, good: seq<int>)
    requires forall k <- slots :: end - DAY <= k <= end && k % SLOT == 0
    requires end % SLOT == 0
    ensures latest.None? <==> slots == map[]
    ensures latest.Some? ==> IsLatest(slots, latest.value)
    ensures Enumerates(good, HealthySlots(slots)) && AllGood(slots, good)
  {
    hide Healthy;
    latest, good := None, [];
    var at := end - DAY;
    while at <= end
      invariant at % SLOT == 0 && end - DAY <= at
      invariant latest.None? ==> forall k <- slots :: k >= at
      invariant latest.Some? ==> latest.value in slots && forall k <- slots :: k < at ==> k <= latest.value
      invariant forall i :: 0 <= i < |good| ==> good[i] < at && good[i] in slots && Healthy(slots[good[i]])
      invariant forall i, k :: 0 <= i < k < |good| ==> good[i] != good[k]
      invariant forall k <- slots :: k < at && Healthy(slots[k]) ==> k in good
      decreases end - at
    {
      if at in slots {
        latest := Some(at);
        if Healthy(slots[at]) { good := good + [at]; }
      }
      NextSlot(slots, at);
      at := at + SLOT;
    }
    NoneLeft(slots, end, at);
  }

  lemma NoneLeft(slots: map<int, Sample>, end: int, at: int)
    requires at > end && forall k <- slots :: k <= end
    ensures (forall k <- slots :: k >= at) ==> slots == map[]
  {
    assert (forall k <- slots :: k >= at) ==> slots.Keys == {};
  }

  lemma NextSlot(slots: map<int, Sample>, at: int)
    requires at % SLOT == 0 && forall k <- slots :: k % SLOT == 0
    ensures (at + SLOT) % SLOT == 0 && forall k <- slots :: k < at + SLOT ==> k <= at
  {
    forall k <- slots | k < at + SLOT
      ensures k <= at
    {
      var n, m := k / SLOT, at / SLOT;
      assert k == SLOT * n && at == SLOT * m;
    }
  }

  /** assess_health: both admissions from the samples of a day. */
  method Assess(samples: seq<Sample>, now: int, rule: Rule) returns (ci: bool, services: bool)
    ensures SlotsOf(samples, now) == map[] ==> !ci && !services
    ensures forall latest :: IsLatest(SlotsOf(samples, now), latest) ==>
      ci == Ci(SlotsOf(samples, now), latest, now, rule)
    ensures exists keys ::
      Enumerates(keys, HealthySlots(SlotsOf(samples, now))) && AllGood(SlotsOf(samples, now), keys) &&
      forall latest :: IsLatest(SlotsOf(samples, now), latest) ==>
        services == Services(SlotsOf(samples, now), keys, latest, now, rule)
  {
    hide Ci, Services, SlotsOf;
    var slots := FoldSamples(samples, now);
    forall k <- slots
      ensures SlotOf(now) - DAY <= k <= SlotOf(now) && k % SLOT == 0
    {
      KeysAreSlots(samples, now, k);
    }
    SlotBounds(now, now);
    var last, good := ScanSlots(slots, SlotOf(now));
    ci, services := false, false;
    if last.Some? {
      ci := Ci(slots, last.value, now, rule);
      services := Services(slots, good, last.value, now, rule);
    }
  }
}
