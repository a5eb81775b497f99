/**
 The host's storage planner: which directories hold the worker's disks and how large they may be.
 Source: crates/agent/src/storage.rs.
 */
module StoragePlan {
  import opened Outcomes
  import opened Units

  const KEPT_FREE: nat := 10 * GIB
  const MOST_GIB: nat := 1048576

  /** A directory as its components. */
  type Path = seq<string>

  datatype Volume = Volume(id: string, pool: string, free: nat, eligible: bool, supported: bool)

  datatype Selection = Selection(id: Option<string>, directory: Path, gib: nat, expected: Option<string>)

  datatype Location = Location(id: string, volumeId: string, directory: Path, gib: nat)

  /** A capacity pool's need so far and the least free space of its used volumes. */
  datatype Budget = Budget(needed: nat, free: nat)

  /** What the host knows: the volume a directory is on, what is already allocated, and identifiers not used before. */
  datatype Host = Host(volumeOf: Path -> Option<Volume>, used: map<string, nat>, spare: nat -> string,
    writable: Path -> bool)

  function Minus(a: nat, b: nat): nat { if a > b then a - b else 0 }

  predicate Nested(a: Path, b: Path) { a <= b || b <= a }

  function Find(locations: seq<Location>, id: string): (r: Option<Location>)
    ensures r.Some? ==> r.value in locations && r.value.id == id
  {
    if locations == [] then None else if locations[0].id == id then Some(locations[0]) else Find(locations[1..], id)
  }

  /** Bytes already allocated count only for the same disk in the same directory of the same volume. */
  function Credit(host: Host, s: Selection, v: Volume, previous: seq<Location>): nat {
    if s.id.None? then 0
    else
      var was := Find(previous, s.id.value);
      if was.Some? && was.value.directory == s.directory && was.value.volumeId == v.id && was.value.id in host.used then
        host.used[was.value.id]
      else 0
  }

  function Remaining(gib: nat, credit: nat): nat { Minus(gib * GIB, credit) }

  /** What a selection still needs from its volume. */
  function Need(host: Host, s: Selection, previous: seq<Location>): nat {
    var v := host.volumeOf(s.directory);
    if v.Some? then Remaining(s.gib, Credit(host, s, v.value, previous)) else 0
  }

  predicate Uses(host: Host, s: Selection, pool: string) {
    var v := host.volumeOf(s.directory);
    v.Some? && v.value.pool == pool
  }

  function NeedOf(host: Host, selections: seq<Selection>, previous: seq<Location>, pool: string): nat {
    if selections == [] then 0
    else
      var last := selections[|selections| - 1];
      NeedOf(host, selections[..|selections| - 1], previous, pool) + if Uses(host, last, pool) then
        Need(host, last, previous) else 0
  }

  /** No used volume of the pool has less free space, and one has exactly this much. */
  ghost predicate IsLeastFree(host: Host, selections: seq<Selection>, pool: string, free: nat) {
    && (forall i :: 0 <= i < |selections| && Uses(host, selections[i], pool) ==>
      free <= host.volumeOf(selections[i].directory).value.free)
    && (exists i ::
         0 <= i < |selections| && Uses(host, selections[i], pool) &&
         free == host.volumeOf(selections[i].directory).value.free)
  }

  ghost predicate UsedPool(host: Host, selections: seq<Selection>, pool: string) {
    exists i :: 0 <= i < |selections| && Uses(host, selections[i], pool)
  }

  predicate Apart(locations: seq<Location>) {
    forall i, k :: 0 <= i < |locations| && 0 <= k < |locations| && i != k ==>
      !Nested(locations[i].directory, locations[k].directory)
  }

  function Chosen(host: Host, s: Selection, i: nat): Location
    requires host.volumeOf(s.directory).Some?
  {
    Location(if s.id.Some? then s.id.value else host.spare(i), host.volumeOf(s.directory).value.id, s.directory, s.gib)
  }

  // ---------------------------------------------------------------- stable order

  function Position(previous: seq<Location>, id: string): (r: nat)
    ensures r <= |previous| && (r < |previous| ==> previous[r].id == id)
    ensures forall i :: 0 <= i < r ==> previous[i].id != id
  {
    if previous == [] || previous[0].id == id then 0 else 1 + Position(previous[1..], id)
  }

  function InsertLast(sorted: seq<Location>, l: Location, previous: seq<Location>): seq<Location> {
    if sorted != [] && Position(previous, l.id) < Position(previous, sorted[|sorted| - 1].id) then
      InsertLast(sorted[..|sorted| - 1], l, previous) + [sorted[|sorted| - 1]]
    else sorted + [l]
  }

  function SortByPrevious(locations: seq<Location>, previous: seq<Location>): seq<Location> {
    if locations == [] then []
    else InsertLast(SortByPrevious(locations[..|locations| - 1], previous), locations[|locations| - 1], previous)
  }

  /** Kept disks in their previous order, and new ones after them. */
  predicate InPreviousOrder(locations: seq<Location>, previous: seq<Location>) {
    forall i, k :: 0 <= i < k < |locations| ==>
      Position(previous, locations[i].id) <= Position(previous, locations[k].id)
  }

  /** The disks of one position, in the order they stand. */
  function At(locations: seq<Location>, previous: seq<Location>, position: nat): seq<Location> {
    if locations == [] then []
    else
      At(locations[..|locations| - 1], previous, position) +
      if Position(previous, locations[|locations| - 1].id) == position then [locations[|locations| - 1]] else []
  }

  lemma {:induction false} InsertSame(sorted: seq<Location>, l: Location, previous: seq<Location>)
    ensures multiset(InsertLast(sorted, l, previous)) == multiset(sorted) + multiset{l}
    ensures forall x :: x in InsertLast(sorted, l, previous) ==> x == l || x in sorted
    decreases |sorted|
  {
    hide Position;
    if sorted != [] {
      var last := sorted[|sorted| - 1];
      InsertSame(sorted[..|sorted| - 1], l, previous);
      assert sorted == sorted[..|sorted| - 1] + [last];
    }
  }

  lemma {:induction false} InsertKeeps(sorted: seq<Location>, l: Location, previous: seq<Location>)
    requires InPreviousOrder(sorted, previous)
    ensures InPreviousOrder(InsertLast(sorted, l, previous), previous)
    decreases |sorted|
  {
    hide Position;
    if sorted != [] && Position(previous, l.id) < Position(previous, sorted[|sorted| - 1].id) {
      var init, last := sorted[..|sorted| - 1], sorted[|sorted| - 1];
      InsertKeeps(init, l, previous);
      InsertSame(init, l, previous);
      LastKeeps(InsertLast(init, l, previous), last, previous, init, l);
    }
  }

  lemma LastKeeps(rest: seq<Location>, last: Location, previous: seq<Location>, init: seq<Location>, l: Location)
    requires InPreviousOrder(rest, previous) && InPreviousOrder(init + [last], previous)
    requires Position(previous, l.id) < Position(previous, last.id)
    requires forall x :: x in rest ==> x == l || x in init
    ensures InPreviousOrder(rest + [last], previous)
  {
    hide Position;
    forall i | 0 <= i < |rest|
      ensures Position(previous, rest[i].id) <= Position(previous, last.id)
    {
      if rest[i] != l {
        assert rest[i] in init;
        var k :| 0 <= k < |init| && init[k] == rest[i];
        assert (init + [last])[k] == init[k] && (init + [last])[|init|] == last;
      }
    }
  }

  lemma {:induction false} InsertStable(sorted: seq<Location>, l: Location, previous: seq<Location>, position: nat)
    requires InPreviousOrder(sorted, previous)
    ensures At(InsertLast(sorted, l, previous), previous, position) ==
      At(sorted, previous, position) + if Position(previous, l.id) == position then [l] else []
    decreases |sorted|
  {
    hide Position;
    var r := InsertLast(sorted, l, previous);
    if sorted != [] && Position(previous, l.id) < Position(previous, sorted[|sorted| - 1].id) {
      InsertStable(sorted[..|sorted| - 1], l, previous, position);
      assert r[..|r| - 1] == InsertLast(sorted[..|sorted| - 1], l, previous);
    } else {
      assert r[..|r| - 1] == sorted;
    }
  }

  /** Sorting keeps every disk, and puts kept ones in their previous order before new ones in theirs. */
  lemma SortedByPrevious(locations: seq<Location>, previous: seq<Location>)
    ensures InPreviousOrder(SortByPrevious(locations, previous), previous)
    ensures multiset(SortByPrevious(locations, previous)) == multiset(locations)
    ensures forall position ::
      At(SortByPrevious(locations, previous), previous, position) == At(locations, previous, position)
  {
    hide Position, At, InsertLast, SortByPrevious, InPreviousOrder;
    SortedInOrder(locations, previous);
    forall position
      ensures At(SortByPrevious(locations, previous), previous, position) == At(locations, previous, position)
    {
      SortedStable(locations, previous, position);
    }
  }

  lemma {:induction false} SortedInOrder(locations: seq<Location>, previous: seq<Location>)
    ensures InPreviousOrder(SortByPrevious(locations, previous), previous)
    ensures multiset(SortByPrevious(locations, previous)) == multiset(locations)
  {
    hide Position, InsertLast;
    if locations != [] {
      var init, last := locations[..|locations| - 1], locations[|locations| - 1];
      SortedInOrder(init, previous);
      InsertKeeps(SortByPrevious(init, previous), last, previous);
      InsertSame(SortByPrevious(init, previous), last, previous);
      assert locations == init + [last];
    }
  }

  lemma {:induction false} SortedStable(locations: seq<Location>, previous: seq<Location>, position: nat)
    ensures At(SortByPrevious(locations, previous), previous, position) == At(locations, previous, position)
  {
    hide Position, InsertLast, InPreviousOrder;
    if locations != [] {
      var init, last := locations[..|locations| - 1], locations[|locations| - 1];
      SortedStable(init, previous, position);
      SortedInOrder(init, previous);
      InsertStable(SortByPrevious(init, previous), last, previous, position);
    }
  }

  // ---------------------------------------------------------------------- the plan

  function TotalGib(locations: seq<Location>): nat {
    if locations == [] then 0 else TotalGib(locations[..|locations| - 1]) + locations[|locations| - 1].gib
  }

  /** What the selections are checked for one by one, apart from space. */
  predicate Usable(host: Host, s: Selection, previous: seq<Location>) {
    var v := host.volumeOf(s.directory);
    && 1 <= s.gib <= MOST_GIB && v.Some? && v.value.eligible && v.value.supported && v.value.id != "" &&
      v.value.pool != ""
    && (s.expected.Some? ==> s.expected.value != "" && s.expected.value == v.value.id)
    && (s.id.Some? ==> Find(previous, s.id.value).Some?)
    && host.writable(s.directory)
  }

  ghost predicate Planned(host: Host, selections: seq<Selection>, previous: seq<Location>, chosen: seq<Location>) {
    && |chosen| == |selections|
    && (forall i :: 0 <= i < |selections| ==>
      Usable(host, selections[i], previous) && chosen[i] == Chosen(host, selections[i], i))
  }

  /** Every pool that is used keeps ten GiB free on its fullest used volume. */
  ghost predicate Affordable(host: Host, selections: seq<Selection>, previous: seq<Location>) {
    forall pool, free :: IsLeastFree(host, selections, pool, free) ==>
      NeedOf(host, selections, previous, pool) <= Minus(free, KEPT_FREE)
  }

  ghost predicate KeptOnce(selections: seq<Selection>) {
    forall i, k :: 0 <= i < k < |selections| && selections[i].id.Some? ==> selections[i].id != selections[k].id
  }

  /** The selections' own directories. */
  predicate ApartDirectories(selections: seq<Selection>) {
    forall i, k :: 0 <= i < |selections| && 0 <= k < |selections| && i != k ==>
      !Nested(selections[i].directory, selections[k].directory)
  }

  function TotalSelected(selections: seq<Selection>): nat {
    if selections == [] then 0 else TotalSelected(selections[..|selections| - 1]) + selections[|selections| - 1].gib
  }

  /** Everything a plan is asked for, with no order of checking. */
  ghost predicate Acceptable(host: Host, selections: seq<Selection>, previous: seq<Location>, minimum: nat) {
    && |selections| <= 16 && (forall i :: 0 <= i < |selections| ==> Usable(host, selections[i], previous))
    && ApartDirectories(selections) && KeptOnce(selections) && Affordable(host, selections, previous) &&
      TotalSelected(selections) >= minimum
  }

  ghost predicate BudgetsMean(host: Host, selections: seq<Selection>, previous: seq<Location>,
      budgets: map<string, Budget>) {
    && (forall pool :: pool in budgets <==> UsedPool(host, selections, pool))
    && (forall pool <- budgets ::
         budgets[pool].needed == NeedOf(host, selections, previous, pool) &&
         IsLeastFree(host, selections, pool, budgets[pool].free) &&
         budgets[pool].needed <= Minus(budgets[pool].free, KEPT_FREE))
  }

  lemma BudgetsGrow(host: Host, selections: seq<Selection>, previous: seq<Location>, budgets: map<string, Budget>,
      s: Selection, entry: Budget)
    requires BudgetsMean(host, selections, previous, budgets) && host.volumeOf(s.directory).Some?
    requires
      var v := host.volumeOf(s.directory).value;
      var was := if v.pool in budgets then budgets[v.pool] else Budget(0, v.free);
      entry == Budget(was.needed + Need(host, s, previous), if v.free < was.free then v.free else was.free)
    requires entry.needed <= Minus(entry.free, KEPT_FREE)
    ensures BudgetsMean(host, selections + [s], previous, budgets[host.volumeOf(s.directory).value.pool := entry])
  {
    hide Need;
    var v := host.volumeOf(s.directory).value;
    var all, next := selections + [s], budgets[v.pool := entry];
    assert all[..|all| - 1] == selections && all[|all| - 1] == s;
    assert Uses(host, all[|selections|], v.pool);
    forall pool
      ensures pool in next <==> UsedPool(host, all, pool)
    {
      if UsedPool(host, selections, pool) {
        var i :| 0 <= i < |selections| && Uses(host, selections[i], pool);
        assert Uses(host, all[i], pool);
      }
    }
    if v.pool !in budgets {
      NoNeed(host, selections, previous, v.pool);
    }
    forall pool <- next
      ensures next[pool].needed == NeedOf(host, all, previous, pool) && IsLeastFree(host, all, pool, next[pool].free)
    {
      LeastFreeGrows(host, selections, s, pool, if pool in budgets then Some(budgets[pool].free) else None);
    }
  }

  lemma {:induction false} NoNeed(host: Host, selections: seq<Selection>, previous: seq<Location>, pool: string)
    requires !UsedPool(host, selections, pool)
    ensures NeedOf(host, selections, previous, pool) == 0
  {
    if selections != [] {
      NoNeed(host, selections[..|selections| - 1], previous, pool);
    }
  }

  lemma LeastFreeGrows(host: Host, selections: seq<Selection>, s: Selection, pool: string, free: Option<nat>)
    requires host.volumeOf(s.directory).Some?
    requires if free.Some? then IsLeastFree(host, selections, pool, free.value) else !UsedPool(host, selections, pool)
    ensures
      var v := host.volumeOf(s.directory).value;
      && (v.pool == pool ==>
        IsLeastFree(host, selections + [s], pool, if free.Some? && free.value <= v.free then free.value else v.free))
      && (v.pool != pool && free.Some? ==> IsLeastFree(host, selections + [s], pool, free.value))
  {
    var all := selections + [s];
    assert all[|selections|] == s;
    if free.Some? {
      var i :| 0 <= i < |selections| && Uses(host, selections[i], pool) &&
        free.value == host.volumeOf(selections[i].directory).value.free;
      assert all[i] == selections[i];
    }
  }

  lemma BudgetsAfford(host: Host, selections: seq<Selection>, previous: seq<Location>, budgets: map<string, Budget>)
    requires BudgetsMean(host, selections, previous, budgets)
    ensures Affordable(host, selections, previous)
  {
    hide NeedOf, Uses;
    forall pool, free | IsLeastFree(host, selections, pool, free)
      ensures NeedOf(host, selections, previous, pool) <= Minus(free, KEPT_FREE)
    {
      assert UsedPool(host, selections, pool);
      assert pool in budgets;
      assert free == budgets[pool].free;
    }
  }

  /** plan_with_minimum: the selections one after the other against the budgets they share. */
  method Plan(host: Host, selections: seq<Selection>, fallback: Selection, previous: seq<Location>, minimum: nat)
    returns (ok: bool, result: seq<Location>)
    ensures ok <==> Acceptable(host, if selections == [] then [fallback] else selections, previous, minimum)
    ensures
      var chosen := if selections == [] then [fallback] else selections;
      ok ==>
        && 1 <= |chosen| <= 16 && KeptOnce(chosen) && Affordable(host, chosen, previous)
        && Apart(result) && InPreviousOrder(result, previous)
        && (exists locations: seq<Location> ::
             Planned(host, chosen, previous, locations) && TotalGib(locations) >= minimum &&
               result == SortByPrevious(locations, previous))
  {
    hide Position, NeedOf, BudgetsMean, Remaining, Credit, Affordable, Nested, TotalGib, SortByPrevious, KeptOnce;
    hide Planned, Apart;
    result := [];
    if |selections| > 16 { return false, []; }
    var chosen := if selections == [] then [fallback] else selections;
    var budgets: map<string, Budget> := map[];
    var ids: set<string> := {};
    assert chosen[..0] == [];
    Nothing(host, previous);
    for i := 0 to |chosen|
      invariant Planned(host, chosen[..i], previous, result) && Apart(result)
      invariant BudgetsMean(host, chosen[..i], previous, budgets)
      invariant KeptOnce(chosen[..i]) && forall id :: id in ids <==> exists k :: 0 <= k < i && chosen[k].id == Some(id)
    {
      var s := chosen[i];
      assert chosen[..i + 1] == chosen[..i] + [s];
      if !Usable(host, s, previous) { return false, []; }
      if exists k :: 0 <= k < |result| && Nested(s.directory, result[k].directory) {
        NestedAgain(host, chosen, i, previous, result);
        return false, [];
      }
      if s.id.Some? {
        if s.id.value in ids {
          KeptAgain(chosen, i);
          return false, [];
        }
        ids := ids + {s.id.value};
      }
      var v := host.volumeOf(s.directory).value;
      var budget := if v.pool in budgets then budgets[v.pool] else Budget(0, v.free);
      budget := Budget(budget.needed + Remaining(s.gib, Credit(host, s, v, previous)), if v.free < budget.free then
        v.free else budget.free);
      if budget.needed > Minus(budget.free, KEPT_FREE) {
        TooMuch(host, chosen, i, previous, budgets, budget);
        return false, [];
      }
      BudgetsGrow(host, chosen[..i], previous, budgets, s, budget);
      budgets := budgets[v.pool := budget];
      PlannedGrows(host, chosen, i, previous, result);
      ApartGrows(result, Chosen(host, s, i));
      OnceGrows(chosen, i);
      result := result + [Chosen(host, s, i)];
    }
    assert chosen[..|chosen|] == chosen;
    BudgetsAfford(host, chosen, previous, budgets);
    SameTotal(host, chosen, previous, result);
    if TotalGib(result) < minimum { return false, []; }
    var locations := result;
    result := SortByPrevious(locations, previous);
    SortedByPrevious(locations, previous);
    StillApart(result, locations);
    ApartAgain(host, chosen, previous, locations);
    EveryUsable(host, chosen, previous, locations);
    ok := true;
  }

  // ---------------------------------------------------------- why a plan is refused

  lemma ChosenAt(host: Host, chosen: seq<Selection>, previous: seq<Location>, locations: seq<Location>, i: nat)
    requires Planned(host, chosen, previous, locations) && i < |chosen|
    ensures locations[i].directory == chosen[i].directory && locations[i].gib == chosen[i].gib
  {
    assert Usable(host, chosen[i], previous);
  }

  lemma NestedAgain(host: Host, chosen: seq<Selection>, i: nat, previous: seq<Location>, result: seq<Location>)
    requires i < |chosen| && Planned(host, chosen[..i], previous, result)
    requires exists k :: 0 <= k < |result| && Nested(chosen[i].directory, result[k].directory)
    ensures !ApartDirectories(chosen)
  {
    hide Nested, Usable;
    var k :| 0 <= k < |result| && Nested(chosen[i].directory, result[k].directory);
    ChosenAt(host, chosen[..i], previous, result, k);
  }

  lemma KeptAgain(chosen: seq<Selection>, i: nat)
    requires i < |chosen| && chosen[i].id.Some? && exists k :: 0 <= k < i && chosen[k].id == chosen[i].id
    ensures !KeptOnce(chosen)
  {
  }

  lemma SameTotal(host: Host, chosen: seq<Selection>, previous: seq<Location>, locations: seq<Location>)
    requires Planned(host, chosen, previous, locations)
    ensures TotalGib(locations) == TotalSelected(chosen)
  {
    hide Usable;
    if chosen != [] {
      var last := |chosen| - 1;
      ChosenAt(host, chosen, previous, locations, last);
      assert Planned(host, chosen[..last], previous, locations[..last]);
      SameTotal(host, chosen[..last], previous, locations[..last]);
    }
  }

  lemma ApartAgain(host: Host, chosen: seq<Selection>, previous: seq<Location>, locations: seq<Location>)
    requires Planned(host, chosen, previous, locations) && Apart(locations)
    ensures ApartDirectories(chosen)
  {
    hide Nested, Usable;
    forall i, k | 0 <= i < |chosen| && 0 <= k < |chosen| && i != k
      ensures !Nested(chosen[i].directory, chosen[k].directory)
    {
      ChosenAt(host, chosen, previous, locations, i);
      ChosenAt(host, chosen, previous, locations, k);
    }
  }

  lemma EveryUsable(host: Host, chosen: seq<Selection>, previous: seq<Location>, locations: seq<Location>)
    requires Planned(host, chosen, previous, locations)
    ensures forall i :: 0 <= i < |chosen| ==> Usable(host, chosen[i], previous)
  {
    hide Usable;
  }

  /** A pool that is overdrawn by the first selections is overdrawn by all of them. */
  lemma TooMuch(host: Host, chosen: seq<Selection>, i: nat, previous: seq<Location>, budgets: map<string, Budget>,
      entry: Budget)
    requires i < |chosen| && BudgetsMean(host, chosen[..i], previous, budgets)
    requires host.volumeOf(chosen[i].directory).Some?
    requires
      var v := host.volumeOf(chosen[i].directory).value;
      var was := if v.pool in budgets then budgets[v.pool] else Budget(0, v.free);
      entry == Budget(was.needed + Need(host, chosen[i], previous), if v.free < was.free then v.free else was.free)
    requires entry.needed > Minus(entry.free, KEPT_FREE)
    ensures !Affordable(host, chosen, previous)
  {
    hide Need;
    var s := chosen[i];
    var pool := host.volumeOf(s.directory).value.pool;
    var most := chosen[..i + 1];
    assert most == chosen[..i] + [s] && most[..|most| - 1] == chosen[..i];
    if pool !in budgets {
      NoNeed(host, chosen[..i], previous, pool);
    }
    LeastFreeGrows(host, chosen[..i], s, pool, if pool in budgets then Some(budgets[pool].free) else None);
    assert NeedOf(host, most, previous, pool) == entry.needed;
    assert chosen[..|chosen|] == chosen;
    var free := MoreNeeded(host, chosen, i + 1, |chosen|, previous, pool, entry.free);
  }

  lemma {:induction false} MoreNeeded(host: Host, chosen: seq<Selection>, n: nat, m: nat, previous: seq<Location>,
      pool: string, free: nat) returns (least: nat)
    requires n <= m <= |chosen| && IsLeastFree(host, chosen[..n], pool, free)
    ensures least <= free && IsLeastFree(host, chosen[..m], pool, least)
    ensures NeedOf(host, chosen[..m], previous, pool) >= NeedOf(host, chosen[..n], previous, pool)
    decreases m - n
  {
    hide Need;
    least := free;
    if n < m {
      least := MoreNeeded(host, chosen, n, m - 1, previous, pool, free);
      var s := chosen[m - 1];
      assert chosen[..m] == chosen[..m - 1] + [s] && chosen[..m][..m - 1] == chosen[..m - 1];
      if Uses(host, s, pool) {
        LeastFreeGrows(host, chosen[..m - 1], s, pool, Some(least));
        least := if least <= host.volumeOf(s.directory).value.free then least
          else host.volumeOf(s.directory).value.free;
      } else {
        OtherPool(host, chosen[..m - 1], s, pool, least);
      }
    }
  }

  lemma OtherPool(host: Host, selections: seq<Selection>, s: Selection, pool: string, free: nat)
    requires IsLeastFree(host, selections, pool, free) && !Uses(host, s, pool)
    ensures IsLeastFree(host, selections + [s], pool, free)
  {
    var all := selections + [s];
    var i :| 0 <= i < |selections| && Uses(host, selections[i], pool) &&
      free == host.volumeOf(selections[i].directory).value.free;
    assert all[i] == selections[i];
  }

  /** Reordering disks does not nest their directories. */
  lemma StillApart(a: seq<Location>, b: seq<Location>)
    requires multiset(a) == multiset(b) && Apart(b)
    ensures Apart(a)
  {
    hide Nested;
    forall i, k | 0 <= i < |a| && 0 <= k < |a| && i != k
      ensures !Nested(a[i].directory, a[k].directory)
    {
      Twice(a, i, k);
      OnlyOnce(b, a[i]);
      assert a[i] in multiset(a) && a[k] in multiset(a);
      assert a[i] in multiset(b) && a[k] in multiset(b);
      var x :| 0 <= x < |b| && b[x] == a[i];
      var y :| 0 <= y < |b| && b[y] == a[k];
    }
  }

  lemma Twice(a: seq<Location>, i: nat, k: nat)
    requires i < |a| && k < |a| && i != k
    ensures a[i] == a[k] ==> multiset(a)[a[i]] >= 2
  {
    var lo, hi := if i < k then i else k, if i < k then k else i;
    assert a == a[..hi] + a[hi..];
    assert a[lo] in a[..hi] && a[hi] in a[hi..];
  }

  lemma {:induction false} OnlyOnce(b: seq<Location>, l: Location)
    requires Apart(b)
    ensures multiset(b)[l] <= 1
  {
    if b != [] {
      var init, last := b[..|b| - 1], b[|b| - 1];
      assert b == init + [last];
      OnlyOnce(init, l);
      forall k | 0 <= k < |init|
        ensures init[k] != last
      {
        assert !Nested(b[k].directory, last.directory);
      }
    }
  }

  lemma Nothing(host: Host, previous: seq<Location>)
    ensures Planned(host, [], previous, []) && Apart([]) && BudgetsMean(host, [], previous, map[]) && KeptOnce([])
  {
  }

  lemma PlannedGrows(host: Host, chosen: seq<Selection>, i: nat, previous: seq<Location>, result: seq<Location>)
    requires i < |chosen| && Planned(host, chosen[..i], previous, result) && Usable(host, chosen[i], previous)
    ensures Planned(host, chosen[..i + 1], previous, result + [Chosen(host, chosen[i], i)])
  {
    hide Usable;
    var more := chosen[..i + 1];
    assert more == chosen[..i] + [chosen[i]];
  }

  lemma ApartGrows(result: seq<Location>, l: Location)
    requires Apart(result) && forall k :: 0 <= k < |result| ==> !Nested(l.directory, result[k].directory)
    ensures Apart(result + [l])
  {
  }

  lemma OnceGrows(chosen: seq<Selection>, i: nat)
    requires i < |chosen| && KeptOnce(chosen[..i])
    requires chosen[i].id.Some? ==> forall k :: 0 <= k < i ==> chosen[k].id != chosen[i].id
    ensures KeptOnce(chosen[..i + 1])
  {
    var more := chosen[..i + 1];
    assert more == chosen[..i] + [chosen[i]];
  }

  // ----------------------------------------------------------- what acceptance means

  /** The first location of this id. */
  ghost predicate Before(previous: seq<Location>, id: string, k: nat) {
    k < |previous| && previous[k].id == id && forall l :: 0 <= l < k ==> previous[l].id != id
  }

  lemma {:induction false} FindIs(previous: seq<Location>, id: string)
    ensures Find(previous, id).None? ==> forall l <- previous :: l.id != id
    ensures Find(previous, id).Some? ==>
      exists k: nat :: Before(previous, id, k) && previous[k] == Find(previous, id).value
  {
    if previous != [] {
      if previous[0].id == id {
        assert Before(previous, id, 0);
      } else {
        FindIs(previous[1..], id);
        if Find(previous[1..], id).Some? {
          var k: nat :| Before(previous[1..], id, k) && previous[1..][k] == Find(previous, id).value;
          assert Before(previous, id, k + 1);
        }
      }
    }
  }

  /** The disk stays where it is: the same directory of the same volume, with bytes already allocated. */
  ghost predicate Stays(host: Host, s: Selection, v: Volume, previous: seq<Location>, k: nat) {
    && s.id.Some? && Before(previous, s.id.value, k)
    && previous[k].directory == s.directory && previous[k].volumeId == v.id && previous[k].id in host.used
  }

  /** A disk that stays needs only what it has not allocated yet; any other needs its whole size. */
  lemma NeedIs(host: Host, s: Selection, previous: seq<Location>)
    ensures match host.volumeOf(s.directory)
      case None => Need(host, s, previous) == 0
      case Some(v) =>
        var whole := s.gib * 1073741824;
        && (forall k: nat :: Stays(host, s, v, previous, k) ==>
             Need(host, s, previous) == if whole > host.used[previous[k].id] then whole - host.used[previous[k].id]
               else 0)
        && ((forall k: nat :: !Stays(host, s, v, previous, k)) ==> Need(host, s, previous) == whole)
  {
    var volume := host.volumeOf(s.directory);
    if volume.Some? && s.id.Some? {
      FindIs(previous, s.id.value);
      if Find(previous, s.id.value).Some? {
        var k: nat :| Before(previous, s.id.value, k) && previous[k] == Find(previous, s.id.value).value;
        assert Stays(host, s, volume.value, previous, k) <==>
          previous[k].directory == s.directory && previous[k].volumeId == volume.value.id &&
            previous[k].id in host.used;
      }
    }
  }

  /** A selection of a supported volume that is still the one chosen, of a known disk if it names one. */
  ghost predicate Eligible(host: Host, s: Selection, previous: seq<Location>) {
    && 0 < s.gib < 1048577 && host.writable(s.directory)
    && (s.id.Some? ==> exists l <- previous :: l.id == s.id.value)
    && match host.volumeOf(s.directory)
       case None => false
       case Some(v) =>
         && v.eligible && v.supported && v.id != "" && v.pool != ""
         && (s.expected == None || s.expected == Some(v.id))
  }

  lemma UsableIs(host: Host, s: Selection, previous: seq<Location>)
    ensures Usable(host, s, previous) <==> Eligible(host, s, previous)
  {
    if s.id.Some? {
      FindIs(previous, s.id.value);
    }
  }

  /** A pool that takes anything keeps ten GiB free on each of its chosen volumes. */
  ghost predicate KeepsFree(host: Host, selections: seq<Selection>, previous: seq<Location>, i: nat)
    requires i < |selections|
  {
    var volume := host.volumeOf(selections[i].directory);
    volume.Some? ==>
      var needed := NeedOf(host, selections, previous, volume.value.pool);
      needed == 0 || needed + 10737418240 <= volume.value.free
  }

  lemma {:induction false} LeastFree(host: Host, selections: seq<Selection>, pool: string) returns (free: nat)
    requires UsedPool(host, selections, pool)
    ensures IsLeastFree(host, selections, pool, free)
  {
    var last := |selections| - 1;
    var init, s := selections[..last], selections[last];
    assert selections == init + [s];
    if UsedPool(host, init, pool) {
      free := LeastFree(host, init, pool);
      if Uses(host, s, pool) {
        LeastFreeGrows(host, init, s, pool, Some(free));
        var v := host.volumeOf(s.directory).value;
        free := if free <= v.free then free else v.free;
      } else {
        OtherPool(host, init, s, pool, free);
      }
    } else {
      free := host.volumeOf(s.directory).value.free;
      LeastFreeGrows(host, init, s, pool, None);
    }
  }

  lemma AffordableIs(host: Host, selections: seq<Selection>, previous: seq<Location>)
    ensures Affordable(host, selections, previous) <==>
      forall i :: 0 <= i < |selections| ==> KeepsFree(host, selections, previous, i)
  {
    hide NeedOf;
    if Affordable(host, selections, previous) {
      forall i | 0 <= i < |selections|
        ensures KeepsFree(host, selections, previous, i)
      {
        if host.volumeOf(selections[i].directory).Some? {
          var pool := host.volumeOf(selections[i].directory).value.pool;
          assert Uses(host, selections[i], pool);
          var free := LeastFree(host, selections, pool);
        }
      }
    }
    if forall i :: 0 <= i < |selections| ==> KeepsFree(host, selections, previous, i) {
      forall pool, free | IsLeastFree(host, selections, pool, free)
        ensures NeedOf(host, selections, previous, pool) <= Minus(free, KEPT_FREE)
      {
        var i :| 0 <= i < |selections| && Uses(host, selections[i], pool) &&
          free == host.volumeOf(selections[i].directory).value.free;
        assert KeepsFree(host, selections, previous, i);
      }
    }
  }

  /** What a plan is asked for, each condition on its own: every disk, every pool, every pair and the sum. */
  lemma AcceptableIs(host: Host, selections: seq<Selection>, previous: seq<Location>, minimum: nat)
    ensures Acceptable(host, selections, previous, minimum) <==>
      && |selections| < 17 && TotalSelected(selections) >= minimum
      && (forall i :: 0 <= i < |selections| ==>
           Eligible(host, selections[i], previous) && KeepsFree(host, selections, previous, i))
      && forall i, k :: 0 <= i < |selections| && 0 <= k < |selections| && i != k ==>
           && !(selections[i].directory <= selections[k].directory)
           && (selections[i].id.Some? ==> selections[i].id != selections[k].id)
  {
    hide Usable, Eligible, Affordable, KeepsFree, TotalSelected;
    AffordableIs(host, selections, previous);
    forall i | 0 <= i < |selections|
      ensures Usable(host, selections[i], previous) <==> Eligible(host, selections[i], previous)
    {
      UsableIs(host, selections[i], previous);
    }
  }
}
