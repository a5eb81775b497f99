/** Order statistics of response times, as the controller sorts and indexes them. */
module Percentile {
  /** Ascending. */
  predicate Ascending(s: seq<real>) {
    forall i, k :: 0 <= i < k < |s| ==> s[i] <= s[k]
  }

  function Insert(x: real, s: seq<real>): seq<real> {
    if s == [] || x <= s[0] then [x] + s else [s[0]] + Insert(x, s[1..])
  }

  function Sorted(s: seq<real>): seq<real> {
    if s == [] then [] else Insert(s[0], Sorted(s[1..]))
  }

  /** How many are at most `v`. */
  function AtMost(s: seq<real>, v: real): nat {
    if s == [] then 0 else (if s[0] <= v then 1 else 0) + AtMost(s[1..], v)
  }

  lemma {:induction false} InsertKeeps(x: real, s: seq<real>)
    requires Ascending(s)
    ensures Ascending(Insert(x, s)) && |Insert(x, s)| == |s| + 1
    ensures forall y :: y in Insert(x, s) <==> y == x || y in s
  {
    if s != [] && x > s[0] {
      InsertKeeps(x, s[1..]);
      var r := Insert(x, s[1..]);
      forall k | 0 <= k < |r|
        ensures s[0] <= r[k]
      {
        assert r[k] in r;
      }
    }
  }

  lemma {:induction false} InsertCounts(x: real, s: seq<real>, v: real)
    ensures AtMost(Insert(x, s), v) == (if x <= v then 1 else 0) + AtMost(s, v)
  {
    if s == [] || x <= s[0] {
      assert ([x] + s)[1..] == s;
    } else {
      InsertCounts(x, s[1..], v);
      assert ([s[0]] + Insert(x, s[1..]))[1..] == Insert(x, s[1..]);
    }
  }

  lemma {:induction false} SortedKeeps(s: seq<real>)
    ensures Ascending(Sorted(s)) && |Sorted(s)| == |s|
    ensures forall y :: y in Sorted(s) <==> y in s
  {
    if s != [] {
      SortedKeeps(s[1..]);
      InsertKeeps(s[0], Sorted(s[1..]));
      assert s == [s[0]] + s[1..];
    }
  }

  lemma {:induction false} SortedCounts(s: seq<real>, v: real)
    ensures AtMost(Sorted(s), v) == AtMost(s, v)
  {
    if s != [] {
      SortedCounts(s[1..], v);
      InsertCounts(s[0], Sorted(s[1..]), v);
    }
  }

  /** In an ascending sequence, element `k` is at most `v` exactly when more than `k` elements are. */
  lemma {:induction false} CountDecides(s: seq<real>, k: nat, v: real)
    requires Ascending(s) && k < |s|
    ensures s[k] <= v <==> AtMost(s, v) > k
  {
    if s[0] <= v {
      if k > 0 {
        CountDecides(s[1..], k - 1, v);
      }
    } else {
      NoneAtMost(s, v);
    }
  }

  lemma {:induction false} NoneAtMost(s: seq<real>, v: real)
    requires forall i :: 0 <= i < |s| ==> s[i] > v
    ensures AtMost(s, v) == 0
  {
    if s != [] {
      NoneAtMost(s[1..], v);
    }
  }

  lemma {:induction false} FewerAtMost(a: seq<real>, b: seq<real>, v: real)
    requires |a| == |b| && forall i :: 0 <= i < |a| ==> a[i] <= b[i]
    ensures AtMost(a, v) >= AtMost(b, v)
  {
    if a != [] {
      FewerAtMost(a[1..], b[1..], v);
    }
  }

  /** Slower responses never make any order statistic smaller. */
  lemma OrderStatisticMonotone(a: seq<real>, b: seq<real>, k: nat)
    requires |a| == |b| && k < |a| && forall i :: 0 <= i < |a| ==> a[i] <= b[i]
    ensures |Sorted(a)| == |a| && |Sorted(b)| == |b| && Sorted(a)[k] <= Sorted(b)[k]
  {
    SortedKeeps(a);
    SortedKeeps(b);
    var v := Sorted(b)[k];
    CountDecides(Sorted(b), k, v);
    SortedCounts(b, v);
    FewerAtMost(a, b, v);
    SortedCounts(a, v);
    CountDecides(Sorted(a), k, v);
  }

  /** The index of the ninety-fifth percentile. */
  function Index95(n: nat): (k: nat)
    requires n > 0
    ensures k < n
  {
    (n * 95 + 99) / 100 - 1
  }
}
