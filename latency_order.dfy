/**
  Ordering of probed servers by latency, on values: a server is known by its
  position in the probed list, and `lats[p]` is the latency recorded for
  position p.

  `OrderByLatency` is LINQ's `OrderBy(s => s.Latency)`: a stable sort, written
  as an insertion sort. `FirstLowest` is the position that `First()` of that
  ordering yields, and `HeadOfOrderByLatency` proves the two agree.
*/
module LatencyOrder {

  /** The first position holding the smallest latency. */
  function FirstLowest(lats: seq<int>): (p: nat)
    requires |lats| > 0
    ensures p < |lats|
    ensures forall j :: 0 <= j < |lats| ==> lats[p] <= lats[j]
    ensures forall j :: 0 <= j < p ==> lats[p] < lats[j]
  {
    if |lats| == 1 then 0
    else
      var k := FirstLowest(lats[1..]) + 1;
      if lats[0] <= lats[k] then 0 else k
  }

  /** The properties of `FirstLowest` determine it. */
  lemma FirstLowestUnique(lats: seq<int>, p: nat)
    requires p < |lats|
    requires forall j :: 0 <= j < |lats| ==> lats[p] <= lats[j]
    requires forall j :: 0 <= j < p ==> lats[p] < lats[j]
    ensures p == FirstLowest(lats)
  {
  }

  predicate InRange(ps: seq<nat>, n: nat)
  {
    forall i :: 0 <= i < |ps| ==> ps[i] < n
  }

  /** The position before which `p` goes: the first whose latency is not below that of `p`. */
  function InsertionPoint(p: nat, s: seq<nat>, lats: seq<int>): (k: nat)
    requires p < |lats| && InRange(s, |lats|)
    ensures k <= |s|
    ensures forall i :: 0 <= i < k ==> lats[s[i]] < lats[p]
    ensures k < |s| ==> lats[p] <= lats[s[k]]
  {
    if s == [] || lats[p] <= lats[s[0]] then 0
    else InsertionPoint(p, s[1..], lats) + 1
  }

  function Insert(p: nat, s: seq<nat>, lats: seq<int>): (r: seq<nat>)
    requires p < |lats| && InRange(s, |lats|)
    ensures |r| == |s| + 1 && InRange(r, |lats|)
    ensures multiset(r) == multiset(s) + multiset{p}
  {
    var k := InsertionPoint(p, s, lats);
    assert s == s[..k] + s[k..];
    s[..k] + [p] + s[k..]
  }

  function SortPositions(ps: seq<nat>, lats: seq<int>): (r: seq<nat>)
    requires InRange(ps, |lats|)
    ensures |r| == |ps| && InRange(r, |lats|)
    ensures multiset(r) == multiset(ps)
  {
    if ps == [] then []
    else
      var rest := SortPositions(ps[1..], lats);
      assert ps == [ps[0]] + ps[1..];
      Insert(ps[0], rest, lats)
  }

  function Positions(n: nat): (r: seq<nat>)
    ensures |r| == n
    ensures forall i :: 0 <= i < n ==> r[i] == i
  {
    if n == 0 then [] else Positions(n - 1) + [n - 1]
  }

  /** `OrderBy(s => s.Latency)` over the positions 0 .. |lats|-1. */
  function OrderByLatency(lats: seq<int>): (r: seq<nat>)
    ensures |r| == |lats| && InRange(r, |lats|)
    ensures multiset(r) == multiset(Positions(|lats|))
  {
    SortPositions(Positions(|lats|), lats)
  }

  ghost predicate SortedBy(r: seq<nat>, lats: seq<int>)
    requires InRange(r, |lats|)
  {
    forall i, j :: 0 <= i < j < |r| ==> lats[r[i]] <= lats[r[j]]
  }

  /** Equal latencies keep their original order. */
  ghost predicate TiesInOriginalOrder(r: seq<nat>, lats: seq<int>)
    requires InRange(r, |lats|)
  {
    forall i, j :: 0 <= i < j < |r| && lats[r[i]] == lats[r[j]] ==> r[i] < r[j]
  }

  ghost predicate Increasing(ps: seq<nat>)
  {
    forall i, j :: 0 <= i < j < |ps| ==> ps[i] < ps[j]
  }

  /** Where each element lands in `Insert(p, s, lats)`. */
  lemma InsertLayout(p: nat, s: seq<nat>, lats: seq<int>)
    requires p < |lats| && InRange(s, |lats|)
    ensures var k := InsertionPoint(p, s, lats); var r := Insert(p, s, lats);
      && |r| == |s| + 1 && r[k] == p
      && (forall i :: 0 <= i < k ==> r[i] == s[i])
      && (forall i :: k < i < |r| ==> r[i] == s[i - 1])
  {
  }

  lemma InsertKeepsSorted(p: nat, s: seq<nat>, lats: seq<int>)
    requires p < |lats| && InRange(s, |lats|)
    requires SortedBy(s, lats)
    ensures SortedBy(Insert(p, s, lats), lats)
  {
    var k := InsertionPoint(p, s, lats);
    var r := Insert(p, s, lats);
    InsertLayout(p, s, lats);
    forall i, j | 0 <= i < j < |r|
      ensures lats[r[i]] <= lats[r[j]]
    {
      if j < k {
        assert lats[s[i]] <= lats[s[j]];
      } else if i == k {
        assert k == j - 1 || lats[s[k]] <= lats[s[j - 1]];
      } else if i < k && j > k {
        assert lats[s[i]] <= lats[s[j - 1]];
      } else if i > k {
        assert lats[s[i - 1]] <= lats[s[j - 1]];
      }
    }
  }

  lemma InsertKeepsTieOrder(p: nat, s: seq<nat>, lats: seq<int>)
    requires p < |lats| && InRange(s, |lats|)
    requires TiesInOriginalOrder(s, lats)
    requires forall i :: 0 <= i < |s| ==> p < s[i]
    ensures TiesInOriginalOrder(Insert(p, s, lats), lats)
  {
    var k := InsertionPoint(p, s, lats);
    var r := Insert(p, s, lats);
    InsertLayout(p, s, lats);
    forall i, j | 0 <= i < j < |r| && lats[r[i]] == lats[r[j]]
      ensures r[i] < r[j]
    {
      if j < k {
        assert r[i] == s[i] && r[j] == s[j];
      } else if j == k {
        assert false;  // s[i] lies before the insertion point, so its latency is below that of p
      } else if i < k {
        assert r[i] == s[i] && r[j] == s[j - 1];
      } else if i == k {
        assert r[j] == s[j - 1];
      } else {
        assert r[i] == s[i - 1] && r[j] == s[j - 1];
      }
    }
  }

  lemma {:induction false} SortPositionsIsStableSort(ps: seq<nat>, lats: seq<int>)
    requires InRange(ps, |lats|) && Increasing(ps)
    ensures InRange(SortPositions(ps, lats), |lats|)
    ensures SortedBy(SortPositions(ps, lats), lats)
    ensures TiesInOriginalOrder(SortPositions(ps, lats), lats)
  {
    if ps != [] {
      var tail := ps[1..];
      SortPositionsIsStableSort(tail, lats);
      var rest := SortPositions(tail, lats);
      forall m | 0 <= m < |rest|
        ensures ps[0] < rest[m]
      {
        assert rest[m] in multiset(tail);
        var i :| 0 <= i < |tail| && tail[i] == rest[m];
        assert ps[i + 1] == rest[m];
      }
      InsertKeepsSorted(ps[0], rest, lats);
      InsertKeepsTieOrder(ps[0], rest, lats);
    }
  }

  /** `OrderByLatency` is a stable sort: a permutation of the positions, ascending, ties in list order. */
  lemma OrderByLatencyIsStableSort(lats: seq<int>)
    ensures multiset(OrderByLatency(lats)) == multiset(Positions(|lats|))
    ensures InRange(OrderByLatency(lats), |lats|)
    ensures SortedBy(OrderByLatency(lats), lats)
    ensures TiesInOriginalOrder(OrderByLatency(lats), lats)
  {
    var ps := Positions(|lats|);
    assert Increasing(ps);
    SortPositionsIsStableSort(ps, lats);
  }

  /** `First()` of the stable ordering is the first position with the smallest latency. */
  lemma HeadOfOrderByLatency(lats: seq<int>)
    requires |lats| > 0
    ensures |OrderByLatency(lats)| == |lats|
    ensures OrderByLatency(lats)[0] == FirstLowest(lats)
  {
    var r := OrderByLatency(lats);
    var ps := Positions(|lats|);
    OrderByLatencyIsStableSort(lats);
    assert |r| == |multiset(r)| == |multiset(ps)| == |ps|;
    var head := r[0];
    forall j | 0 <= j < |lats|
      ensures lats[head] <= lats[j]
      ensures j < head ==> lats[head] < lats[j]
    {
      assert ps[j] == j;
      assert j in multiset(ps);
      var k :| 0 <= k < |r| && r[k] == j;
      if k > 0 {
        assert lats[r[0]] <= lats[r[k]];
      }
    }
    FirstLowestUnique(lats, head);
  }
}
