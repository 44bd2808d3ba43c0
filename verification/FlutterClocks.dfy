// The lock time of a Flutter replica: an order statistic of the clocks it has heard of
// (processes/flutter/flutter_replica.cc:463-490).

module FlutterClocks {
  import opened Quorums
  import opened FlutterState

  predicate Sorted(s: seq<nat>) {
    forall i, j :: 0 <= i < j < |s| ==> s[i] <= s[j]
  }

  function InsertSorted(s: seq<nat>, x: nat): seq<nat> {
    if s == [] || s[|s| - 1] <= x then s + [x] else InsertSorted(s[..|s| - 1], x) + [s[|s| - 1]]
  }

  function CountBelow(s: seq<nat>, v: nat): nat {
    if s == [] then 0 else CountBelow(s[..|s| - 1], v) + if s[|s| - 1] < v then 1 else 0
  }

  lemma {:induction false} InsertKeepsSorted(s: seq<nat>, x: nat)
    requires Sorted(s)
    ensures Sorted(InsertSorted(s, x)) && |InsertSorted(s, x)| == |s| + 1
    ensures forall y :: y in InsertSorted(s, x) ==> y in s || y == x
  {
    if s != [] && s[|s| - 1] > x {
      var front := s[..|s| - 1];
      InsertKeepsSorted(front, x);
      var r := InsertSorted(front, x);
      forall i | 0 <= i < |r| ensures r[i] <= s[|s| - 1] {
        assert r[i] in r;
      }
    }
  }

  lemma {:induction false} InsertCounts(s: seq<nat>, x: nat, v: nat)
    ensures CountBelow(InsertSorted(s, x), v) == CountBelow(s, v) + if x < v then 1 else 0
  {
    var r := InsertSorted(s, x);
    if s == [] || s[|s| - 1] <= x {
      assert r[..|r| - 1] == s;
    } else {
      InsertCounts(s[..|s| - 1], x, v);
      assert r[..|r| - 1] == InsertSorted(s[..|s| - 1], x);
    }
  }

  // At most i elements of a sorted sequence are below its element i.
  lemma {:induction false} SortedRank(s: seq<nat>, i: nat)
    requires Sorted(s) && i < |s|
    ensures CountBelow(s, s[i]) <= i
    ensures CountBelow(s, s[i] + 1) >= i + 1
  {
    var n := |s| - 1;
    if i < n {
      SortedRank(s[..n], i);
    } else {
      CountAtMost(s[..n], s[n]);
      CountAll(s, s[n] + 1);
    }
  }

  lemma {:induction false} CountAtMost(s: seq<nat>, v: nat)
    ensures CountBelow(s, v) <= |s|
  {
    if s != [] {
      CountAtMost(s[..|s| - 1], v);
    }
  }

  lemma {:induction false} CountAll(s: seq<nat>, v: nat)
    requires forall i :: 0 <= i < |s| ==> s[i] < v
    ensures CountBelow(s, v) == |s|
  {
    if s != [] {
      CountAll(s[..|s| - 1], v);
    }
  }

  // The replicas whose clock is below v.
  function Behind(clocks: map<nat, nat>, v: nat): set<nat> {
    set i | i in clocks && clocks[i] < v
  }

  // These values are the clocks of those seen.
  ghost predicate Tallied(clocks: map<nat, nat>, times: seq<nat>, seen: set<nat>) {
    forall v :: CountBelow(times, v) == |Behind(clocks, v) * seen|
  }

  lemma TallyMore(clocks: map<nat, nat>, times: seq<nat>, seen: set<nat>, i: nat)
    requires Tallied(clocks, times, seen) && i in clocks && i !in seen
    ensures Tallied(clocks, InsertSorted(times, clocks[i]), seen + {i})
  {
    forall v ensures CountBelow(InsertSorted(times, clocks[i]), v) == |Behind(clocks, v) * (seen + {i})| {
      InsertCounts(times, clocks[i], v);
      BehindMore(clocks, v, seen, i);
    }
  }

  // The clock values in ascending order, as std::sort leaves them.
  method SortTimes(clocks: map<nat, nat>) returns (times: seq<nat>)
    ensures Sorted(times) && |times| == |clocks|
    ensures forall v :: CountBelow(times, v) == |Behind(clocks, v)|
  {
    times := [];
    var rest := clocks.Keys;
    ghost var seen: set<nat> := {};
    while rest != {}
      invariant seen + rest == clocks.Keys && seen !! rest
      invariant Sorted(times) && |times| == |seen|
      invariant Tallied(clocks, times, seen)
      decreases |rest|
    {
      var i :| i in rest;
      TallyMore(clocks, times, seen, i);
      InsertKeepsSorted(times, clocks[i]);
      times := InsertSorted(times, clocks[i]);
      seen := seen + {i};
      rest := rest - {i};
    }
    forall v ensures CountBelow(times, v) == |Behind(clocks, v)| {
      assert Behind(clocks, v) * seen == Behind(clocks, v);
    }
    assert seen == clocks.Keys;
  }

  lemma BehindMore(clocks: map<nat, nat>, v: nat, seen: set<nat>, i: nat)
    requires i in clocks && i !in seen
    ensures |Behind(clocks, v) * (seen + {i})| == |Behind(clocks, v) * seen| + if clocks[i] < v then 1 else 0
  {
    if clocks[i] < v {
      assert Behind(clocks, v) * (seen + {i}) == Behind(clocks, v) * seen + {i};
    } else {
      assert Behind(clocks, v) * (seen + {i}) == Behind(clocks, v) * seen;
    }
  }

  // The lock time after some clocks: unchanged until enough are in, then at most f of them are
  // behind it and at least f + 1 have not passed it.
  ghost predicate IsLockTime(f: nat, clocks: map<nat, nat>, before: nat, after: nat) {
    if |clocks| < SuperQuorum(f) then after == before
    else |Behind(clocks, after)| <= f && |Behind(clocks, after + 1)| >= f + 1
  }

  method ChooseLockTime(f: nat, clocks: map<nat, nat>, lockTime: nat) returns (newLockTime: nat)
    ensures IsLockTime(f, clocks, lockTime, newLockTime)
  {
    if |clocks| < SuperQuorum(f) {
      return lockTime;
    }
    var times := SortTimes(clocks);
    SortedRank(times, NumReplicas(f) - SuperQuorum(f));
    newLockTime := times[NumReplicas(f) - SuperQuorum(f)];
  }

  // The replicas whose clock has reached v.
  function HaveReached(clocks: map<nat, nat>, v: nat): set<nat> {
    clocks.Keys - Behind(clocks, v)
  }

  // At least all clocks less f have reached the lock time.
  lemma LockTimeSupport(f: nat, clocks: map<nat, nat>, lockTime: nat)
    requires |Behind(clocks, lockTime)| <= f
    ensures |HaveReached(clocks, lockTime)| >= |clocks| - f
  {
    SubsetSize(Behind(clocks, lockTime), clocks.Keys);
  }

  // Clocks 1, 2, .. m: no more than all less f have reached their lock time f + 1.
  function Staggered(m: nat): map<nat, nat> {
    map i: nat | i in Replicas(m) :: i + 1
  }

  lemma LockTimeWeak(f: nat, m: nat, before: nat)
    requires SuperQuorum(f) <= m
    ensures |Staggered(m)| == m
    ensures IsLockTime(f, Staggered(m), before, f + 1)
    ensures |HaveReached(Staggered(m), f + 1)| == m - f
  {
    var clocks := Staggered(m);
    assert clocks.Keys == Replicas(m);
    assert Behind(clocks, f + 1) == Replicas(f);
    assert Behind(clocks, f + 2) == Replicas(f + 1);
    SubsetSize(Replicas(f), Replicas(m));
  }

  // Every lock time that a replica can have computed from m clocks has been reached by 4f + 1
  // replicas.
  ghost predicate AlwaysReached(f: nat, m: nat) {
    forall clocks: map<nat, nat>, before: nat, lockTime: nat ::
      |clocks| == m && IsLockTime(f, clocks, before, lockTime) ==>
        |HaveReached(clocks, lockTime)| >= SuperQuorum(f)
  }

  // The source computes a lock time from any 4f + 1 clocks; that 4f + 1 replicas have reached it
  // is certain exactly when all 5f + 1 are in.
  lemma LockTimeReachedIff(f: nat, m: nat)
    requires SuperQuorum(f) <= m <= NumReplicas(f)
    ensures AlwaysReached(f, m) <==> m == NumReplicas(f)
  {
    if m == NumReplicas(f) {
      forall clocks: map<nat, nat>, before: nat, lockTime: nat |
        |clocks| == m && IsLockTime(f, clocks, before, lockTime)
        ensures |HaveReached(clocks, lockTime)| >= SuperQuorum(f)
      {
        LockTimeSupport(f, clocks, lockTime);
      }
    } else {
      LockTimeWeak(f, m, 0);
    }
  }
}
