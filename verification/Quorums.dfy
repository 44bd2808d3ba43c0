// Replica counts and quorum sizes (lib/config/config_manager.cc:35-45) and the set counting
// that every intersection argument rests on.

module Quorums {

  datatype Config = Config(f: nat, e: nat) {
    function NumReplicas(): nat { 3 * f + 2 * e + 1 }
    function Quorum(): nat { 2 * f + 2 * e + 1 }
    function SuperQuorum(): nat { 3 * f + e + 1 }
    // Matching digests that the repair demands (lib/repair_utils.cc:108, 171).
    function Matching(): nat { f + e + 1 }
  }

  predicate IsBelow(i: nat, n: nat) {
    i < n
  }

  function Below(n: nat): set<nat> {
    set i: nat | i < n && IsBelow(i, n)
  }

  lemma {:induction false} BelowSize(n: nat)
    ensures |Below(n)| == n
  {
    if n > 0 {
      BelowSize(n - 1);
      assert Below(n) == Below(n - 1) + {n - 1};
    }
  }

  // The replica ids 0 .. n-1.
  function Replicas(n: nat): (s: set<nat>)
    ensures forall i :: i in s <==> 0 <= i < n
    ensures |s| == n
  {
    BelowSize(n);
    Below(n)
  }

  lemma SubsetSize<T>(a: set<T>, b: set<T>)
    requires a <= b
    ensures |a| <= |b|
    ensures |b - a| == |b| - |a|
  {
    assert b == a + (b - a);
  }

  // Two subsets of u that are together larger than u share a member.
  lemma Overlap<T>(u: set<T>, a: set<T>, b: set<T>)
    requires a <= u && b <= u
    requires |a| + |b| > |u|
    ensures a * b != {}
  {
    SubsetSize(a + b, u);
    assert |a + b| + |a * b| == |a| + |b|;
  }

  lemma SplitSize<T>(a: set<T>, b: set<T>)
    ensures |a| == |a * b| + |a - b|
    ensures |a - b| >= |a| - |b|
    ensures |a - b| <= |a|
  {
    assert a == (a * b) + (a - b);
    SubsetSize(a * b, b);
  }
}
