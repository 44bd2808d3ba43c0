// The results of RoundSafety cannot be sharpened.  The number of faulty replicas they allow is
// exact, and so is the number of correct replicas that may be off a certified chain; the runs
// that show it also show that certificates do form.

module RoundTightness {
  import opened Digests
  import opened Quorums
  import opened RoundSteps
  import opened RoundSafety

  ghost predicate Reachable(x: Setting, st: State) {
    exists steps :: Legal(x, steps) && Run(steps) == st
  }

  lemma StartReachable(x: Setting)
    ensures Reachable(x, Start)
  {
    assert Legal(x, []) && Run([]) == Start;
  }

  lemma StepReachable(x: Setting, st: State, s: Step)
    requires Reachable(x, st) && Enabled(x, st, s)
    ensures Reachable(x, After(st, s))
  {
    var steps :| Legal(x, steps) && Run(steps) == st;
    assert (steps + [s])[..|steps|] == steps;
    assert Legal(x, steps + [s]) && Run(steps + [s]) == After(st, s);
  }

  // ----- Correct replicas split between two histories

  // What the correct ones of the first k replicas hold.
  function Assigned(byz: set<nat>, off: set<nat>, own: Digest, other: Digest, k: nat): (held: map<nat, Digest>)
    ensures held.Keys == Replicas(k) - byz
    ensures forall r :: r in held ==> held[r] == if r in off then other else own
  {
    if k == 0 then map[]
    else
      var r, before := k - 1, Assigned(byz, off, own, other, k - 1);
      if r in byz then before else before[r := if r in off then other else own]
  }

  // The first k replicas have taken their turn: those in `off` hold the other history, everyone
  // else replied d, and the correct ones among them hold a log that extends d.
  function SplitState(x: Setting, off: set<nat>, d: Digest, own: Digest, other: Digest, k: nat): State {
    State(Assigned(x.byz, off, own, other, k), set r | r in Replicas(k) && r !in off :: (r, d), {})
  }

  ghost predicate Splits(x: Setting, off: set<nat>, d: Digest, own: Digest, other: Digest) {
    && x.byz <= Replicas(x.cfg.NumReplicas())
    && off <= x.Correct()
    && Extends(d, x.base) && Extends(own, x.base) && Extends(own, d)
    && Extends(other, x.base) && !Extends(other, d)
  }

  // A faulty replica replies, a replica in `off` enters, and any other one enters and replies.
  lemma SplitTurn(x: Setting, off: set<nat>, d: Digest, own: Digest, other: Digest, r: nat)
    requires Splits(x, off, d, own, other) && r < x.cfg.NumReplicas()
    requires Reachable(x, SplitState(x, off, d, own, other, r))
    ensures Reachable(x, SplitState(x, off, d, own, other, r + 1))
  {
    var st := SplitState(x, off, d, own, other, r);
    var log := if r in off then other else own;
    NextTurn(x, off, d, own, other, r);
    var entered := if r in x.byz then st else After(st, Enter(r, log));
    if r !in x.byz {
      StepReachable(x, st, Enter(r, log));
    }
    if r !in off {
      StepReachable(x, entered, Reply(r, d));
    }
  }

  lemma NextTurn(x: Setting, off: set<nat>, d: Digest, own: Digest, other: Digest, r: nat)
    ensures var st := SplitState(x, off, d, own, other, r);
            SplitState(x, off, d, own, other, r + 1) == State(
              if r in x.byz then st.logs else st.logs[r := if r in off then other else own],
              if r in off then st.replies else st.replies + {(r, d)},
              {})
  {
  }

  lemma {:induction false} SplitReachable(x: Setting, off: set<nat>, d: Digest, own: Digest, other: Digest, k: nat)
    requires Splits(x, off, d, own, other) && k <= x.cfg.NumReplicas()
    ensures Reachable(x, SplitState(x, off, d, own, other, k))
  {
    if k == 0 {
      StartReachable(x);
      assert SplitState(x, off, d, own, other, 0) == Start;
    } else {
      SplitReachable(x, off, d, own, other, k - 1);
      SplitTurn(x, off, d, own, other, k - 1);
    }
  }

  // In the end everyone outside `off` replied d, and exactly `off` is off its chain.
  lemma SplitMeaning(x: Setting, off: set<nat>, d: Digest, own: Digest, other: Digest)
    requires Splits(x, off, d, own, other)
    ensures var st := SplitState(x, off, d, own, other, x.cfg.NumReplicas());
            |Repliers(st, d)| == x.cfg.NumReplicas() - |off| && OffChain(x, st, d) == off
  {
    var n := x.cfg.NumReplicas();
    var st := SplitState(x, off, d, own, other, n);
    assert Repliers(st, d) == Replicas(n) - off by {
      forall r | r in Replicas(n) - off ensures r in Repliers(st, d) {
        assert (r, d) in st.replies;
      }
    }
    SubsetSize(off, Replicas(n));
    assert OffChain(x, st, d) == off;
  }

  lemma {:induction false} SubsetOfSize(s: set<nat>, k: nat) returns (t: set<nat>)
    requires k <= |s|
    ensures t <= s && |t| == k
  {
    if k == |s| {
      t := s;
    } else {
      var r :| r in s;
      t := SubsetOfSize(s - {r}, k);
    }
  }

  lemma SplitOf(x: Setting, d: Digest, other: Digest, k: nat) returns (st: State)
    requires x.Ok() && k <= |x.Correct()|
    requires Extends(d, x.base) && Extends(other, x.base) && !Extends(other, d)
    ensures Reachable(x, st)
    ensures |Repliers(st, d)| == x.cfg.NumReplicas() - k && |OffChain(x, st, d)| == k
  {
    var off := SubsetOfSize(x.Correct(), k);
    SplitReachable(x, off, d, d, other, x.cfg.NumReplicas());
    SplitMeaning(x, off, d, d, other);
    st := SplitState(x, off, d, d, other, x.cfg.NumReplicas());
  }

  // The bounds of FewOffChain are met exactly, whoever is faulty: some run certifies d while e
  // correct replicas are off its chain, and in some run a quorum replies d while f are.
  lemma FewOffChainTight(x: Setting, d: Digest, other: Digest)
    requires x.Ok()
    requires Extends(d, x.base) && Extends(other, x.base) && !Extends(other, d)
    ensures exists st :: Reachable(x, st) && Certified(x, st, d) && |OffChain(x, st, d)| == x.cfg.e
    ensures exists st :: Reachable(x, st) && QuorumReplied(x, st, d) && |OffChain(x, st, d)| == x.cfg.f
  {
    CorrectSize(x);
    var certified := SplitOf(x, d, other, x.cfg.e);
    assert Certified(x, certified, d);
    var replied := SplitOf(x, d, other, x.cfg.f);
    assert QuorumReplied(x, replied, d);
  }

  // ----- One faulty replica too many

  // Any set of faulty replicas can commit any digest.
  lemma {:induction false} ForgeReachable(x: Setting, st: State, d: Digest, rs: set<nat>)
    requires Reachable(x, st) && rs <= x.byz
    ensures Reachable(x, st.(commits := st.commits + set r | r in rs :: (r, d)))
  {
    var now := st.commits + set r | r in rs :: (r, d);
    if rs == {} {
      assert now == st.commits;
    } else {
      var r :| r in rs;
      var before := st.commits + set w | w in rs - {r} :: (w, d);
      ForgeReachable(x, st, d, rs - {r});
      StepReachable(x, st.(commits := before), Commit(r, d));
      assert now == before + {(r, d)};
    }
  }

  lemma ForgedCheckpoint(x: Setting, st: State, d: Digest)
    requires |x.byz| > x.cfg.f
    requires forall r :: r in x.byz ==> (r, d) in st.commits
    ensures Decided(x, st, d)
  {
    forall r | r in x.byz ensures r in Committers(st, d) {
      assert (r, d) in st.commits;
    }
    SubsetSize(x.byz, Committers(st, d));
  }

  lemma ForksIncompatible(base: Digest, a: RequestId, b: RequestId, request: Request)
    requires a != b
    ensures !Compatible(Next(base, a, request), Next(base, b, request))
  {
  }

  // Two incompatible digests decided, with more than f faulty replicas.
  lemma UnsafeRun(x: Setting) returns (st: State, c: Digest, d: Digest)
    requires |x.byz| > x.cfg.f
    ensures Reachable(x, st) && Decided(x, st, c) && Decided(x, st, d) && !Compatible(c, d)
  {
    c := Next(x.base, RequestId(0, 1), Increment);
    d := Next(x.base, RequestId(1, 1), Increment);
    StartReachable(x);
    ForgeReachable(x, Start, c, x.byz);
    var mid := Start.(commits := Start.commits + set r | r in x.byz :: (r, c));
    ForgeReachable(x, mid, d, x.byz);
    st := mid.(commits := mid.commits + set r | r in x.byz :: (r, d));
    ForgedCheckpoint(x, st, c);
    ForgedCheckpoint(x, st, d);
    ForksIncompatible(x.base, RequestId(0, 1), RequestId(1, 1), Increment);
  }
}
