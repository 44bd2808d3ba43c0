// What one faulty replica can do with a snapshot reply that is not checked in full, and exactly
// when the results of RoundSafety hold.
//
// A replica that aligns takes the checkpoint and its client record from the reply, and the source
// verifies neither (processes/replica/replica.cc:576-596, 2248-2256).  A false checkpoint moves it
// to another history; a false record makes it drop own requests as duplicates.

module RoundForgery {
  import opened Digests
  import opened Quorums
  import opened RoundSteps
  import opened RoundSafety
  import opened RoundTightness
  import opened RoundHistory

  // ----- The same step at many replicas

  // All replicas in rs reply d.
  lemma {:induction false} RepliesHolding(x: Setting, st: State, d: Digest, rs: set<nat>, held: set<(nat, Digest)>)
    requires ReachedHolding(x, st, held)
    requires forall r :: r in rs ==> r in x.byz || (r in st.logs && Extends(st.logs[r], d))
    ensures ReachedHolding(x, st.(replies := st.replies + set r | r in rs :: (r, d)), held)
  {
    if rs == {} {
      assert st.replies + (set r | r in rs :: (r, d)) == st.replies;
    } else {
      var r :| r in rs;
      var before := st.(replies := st.replies + set w | w in rs - {r} :: (w, d));
      RepliesHolding(x, st, d, rs - {r}, held);
      var after := st.(replies := st.replies + set w | w in rs :: (w, d));
      assert after.replies == before.replies + {(r, d)};
      StepHolding(x, before, Reply(r, d), after, held, held);
    }
  }

  // The replicas in rs hold this history instead.
  ghost predicate Shifted(st: State, to: State, rs: set<nat>, log: Digest) {
    && to.logs.Keys == st.logs.Keys
    && (forall r :: r in st.logs ==> to.logs[r] == if r in rs then log else st.logs[r])
    && to.replies == st.replies && to.commits == st.commits
  }

  // They align to a forged checkpoint.
  lemma {:induction false} AlignsHolding(
    x: Setting, st: State, c: Digest, log: Digest, rs: set<nat>, held: set<(nat, Digest)>) returns (to: State)
    requires ReachedHolding(x, st, held) && rs <= st.logs.Keys
    requires Forgeable(x, st, c) && Extends(log, c)
    ensures ReachedHolding(x, to, held) && Shifted(st, to, rs, log)
    decreases rs
  {
    to := st;
    if rs != {} {
      var r :| r in rs;
      var before := AlignsHolding(x, st, c, log, rs - {r}, held);
      assert Committers(before, c) == Committers(st, c);
      to := After(before, Align(r, c, log));
      StepHolding(x, before, Align(r, c, log), to, held, held);
    }
  }

  // They append the same request to the same history.
  lemma {:induction false} AppendsHolding(
    x: Setting, st: State, log: Digest, id: RequestId, rs: set<nat>, held: set<(nat, Digest)>) returns (to: State)
    requires ReachedHolding(x, st, held) && rs <= st.logs.Keys && forall r :: r in rs ==> st.logs[r] == log
    ensures ReachedHolding(x, to, held) && Shifted(st, to, rs, Next(log, id, Increment))
    decreases rs
  {
    to := st;
    if rs != {} {
      var r :| r in rs;
      var before := AppendsHolding(x, st, log, id, rs - {r}, held);
      to := After(before, Append(r, id, Increment));
      StepHolding(x, before, Append(r, id, Increment), to, held, held);
    }
  }

  lemma EveryoneCertifies(x: Setting, st: State, d: Digest)
    requires forall r :: r in Replicas(x.cfg.NumReplicas()) ==> (r, d) in st.replies
    ensures Certified(x, st, d)
  {
    var all := Replicas(x.cfg.NumReplicas());
    forall r | r in all ensures r in Repliers(st, d) {
      assert (r, d) in st.replies;
    }
    SubsetSize(all, Repliers(st, d));
  }

  // ----- The run

  function Trunk(x: Setting): Digest { Next(x.base, RequestId(1, 1), Increment) }
  function OneWay(x: Setting): Digest { Next(Trunk(x), RequestId(2, 1), Increment) }
  function OtherWay(x: Setting): Digest { Next(Trunk(x), RequestId(3, 1), Increment) }

  lemma Ways(x: Setting)
    ensures Extends(Trunk(x), Trunk(x)) && Extends(Trunk(x), x.base) && Extends(OneWay(x), x.base)
    ensures Extends(OneWay(x), Trunk(x)) && Extends(OtherWay(x), Trunk(x))
    ensures Extends(OneWay(x), OneWay(x)) && Extends(OtherWay(x), OtherWay(x))
    ensures !Extends(x.base, Trunk(x)) && !Compatible(OneWay(x), OtherWay(x))
  {
    assert Upto(OneWay(x), Height(Trunk(x))) == Trunk(x);
    assert Upto(OtherWay(x), Height(Trunk(x))) == Trunk(x);
  }

  function Correctly(x: Setting, d: Digest): set<(nat, Digest)> {
    set r | r in x.Correct() :: (r, d)
  }

  // Everyone replied the trunk, on the way to one of the two.
  function OnTheWay(x: Setting): State {
    SplitState(x, {}, Trunk(x), OneWay(x), x.base, x.cfg.NumReplicas())
  }

  function RepliedBy(st: State, rs: set<nat>, d: Digest): State {
    st.(replies := st.replies + set r | r in rs :: (r, d))
  }

  // The correct replicas committed the trunk, and everyone replied one way.
  function BeforeForgery(x: Setting): State {
    var st := OnTheWay(x);
    RepliedBy(
      st.(commits := st.commits + set r | r in x.Correct() :: (r, Trunk(x))), Replicas(x.cfg.NumReplicas()), OneWay(x))
  }

  lemma OnTheWayReached(x: Setting)
    requires x.Ok()
    ensures ReachedHolding(x, OnTheWay(x), Correctly(x, OneWay(x))) && Certified(x, OnTheWay(x), Trunk(x))
  {
    var st := OnTheWay(x);
    Ways(x);
    assert Extends(x.base, x.base);
    SplitReachable(x, {}, Trunk(x), OneWay(x), x.base, x.cfg.NumReplicas());
    ReachableHolding(x, st);
    forall p | p in Correctly(x, OneWay(x)) ensures p in Now(st) {
      assert st.logs[p.0] == OneWay(x);
    }
    HeldLess(x, st, Now(st), Correctly(x, OneWay(x)));
    EveryoneCertifies(x, st, Trunk(x));
  }

  lemma HeldLess(x: Setting, st: State, held: set<(nat, Digest)>, less: set<(nat, Digest)>)
    requires ReachedHolding(x, st, held) && less <= held
    ensures ReachedHolding(x, st, less)
  {
    var steps :| Legal(x, steps) && Run(steps) == st && held <= Held(steps);
    assert less <= Held(steps);
  }

  lemma BeforeReached(x: Setting)
    requires x.Ok()
    ensures ReachedHolding(x, BeforeForgery(x), Correctly(x, OneWay(x))) && Checkpointed(x, BeforeForgery(x), Trunk(x))
  {
    var held, st := Correctly(x, OneWay(x)), OnTheWay(x);
    Ways(x);
    OnTheWayReached(x);
    CommitsHolding(x, st, Trunk(x), x.Correct(), held);
    var committed := st.(commits := st.commits + set r | r in x.Correct() :: (r, Trunk(x)));
    RepliesHolding(x, committed, OneWay(x), Replicas(x.cfg.NumReplicas()), held);
    TrunkCommitted(x);
  }

  lemma TrunkCommitted(x: Setting)
    requires x.Ok()
    ensures Checkpointed(x, BeforeForgery(x), Trunk(x))
  {
    CorrectSize(x);
    forall r | r in x.Correct() ensures r in Committers(BeforeForgery(x), Trunk(x)) {
      assert (r, Trunk(x)) in BeforeForgery(x).commits;
    }
    SubsetSize(x.Correct(), Committers(BeforeForgery(x), Trunk(x)));
  }

  // Whatever is checked short of everything, a faulty replica makes all correct ones go back to the
  // trunk and give up a certified digest, and then the other way is certified too.
  lemma ForgedRun(x: Setting) returns (st: State)
    requires x.Ok() && x.byz != {} && !x.check.FullCheck?
    ensures ReachedHolding(x, st, Correctly(x, OneWay(x)))
    ensures Certified(x, st, OneWay(x)) && Certified(x, st, OtherWay(x)) && !Compatible(OneWay(x), OtherWay(x))
  {
    var all, held := Replicas(x.cfg.NumReplicas()), Correctly(x, OneWay(x));
    Ways(x);
    BeforeReached(x);
    var back := AlignsHolding(x, BeforeForgery(x), Trunk(x), Trunk(x), x.Correct(), held);
    var other := AppendsHolding(x, back, Trunk(x), RequestId(3, 1), x.Correct(), held);
    RepliesHolding(x, other, OtherWay(x), all, held);
    st := RepliedBy(other, all, OtherWay(x));
    EveryoneCertifies(x, st, OneWay(x));
    EveryoneCertifies(x, st, OtherWay(x));
  }

  // ----- Exactly when

  // All that is decided in every reachable state lies on one chain.
  ghost predicate AlwaysSafe(x: Setting) {
    forall st, c, d :: Reachable(x, st) && Decided(x, st, c) && Decided(x, st, d) ==> Compatible(c, d)
  }

  // A round is safe if and only if at most f replicas are faulty and, unless none is, snapshot
  // replies are checked in full.
  lemma RoundSafeIff(x: Setting)
    requires x.byz <= Replicas(x.cfg.NumReplicas())
    ensures AlwaysSafe(x) <==> |x.byz| <= x.cfg.f && (x.check.FullCheck? || x.byz == {})
  {
    if x.Guarded() {
      GuardedSafe(x);
    } else if x.Ok() {
      ForgedUnsafe(x);
    } else {
      var st, c, d := UnsafeRun(x);
    }
  }

  lemma GuardedSafe(x: Setting)
    requires x.Guarded()
    ensures AlwaysSafe(x)
  {
    forall st, c, d | Reachable(x, st) && Decided(x, st, c) && Decided(x, st, d) ensures Compatible(c, d) {
      var steps :| Legal(x, steps) && Run(steps) == st;
      RoundIsSafe(x, steps, c, d);
    }
  }

  lemma ForgedUnsafe(x: Setting)
    requires x.Ok() && !x.Guarded()
    ensures !AlwaysSafe(x)
  {
    var st := ForgedRun(x);
    var steps :| Legal(x, steps) && Run(steps) == st;
    assert Reachable(x, st) && Decided(x, st, OneWay(x)) && Decided(x, st, OtherWay(x));
  }

  // What a configuration needs of the checks: with f == 0, nothing.
  predicate Suffices(cfg: Config, check: Check) {
    check.FullCheck? || cfg.f < 1
  }

  // Over all rounds with at most f faulty replicas.
  lemma CheckSufficesIff(cfg: Config, check: Check)
    ensures (forall x: Setting :: x.cfg == cfg && x.check == check && x.Ok() ==> AlwaysSafe(x)) <==>
            Suffices(cfg, check)
  {
    if Suffices(cfg, check) {
      forall x: Setting | x.cfg == cfg && x.check == check && x.Ok() ensures AlwaysSafe(x) {
        RoundSafeIff(x);
      }
    } else {
      var x := Setting(cfg, {0}, Genesis, check);
      RoundSafeIff(x);
      assert !AlwaysSafe(x);
    }
  }

  // In every run, at most e correct replicas have ever held a history in conflict with a certified
  // digest.
  ghost predicate EverFew(cfg: Config, check: Check) {
    forall x: Setting, steps: seq<Step>, d: Digest ::
      x.cfg == cfg && x.check == check && x.Ok() && Legal(x, steps) && Certified(x, Run(steps), d) ==>
        |EverAgainst(steps, d)| <= cfg.e
  }

  // The bound of FewOffChain holds over time exactly when there are no spares and the checks
  // suffice.
  lemma EverFewIff(cfg: Config, check: Check)
    ensures EverFew(cfg, check) <==> cfg.e == 0 && Suffices(cfg, check)
  {
    if cfg.e == 0 && Suffices(cfg, check) {
      forall x: Setting, steps: seq<Step>, d: Digest |
        x.cfg == cfg && x.check == check && x.Ok() && Legal(x, steps) && Certified(x, Run(steps), d)
        ensures |EverAgainst(steps, d)| <= cfg.e
      {
        NoneAgainst(x, steps, d);
      }
    } else if cfg.e > 0 {
      var x := Setting(cfg, {}, Genesis, check);
      CorrectSize(x);
      var off := SubsetOfSize(x.Correct(), cfg.e);
      SubsetSize(off, x.Correct());
      var late :| late in x.Correct() - off;
      var steps, z := TooManyAgainst(x, off, late);
    } else {
      AllAgainst(Setting(cfg, {0}, Genesis, check));
    }
  }

  lemma AllAgainst(x: Setting)
    requires x.Ok() && x.byz != {} && !x.check.FullCheck? && x.cfg.e == 0
    ensures !EverFew(x.cfg, x.check)
  {
    var st := ForgedRun(x);
    CorrectSize(x);
    var steps :| Legal(x, steps) && Run(steps) == st && Correctly(x, OneWay(x)) <= Held(steps);
    var r :| r in x.Correct();
    assert (r, OneWay(x)) in Held(steps);
    assert r in EverAgainst(steps, OtherWay(x));
  }
}
