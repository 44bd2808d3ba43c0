// Which histories correct replicas have held in the course of a round.  At most e of them are off
// a certified chain at any one time (RoundSafety.FewOffChain), but not over time: alignment brings
// some back, and others may have left in between.

module RoundHistory {
  import opened Digests
  import opened Quorums
  import opened RoundSteps
  import opened RoundSafety
  import opened RoundTightness

  // Every (replica, history) pair that occurs in a run.
  function Held(steps: seq<Step>): set<(nat, Digest)> {
    if steps == [] then {}
    else Held(steps[..|steps| - 1]) + Now(Run(steps))
  }

  function Now(st: State): set<(nat, Digest)> {
    set r | r in st.logs :: (r, st.logs[r])
  }

  // The correct replicas that have held a history in conflict with d.
  function EverAgainst(steps: seq<Step>, d: Digest): set<nat> {
    set p | p in Held(steps) && !Compatible(p.1, d) :: p.0
  }

  // ----- Without spares, logs only grow

  // With e == 0 a certificate takes all replicas, so alignment changes no log.
  lemma AlignChangesNothing(x: Setting, st: State, s: Step)
    requires x.Guarded() && x.cfg.e == 0 && Inv(x, st) && Enabled(x, st, s) && s.Align?
    ensures s.log == st.logs[s.r]
  {
    var r, c := s.r, s.checkpoint;
    if Checkpointed(x, st, c) {
      CorrectCommitter(x, st, c);
    }
    if Extends(x.base, c) {
      ExtendsTransitive(st.logs[r], x.base, c);
    } else {
      EveryoneReplied(x, st, c);
      CertifiedStays(x, st, r, c);
    }
  }

  lemma EveryoneReplied(x: Setting, st: State, d: Digest)
    requires x.Ok() && x.cfg.e == 0 && Typed(x, st) && Certified(x, st, d)
    ensures forall r :: r in x.Correct() ==> (r, d) in st.replies
  {
    CorrectRepliers(x, st, d, x.cfg.SuperQuorum());
    CorrectSize(x);
    var rs := Repliers(st, d) * x.Correct();
    SubsetSize(rs, x.Correct());
    assert x.Correct() - rs == {};
    forall r | r in x.Correct() ensures (r, d) in st.replies {
      assert r in rs;
    }
  }

  // So whatever a replica has held is a prefix of what it holds.
  lemma {:induction false} HeldIsPrefix(x: Setting, steps: seq<Step>)
    requires x.Guarded() && x.cfg.e == 0 && Legal(x, steps)
    ensures forall p :: p in Held(steps) ==> p.0 in Run(steps).logs && Extends(Run(steps).logs[p.0], p.1)
  {
    if steps != [] {
      var n := |steps| - 1;
      var st, s := Run(steps[..n]), steps[n];
      HeldIsPrefix(x, steps[..n]);
      RunKeeps(x, steps[..n]);
      forall p | p in Held(steps) ensures p.0 in After(st, s).logs && Extends(After(st, s).logs[p.0], p.1) {
        if p in Held(steps[..n]) {
          StillPrefix(x, st, s, p.0, p.1);
        }
      }
    }
  }

  lemma StillPrefix(x: Setting, st: State, s: Step, r: nat, h: Digest)
    requires x.Guarded() && x.cfg.e == 0 && Inv(x, st) && Enabled(x, st, s)
    requires r in st.logs && Extends(st.logs[r], h)
    ensures r in After(st, s).logs && Extends(After(st, s).logs[r], h)
  {
    match s
    case Append(w, id, q) => UptoNext(st.logs[w], id, q, Height(if w == r then h else Genesis));
    case Align(w, c, log) => AlignChangesNothing(x, st, s);
    case _ =>
  }

  lemma NoneAgainst(x: Setting, steps: seq<Step>, d: Digest)
    requires x.Guarded() && x.cfg.e == 0 && Legal(x, steps) && Certified(x, Run(steps), d)
    ensures EverAgainst(steps, d) == {}
  {
    var st := Run(steps);
    RunKeeps(x, steps);
    HeldIsPrefix(x, steps);
    EveryoneReplied(x, st, d);
    forall p | p in Held(steps) ensures Compatible(p.1, d) {
      CertifiedStays(x, st, p.0, d);
      PrefixesCompatible(st.logs[p.0], p.1, d);
    }
  }

  // ----- With spares, one more than e

  // A state that a run reaches in which these pairs have been held.
  ghost predicate ReachedHolding(x: Setting, st: State, held: set<(nat, Digest)>) {
    exists steps :: Legal(x, steps) && Run(steps) == st && held <= Held(steps)
  }

  lemma ReachableHolding(x: Setting, st: State)
    requires Reachable(x, st)
    ensures ReachedHolding(x, st, Now(st))
  {
    var steps :| Legal(x, steps) && Run(steps) == st;
    assert Now(st) <= Held(steps);
  }

  lemma StepHolding(
    x: Setting, st: State, s: Step, st': State, held: set<(nat, Digest)>, held': set<(nat, Digest)>)
    requires ReachedHolding(x, st, held) && Enabled(x, st, s)
    requires After(st, s) == st' && held' <= held + Now(st')
    ensures ReachedHolding(x, st', held')
  {
    var steps :| Legal(x, steps) && Run(steps) == st && held <= Held(steps);
    assert (steps + [s])[..|steps|] == steps;
    assert Legal(x, steps + [s]) && Run(steps + [s]) == st';
    assert held' <= Held(steps + [s]);
  }

  // All replicas in rs commit y.
  lemma {:induction false} CommitsHolding(x: Setting, st: State, y: Digest, rs: set<nat>, held: set<(nat, Digest)>)
    requires ReachedHolding(x, st, held) && Certified(x, st, y)
    requires forall r :: r in rs ==> r in st.logs && (r, y) in st.replies
    ensures ReachedHolding(x, st.(commits := st.commits + set r | r in rs :: (r, y)), held)
  {
    if rs == {} {
      assert st.commits + (set r | r in rs :: (r, y)) == st.commits;
    } else {
      var r :| r in rs;
      var before := st.(commits := st.commits + set w | w in rs - {r} :: (w, y));
      CommitsHolding(x, st, y, rs - {r}, held);
      var after := st.(commits := st.commits + set w | w in rs :: (w, y));
      assert Repliers(before, y) == Repliers(st, y);
      assert after.commits == before.commits + {(r, y)};
      StepHolding(x, before, Commit(r, y), after, held, held);
    }
  }

  // The run: `off` (e correct replicas) starts with another history, everyone else replies y and
  // commits it, `off` aligns to y, the replica `late` appends something else, and everyone but
  // `late` goes on to z and replies it.
  //
  // The second half of it, from a state in which y is a checkpoint that everyone's log has or
  // is to be aligned to.
  datatype Plot = Plot(x: Setting, start: State, y: Digest, late: nat) {
    ghost predicate Ok() {
      && late in x.Correct()
      && start.logs.Keys == x.Correct() && x.byz <= Replicas(x.cfg.NumReplicas())
      && Checkpointed(x, start, y) && start.logs[late] == y
      && (forall r :: r in start.logs ==> start.logs[r] == y || !Extends(start.logs[r], y))
    }

    function Z(): Digest { Next(y, RequestId(3, 1), Increment) }
    function W(): Digest { Next(y, RequestId(4, 1), Increment) }

    // The first k replicas have gone on.
    function Later(k: nat): State {
      State(LaterLogs(k), start.replies + set r | r in Replicas(k) && r != late :: (r, Z()), start.commits)
    }

    function LaterLogs(k: nat): (logs: map<nat, Digest>)
      ensures logs.Keys == start.logs.Keys
      ensures forall r :: r in logs ==> logs[r] == if r >= k then start.logs[r] else if r == late then W() else Z()
    {
      if k == 0 then start.logs
      else
        var r := k - 1;
        if r in start.logs then LaterLogs(r)[r := if r == late then W() else Z()] else LaterLogs(r)
    }

    function Gone(k: nat): set<(nat, Digest)> {
      if late < k then {(late, W())} else {}
    }
  }

  lemma SameDigest(d: Digest)
    ensures Extends(d, d)
  {
  }

  // The turn of replica r: it aligns if it has to, goes on, and replies.
  lemma LaterTurn(q: Plot, r: nat, held: set<(nat, Digest)>)
    requires q.Ok() && r < q.x.cfg.NumReplicas() && LaterHeld(q, r, held)
    ensures LaterHeld(q, r + 1, held)
  {
    var x, st, st', h := q.x, q.Later(r), q.Later(r + 1), held + q.Gone(r);
    LaterNext(q, r);
    if r in x.byz {
      StepHolding(x, st, Reply(r, q.Z()), st', h, h);
    } else if r == q.late {
      assert r in st'.logs && st'.logs[r] == q.W();
      assert (r, st'.logs[r]) in Now(st');
      StepHolding(x, st, Append(r, RequestId(4, 1), Increment), st', h, held + q.Gone(r + 1));
    } else {
      AlignsIfNeeded(q, r, h);
      GoesOn(x, st, r, q.y, h);
    }
  }

  lemma LaterNext(q: Plot, r: nat)
    requires q.Ok() && r < q.x.cfg.NumReplicas()
    ensures var st := q.Later(r);
            q.Later(r + 1) == State(
              if r in q.x.byz then st.logs else st.logs[r := if r == q.late then q.W() else q.Z()],
              if r == q.late then st.replies else st.replies + {(r, q.Z())},
              st.commits)
  {
  }

  lemma AlignsIfNeeded(q: Plot, r: nat, held: set<(nat, Digest)>)
    requires q.Ok() && r in q.start.logs && ReachedHolding(q.x, q.Later(r), held)
    ensures ReachedHolding(q.x, q.Later(r).(logs := q.Later(r).logs[r := q.y]), held)
  {
    var st := q.Later(r);
    var aligned := st.(logs := st.logs[r := q.y]);
    if st.logs[r] == q.y {
      assert aligned.logs == st.logs;
    } else {
      SameDigest(q.y);
      assert Committers(st, q.y) == Committers(q.start, q.y);
      StepHolding(q.x, st, Align(r, q.y, q.y), aligned, held, held);
    }
  }

  lemma GoesOn(x: Setting, st: State, r: nat, y: Digest, held: set<(nat, Digest)>)
    requires r in st.logs && ReachedHolding(x, st.(logs := st.logs[r := y]), held)
    ensures var z := Next(y, RequestId(3, 1), Increment);
            ReachedHolding(x, st.(logs := st.logs[r := z], replies := st.replies + {(r, z)}), held)
  {
    var z := Next(y, RequestId(3, 1), Increment);
    var aligned, gone := st.(logs := st.logs[r := y]), st.(logs := st.logs[r := z]);
    SameDigest(z);
    assert aligned.logs[r := z] == gone.logs;
    StepHolding(x, aligned, Append(r, RequestId(3, 1), Increment), gone, held, held);
    StepHolding(x, gone, Reply(r, z), gone.(replies := st.replies + {(r, z)}), held, held);
  }

  lemma LaterStart(q: Plot, held: set<(nat, Digest)>)
    ensures q.Later(0) == q.start && held + q.Gone(0) == held
  {
    assert q.Later(0).logs == q.start.logs;
    assert q.Later(0).replies == q.start.replies;
  }

  ghost predicate LaterHeld(q: Plot, k: nat, held: set<(nat, Digest)>) {
    ReachedHolding(q.x, q.Later(k), held + q.Gone(k))
  }

  lemma {:induction false} LaterReached(q: Plot, k: nat, held: set<(nat, Digest)>)
    requires q.Ok() && k <= q.x.cfg.NumReplicas() && LaterHeld(q, 0, held)
    ensures LaterHeld(q, k, held)
  {
    if k > 0 {
      var r := k - 1;
      LaterReached(q, r, held);
      LaterTurn(q, r, held);
    }
  }

  // ----- The first half

  function Mainline(x: Setting): Digest { Next(x.base, RequestId(1, 1), Increment) }
  function Sideline(x: Setting): Digest { Next(x.base, RequestId(2, 1), Increment) }

  // `off` holds the other history, everyone else replied y, and the correct ones of them
  // committed it.
  function Half(x: Setting, off: set<nat>): State {
    var st := SplitState(x, off, Mainline(x), Mainline(x), Sideline(x), x.cfg.NumReplicas());
    st.(commits := set r | r in x.Correct() - off :: (r, Mainline(x)))
  }

  lemma LinesApart(x: Setting)
    ensures Extends(Mainline(x), x.base) && Extends(Sideline(x), x.base) && Extends(Mainline(x), Mainline(x))
    ensures !Extends(Sideline(x), Mainline(x))
  {
    SameDigest(Mainline(x));
  }

  lemma HalfReached(x: Setting, off: set<nat>)
    requires x.Ok() && off <= x.Correct() && |off| <= x.cfg.e
    ensures ReachedHolding(x, Half(x, off), Now(Half(x, off)))
  {
    var n, y := x.cfg.NumReplicas(), Mainline(x);
    var st := SplitState(x, off, y, y, Sideline(x), n);
    var rs := x.Correct() - off;
    LinesApart(x);
    SplitReachable(x, off, y, y, Sideline(x), n);
    SplitMeaning(x, off, y, y, Sideline(x));
    ReachableHolding(x, st);
    CommitsHolding(x, st, y, rs, Now(st));
    assert st.commits + (set r | r in rs :: (r, y)) == Half(x, off).commits;
  }

  lemma HalfCheckpointed(x: Setting, off: set<nat>)
    requires x.Ok() && off <= x.Correct() && |off| <= x.cfg.e
    ensures Checkpointed(x, Half(x, off), Mainline(x))
  {
    var rs, st := x.Correct() - off, Half(x, off);
    forall r | r in rs ensures r in Committers(st, Mainline(x)) {
      assert (r, Mainline(x)) in st.commits;
    }
    CorrectSize(x);
    SubsetSize(off, x.Correct());
    SubsetSize(rs, Committers(st, Mainline(x)));
  }

  // ----- Both halves

  // In the end z is certified, and e + 1 correct replicas have held something against it.
  lemma TooManyAgainst(x: Setting, off: set<nat>, late: nat) returns (steps: seq<Step>, z: Digest)
    requires x.Ok() && x.cfg.e >= 1 && off <= x.Correct() && |off| == x.cfg.e && late in x.Correct() - off
    ensures Legal(x, steps) && Certified(x, Run(steps), z) && |EverAgainst(steps, z)| > x.cfg.e
  {
    var n := x.cfg.NumReplicas();
    var q := Plot(x, Half(x, off), Mainline(x), late);
    LinesApart(x);
    HalfReached(x, off);
    HalfCheckpointed(x, off);
    LaterStart(q, Now(q.start));
    LaterReached(q, n, Now(q.start));
    steps :| Legal(x, steps) && Run(steps) == q.Later(n) && Now(q.start) + q.Gone(n) <= Held(steps);
    z := q.Z();
    LaterCertified(q);
    AgainstHeld(x, off, late, steps);
  }

  lemma LaterCertified(q: Plot)
    requires q.Ok() && q.x.cfg.e >= 1
    ensures Certified(q.x, q.Later(q.x.cfg.NumReplicas()), q.Z())
  {
    var n := q.x.cfg.NumReplicas();
    var repliers := Replicas(n) - {q.late};
    forall r | r in repliers ensures r in Repliers(q.Later(n), q.Z()) {
      assert (r, q.Z()) in q.Later(n).replies;
    }
    SubsetSize(repliers, Repliers(q.Later(n), q.Z()));
  }

  lemma AgainstHeld(x: Setting, off: set<nat>, late: nat, steps: seq<Step>)
    requires off <= x.Correct() && late in x.Correct() - off
    requires Now(Half(x, off)) <= Held(steps) && (late, Next(Mainline(x), RequestId(4, 1), Increment)) in Held(steps)
    ensures |EverAgainst(steps, Next(Mainline(x), RequestId(3, 1), Increment))| > |off|
  {
    var z, w := Next(Mainline(x), RequestId(3, 1), Increment), Next(Mainline(x), RequestId(4, 1), Increment);
    ForksIncompatible(Mainline(x), RequestId(4, 1), RequestId(3, 1), Increment);
    SidelineAgainst(x);
    forall r | r in off ensures r in EverAgainst(steps, z) {
      assert Half(x, off).logs[r] == Sideline(x);
      assert (r, Sideline(x)) in Now(Half(x, off));
    }
    assert late in EverAgainst(steps, z) by {
      assert (late, w) in Held(steps);
    }
    SubsetSize(off + {late}, EverAgainst(steps, z));
  }

  lemma SidelineAgainst(x: Setting)
    ensures !Compatible(Sideline(x), Next(Mainline(x), RequestId(3, 1), Increment))
  {
    assert Upto(Next(Mainline(x), RequestId(3, 1), Increment), Height(Mainline(x))) == Mainline(x);
  }
}
