// Safety of one round: an invariant that every step of RoundSteps keeps, and what follows from it
// in every reachable state.

module RoundSafety {
  import opened Digests
  import opened Quorums
  import opened RoundSteps

  // ----- The invariant

  ghost predicate Typed(x: Setting, st: State) {
    && st.logs.Keys <= x.Correct()
    && (forall r :: r in st.logs ==> Extends(st.logs[r], x.base))
    && (forall p :: p in st.replies ==> p.0 in x.byz || (p.0 in st.logs && Compatible(p.1, x.base)))
    && (forall p :: p in st.commits ==> p.0 in x.byz || p.1 == x.base || Certified(x, st, p.1))
  }

  ghost predicate CertsCompatible(x: Setting, st: State) {
    forall c, d :: Certified(x, st, c) && Certified(x, st, d) ==> Compatible(c, d)
  }

  ghost predicate Opposed(x: Setting, st: State, d: Digest) {
    exists c :: Certified(x, st, c) && !Compatible(c, d)
  }

  // A correct replica leaves a digest it replied only because a certificate opposes that digest.
  ghost predicate Anchored(x: Setting, st: State) {
    forall p :: p in st.replies && p.0 in st.logs ==> Extends(st.logs[p.0], p.1) || Opposed(x, st, p.1)
  }

  // c opposes d, and the correct replicas in q replied c but never d.
  ghost predicate Separates(x: Setting, st: State, d: Digest, c: Digest, q: set<nat>) {
    && Certified(x, st, c)
    && !Compatible(c, d)
    && q <= x.Correct()
    && |q| + |x.byz| >= x.cfg.SuperQuorum()
    && forall r :: r in q ==> (r, c) in st.replies && (r, d) !in st.replies
  }

  ghost predicate Separated(x: Setting, st: State) {
    forall d :: Opposed(x, st, d) ==> exists c, q :: Separates(x, st, d, c, q)
  }

  ghost predicate Inv(x: Setting, st: State) {
    && Typed(x, st)
    && CertsCompatible(x, st)
    && Anchored(x, st)
    && Separated(x, st)
  }

  // ----- Counting

  lemma CorrectSize(x: Setting)
    requires x.Ok()
    ensures |x.Correct()| == x.cfg.NumReplicas() - |x.byz|
  {
    SubsetSize(x.byz, Replicas(x.cfg.NumReplicas()));
  }

  lemma CorrectRepliers(x: Setting, st: State, d: Digest, k: nat)
    requires x.Ok() && Typed(x, st)
    requires |Repliers(st, d)| >= k
    ensures |Repliers(st, d) * x.Correct()| + |x.byz| >= k
  {
    var rs := Repliers(st, d);
    forall r | r in rs ensures r in x.byz || r in x.Correct() {
      assert (r, d) in st.replies;
    }
    assert rs - x.byz == rs * x.Correct();
    SplitSize(rs, x.byz);
  }

  lemma CorrectCommitter(x: Setting, st: State, d: Digest)
    requires x.Ok() && Typed(x, st) && Checkpointed(x, st, d)
    ensures d == x.base || Certified(x, st, d)
  {
    SplitSize(Committers(st, d), x.byz);
    var r :| r in Committers(st, d) - x.byz;
    assert (r, d) in st.commits;
  }

  // A correct replica that replied a certified digest still has it on its log.
  lemma CertifiedStays(x: Setting, st: State, r: nat, c: Digest)
    requires Typed(x, st) && CertsCompatible(x, st) && Anchored(x, st)
    requires r in x.Correct() && (r, c) in st.replies && Certified(x, st, c)
    ensures r in st.logs && Extends(st.logs[r], c)
  {
    assert (r, c).0 in st.logs;
  }

  lemma CertifiedNearBase(x: Setting, st: State, c: Digest)
    requires x.Ok() && Typed(x, st) && Certified(x, st, c)
    ensures Compatible(c, x.base)
  {
    CorrectRepliers(x, st, c, x.cfg.SuperQuorum());
    var r :| r in Repliers(st, c) * x.Correct();
    assert (r, c) in st.replies;
  }

  // ----- Every step keeps the invariant

  lemma CertifiedMonotone(x: Setting, st: State, s: Step, d: Digest)
    requires Certified(x, st, d)
    ensures Certified(x, After(st, s), d)
  {
    SubsetSize(Repliers(st, d), Repliers(After(st, s), d));
  }

  lemma OpposedMonotone(x: Setting, st: State, s: Step, d: Digest)
    requires Opposed(x, st, d)
    ensures Opposed(x, After(st, s), d)
  {
    var c :| Certified(x, st, c) && !Compatible(c, d);
    CertifiedMonotone(x, st, s, c);
  }

  lemma SameReplies(x: Setting, st: State, st': State)
    requires st'.replies == st.replies
    ensures forall d :: Certified(x, st', d) <==> Certified(x, st, d)
    ensures forall d :: Opposed(x, st', d) <==> Opposed(x, st, d)
    ensures CertsCompatible(x, st) ==> CertsCompatible(x, st')
    ensures Separated(x, st) ==> Separated(x, st')
  {
    forall d ensures Certified(x, st', d) <==> Certified(x, st, d) {
      assert Repliers(st', d) == Repliers(st, d);
    }
    forall d ensures Opposed(x, st', d) <==> Opposed(x, st, d) {
    }
    if Separated(x, st) {
      forall d | Opposed(x, st', d) ensures exists c, q :: Separates(x, st', d, c, q) {
        var c, q :| Separates(x, st, d, c, q);
        assert Separates(x, st', d, c, q);
      }
    }
  }

  lemma EnterKeeps(x: Setting, st: State, r: nat, log: Digest)
    requires x.Ok() && Inv(x, st) && Enabled(x, st, Enter(r, log))
    ensures Inv(x, After(st, Enter(r, log)))
  {
    SameReplies(x, st, After(st, Enter(r, log)));
  }

  lemma AppendKeeps(x: Setting, st: State, r: nat, id: RequestId, q: Request)
    requires x.Ok() && Inv(x, st) && Enabled(x, st, Append(r, id, q))
    ensures Inv(x, After(st, Append(r, id, q)))
  {
    var st' := After(st, Append(r, id, q));
    SameReplies(x, st, st');
    forall d | Extends(st.logs[r], d) ensures Extends(st'.logs[r], d) {
      UptoNext(st.logs[r], id, q, Height(d));
    }
  }

  lemma CommitKeeps(x: Setting, st: State, r: nat, d: Digest)
    requires x.Ok() && Inv(x, st) && Enabled(x, st, Commit(r, d))
    ensures Inv(x, After(st, Commit(r, d)))
  {
    SameReplies(x, st, After(st, Commit(r, d)));
  }

  // Re-aligning moves a replica off a digest it replied only if the checkpoint opposes it.
  lemma AlignKeeps(x: Setting, st: State, r: nat, c: Digest, log: Digest)
    requires x.Guarded() && Inv(x, st) && Enabled(x, st, Align(r, c, log))
    ensures Inv(x, After(st, Align(r, c, log)))
  {
    var st' := After(st, Align(r, c, log));
    SameReplies(x, st, st');
    if Checkpointed(x, st, c) {
      CorrectCommitter(x, st, c);
    } else {
      ExtendsTransitive(st.logs[r], x.base, c);
    }
    if !Extends(st.logs[r], c) {
      assert Certified(x, st, c);
      CertifiedNearBase(x, st, c);
      assert Extends(c, x.base) by {
        if Extends(x.base, c) {
          ExtendsTransitive(st.logs[r], x.base, c);
        }
      }
      ExtendsTransitive(log, c, x.base);
      forall d | (r, d) in st.replies && Extends(st.logs[r], d)
        ensures Extends(log, d) || Opposed(x, st, d)
      {
        if Extends(c, d) {
          ExtendsTransitive(log, c, d);
        } else if Extends(d, c) {
          ExtendsTransitive(st.logs[r], d, c);
        } else {
          assert !Compatible(c, d);
        }
      }
    }
    assert Typed(x, st');
    assert Anchored(x, st') by {
      forall p | p in st'.replies && p.0 in st'.logs
        ensures Extends(st'.logs[p.0], p.1) || Opposed(x, st', p.1)
      {
        assert Extends(st.logs[p.0], p.1) || Opposed(x, st, p.1);
      }
    }
  }

  // No member of a separating set can reply the separated digest.
  lemma SeparatingNeverReplies(x: Setting, st: State, r: nat, d: Digest, c: Digest, q: set<nat>)
    requires x.Ok() && Inv(x, st) && Enabled(x, st, Reply(r, d))
    requires Separates(x, st, d, c, q)
    ensures r !in q
  {
    if r in q {
      CertifiedStays(x, st, r, c);
      PrefixesCompatible(st.logs[r], c, d);
    }
  }

  // The heart of the argument: a digest opposed by a certificate never becomes certified.
  lemma OpposedNeverCertified(x: Setting, st: State, r: nat, d: Digest)
    requires x.Ok() && Inv(x, st) && Enabled(x, st, Reply(r, d))
    requires Opposed(x, st, d)
    requires Typed(x, After(st, Reply(r, d)))
    ensures !Certified(x, After(st, Reply(r, d)), d)
  {
    var st' := After(st, Reply(r, d));
    var c, q :| Separates(x, st, d, c, q);
    SeparatingNeverReplies(x, st, r, d, c, q);
    var rs := Repliers(st', d) * x.Correct();
    assert q * rs == {} by {
      forall w | w in rs ensures w !in q {
        assert (w, d) in st'.replies;
      }
    }
    if Certified(x, st', d) {
      CorrectRepliers(x, st', d, x.cfg.SuperQuorum());
      CorrectSize(x);
      Overlap(x.Correct(), q, rs);
    }
  }

  lemma ReplyTyped(x: Setting, st: State, r: nat, d: Digest)
    requires x.Ok() && Inv(x, st) && Enabled(x, st, Reply(r, d))
    ensures Typed(x, After(st, Reply(r, d)))
  {
    var st' := After(st, Reply(r, d));
    forall c | Certified(x, st, c) ensures Certified(x, st', c) {
      CertifiedMonotone(x, st, Reply(r, d), c);
    }
    if r !in x.byz {
      PrefixesCompatible(st.logs[r], d, x.base);
    }
  }

  lemma OnlyRepliedGains(x: Setting, st: State, r: nat, d: Digest, c: Digest)
    requires c != d
    ensures Certified(x, After(st, Reply(r, d)), c) <==> Certified(x, st, c)
  {
    assert Repliers(After(st, Reply(r, d)), c) == Repliers(st, c);
  }

  lemma ReplyCompatible(x: Setting, st: State, r: nat, d: Digest)
    requires x.Ok() && Inv(x, st) && Enabled(x, st, Reply(r, d))
    ensures CertsCompatible(x, After(st, Reply(r, d)))
  {
    var st' := After(st, Reply(r, d));
    ReplyTyped(x, st, r, d);
    forall a, b | Certified(x, st', a) && Certified(x, st', b) ensures Compatible(a, b) {
      if !Compatible(a, b) {
        var other := if a == d then b else a;
        OnlyRepliedGains(x, st, r, d, other);
        if a == d || b == d {
          assert Opposed(x, st, d);
          OpposedNeverCertified(x, st, r, d);
        } else {
          OnlyRepliedGains(x, st, r, d, b);
        }
      }
    }
  }

  lemma ReplySeparated(x: Setting, st: State, r: nat, d: Digest, t: Digest)
    requires x.Ok() && Inv(x, st) && Enabled(x, st, Reply(r, d))
    requires Opposed(x, After(st, Reply(r, d)), t)
    ensures exists c, q :: Separates(x, After(st, Reply(r, d)), t, c, q)
  {
    var st' := After(st, Reply(r, d));
    ReplyTyped(x, st, r, d);
    ReplyCompatible(x, st, r, d);
    if Opposed(x, st, t) {
      var c, q :| Separates(x, st, t, c, q);
      CertifiedMonotone(x, st, Reply(r, d), c);
      if t == d {
        SeparatingNeverReplies(x, st, r, d, c, q);
      }
      assert Separates(x, st', t, c, q);
    } else {
      var c :| Certified(x, st', c) && !Compatible(c, t);
      if c != d {
        OnlyRepliedGains(x, st, r, d, c);
        assert false;
      }
      var q := Repliers(st', d) * x.Correct();
      CorrectRepliers(x, st', d, x.cfg.SuperQuorum());
      forall w | w in q ensures (w, d) in st'.replies && (w, t) !in st'.replies {
        if (w, t) in st'.replies {
          assert (w, t) in st.replies && (w, t).0 in st.logs;
          assert Extends(st.logs[w], t);
          assert Extends(st.logs[w], d) by {
            if w != r {
              assert (w, d) in st.replies;
              if Opposed(x, st, d) {
                OpposedNeverCertified(x, st, r, d);
              }
            }
          }
          PrefixesCompatible(st.logs[w], d, t);
        }
      }
      assert Separates(x, st', t, d, q);
    }
  }

  lemma ReplyKeeps(x: Setting, st: State, r: nat, d: Digest)
    requires x.Ok() && Inv(x, st) && Enabled(x, st, Reply(r, d))
    ensures Inv(x, After(st, Reply(r, d)))
  {
    var st' := After(st, Reply(r, d));
    ReplyTyped(x, st, r, d);
    ReplyCompatible(x, st, r, d);
    forall t | Opposed(x, st', t) ensures exists c, q :: Separates(x, st', t, c, q) {
      ReplySeparated(x, st, r, d, t);
    }
    forall p | p in st'.replies && p.0 in st'.logs
      ensures Extends(st'.logs[p.0], p.1) || Opposed(x, st', p.1)
    {
      if p in st.replies && !Extends(st.logs[p.0], p.1) {
        OpposedMonotone(x, st, Reply(r, d), p.1);
      }
    }
  }

  lemma StepKeeps(x: Setting, st: State, s: Step)
    requires x.Guarded() && Inv(x, st) && Enabled(x, st, s)
    ensures Inv(x, After(st, s))
  {
    match s
    case Enter(r, log) => EnterKeeps(x, st, r, log);
    case Append(r, id, q) => AppendKeeps(x, st, r, id, q);
    case Reply(r, d) => ReplyKeeps(x, st, r, d);
    case Commit(r, d) => CommitKeeps(x, st, r, d);
    case Align(r, c, log) => AlignKeeps(x, st, r, c, log);
  }

  lemma {:induction false} RunKeeps(x: Setting, steps: seq<Step>)
    requires x.Guarded() && Legal(x, steps)
    ensures Inv(x, Run(steps))
  {
    if steps == [] {
      forall d ensures !Certified(x, Start, d) {
        assert Repliers(Start, d) == {};
      }
    } else {
      RunKeeps(x, steps[..|steps| - 1]);
      StepKeeps(x, Run(steps[..|steps| - 1]), steps[|steps| - 1]);
    }
  }

  // ----- What holds in every reachable state

  // At most e correct replicas ever replied a digest that some certificate opposes.
  lemma OpposedRepliersFew(x: Setting, st: State, d: Digest)
    requires x.Ok() && Inv(x, st) && Opposed(x, st, d)
    ensures |Repliers(st, d) * x.Correct()| <= x.cfg.e
  {
    var c, q :| Separates(x, st, d, c, q);
    var rs := Repliers(st, d) * x.Correct();
    assert rs <= x.Correct() - q by {
      forall r | r in rs ensures r !in q {
        assert (r, d) in st.replies;
      }
    }
    CorrectSize(x);
    SubsetSize(q, x.Correct());
    SubsetSize(rs, x.Correct() - q);
  }

  // No certificate opposes a digest that a quorum replied.
  lemma QuorumUnopposed(x: Setting, st: State, d: Digest)
    requires x.Ok() && Inv(x, st) && QuorumReplied(x, st, d)
    ensures !Opposed(x, st, d)
  {
    if Opposed(x, st, d) {
      OpposedRepliersFew(x, st, d);
      CorrectRepliers(x, st, d, x.cfg.Quorum());
    }
  }

  // Safety of a round: in every reachable state all certificates, and with them everything a
  // client committed on the fast path, lie on one chain; so does every digest that a quorum
  // replied, and every committed checkpoint.
  lemma RoundIsSafe(x: Setting, steps: seq<Step>, c: Digest, d: Digest)
    requires x.Guarded() && Legal(x, steps)
    requires Decided(x, Run(steps), c) && Decided(x, Run(steps), d)
    ensures Compatible(c, d)
  {
    var st := Run(steps);
    RunKeeps(x, steps);
    if Checkpointed(x, st, c) { CorrectCommitter(x, st, c); }
    if Checkpointed(x, st, d) { CorrectCommitter(x, st, d); }
    if Certified(x, st, c) { CertifiedNearBase(x, st, c); }
    if Certified(x, st, d) { CertifiedNearBase(x, st, d); }
    if QuorumReplied(x, st, c) { QuorumUnopposed(x, st, c); }
    if QuorumReplied(x, st, d) { QuorumUnopposed(x, st, d); }
    if QuorumReplied(x, st, c) || QuorumReplied(x, st, d) {
      QuorumCompatible(x, st, c, d);
    }
  }

  lemma QuorumCompatible(x: Setting, st: State, c: Digest, d: Digest)
    requires x.Ok() && Inv(x, st)
    requires QuorumReplied(x, st, c) || QuorumReplied(x, st, d)
    requires QuorumReplied(x, st, c) || Certified(x, st, c) || c == x.base
    requires QuorumReplied(x, st, d) || Certified(x, st, d) || d == x.base
    ensures Compatible(c, d)
  {
    if QuorumReplied(x, st, c) { QuorumUnopposed(x, st, c); }
    if QuorumReplied(x, st, d) { QuorumUnopposed(x, st, d); }
    if QuorumReplied(x, st, c) && QuorumReplied(x, st, d) {
      CorrectRepliers(x, st, c, x.cfg.Quorum());
      CorrectRepliers(x, st, d, x.cfg.Quorum());
      CorrectSize(x);
      Overlap(x.Correct(), Repliers(st, c) * x.Correct(), Repliers(st, d) * x.Correct());
      var r :| r in (Repliers(st, c) * x.Correct()) * (Repliers(st, d) * x.Correct());
      assert (r, c) in st.replies && (r, d) in st.replies;
      assert (r, c).0 in st.logs && (r, d).0 in st.logs;
      PrefixesCompatible(st.logs[r], c, d);
    } else {
      var b := if QuorumReplied(x, st, c) then c else d;
      CorrectRepliers(x, st, b, x.cfg.Quorum());
      var r :| r in Repliers(st, b) * x.Correct();
      assert (r, b) in st.replies;
    }
  }

  // Committed checkpoints are compatible with everything decided.
  lemma CommittedCompatible(x: Setting, steps: seq<Step>, c: Digest, d: Digest)
    requires x.Guarded() && Legal(x, steps) && Committed(x, Run(steps), c) && Decided(x, Run(steps), d)
    ensures Compatible(c, d)
  {
    if Checkpointed(x, Run(steps), c) {
      RoundIsSafe(x, steps, c, d);
    } else {
      NearBase(x, steps, d);
      if Extends(d, x.base) {
        ExtendsTransitive(d, x.base, c);
      } else {
        PrefixesCompatible(x.base, c, d);
      }
    }
  }

  lemma NearBase(x: Setting, steps: seq<Step>, d: Digest)
    requires x.Guarded() && Legal(x, steps) && Decided(x, Run(steps), d)
    ensures Compatible(d, x.base)
  {
    var st := Run(steps);
    RunKeeps(x, steps);
    if Checkpointed(x, st, d) {
      CorrectCommitter(x, st, d);
    }
    if Certified(x, st, d) {
      CertifiedNearBase(x, st, d);
    } else if QuorumReplied(x, st, d) {
      QuorumCompatible(x, st, d, x.base);
    }
  }

  // The correct replicas whose log does not extend d.
  ghost function OffChain(x: Setting, st: State, d: Digest): set<nat> {
    set r | r in x.Correct() && !(r in st.logs && Extends(st.logs[r], d))
  }

  // Key bound of the round: at most e correct replicas are off a certified chain, and at most f
  // are off a chain that a quorum replied.
  lemma FewOffChain(x: Setting, steps: seq<Step>, d: Digest)
    requires x.Guarded() && Legal(x, steps)
    ensures Certified(x, Run(steps), d) ==> |OffChain(x, Run(steps), d)| <= x.cfg.e
    ensures QuorumReplied(x, Run(steps), d) ==> |OffChain(x, Run(steps), d)| <= x.cfg.f
  {
    var st := Run(steps);
    RunKeeps(x, steps);
    if Certified(x, st, d) {
      OffChainBound(x, st, d, x.cfg.SuperQuorum());
    }
    if QuorumReplied(x, st, d) {
      QuorumUnopposed(x, st, d);
      OffChainBound(x, st, d, x.cfg.Quorum());
    }
  }

  lemma OffChainBound(x: Setting, st: State, d: Digest, k: nat)
    requires x.Ok() && Inv(x, st) && !Opposed(x, st, d)
    requires |Repliers(st, d)| >= k
    ensures |OffChain(x, st, d)| + k <= x.cfg.NumReplicas()
  {
    CorrectRepliers(x, st, d, k);
    CorrectSize(x);
    var rs := Repliers(st, d) * x.Correct();
    forall r | r in rs ensures r !in OffChain(x, st, d) {
      assert (r, d) in st.replies && (r, d).0 in st.logs;
    }
    SubsetSize(rs, x.Correct());
    SubsetSize(OffChain(x, st, d), x.Correct() - rs);
  }
}
