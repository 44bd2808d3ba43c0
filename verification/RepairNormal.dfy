// Durability of the normal path: what a repair keeps of the certificates that a quorum
// acknowledged to a client (processes/client/client.cc:655-660), and exactly when.

module RepairNormal {
  import opened Options
  import opened Digests
  import opened Quorums
  import opened ClientRecords
  import opened RepairSelection
  import opened RepairDurability
  import opened RoundSteps
  import opened RoundSafety
  import opened RoundTightness
  import opened RoundCerts
  import opened RepairGuarantees
  import opened RepairBranches

  ghost function Ackers(w: World, d: Digest): set<nat> {
    set p | p in w.acks && p.1 == d :: p.0
  }

  // What commits a request on the normal path.
  ghost predicate Acked(x: Setting, w: World, d: Digest) {
    |Ackers(w, d)| >= x.cfg.Quorum()
  }

  // A start message as toProto builds it: the committed checkpoint, the log and the certificate.
  ghost predicate Shows(w: World, r: nat, log: RepairLog) {
    && r in w.committed && log.checkpoint.logDigest == w.committed[r]
    && (log.cert.Some? <==> r in w.certs)
    && (log.cert.Some? ==> log.cert.value == Cert(Height(w.certs[r]), w.certs[r]))
  }

  ghost predicate Reported(x: Setting, w: World, msgs: seq<StartMsg>) {
    && Proposed(x, w.st, msgs)
    && forall i :: 0 <= i < |msgs| && msgs[i].replicaId in x.Correct() ==> Shows(w, msgs[i].replicaId, msgs[i].log)
  }

  // A log accounts for d: it has a certificate at least as high, or its checkpoint is there.
  predicate Acknowledges(log: RepairLog, d: Digest) {
    log.checkpoint.seqNo >= Height(d) || (log.cert.Some? && log.cert.value.seqNo >= Height(d))
  }

  lemma RememberedShown(w: World, r: nat, log: RepairLog, d: Digest)
    requires Shows(w, r, log) && Remembers(w, r, d) && Height(log.checkpoint.logDigest) == log.checkpoint.seqNo
    ensures Acknowledges(log, d)
  {
  }

  // A quorum of start messages has one from a correct replica that acknowledged d.
  lemma AckerInProposal(x: Setting, w: World, msgs: seq<StartMsg>, d: Digest) returns (i: nat)
    requires x.Ok() && Sane(x, w) && Proposed(x, w.st, msgs) && |msgs| >= x.cfg.Quorum() && Acked(x, w, d)
    ensures i < |msgs| && msgs[i].replicaId in x.Correct() && (msgs[i].replicaId, d) in w.acks
  {
    var all := Replicas(x.cfg.NumReplicas());
    var ackers := Ackers(w, d);
    forall r | r in ackers ensures r in all {
      assert (r, d) in w.acks;
    }
    var senders := SendersOf(msgs, Replicas(|msgs|));
    SendersSize(msgs, Replicas(|msgs|));
    SplitSize(ackers, x.byz);
    SubsetSize(senders, all);
    Overlap(all, senders, ackers - x.byz);
    var r :| r in senders * (ackers - x.byz);
    i :| i < |msgs| && msgs[i].replicaId == r;
    assert (r, d) in w.acks;
  }

  // An acknowledged certificate was replied by enough replicas.
  lemma AckedReplied(x: Setting, w: World, d: Digest)
    requires x.Ok() && Sane(x, w) && Acked(x, w, d)
    ensures HasReplies(x, w.st, d)
  {
    SplitSize(Ackers(w, d), x.byz);
    var r :| r in Ackers(w, d) - x.byz;
    assert (r, d) in w.acks;
  }

  // ----- The chosen checkpoint

  // The senders that match a checkpoint off d's chain are faulty, or off d's chain themselves.
  lemma MatchersFew(x: Setting, st: State, msgs: seq<StartMsg>, k: nat, d: Digest)
    requires x.Ok() && Proposed(x, st, msgs) && k < |msgs| && msgs[k].replicaId in x.byz
    requires !Compatible(msgs[k].log.checkpoint.logDigest, d)
    ensures |Matches(msgs, k)| <= x.cfg.f - 1 + |OffChain(x, st, d)|
  {
    var matches := Matches(msgs, k);
    var senders := SendersOf(msgs, matches);
    SendersSize(msgs, matches);
    var others := x.byz - {msgs[k].replicaId};
    forall r | r in senders ensures r in others || r in OffChain(x, st, d) {
      var i :| i in matches && msgs[i].replicaId == r;
      MatchingExtends(msgs[i].log, msgs[k].log.checkpoint);
      if Extends(Head(msgs[i].log), d) {
        PrefixesCompatible(Head(msgs[i].log), msgs[k].log.checkpoint.logDigest, d);
      }
    }
    SubsetSize(senders, others + OffChain(x, st, d));
  }

  // With f <= e + 1 the chosen checkpoint is compatible with what was acknowledged, although
  // nobody checks that it was committed.
  lemma CheckpointCompatible(x: Setting, w: World, steps: seq<Step>, msgs: seq<StartMsg>, k: nat, d: Digest)
    requires x.Guarded() && Sane(x, w) && Legal(x, steps) && Run(steps) == w.st
    requires Reported(x, w, msgs) && k < |msgs| && |Matches(msgs, k)| >= x.cfg.Matching()
    requires HasReplies(x, w.st, d) && x.cfg.f <= x.cfg.e + 1
    ensures Compatible(msgs[k].log.checkpoint.logDigest, d)
  {
    if msgs[k].replicaId in x.Correct() {
      CommittedCompatible(x, steps, msgs[k].log.checkpoint.logDigest, d);
    } else if !Compatible(msgs[k].log.checkpoint.logDigest, d) {
      FewOffChain(x, steps, d);
      MatchersFew(x, w.st, msgs, k, d);
    }
  }

  // ----- Survival

  // A log in the proposal that accounts for d, and a certificate's log that agrees with it, are
  // enough to keep d, whatever the number of strays.
  lemma AcknowledgedKept(cfg: Config, msgs: seq<StartMsg>, suffix: LogSuffix, d: Digest, i: nat)
    requires WellFormed(msgs) && i < |msgs| && Acknowledges(msgs[i].log, d)
    requires LogSuffixOf(cfg, msgs) == Some(suffix) && Compatible(suffix.checkpoint.logDigest, d)
    requires Height(d) <= suffix.checkpoint.seqNo || HolderAgrees(msgs, suffix.checkpoint.seqNo, d)
    ensures Keeps(suffix, d)
  {
    var ckSeq := suffix.checkpoint.seqNo;
    SuffixParts(cfg, msgs, suffix);
    assert ChainedLog(msgs[CheckpointChoice(msgs)].log);
    if ckSeq < Height(d) {
      CheckpointsBelow(msgs, ckSeq);
      CertAboveFollows(msgs, ckSeq, d, i);
      FollowsMore(UpToCert(msgs, ckSeq), AfterCert(cfg, msgs, ckSeq), ckSeq, d);
      FollowsMore(Ordered(cfg, msgs, ckSeq), Remaining(cfg, msgs, ckSeq), ckSeq, d);
    }
  }

  lemma FollowsMore(a: seq<ProtoEntry>, b: seq<ProtoEntry>, lo: nat, d: Digest)
    requires Follows(a, lo, d)
    ensures Follows(a + b, lo, d)
  {
  }

  lemma CertAboveFollows(msgs: seq<StartMsg>, ckSeq: nat, d: Digest, i: nat)
    requires WellFormed(msgs) && ChainedMsgs(msgs, ckSeq) && ckSeq < Height(d)
    requires i < |msgs| && msgs[i].log.cert.Some? && msgs[i].log.cert.value.seqNo >= Height(d)
    requires HolderAgrees(msgs, ckSeq, d)
    ensures Follows(UpToCert(msgs, ckSeq), ckSeq, d)
  {
    assert Certifies(msgs[i].log, ckSeq);
    UpToCertShows(msgs, ckSeq);
    var head := Head(Holder(msgs, ckSeq));
    UptoUpto(head, Min(CertSeq(msgs, ckSeq), Height(head)), Height(d));
    FollowsPrefix(UpToCert(msgs, ckSeq), ckSeq, Copied(msgs, ckSeq), d);
  }

  // Normal-path durability: in a round whose logs only grow, a certificate that a quorum
  // acknowledged is kept by every proposal of that round, if f <= e + 1 or the chosen checkpoint is
  // on its chain, and if the log of the chosen certificate agrees with it.
  lemma NormalCommitSurvivesRepair(x: Setting, w: World, d: Digest, msgs: seq<StartMsg>, suffix: LogSuffix)
    requires x.Ok() && Arises(x, w, false) && Acked(x, w, d)
    requires Reported(x, w, msgs) && |msgs| >= x.cfg.Quorum()
    requires LogSuffixOf(x.cfg, msgs) == Some(suffix)
    requires x.cfg.f <= x.cfg.e + 1 || Compatible(suffix.checkpoint.logDigest, d)
    requires Height(d) <= suffix.checkpoint.seqNo || HolderAgrees(msgs, suffix.checkpoint.seqNo, d)
    ensures Keeps(suffix, d)
  {
    var y := x.(check := FullCheck);
    ArisesAnyCheck(x, w, FullCheck);
    AcksRemembered(y, w, false);
    AckedReplied(y, w, d);
    var i := AckerInProposal(y, w, msgs, d);
    RememberedShown(w, msgs[i].replicaId, msgs[i].log, d);
    SuffixParts(x.cfg, msgs, suffix);
    if x.cfg.f <= x.cfg.e + 1 {
      var steps :| Legal(y, steps) && Run(steps) == w.st;
      CheckpointCompatible(y, w, steps, msgs, CheckpointChoice(msgs), d);
    }
    AcknowledgedKept(x.cfg, msgs, suffix, d, i);
  }

  // ----- Worlds that split

  // The world after the first k replicas took their turn in RoundTightness.SplitState, all with
  // the same committed checkpoint.
  function SplitWorld(x: Setting, off: set<nat>, d: Digest, other: Digest, ck: Digest, k: nat): World {
    World(SplitState(x, off, d, d, other, k), Assigned(x.byz, {}, ck, ck, k), map[], {})
  }

  lemma {:induction false} SplitArises(x: Setting, off: set<nat>, d: Digest, other: Digest, ck: Digest, k: nat)
    requires Splits(x, off, d, d, other) && Extends(x.base, ck) && k <= x.cfg.NumReplicas()
    ensures Arises(x, SplitWorld(x, off, d, other, ck, k), false)
  {
    if k == 0 {
      OutsetArises(x, false);
      assert SplitWorld(x, off, d, other, ck, 0) == Outset;
    } else {
      SplitArises(x, off, d, other, ck, k - 1);
      SplitMove(x, off, d, other, ck, k - 1);
    }
  }

  lemma SplitMove(x: Setting, off: set<nat>, d: Digest, other: Digest, ck: Digest, r: nat)
    requires Splits(x, off, d, d, other) && Extends(x.base, ck) && r < x.cfg.NumReplicas()
    requires Arises(x, SplitWorld(x, off, d, other, ck, r), false)
    ensures Arises(x, SplitWorld(x, off, d, other, ck, r + 1), false)
  {
    var w := SplitWorld(x, off, d, other, ck, r);
    var log := if r in off then other else d;
    NextTurn(x, off, d, d, other, r);
    NextCommitted(x, off, d, other, ck, r);
    var entered := if r in x.byz then w else Moved(w, Join(r, log, ck, None));
    if r !in x.byz {
      MoveArises(x, w, Join(r, log, ck, None), false);
    }
    if r !in off {
      MoveArises(x, entered, Plain(Reply(r, d)), false);
    }
  }

  lemma NextCommitted(x: Setting, off: set<nat>, d: Digest, other: Digest, ck: Digest, r: nat)
    ensures SplitWorld(x, off, d, other, ck, r + 1).committed ==
            var m := SplitWorld(x, off, d, other, ck, r).committed; if r in x.byz then m else m[r := ck]
  {
  }

  // All replicas in rs have acknowledged d.
  ghost predicate HaveAcked(x: Setting, w: World, v: World, d: Digest, rs: set<nat>) {
    && v.st == w.st && v.committed == w.committed
    && v.certs.Keys == rs - x.byz && (forall r :: r in v.certs ==> v.certs[r] == d)
    && v.acks == set r | r in rs :: (r, d)
  }

  lemma {:induction false} AckingArises(x: Setting, w: World, d: Digest, rs: set<nat>, aligning: bool)
    returns (v: World)
    requires Arises(x, w, aligning) && w.certs == map[] && w.acks == {}
    requires d.Link? && HasReplies(x, w.st, d) && w.committed.Keys <= x.Correct()
    requires forall r :: r in rs && r !in x.byz ==>
               r in w.st.logs && r in w.committed && Extends(w.st.logs[r], d) && Height(w.committed[r]) < Height(d)
    ensures Arises(x, v, aligning) && HaveAcked(x, w, v, d, rs)
    decreases rs
  {
    v := w;
    if rs != {} {
      var r :| r in rs;
      var before := AckingArises(x, w, d, rs - {r}, aligning);
      MoveArises(x, before, Certify(r, d), aligning);
      v := Moved(before, Certify(r, d));
      AckingMore(x, w, before, d, rs, r);
    }
  }

  lemma AckingMore(x: Setting, w: World, before: World, d: Digest, rs: set<nat>, r: nat)
    requires r in rs && w.committed.Keys <= x.Correct() && HaveAcked(x, w, before, d, rs - {r})
    requires r !in x.byz ==> r in w.committed && Height(w.committed[r]) < Height(d)
    ensures HaveAcked(x, w, Moved(before, Certify(r, d)), d, rs)
  {
    var after := Moved(before, Certify(r, d));
    assert (set i | i in rs :: (i, d)) == (set i | i in rs - {r} :: (i, d)) + {(r, d)};
    assert after.certs == if r in x.byz then before.certs else before.certs[r := d];
  }

  // All replicas in rs commit the digest that the round started from.
  function Committing(x: Setting, w: World, rs: set<nat>): World {
    w.(st := w.st.(commits := w.st.commits + set r | r in rs :: (r, x.base)))
  }

  lemma {:induction false} CommittingArises(x: Setting, w: World, rs: set<nat>)
    requires Arises(x, w, true) && rs <= w.st.logs.Keys
    ensures Arises(x, Committing(x, w, rs), true)
  {
    if rs == {} {
      assert Committing(x, w, rs).st.commits == w.st.commits;
    } else {
      var r :| r in rs;
      CommittingArises(x, w, rs - {r});
      var before := Committing(x, w, rs - {r});
      MoveArises(x, before, Plain(Commit(r, x.base)), true);
      assert Committing(x, w, rs).st.commits == before.st.commits + {(r, x.base)};
    }
  }

  // All replicas in rs have aligned to that digest, which their logs had already.
  ghost predicate HaveAligned(x: Setting, w: World, v: World, rs: set<nat>) {
    && v.st == w.st && v.acks == w.acks && (forall r :: r in v.certs ==> r in w.certs && r !in rs)
    && v.committed.Keys == w.committed.Keys
    && forall r :: r in w.committed ==> v.committed[r] == if r in rs then x.base else w.committed[r]
  }

  lemma {:induction false} AligningArises(x: Setting, w: World, rs: set<nat>) returns (v: World)
    requires Arises(x, w, true) && Checkpointed(x, w.st, x.base)
    requires forall r :: r in rs ==>
               r in w.st.logs && r in w.committed
               && Extends(w.st.logs[r], x.base) && Height(w.committed[r]) < Height(x.base)
    ensures Arises(x, v, true) && HaveAligned(x, w, v, rs)
    decreases rs
  {
    v := w;
    if rs != {} {
      var r :| r in rs;
      var before := AligningArises(x, w, rs - {r});
      AligningAllowed(x, w, before, rs - {r}, r);
      MoveArises(x, before, Realign(r, x.base, w.st.logs[r]), true);
      v := Moved(before, Realign(r, x.base, w.st.logs[r]));
      AligningMore(x, w, before, rs, r);
    }
  }

  lemma AligningAllowed(x: Setting, w: World, before: World, rs: set<nat>, r: nat)
    requires HaveAligned(x, w, before, rs) && r !in rs && Checkpointed(x, w.st, x.base)
    requires r in w.st.logs && r in w.committed
    requires Extends(w.st.logs[r], x.base) && Height(w.committed[r]) < Height(x.base)
    ensures Allowed(x, before, Realign(r, x.base, w.st.logs[r]))
  {
  }

  lemma AligningMore(x: Setting, w: World, before: World, rs: set<nat>, r: nat)
    requires HaveAligned(x, w, before, rs - {r}) && r in rs && r in w.st.logs && r in w.committed
    ensures HaveAligned(x, w, Moved(before, Realign(r, x.base, w.st.logs[r])), rs)
  {
    assert w.st.logs[r := w.st.logs[r]] == w.st.logs;
  }

}
