// The guarantees of a repair, end to end: what a client committed in a round is kept by every
// proposal that the replicas of that round can make, and the decided order does not depend on
// how the proposal happens to list the logs.

module RepairGuarantees {
  import opened Options
  import opened Digests
  import opened Quorums
  import opened ClientRecords
  import opened RepairSelection
  import opened RepairDurability
  import opened RoundSteps
  import opened RoundSafety

  // ----- From a round to a proposal

  // A proposal built from start messages of this round: correct replicas report their own log.
  ghost predicate Proposed(x: Setting, st: State, msgs: seq<StartMsg>) {
    && WellFormed(msgs)
    && (forall i :: 0 <= i < |msgs| ==> msgs[i].replicaId < x.cfg.NumReplicas())
    && (forall i :: 0 <= i < |msgs| && msgs[i].replicaId in x.Correct() ==>
          msgs[i].replicaId in st.logs && Head(msgs[i].log) == st.logs[msgs[i].replicaId])
  }

  // The certificate of a log was collected in this round.
  ghost predicate CertOfRound(x: Setting, st: State, log: RepairLog) {
    log.cert.Some? ==>
      QuorumReplied(x, st, log.cert.value.digest) || Certified(x, st, log.cert.value.digest)
  }

  // A proposal in which, moreover, every certificate was collected in this round and is for an
  // entry of the log it comes with.  The source checks neither (replica.cc:2092-2139).
  ghost predicate FromRound(x: Setting, st: State, msgs: seq<StartMsg>) {
    && Proposed(x, st, msgs)
    && forall i :: 0 <= i < |msgs| ==> CertInLog(msgs[i].log) && CertOfRound(x, st, msgs[i].log)
  }

  ghost function SendersOf(msgs: seq<StartMsg>, s: set<nat>): set<nat>
    requires forall i :: i in s ==> i < |msgs|
  {
    set i | i in s :: msgs[i].replicaId
  }

  lemma {:induction false} SendersSize(msgs: seq<StartMsg>, s: set<nat>)
    requires forall i :: i in s ==> i < |msgs|
    requires forall i, j :: 0 <= i < j < |msgs| ==> msgs[i].replicaId != msgs[j].replicaId
    ensures |SendersOf(msgs, s)| == |s|
    decreases |s|
  {
    if s != {} {
      var i :| i in s;
      SendersSize(msgs, s - {i});
      assert SendersOf(msgs, s) == SendersOf(msgs, s - {i}) + {msgs[i].replicaId};
      assert msgs[i].replicaId !in SendersOf(msgs, s - {i});
    }
  }

  // Only faulty replicas and replicas off d's chain report logs that stray from d.
  lemma StraysBound(x: Setting, st: State, msgs: seq<StartMsg>, d: Digest)
    requires x.Ok() && Proposed(x, st, msgs)
    ensures |Strays(msgs, d)| <= x.cfg.f + |OffChain(x, st, d)|
  {
    var strays := Strays(msgs, d);
    var senders := SendersOf(msgs, strays);
    SendersSize(msgs, strays);
    forall r | r in senders ensures r in x.byz || r in OffChain(x, st, d) {
      var i :| i in strays && msgs[i].replicaId == r;
    }
    SubsetSize(senders, x.byz + OffChain(x, st, d));
  }

  // In such a proposal the log of the chosen certificate agrees with everything decided.
  lemma RoundCertsAgree(x: Setting, steps: seq<Step>, msgs: seq<StartMsg>, ckSeq: nat, d: Digest)
    requires x.Guarded() && Legal(x, steps) && FromRound(x, Run(steps), msgs) && ChainedMsgs(msgs, ckSeq)
    requires Decided(x, Run(steps), d)
    ensures HolderAgrees(msgs, ckSeq, d)
  {
    if CertChoice(msgs, ckSeq).Some? {
      RoundIsSafe(x, steps, Holder(msgs, ckSeq).cert.value.digest, d);
      CertInLogAgrees(msgs, ckSeq, d);
    }
  }

  // What a superquorum replied strays from few start messages, and with e >= f so does what a
  // quorum replied.
  lemma FewStray(x: Setting, steps: seq<Step>, msgs: seq<StartMsg>, d: Digest)
    requires x.Guarded() && Legal(x, steps) && Proposed(x, Run(steps), msgs)
    requires Certified(x, Run(steps), d) || (QuorumReplied(x, Run(steps), d) && x.cfg.e >= x.cfg.f)
    ensures |Strays(msgs, d)| <= x.cfg.f + x.cfg.e
  {
    FewOffChain(x, steps, d);
    StraysBound(x, Run(steps), msgs, d);
  }

  // Fast-path durability: whatever a client committed on the fast path, in any run of a round,
  // is kept by the suffix of every proposal of at least a quorum of start messages of that run,
  // if the log of the chosen certificate agrees with it, and only then if that log goes as far
  // as its certificate.
  lemma FastCommitSurvivesRepair(
    x: Setting, steps: seq<Step>, d: Digest, msgs: seq<StartMsg>, suffix: LogSuffix)
    requires x.Guarded() && Legal(x, steps)
    requires Certified(x, Run(steps), d)
    requires Proposed(x, Run(steps), msgs) && |msgs| >= x.cfg.Quorum()
    requires LogSuffixOf(x.cfg, msgs) == Some(suffix)
    ensures Height(d) <= suffix.checkpoint.seqNo || HolderAgrees(msgs, suffix.checkpoint.seqNo, d) ==>
              Keeps(suffix, d)
    ensures Keeps(suffix, d) && HolderReaches(msgs, suffix.checkpoint.seqNo, d) ==>
              Height(d) <= suffix.checkpoint.seqNo || HolderAgrees(msgs, suffix.checkpoint.seqNo, d)
  {
    FewStray(x, steps, msgs, d);
    FewStraysKept(x.cfg, msgs, suffix, d);
  }

  // With e >= f, a quorum of matching replies is already enough.
  lemma QuorumReplySurvivesRepair(
    x: Setting, steps: seq<Step>, d: Digest, msgs: seq<StartMsg>, suffix: LogSuffix)
    requires x.Guarded() && Legal(x, steps) && x.cfg.e >= x.cfg.f
    requires QuorumReplied(x, Run(steps), d)
    requires Proposed(x, Run(steps), msgs) && |msgs| >= x.cfg.Quorum()
    requires LogSuffixOf(x.cfg, msgs) == Some(suffix)
    ensures Height(d) <= suffix.checkpoint.seqNo || HolderAgrees(msgs, suffix.checkpoint.seqNo, d) ==>
              Keeps(suffix, d)
    ensures Keeps(suffix, d) && HolderReaches(msgs, suffix.checkpoint.seqNo, d) ==>
              Height(d) <= suffix.checkpoint.seqNo || HolderAgrees(msgs, suffix.checkpoint.seqNo, d)
  {
    FewStray(x, steps, msgs, d);
    FewStraysKept(x.cfg, msgs, suffix, d);
  }

  // So a proposal whose certificates are all of the round and for entries of their own logs
  // keeps both.
  lemma RoundProposalKeeps(x: Setting, steps: seq<Step>, d: Digest, msgs: seq<StartMsg>, suffix: LogSuffix)
    requires x.Guarded() && Legal(x, steps)
    requires Certified(x, Run(steps), d) || (QuorumReplied(x, Run(steps), d) && x.cfg.e >= x.cfg.f)
    requires FromRound(x, Run(steps), msgs) && |msgs| >= x.cfg.Quorum()
    requires LogSuffixOf(x.cfg, msgs) == Some(suffix)
    ensures Keeps(suffix, d)
  {
    SuffixParts(x.cfg, msgs, suffix);
    CheckpointsBelow(msgs, suffix.checkpoint.seqNo);
    RoundCertsAgree(x, steps, msgs, suffix.checkpoint.seqNo, d);
    FewStray(x, steps, msgs, d);
    FewStraysKept(x.cfg, msgs, suffix, d);
  }

  // ----- One chain

  // The decided order is the history of tip above the checkpoint.
  ghost predicate OrderedAs(cfg: Config, msgs: seq<StartMsg>, ckSeq: nat, tip: Digest)
    requires msgs != []
  {
    Follows(Ordered(cfg, msgs, ckSeq), ckSeq, tip) && Height(tip) == ckSeq + |Ordered(cfg, msgs, ckSeq)|
  }

  // The decided order is one chain, and that chain is a prefix of log i.
  ghost predicate OrderedFrom(cfg: Config, msgs: seq<StartMsg>, ckSeq: nat, tip: Digest, i: nat)
    requires msgs != []
  {
    OrderedAs(cfg, msgs, ckSeq, tip) && i < |msgs| && Extends(Head(msgs[i].log), tip)
  }

  // The entries above the certificate, if there are any, continue the log that it came with.
  ghost predicate OneBranch(cfg: Config, msgs: seq<StartMsg>, ckSeq: nat)
    requires msgs != []
  {
    Decider(cfg, msgs, ckSeq).Some? ==> HolderAgrees(msgs, ckSeq, Decider(cfg, msgs, ckSeq).value.1.digest)
  }

  // The decided order is one history exactly then.
  lemma OneChainIff(cfg: Config, msgs: seq<StartMsg>, suffix: LogSuffix)
    requires WellFormed(msgs) && LogSuffixOf(cfg, msgs) == Some(suffix)
    ensures OneBranch(cfg, msgs, suffix.checkpoint.seqNo) <==>
            exists tip :: OrderedAs(cfg, msgs, suffix.checkpoint.seqNo, tip)
    ensures OneBranch(cfg, msgs, suffix.checkpoint.seqNo) ==>
              exists tip: Digest, i: nat :: OrderedFrom(cfg, msgs, suffix.checkpoint.seqNo, tip, i)
  {
    SuffixParts(cfg, msgs, suffix);
    CheckpointsBelow(msgs, suffix.checkpoint.seqNo);
    HeadOfLog(msgs[CheckpointChoice(msgs)].log);
    if OneBranch(cfg, msgs, suffix.checkpoint.seqNo) {
      OneChainFrom(cfg, msgs, suffix.checkpoint, CheckpointChoice(msgs));
    }
    OneBranchIff(cfg, msgs, suffix.checkpoint, CheckpointChoice(msgs));
  }

  lemma OneBranchIff(cfg: Config, msgs: seq<StartMsg>, ck: Checkpoint, k: nat)
    requires WellFormed(msgs) && ChainedMsgs(msgs, ck.seqNo)
    requires k < |msgs| && Height(ck.logDigest) == ck.seqNo && Extends(Head(msgs[k].log), ck.logDigest)
    ensures OneBranch(cfg, msgs, ck.seqNo) <==> exists tip :: OrderedAs(cfg, msgs, ck.seqNo, tip)
  {
    if OneBranch(cfg, msgs, ck.seqNo) {
      OneChainFrom(cfg, msgs, ck, k);
      var tip: Digest, i: nat :| OrderedFrom(cfg, msgs, ck.seqNo, tip, i);
      assert OrderedAs(cfg, msgs, ck.seqNo, tip);
    }
    forall tip | OrderedAs(cfg, msgs, ck.seqNo, tip) ensures OneBranch(cfg, msgs, ck.seqNo) {
      ChainIsOneBranch(cfg, msgs, ck.seqNo, tip);
    }
  }

  lemma OneChainFrom(cfg: Config, msgs: seq<StartMsg>, ck: Checkpoint, k: nat)
    requires WellFormed(msgs) && ChainedMsgs(msgs, ck.seqNo) && OneBranch(cfg, msgs, ck.seqNo)
    requires k < |msgs| && Height(ck.logDigest) == ck.seqNo && Extends(Head(msgs[k].log), ck.logDigest)
    ensures exists tip: Digest, i: nat :: OrderedFrom(cfg, msgs, ck.seqNo, tip, i)
  {
    var ckSeq := ck.seqNo;
    UpToCertShows(msgs, ckSeq);
    AfterCertFollows(cfg, msgs, ckSeq);
    var w := Decider(cfg, msgs, ckSeq);
    if w.Some? {
      OneChainToWinner(cfg, msgs, ckSeq, w.value.0, w.value.1.digest);
    } else {
      assert Ordered(cfg, msgs, ckSeq) == UpToCert(msgs, ckSeq);
      if UpToCert(msgs, ckSeq) == [] {
        assert OrderedFrom(cfg, msgs, ckSeq, ck.logDigest, k);
      } else {
        UptoExtended(Head(Holder(msgs, ckSeq)), Height(Copied(msgs, ckSeq)));
        assert OrderedFrom(cfg, msgs, ckSeq, Copied(msgs, ckSeq), CertIdx(msgs, ckSeq));
      }
    }
  }

  lemma OneChainToWinner(cfg: Config, msgs: seq<StartMsg>, ckSeq: nat, i: nat, tip: Digest)
    requires WellFormed(msgs) && ChainedMsgs(msgs, ckSeq) && OneBranch(cfg, msgs, ckSeq)
    requires Decider(cfg, msgs, ckSeq).Some?
    requires Decider(cfg, msgs, ckSeq).value.0 == i && Decider(cfg, msgs, ckSeq).value.1.digest == tip
    ensures OrderedFrom(cfg, msgs, ckSeq, tip, i)
  {
    var floor := ScanFloor(msgs, ckSeq);
    UpToCertShows(msgs, ckSeq);
    AfterCertFollows(cfg, msgs, ckSeq);
    WinnerSupported(msgs, floor, cfg.Matching());
    var a, b := UpToCert(msgs, ckSeq), AfterCert(cfg, msgs, ckSeq);
    if CertChoice(msgs, ckSeq).Some? {
      assert Copied(msgs, ckSeq) == Upto(tip, floor);
      UptoExtended(tip, floor);
      FollowsConcat(a, b, ckSeq, floor, Upto(tip, floor), tip);
    } else {
      assert a + b == b;
    }
  }

  // If the decided order is one history, the entries above the certificate continue its log.
  lemma ChainIsOneBranch(cfg: Config, msgs: seq<StartMsg>, ckSeq: nat, tip: Digest)
    requires WellFormed(msgs) && ChainedMsgs(msgs, ckSeq) && OrderedAs(cfg, msgs, ckSeq, tip)
    ensures OneBranch(cfg, msgs, ckSeq)
  {
    var w := Decider(cfg, msgs, ckSeq);
    if w.Some? && CertChoice(msgs, ckSeq).Some? {
      UpToCertShows(msgs, ckSeq);
      AfterCertFollows(cfg, msgs, ckSeq);
      WinnerSupported(msgs, ScanFloor(msgs, ckSeq), cfg.Matching());
      OrderedReaches(cfg, msgs, ckSeq, tip);
      LastOrdered(cfg, msgs, ckSeq, tip);
      KeptAgrees(msgs, ckSeq, Ordered(cfg, msgs, ckSeq), tip);
    }
  }

  // A history that the whole decided order follows is the winner's.
  lemma {:induction false} LastOrdered(cfg: Config, msgs: seq<StartMsg>, ckSeq: nat, tip: Digest)
    requires WellFormed(msgs) && ChainedMsgs(msgs, ckSeq) && OrderedAs(cfg, msgs, ckSeq, tip)
    requires Decider(cfg, msgs, ckSeq).Some?
    ensures ckSeq < Height(tip) && tip == Decider(cfg, msgs, ckSeq).value.1.digest
  {
    AfterCertFollows(cfg, msgs, ckSeq);
    WinnerSupported(msgs, ScanFloor(msgs, ckSeq), cfg.Matching());
    var b, order := AfterCert(cfg, msgs, ckSeq), Ordered(cfg, msgs, ckSeq);
    LastFollows(b, ScanFloor(msgs, ckSeq), Decider(cfg, msgs, ckSeq).value.1.digest);
    LastFollows(order, ckSeq, tip);
    assert order[|order| - 1] == b[|b| - 1];
  }

  // The certificate the suffix is built on, if any, has few strays.
  ghost predicate CertSupported(cfg: Config, msgs: seq<StartMsg>, ckSeq: nat) {
    CertChoice(msgs, ckSeq).Some? ==>
      |Strays(msgs, msgs[CertChoice(msgs, ckSeq).value].log.cert.value.digest)| <= cfg.f + cfg.e
  }

  // If the certificate has few strays and is for an entry of its own log, the entries after it
  // continue its chain.
  lemma SupportedOneBranch(cfg: Config, msgs: seq<StartMsg>, ckSeq: nat)
    requires WellFormed(msgs) && ChainedMsgs(msgs, ckSeq) && CertInLog(Holder(msgs, ckSeq))
    requires CertSupported(cfg, msgs, ckSeq)
    ensures OneBranch(cfg, msgs, ckSeq)
  {
    var c := CertChoice(msgs, ckSeq);
    var w := Decider(cfg, msgs, ckSeq);
    if c.Some? && w.Some? {
      var cert, tip := msgs[c.value].log.cert.value.digest, w.value.1.digest;
      WinnerSupported(msgs, ScanFloor(msgs, ckSeq), cfg.Matching());
      var j := MeetHolder(msgs, Holders(msgs, tip), cert);
      PrefixesCompatible(Head(msgs[j].log), tip, cert);
      CertInLogAgrees(msgs, ckSeq, tip);
    }
  }

  // A certificate of the round always has few strays if e >= f.
  lemma CertSupportedWhenEnoughSpares(x: Setting, steps: seq<Step>, msgs: seq<StartMsg>, ckSeq: nat)
    requires x.Guarded() && Legal(x, steps) && Proposed(x, Run(steps), msgs) && x.cfg.e >= x.cfg.f
    requires forall i :: 0 <= i < |msgs| ==> CertOfRound(x, Run(steps), msgs[i].log)
    ensures CertSupported(x.cfg, msgs, ckSeq)
  {
    var c := CertChoice(msgs, ckSeq);
    if c.Some? {
      var d := msgs[c.value].log.cert.value.digest;
      FewStray(x, steps, msgs, d);
    }
  }
}
