// Exactly when a repair keeps what was committed on the normal path: with logs that only grow it
// takes f <= e + 1, and with alignments f <= e.  The runs that show it have all certificates of
// the round and for entries of their own logs.

module RepairNormalLimits {
  import opened Options
  import opened Digests
  import opened Quorums
  import opened ClientRecords
  import opened RepairSelection
  import opened RepairDurability
  import opened RoundSteps
  import opened RoundSafety
  import opened RoundTightness
  import opened RoundForgery
  import opened RoundCerts
  import opened RepairGuarantees
  import opened RepairBranches
  import opened RepairNormal

  // Everyone but the leavers acknowledges d.
  function Staying(cfg: Config): set<nat> {
    Replicas(cfg.NumReplicas()) - Leavers(cfg)
  }

  lemma SplitSizes(cfg: Config)
    ensures |SplitSetting(cfg).byz| == cfg.f && |Leavers(cfg)| == cfg.f && |Staying(cfg)| == cfg.Quorum()
    ensures Leavers(cfg) <= SplitSetting(cfg).Correct()
  {
    RangeSize(2 * cfg.e + 1 + cfg.f, 2 * cfg.e + 1 + 2 * cfg.f, SplitSetting(cfg).byz);
    RangeSize(2 * cfg.e + 1, 2 * cfg.e + 1 + cfg.f, Leavers(cfg));
    SubsetSize(Leavers(cfg), Replicas(cfg.NumReplicas()));
  }

  // The replicas of a split world acknowledge d.
  lemma AckedWorld(x: Setting, cfg: Config, d: Digest, other: Digest, ck: Digest, aligning: bool) returns (w: World)
    requires x == SplitSetting(cfg).(base := x.base) && d.Link?
    requires Splits(x, Leavers(cfg), d, d, other) && Extends(x.base, ck) && Height(ck) < Height(d)
    ensures HaveAcked(x, SplitWorld(x, Leavers(cfg), d, other, ck, cfg.NumReplicas()), w, d, Staying(cfg))
    ensures x.Ok() && Arises(x, w, aligning) && Acked(x, w, d) && QuorumReplied(x, w.st, d)
  {
    var n := cfg.NumReplicas();
    var before := SplitWorld(x, Leavers(cfg), d, other, ck, n);
    SplitSizes(cfg);
    SplitArises(x, Leavers(cfg), d, other, ck, n);
    ArisesAnyway(x, before, aligning);
    SplitMeaning(x, Leavers(cfg), d, d, other);
    UptoExtended(d, Height(d));
    w := AckingArises(x, before, d, Staying(cfg), aligning);
    forall r | r in Staying(cfg) ensures r in Ackers(w, d) {
      assert (r, d) in w.acks;
    }
    SubsetSize(Staying(cfg), Ackers(w, d));
  }

  lemma ArisesAnyway(x: Setting, w: World, aligning: bool)
    requires Arises(x, w, false)
    ensures Arises(x, w, aligning)
  {
    var moves :| Lawful(x, moves, false) && WorldOf(moves) == w;
    LawfulAnyway(x, moves, aligning);
  }

  lemma {:induction false} LawfulAnyway(x: Setting, moves: seq<Move>, aligning: bool)
    requires Lawful(x, moves, false)
    ensures Lawful(x, moves, aligning)
  {
    if moves != [] {
      LawfulAnyway(x, moves[..|moves| - 1], aligning);
    }
  }

  // ----- A checkpoint that nobody committed

  const LogHigh := RepairLog(Checkpoint(2, ZThenW, NoRecord), [], None)

  // 2e + 1 logs with y and its certificate, and 2f with the other branch; one of them is from a
  // faulty replica that shows the branch as its committed checkpoint.
  function HighProposal(cfg: Config): seq<StartMsg> {
    seq(cfg.Quorum(), i requires 0 <= i < cfg.Quorum() =>
      StartMsg(i, if i < 2 * cfg.e + 1 then LogY else if i == 2 * cfg.e + 1 + cfg.f then LogHigh else LogZW))
  }

  lemma HighLogs()
    ensures ChainedLog(LogHigh) && CertInLog(LogHigh) && Head(LogHigh) == ZThenW
    ensures Height(OnlyY) == 1 && Extends(OnlyY, Genesis) && Extends(ZThenW, Genesis)
    ensures MatchesCheckpoint(LogZW, LogHigh.checkpoint) && !MatchesCheckpoint(LogY, LogHigh.checkpoint)
    ensures !Compatible(ZThenW, OnlyY)
  {
    SplitLogs();
  }

  lemma HighDecides(cfg: Config)
    requires cfg.f >= cfg.e + 2
    ensures var s := LogSuffixOf(cfg, HighProposal(cfg));
            s.Some? && s.value.checkpoint == LogHigh.checkpoint
  {
    var msgs := HighProposal(cfg);
    var h := 2 * cfg.e + 1 + cfg.f;
    HighLogs();
    assert msgs[h].log == LogHigh;
    assert CheckpointChoice(msgs) == h;
    var upper := Replicas(|msgs|) - Replicas(2 * cfg.e + 1);
    RangeSize(2 * cfg.e + 1, |msgs|, upper);
    assert Matches(msgs, h) == upper - {h};
  }

  // What start message i shows is what replica i holds.
  lemma HighShown(cfg: Config, w: World, i: nat)
    requires HaveAcked(SplitSetting(cfg),
               SplitWorld(SplitSetting(cfg), Leavers(cfg), OnlyY, ZThenW, Genesis, cfg.NumReplicas()),
               w, OnlyY, Staying(cfg))
    requires i < cfg.Quorum() && i in SplitSetting(cfg).Correct()
    ensures var log := HighProposal(cfg)[i].log;
            i in w.st.logs && Head(log) == w.st.logs[i] && Shows(w, i, log)
  {
    HighLogs();
    SplitLogs();
  }

  lemma HighReported(cfg: Config, check: Check) returns (x: Setting, w: World)
    requires cfg.f >= 1
    ensures x.cfg == cfg && x.check == check && x.Ok() && Arises(x, w, false) && Acked(x, w, OnlyY)
    ensures Reported(x, w, HighProposal(cfg)) && FromRound(x, w.st, HighProposal(cfg))
  {
    var y := SplitSetting(cfg);
    HighSplits(cfg);
    w := AckedWorld(y, cfg, OnlyY, ZThenW, Genesis, false);
    x := y.(check := check);
    assert x.Correct() == y.Correct();
    ArisesAnyCheck(y, w, check);
    HighCerts(cfg, x, w.st);
    forall i | 0 <= i < cfg.Quorum() && i in x.Correct()
      ensures i in w.st.logs && Head(HighProposal(cfg)[i].log) == w.st.logs[i] && Shows(w, i, HighProposal(cfg)[i].log)
    {
      HighShown(cfg, w, i);
    }
  }

  lemma HighSplits(cfg: Config)
    ensures Splits(SplitSetting(cfg), Leavers(cfg), OnlyY, OnlyY, ZThenW) && Height(OnlyY) == 1
  {
    SplitLogs();
    HighLogs();
    SplitSizes(cfg);
  }

  lemma HighCerts(cfg: Config, x: Setting, st: State)
    requires x.cfg == cfg && QuorumReplied(x, st, OnlyY)
    ensures WellFormed(HighProposal(cfg))
    ensures forall i :: 0 <= i < cfg.Quorum() ==>
              CertInLog(HighProposal(cfg)[i].log) && CertOfRound(x, st, HighProposal(cfg)[i].log)
  {
    SplitLogs();
    HighLogs();
  }

  // ----- Certificates dropped by an alignment

  const OnlyB := Next(Genesis, RequestId(9, 1), Increment)
  const BThenY := Next(OnlyB, RequestId(1, 1), Increment)
  const BThenZ := Next(OnlyB, RequestId(2, 1), Increment)
  const BThenZW := Next(BThenZ, RequestId(3, 1), Increment)

  const CheckpointB := Checkpoint(1, OnlyB, RecordOf(OnlyB))
  const LogBY := RepairLog(CheckpointB, [EntryOf(BThenY)], None)
  const LogBZW := RepairLog(CheckpointB, [EntryOf(BThenZ), EntryOf(BThenZW)], None)

  // As before, on top of b; but the certificates for y are gone.
  function DroppedProposal(cfg: Config): seq<StartMsg> {
    seq(cfg.Quorum(), i requires 0 <= i < cfg.Quorum() => StartMsg(i, if i < 2 * cfg.e + 1 then LogBY else LogBZW))
  }

  lemma DroppedLogs()
    ensures ChainedLog(LogBY) && CertInLog(LogBY) && Head(LogBY) == BThenY
    ensures ChainedLog(LogBZW) && CertInLog(LogBZW) && Head(LogBZW) == BThenZW
    ensures Height(OnlyB) == 1 && Height(BThenY) == 2 && Height(BThenZW) == 3
    ensures Extends(OnlyB, Genesis) && Extends(BThenY, OnlyB) && Extends(BThenZW, OnlyB)
    ensures Extends(BThenZW, BThenZ) && !Extends(BThenZW, BThenY) && !Extends(BThenY, BThenZW)
  {
    assert EntryChained(LogBY, 0);
    assert EntryChained(LogBZW, 0) && EntryChained(LogBZW, 1);
    assert Upto(BThenZW, 2) == BThenZ;
    assert Upto(BThenZW, 1) == OnlyB;
    assert Upto(OnlyB, 0) == Genesis;
  }

  // Everyone but the leavers acknowledged y, and then all correct replicas aligned to b.
  ghost predicate IsDropped(cfg: Config, x: Setting, w: World) {
    && w.st.logs == Assigned(x.byz, Leavers(cfg), BThenY, BThenZW, cfg.NumReplicas())
    && w.committed.Keys == x.Correct() && (forall r :: r in w.committed ==> w.committed[r] == OnlyB)
    && (forall r :: r in w.certs ==> r !in x.Correct())
  }

  // All correct replicas commit b, and then align to it.
  lemma DroppedArises(cfg: Config, x: Setting, acked: World) returns (w: World)
    requires x.Ok() && x.base == OnlyB && Arises(x, acked, true)
    requires acked.st.logs == Assigned(x.byz, Leavers(cfg), BThenY, BThenZW, cfg.NumReplicas())
    requires acked.st.logs.Keys == x.Correct() == acked.committed.Keys
    requires forall r :: r in x.Correct() ==>
               Extends(acked.st.logs[r], x.base) && Height(acked.committed[r]) < Height(x.base)
    ensures Arises(x, w, true) && w.acks == acked.acks && IsDropped(cfg, x, w)
  {
    CommittingArises(x, acked, x.Correct());
    BaseCheckpointed(x, acked);
    w := AligningArises(x, Committing(x, acked, x.Correct()), x.Correct());
  }

  lemma DroppedShown(cfg: Config, x: Setting, w: World, i: nat)
    requires x == SplitSetting(cfg).(base := OnlyB) && IsDropped(cfg, x, w)
    requires i < cfg.Quorum() && i in x.Correct()
    ensures IsShown(w, i, DroppedProposal(cfg)[i].log)
  {
    DroppedLogs();
  }

  lemma DroppedReported(cfg: Config) returns (x: Setting, w: World)
    requires cfg.f >= 1
    ensures x.cfg == cfg && x.check == FullCheck && x.Ok() && Arises(x, w, true) && Acked(x, w, BThenY)
    ensures Reported(x, w, DroppedProposal(cfg)) && FromRound(x, w.st, DroppedProposal(cfg))
  {
    x := SplitSetting(cfg).(base := OnlyB);
    DroppedSplits(cfg);
    var acked := AckedWorld(x, cfg, BThenY, BThenZW, Genesis, true);
    AckedParts(cfg, x, acked);
    w := DroppedArises(cfg, x, acked);
    assert Ackers(w, BThenY) == Ackers(acked, BThenY);
    forall i | i < cfg.Quorum() && i in x.Correct() ensures IsShown(w, i, DroppedProposal(cfg)[i].log) {
      DroppedShown(cfg, x, w, i);
    }
    DroppedFits(cfg, x, w);
  }

  // Replica i reports this log.
  ghost predicate IsShown(w: World, i: nat, log: RepairLog) {
    i in w.st.logs && Head(log) == w.st.logs[i] && Shows(w, i, log)
  }

  lemma DroppedFits(cfg: Config, x: Setting, w: World)
    requires x.cfg == cfg
    requires forall i :: i < cfg.Quorum() && i in x.Correct() ==> IsShown(w, i, DroppedProposal(cfg)[i].log)
    ensures Reported(x, w, DroppedProposal(cfg)) && FromRound(x, w.st, DroppedProposal(cfg))
  {
    DroppedCerts(cfg, x, w.st);
  }

  lemma DroppedSplits(cfg: Config)
    ensures Splits(SplitSetting(cfg).(base := OnlyB), Leavers(cfg), BThenY, BThenY, BThenZW)
    ensures Height(BThenY) == 2 && Extends(OnlyB, Genesis)
  {
    DroppedLogs();
    SplitSizes(cfg);
    UptoExtended(BThenY, 2);
  }

  lemma AckedParts(cfg: Config, x: Setting, w: World)
    requires x == SplitSetting(cfg).(base := OnlyB)
    requires HaveAcked(
               x, SplitWorld(x, Leavers(cfg), BThenY, BThenZW, Genesis, cfg.NumReplicas()), w, BThenY, Staying(cfg))
    ensures w.st.logs == Assigned(x.byz, Leavers(cfg), BThenY, BThenZW, cfg.NumReplicas())
    ensures w.st.logs.Keys == x.Correct() == w.committed.Keys
    ensures forall r :: r in x.Correct() ==> Extends(w.st.logs[r], x.base) && Height(w.committed[r]) < Height(x.base)
  {
    DroppedLogs();
  }

  lemma DroppedCerts(cfg: Config, x: Setting, st: State)
    requires x.cfg == cfg
    ensures WellFormed(DroppedProposal(cfg))
    ensures forall i :: 0 <= i < cfg.Quorum() ==>
              CertInLog(DroppedProposal(cfg)[i].log) && CertOfRound(x, st, DroppedProposal(cfg)[i].log)
  {
    DroppedLogs();
  }

  lemma BaseCheckpointed(x: Setting, w: World)
    requires x.Ok()
    ensures Checkpointed(x, Committing(x, w, x.Correct()).st, x.base)
  {
    CorrectSize(x);
    var st := Committing(x, w, x.Correct()).st;
    forall r | r in x.Correct() ensures r in Committers(st, x.base) {
      assert (r, x.base) in st.commits;
    }
    SubsetSize(x.Correct(), Committers(st, x.base));
  }

  lemma DroppedDecides(cfg: Config)
    requires cfg.f >= cfg.e + 1
    ensures var s := LogSuffixOf(cfg, DroppedProposal(cfg));
            s.Some? && !Keeps(s.value, BThenY)
  {
    var msgs := DroppedProposal(cfg);
    SameCheckpointDecides(cfg, msgs, CheckpointB);
    var s := LogSuffixOf(cfg, msgs).value;
    SuffixParts(cfg, msgs, s);
    DroppedOrder(cfg);
    DroppedLogs();
    assert s.entries[0] == Ordered(cfg, msgs, 1)[0];
  }

  lemma DroppedOrder(cfg: Config)
    requires cfg.f >= cfg.e + 1
    ensures var order := Ordered(cfg, DroppedProposal(cfg), 1);
            order != [] && order[0].digest == BThenZ
  {
    var msgs := DroppedProposal(cfg);
    DroppedLogs();
    assert WellFormed(msgs);
    UpToCertShows(msgs, 1);
    AfterCertFollows(cfg, msgs, 1);
    RangeSize(2 * cfg.e + 1, |msgs|, Holders(msgs, BThenZW));
    ScanFindsLongest(cfg, msgs, 1, BThenZW);
    var tip := Decider(cfg, msgs, 1).value.1.digest;
    UptoPrefix(tip, BThenZW, 2);
    assert Ordered(cfg, msgs, 1) == AfterCert(cfg, msgs, 1);
  }

  // ----- Exactly when

  // In every round, with or without alignments, every proposal whose certificates are all of the
  // round and for entries of their own logs keeps what a quorum acknowledged.
  ghost predicate NormalKept(cfg: Config, aligning: bool, check: Check) {
    forall x: Setting, w: World, d: Digest, msgs: seq<StartMsg>, suffix: LogSuffix ::
      x.cfg == cfg && x.check == check && x.Ok() && Arises(x, w, aligning) && Acked(x, w, d)
      && Reported(x, w, msgs) && FromRound(x, w.st, msgs) && |msgs| >= cfg.Quorum()
      && LogSuffixOf(cfg, msgs) == Some(suffix) ==>
        Keeps(suffix, d)
  }

  // Exactly when NormalCommitSurvivesRepair can do without its premises: the one on the chosen
  // checkpoint if and only if f <= e + 1, and the one that logs only grow if and only if f <= e.
  lemma CheckedNormalKeptIff(cfg: Config, check: Check)
    ensures NormalKept(cfg, false, check) <==> cfg.f <= cfg.e + 1
    ensures Suffices(cfg, check) ==> (NormalKept(cfg, true, check) <==> cfg.f <= cfg.e)
  {
    NormalKeptIf(cfg, check);
    if cfg.f > cfg.e + 1 {
      var x, w := HighReported(cfg, check);
      HighDecides(cfg);
      HighLogs();
      NotKept(x, w, false, OnlyY, HighProposal(cfg), LogSuffixOf(cfg, HighProposal(cfg)).value);
    }
    if cfg.f > cfg.e && Suffices(cfg, check) {
      var x, w := DroppedReported(cfg);
      DroppedDecides(cfg);
      NotKept(x, w, true, BThenY, DroppedProposal(cfg), LogSuffixOf(cfg, DroppedProposal(cfg)).value);
    }
  }

  lemma NotKept(x: Setting, w: World, aligning: bool, d: Digest, msgs: seq<StartMsg>, suffix: LogSuffix)
    requires x.Ok() && Arises(x, w, aligning) && Acked(x, w, d)
    requires Reported(x, w, msgs) && FromRound(x, w.st, msgs) && |msgs| >= x.cfg.Quorum()
    requires LogSuffixOf(x.cfg, msgs) == Some(suffix) && !Keeps(suffix, d)
    ensures !NormalKept(x.cfg, aligning, x.check)
  {
  }

  lemma NormalKeptIf(cfg: Config, check: Check)
    ensures cfg.f <= cfg.e + 1 ==> NormalKept(cfg, false, check)
    ensures cfg.f <= cfg.e && Suffices(cfg, check) ==> NormalKept(cfg, true, check)
  {
    if cfg.f <= cfg.e + 1 {
      KeptGrowing(cfg, check);
    }
    if cfg.f <= cfg.e && Suffices(cfg, check) {
      KeptAligning(cfg, check);
    }
  }

  lemma {:induction false} KeptGrowing(cfg: Config, check: Check)
    requires cfg.f <= cfg.e + 1
    ensures NormalKept(cfg, false, check)
  {
    forall x: Setting, w: World, d: Digest, msgs: seq<StartMsg>, suffix: LogSuffix |
      x.cfg == cfg && x.check == check && x.Ok() && Arises(x, w, false) && Acked(x, w, d)
      && Reported(x, w, msgs) && FromRound(x, w.st, msgs) && |msgs| >= cfg.Quorum()
      && LogSuffixOf(cfg, msgs) == Some(suffix)
      ensures Keeps(suffix, d)
    {
      KeptWhileGrowing(x, w, d, msgs, suffix);
    }
  }

  lemma KeptWhileGrowing(x: Setting, w: World, d: Digest, msgs: seq<StartMsg>, suffix: LogSuffix)
    requires x.Ok() && Arises(x, w, false) && Acked(x, w, d)
    requires Reported(x, w, msgs) && FromRound(x, w.st, msgs) && |msgs| >= x.cfg.Quorum()
    requires LogSuffixOf(x.cfg, msgs) == Some(suffix) && x.cfg.f <= x.cfg.e + 1
    ensures Keeps(suffix, d)
  {
    var y := x.(check := FullCheck);
    assert y.Correct() == x.Correct();
    ArisesAnyCheck(x, w, FullCheck);
    assert Acked(y, w, d) && Proposed(y, w.st, msgs);
    assert Reported(y, w, msgs) && FromRound(y, w.st, msgs);
    KeptInWorld(y, w, d, msgs, suffix, false);
  }

  lemma {:induction false} KeptAligning(cfg: Config, check: Check)
    requires cfg.f <= cfg.e && Suffices(cfg, check)
    ensures NormalKept(cfg, true, check)
  {
    forall x: Setting, w: World, d: Digest, msgs: seq<StartMsg>, suffix: LogSuffix |
      x.cfg == cfg && x.check == check && x.Ok() && Arises(x, w, true) && Acked(x, w, d)
      && Reported(x, w, msgs) && FromRound(x, w.st, msgs) && |msgs| >= cfg.Quorum()
      && LogSuffixOf(cfg, msgs) == Some(suffix)
      ensures Keeps(suffix, d)
    {
      KeptInWorld(x, w, d, msgs, suffix, true);
    }
  }

  lemma KeptInWorld(x: Setting, w: World, d: Digest, msgs: seq<StartMsg>, suffix: LogSuffix, aligning: bool)
    requires x.Guarded() && |msgs| >= x.cfg.Quorum() && x.cfg.f <= x.cfg.e + if aligning then 0 else 1
    ensures (&& Arises(x, w, aligning) && Acked(x, w, d) && Reported(x, w, msgs) && FromRound(x, w.st, msgs)
             && LogSuffixOf(x.cfg, msgs) == Some(suffix)) ==>
              Keeps(suffix, d)
  {
    if !Arises(x, w, aligning) || !Acked(x, w, d) || !Reported(x, w, msgs) || !FromRound(x, w.st, msgs)
       || LogSuffixOf(x.cfg, msgs) != Some(suffix) {
      return;
    }
    AcksRemembered(x, w, aligning);
    AckedReplied(x, w, d);
    var steps :| Legal(x, steps) && Run(steps) == w.st;
    if aligning {
      RoundProposalKeeps(x, steps, d, msgs, suffix);
    } else {
      SuffixParts(x.cfg, msgs, suffix);
      CheckpointsBelow(msgs, suffix.checkpoint.seqNo);
      RoundCertsAgree(x, steps, msgs, suffix.checkpoint.seqNo, d);
      NormalCommitSurvivesRepair(x, w, d, msgs, suffix);
    }
  }
}
