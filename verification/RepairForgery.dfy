// What forged snapshot replies do to a repair, and exactly when a repair keeps what was committed.
//
// With one faulty replica and replies that are not checked in full, all correct replicas can be
// made to leave what they replied; no start message then has it.

module RepairForgery {
  import opened Options
  import opened Digests
  import opened Quorums
  import opened ClientRecords
  import opened RepairSelection
  import opened RepairDurability
  import opened RoundSteps
  import opened RoundSafety
  import opened RoundTightness
  import opened RoundForgery
  import opened RoundCerts
  import opened RepairGuarantees
  import opened RepairBranches
  import opened RepairNormal
  import opened RepairNormalLimits
  import opened RepairApply
  import Requests = RepairRequests
  import Survival = RepairSurvival
  import Logs
  import CounterApp

  // ----- The round

  function ForgedSetting(cfg: Config, check: Check): Setting {
    Setting(cfg, {0}, OnlyB, check)
  }

  // Everyone replied y after b, and then acknowledged its certificate.
  function RepliedByAll(x: Setting): World {
    SplitWorld(x, {}, BThenY, BThenZW, Genesis, x.cfg.NumReplicas())
  }

  lemma RepliedByAllArises(x: Setting)
    requires x.Ok() && x.base == OnlyB
    ensures Arises(x, RepliedByAll(x), true) && Certified(x, RepliedByAll(x).st, BThenY)
    ensures RepliedByAll(x).committed.Keys == RepliedByAll(x).st.logs.Keys == x.Correct()
    ensures forall r :: r in x.Correct() ==>
              RepliedByAll(x).committed[r] == Genesis && RepliedByAll(x).st.logs[r] == BThenY
  {
    DroppedLogs();
    UptoExtended(BThenY, 2);
    SplitArises(x, {}, BThenY, BThenZW, Genesis, x.cfg.NumReplicas());
    ArisesAnyway(x, RepliedByAll(x), true);
    SplitMeaning(x, {}, BThenY, BThenY, BThenZW);
  }

  lemma AckedByAll(x: Setting) returns (w: World)
    requires x.Ok() && x.base == OnlyB
    ensures Arises(x, w, true) && Acked(x, w, BThenY)
    ensures HaveAcked(x, RepliedByAll(x), w, BThenY, Replicas(x.cfg.NumReplicas()))
  {
    var all := Replicas(x.cfg.NumReplicas());
    DroppedLogs();
    UptoExtended(BThenY, 2);
    RepliedByAllArises(x);
    w := AckingArises(x, RepliedByAll(x), BThenY, all, true);
    forall r | r in all ensures r in Ackers(w, BThenY) {
      assert (r, BThenY) in w.acks;
    }
    SubsetSize(all, Ackers(w, BThenY));
  }

  // The replicas in rs were sent b as a checkpoint, with a record that has all their requests, and
  // then appended z and w.
  ghost predicate HaveTurned(w: World, v: World, rs: set<nat>) {
    && v.st.logs.Keys == w.st.logs.Keys && v.committed.Keys == w.committed.Keys
    && (forall r :: r in v.certs ==> r in w.certs && r !in rs)
    && (forall r :: r in rs && r in v.st.logs ==> v.st.logs[r] == BThenZW)
    && (forall r :: r in w.committed ==> v.committed[r] == if r in rs then OnlyB else w.committed[r])
    && v.acks == w.acks && v.st.replies == w.st.replies
  }

  lemma {:induction false} TurnedArises(x: Setting, w: World, rs: set<nat>) returns (v: World)
    requires x.base == OnlyB && x.byz != {} && !x.check.FullCheck? && Arises(x, w, true)
    requires forall r :: r in rs ==> r in w.st.logs && r in w.committed && w.committed[r] == Genesis
    ensures Arises(x, v, true) && HaveTurned(w, v, rs)
    decreases rs
  {
    v := w;
    if rs != {} {
      var r :| r in rs;
      var before := TurnedArises(x, w, rs - {r});
      TurnOne(x, before, r);
      TurnedMore(w, before, rs, r);
      v := TurnedOne(before, r);
    }
  }

  lemma TurnedMore(w: World, before: World, rs: set<nat>, r: nat)
    requires HaveTurned(w, before, rs - {r}) && r in rs && r in w.st.logs && r in w.committed
    ensures HaveTurned(w, TurnedOne(before, r), rs)
  {
  }

  // One replica's turn: it aligns, and appends twice.
  function TurnedOne(w: World, r: nat): World {
    w.(st := w.st.(logs := w.st.logs[r := BThenZW]), committed := w.committed[r := OnlyB], certs := w.certs - {r})
  }

  lemma TurnOne(x: Setting, w: World, r: nat)
    requires x.base == OnlyB && x.byz != {} && !x.check.FullCheck? && Arises(x, w, true)
    requires r in w.st.logs && r in w.committed && w.committed[r] == Genesis
    ensures Arises(x, TurnedOne(w, r), true)
  {
    DroppedLogs();
    assert Extends(OnlyB, OnlyB);
    MoveArises(x, w, Realign(r, OnlyB, OnlyB), true);
    var back := Moved(w, Realign(r, OnlyB, OnlyB));
    MoveArises(x, back, Plain(Append(r, RequestId(2, 1), Increment)), true);
    var next := Moved(back, Plain(Append(r, RequestId(2, 1), Increment)));
    MoveArises(x, next, Plain(Append(r, RequestId(3, 1), Increment)), true);
    assert w.st.logs[r := OnlyB][r := BThenZ][r := BThenZW] == w.st.logs[r := BThenZW];
  }

  // Everyone acknowledged y, and all correct replicas went the other way.
  ghost predicate IsForged(x: Setting, w: World) {
    && Arises(x, w, true) && Acked(x, w, BThenY) && Certified(x, w.st, BThenY)
    && w.committed.Keys == w.st.logs.Keys == x.Correct() && w.certs.Keys !! x.Correct()
    && forall r :: r in x.Correct() ==> w.committed[r] == OnlyB && w.st.logs[r] == BThenZW
  }

  lemma ForgedArises(x: Setting) returns (w: World)
    requires x.Ok() && x.base == OnlyB && x.byz != {} && !x.check.FullCheck?
    ensures IsForged(x, w)
  {
    var acked := AckedByAll(x);
    RepliedByAllArises(x);
    w := TurnedArises(x, acked, x.Correct());
    assert Ackers(w, BThenY) == Ackers(acked, BThenY);
    assert Repliers(w.st, BThenY) == Repliers(acked.st, BThenY);
  }

  // ----- The proposals

  // All logs went the other way.
  function ForgedProposal(cfg: Config): seq<StartMsg> {
    seq(cfg.Quorum(), i requires 0 <= i < cfg.Quorum() => StartMsg(i, LogBZW))
  }

  const LogBYCert := RepairLog(CheckpointB, [EntryOf(BThenY)], Some(Cert(2, BThenY)))

  // All but that of the faulty replica, which has what was certified.
  function CrossedProposal(cfg: Config): seq<StartMsg> {
    seq(cfg.Quorum(), i requires 0 <= i < cfg.Quorum() => StartMsg(i, if i == 0 then LogBYCert else LogBZW))
  }

  lemma CrossedLogs()
    ensures ChainedLog(LogBYCert) && CertInLog(LogBYCert) && Head(LogBYCert) == BThenY
  {
    DroppedLogs();
    assert EntryChained(LogBYCert, 0);
  }

  lemma ForgedReported(x: Setting, w: World)
    requires IsForged(x, w)
    ensures Reported(x, w, ForgedProposal(x.cfg)) && FromRound(x, w.st, ForgedProposal(x.cfg))
  {
    DroppedLogs();
    assert WellFormed(ForgedProposal(x.cfg));
  }

  lemma CrossedFromRound(x: Setting, w: World)
    requires x.byz == {0} && IsForged(x, w)
    ensures FromRound(x, w.st, CrossedProposal(x.cfg))
  {
    DroppedLogs();
    CrossedLogs();
    assert WellFormed(CrossedProposal(x.cfg));
  }

  // The suffix starts with z.
  lemma ForgedOrder(cfg: Config)
    requires cfg.f >= 1
    ensures var order := Ordered(cfg, ForgedProposal(cfg), 1);
            order != [] && order[0].digest == BThenZ && order[0].id == BThenZ.id
  {
    var msgs := ForgedProposal(cfg);
    DroppedLogs();
    assert WellFormed(msgs);
    UpToCertShows(msgs, 1);
    AfterCertFollows(cfg, msgs, 1);
    RangeSize(0, |msgs|, Holders(msgs, BThenZW));
    ScanFindsLongest(cfg, msgs, 1, BThenZW);
    var tip := Decider(cfg, msgs, 1).value.1.digest;
    UptoPrefix(tip, BThenZW, 2);
    assert Ordered(cfg, msgs, 1) == AfterCert(cfg, msgs, 1);
    FirstIsZ(cfg);
  }

  lemma FirstIsZ(cfg: Config)
    requires cfg.f >= 1 && Ordered(cfg, ForgedProposal(cfg), 1) != []
    requires Ordered(cfg, ForgedProposal(cfg), 1)[0].digest == BThenZ
    ensures Ordered(cfg, ForgedProposal(cfg), 1)[0].id == BThenZ.id
  {
    var e := Ordered(cfg, ForgedProposal(cfg), 1)[0];
    DroppedLogs();
    assert WellFormed(ForgedProposal(cfg));
    var i := Requests.OrderedFromLog(cfg, ForgedProposal(cfg), 1, e);
    assert e in LogBZW.entries;
  }

  lemma ForgedDecides(cfg: Config)
    requires cfg.f >= 1
    ensures var s := LogSuffixOf(cfg, ForgedProposal(cfg));
            && s.Some? && s.value.checkpoint == CheckpointB
            && !Keeps(s.value, BThenY) && !Extends(Target(s.value), BThenY) && s.value.entries != []
  {
    var msgs := ForgedProposal(cfg);
    SameCheckpointDecides(cfg, msgs, CheckpointB);
    var s := LogSuffixOf(cfg, msgs).value;
    SuffixParts(cfg, msgs, s);
    ForgedOrder(cfg);
    DroppedLogs();
    assert s.entries[0] == Ordered(cfg, msgs, 1)[0];
    TargetUpto(OnlyB, s.entries, 1);
    TargetNext(OnlyB, s.entries, 0);
  }

  // y comes first, and then what follows z.
  lemma CrossedOrder(cfg: Config)
    requires cfg.f >= 1
    ensures var order := Ordered(cfg, CrossedProposal(cfg), 1);
            |order| >= 2 && order[0].digest == BThenY && order[1].digest == BThenZW
  {
    var msgs := CrossedProposal(cfg);
    DroppedLogs();
    CrossedLogs();
    assert WellFormed(msgs);
    assert Certifies(msgs[0].log, 1);
    UpToCertFollows(msgs, 1);
    AfterCertFollows(cfg, msgs, 1);
    RangeSize(1, |msgs|, Holders(msgs, BThenZW));
    ScanFindsLongest(cfg, msgs, 2, BThenZW);
    var w := LastReaching(Flat(msgs, 2), cfg.Matching()).value;
    HeadOfLog(msgs[w.0].log);
    assert UpToCert(msgs, 1)[0].digest == BThenY;
    assert AfterCert(cfg, msgs, 1)[0].digest == Upto(BThenZW, 3);
  }

  lemma CrossedIsBroken(cfg: Config)
    requires cfg.f >= 1
    ensures Mixed(cfg, CrossedProposal(cfg))
  {
    SameCheckpointDecides(cfg, CrossedProposal(cfg), CheckpointB);
    CrossedOrder(cfg);
    DroppedLogs();
    forall tip ensures !OrderedAs(cfg, CrossedProposal(cfg), 1, tip) {
      if OrderedAs(cfg, CrossedProposal(cfg), 1, tip) {
        UptoUpto(tip, 3, 2);
      }
    }
  }

  // ----- Exactly when

  lemma ForgedMixes(cfg: Config, certs: Certs, check: Check)
    requires !Suffices(cfg, check)
    ensures !AlwaysOneChain(cfg, certs, check)
  {
    var x := ForgedSetting(cfg, check);
    var w := ForgedArises(x);
    CrossedFromRound(x, w);
    CrossedIsBroken(cfg);
    AcksRemembered(x, w, true);
    NotOneChain(x, w.st, CrossedProposal(cfg), certs);
  }

  lemma ForgedLoses(cfg: Config, certs: Certs, check: Check)
    requires !Suffices(cfg, check)
    ensures !AlwaysKeeps(cfg, certs, check)
  {
    var x := ForgedSetting(cfg, check);
    var w := ForgedArises(x);
    ForgedReported(x, w);
    ForgedDecides(cfg);
    AcksRemembered(x, w, true);
    NotKeptFast(x, w.st, ForgedProposal(cfg), certs, LogSuffixOf(cfg, ForgedProposal(cfg)).value, BThenY);
  }

  lemma ForgedLosesNormal(cfg: Config, check: Check)
    requires !Suffices(cfg, check)
    ensures !NormalKept(cfg, true, check)
  {
    var x := ForgedSetting(cfg, check);
    var w := ForgedArises(x);
    ForgedReported(x, w);
    ForgedDecides(cfg);
    NotKept(x, w, true, BThenY, ForgedProposal(cfg), LogSuffixOf(cfg, ForgedProposal(cfg)).value);
  }

  // The decided order is one chain in every round exactly when certificates and spares are as
  // RepairBranches.CheckedOneChainIff says, and the checks of snapshot replies suffice.
  lemma OneChainIffEnoughSpares(cfg: Config, certs: Certs, check: Check)
    ensures AlwaysOneChain(cfg, certs, check) <==> StaysOneChain(cfg, certs) && Suffices(cfg, check)
  {
    if Suffices(cfg, check) {
      CheckedOneChainIff(cfg, certs, check);
    } else {
      ForgedMixes(cfg, certs, check);
    }
  }

  // The same for durability on the fast path.
  lemma FastCommitKeptIff(cfg: Config, certs: Certs, check: Check)
    ensures AlwaysKeeps(cfg, certs, check) <==> KeepsApart(cfg, certs) && Suffices(cfg, check)
  {
    if Suffices(cfg, check) {
      CheckedKeptIff(cfg, certs, check);
    } else {
      ForgedLoses(cfg, certs, check);
    }
  }

  // And on the normal path, where only rounds with alignments depend on the checks.
  lemma NormalCommitKeptIff(cfg: Config, check: Check)
    ensures NormalKept(cfg, false, check) <==> cfg.f <= cfg.e + 1
    ensures NormalKept(cfg, true, check) <==> cfg.f <= cfg.e && Suffices(cfg, check)
  {
    CheckedNormalKeptIff(cfg, check);
    if !Suffices(cfg, check) {
      ForgedLosesNormal(cfg, check);
    }
  }
}
