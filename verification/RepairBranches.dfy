// What a repair cannot promise: runs and proposals in which the decided order mixes two branches,
// or in which what a superquorum replied is lost, and exactly when that cannot happen.

module RepairBranches {
  import opened Options
  import opened Digests
  import opened Quorums
  import opened ClientRecords
  import opened RepairSelection
  import opened RepairDurability
  import opened RoundSteps
  import opened RoundSafety
  import opened RoundTightness
  import opened RoundForgery
  import opened RepairGuarantees
  import opened RepairApply

  // ----- e >= f is needed for one chain

  const OnlyY := Next(Genesis, RequestId(1, 1), Increment)
  const OnlyZ := Next(Genesis, RequestId(2, 1), Increment)
  const ZThenW := Next(OnlyZ, RequestId(3, 1), Increment)

  function EntryOf(d: Digest): ProtoEntry
    requires d.Link?
  {
    ProtoEntry(d.seqNo, d.id, d, Sha(d.request), Some(d.request))
  }

  const EmptyCheckpoint := Checkpoint(0, Genesis, NoRecord)
  const LogY := RepairLog(EmptyCheckpoint, [EntryOf(OnlyY)], Some(Cert(1, OnlyY)))
  const LogZW := RepairLog(EmptyCheckpoint, [EntryOf(OnlyZ), EntryOf(ZThenW)], None)

  // 2e + 1 logs with a certificate for y, and 2f logs that went another way.
  function SplitProposal(cfg: Config): seq<StartMsg> {
    seq(cfg.Quorum(), i requires 0 <= i < cfg.Quorum() => StartMsg(i, if i < 2 * cfg.e + 1 then LogY else LogZW))
  }

  lemma SplitLogs()
    ensures ChainedLog(LogY) && CertInLog(LogY) && Head(LogY) == OnlyY
    ensures ChainedLog(LogZW) && CertInLog(LogZW) && Head(LogZW) == ZThenW
    ensures Height(OnlyY) == 1 && Height(OnlyZ) == 1 && Height(ZThenW) == 2
    ensures Extends(ZThenW, ZThenW) && !Extends(OnlyY, ZThenW) && !Extends(ZThenW, OnlyY) && Extends(OnlyY, OnlyY)
  {
    assert EntryChained(LogY, 0);
    assert EntryChained(LogZW, 0) && EntryChained(LogZW, 1);
    assert Upto(ZThenW, 1) == OnlyZ;
  }

  lemma RangeSize(lo: nat, hi: nat, s: set<nat>)
    requires lo <= hi
    requires forall i :: i in s <==> lo <= i < hi
    ensures |s| == hi - lo
  {
    assert s == Replicas(hi) - Replicas(lo);
    SubsetSize(Replicas(lo), Replicas(hi));
  }

  lemma SplitWellFormed(cfg: Config)
    ensures WellFormed(SplitProposal(cfg)) && CertsInLogs(SplitProposal(cfg))
  {
    SplitLogs();
  }

  // If all logs start from one checkpoint, that is the one chosen.
  lemma SameCheckpointDecides(cfg: Config, msgs: seq<StartMsg>, ck: Checkpoint)
    requires |msgs| == cfg.Quorum() && cfg.f + cfg.e >= 1
    requires forall i :: 0 <= i < |msgs| ==> msgs[i].replicaId == i && msgs[i].log.checkpoint == ck
    ensures var s := LogSuffixOf(cfg, msgs);
            s.Some? && s.value.checkpoint == ck
  {
    var k := CheckpointChoice(msgs);
    var all := Replicas(|msgs|);
    assert Matches(msgs, k) == all - {k};
    assert |all - {k}| == |all| - 1;
  }

  // The certificate's entry y comes first, the entry w of the other branch follows it.
  lemma SplitOrder(cfg: Config)
    requires cfg.e < cfg.f
    ensures var order := Ordered(cfg, SplitProposal(cfg), 0);
            |order| >= 2 && order[0].digest == OnlyY && order[1].digest == ZThenW
  {
    var msgs := SplitProposal(cfg);
    SplitLogs();
    SplitWellFormed(cfg);
    assert Certifies(msgs[0].log, 0);
    UpToCertFollows(msgs, 0);
    AfterCertFollows(cfg, msgs, 0);
    SplitWinner(cfg);
    assert UpToCert(msgs, 0)[0].digest == OnlyY;
    assert AfterCert(cfg, msgs, 0)[0].digest == Upto(ZThenW, 2);
  }

  lemma SplitWinner(cfg: Config)
    requires cfg.e < cfg.f
    ensures var msgs := SplitProposal(cfg);
            var w := LastReaching(Flat(msgs, 1), cfg.Matching());
            w.Some? && w.value.1.digest == ZThenW
  {
    var msgs := SplitProposal(cfg);
    SplitLogs();
    SplitWellFormed(cfg);
    RangeSize(2 * cfg.e + 1, |msgs|, Holders(msgs, ZThenW));
    ScanFindsLongest(cfg, msgs, 1, ZThenW);
    var w := LastReaching(Flat(msgs, 1), cfg.Matching()).value;
    HeadOfLog(msgs[w.0].log);
  }

  // The proposal decides a suffix, and its ordered entries are no one history.
  ghost predicate Mixed(cfg: Config, msgs: seq<StartMsg>)
    requires msgs != []
  {
    match LogSuffixOf(cfg, msgs)
    case None => false
    case Some(s) => forall tip :: !OrderedAs(cfg, msgs, s.checkpoint.seqNo, tip)
  }

  // If e < f, a well-formed quorum of logs with a certificate can decide entries that do not
  // form one chain.
  lemma SplitIsBroken(cfg: Config)
    requires cfg.e < cfg.f
    ensures Mixed(cfg, SplitProposal(cfg))
  {
    SameCheckpointDecides(cfg, SplitProposal(cfg), EmptyCheckpoint);
    SplitOrder(cfg);
    SplitLogs();
    forall tip ensures !OrderedAs(cfg, SplitProposal(cfg), 0, tip) {
      if OrderedAs(cfg, SplitProposal(cfg), 0, tip) {
        UptoUpto(tip, 2, 1);
      }
    }
  }

  // ----- The broken proposal comes from a run

  // The f replicas that go the other way.
  function Leavers(cfg: Config): set<nat> {
    Replicas(2 * cfg.e + 1 + cfg.f) - Replicas(2 * cfg.e + 1)
  }

  // f more are faulty: they reply y but report the other branch.
  function SplitSetting(cfg: Config): Setting {
    Setting(cfg, Replicas(2 * cfg.e + 1 + 2 * cfg.f) - Replicas(2 * cfg.e + 1 + cfg.f), Genesis, FullCheck)
  }

  function SplitEnd(cfg: Config): State {
    SplitState(SplitSetting(cfg), Leavers(cfg), OnlyY, OnlyY, ZThenW, cfg.NumReplicas())
  }

  lemma SplitReached(cfg: Config)
    ensures SplitSetting(cfg).Ok() && Reachable(SplitSetting(cfg), SplitEnd(cfg))
    ensures QuorumReplied(SplitSetting(cfg), SplitEnd(cfg), OnlyY)
  {
    SplitLogs();
    RangeSize(2 * cfg.e + 1 + cfg.f, 2 * cfg.e + 1 + 2 * cfg.f, SplitSetting(cfg).byz);
    RangeSize(2 * cfg.e + 1, 2 * cfg.e + 1 + cfg.f, Leavers(cfg));
    SplitReachable(SplitSetting(cfg), Leavers(cfg), OnlyY, OnlyY, ZThenW, cfg.NumReplicas());
    SplitMeaning(SplitSetting(cfg), Leavers(cfg), OnlyY, OnlyY, ZThenW);
  }

  lemma SplitFromRound(cfg: Config)
    ensures FromRound(SplitSetting(cfg), SplitEnd(cfg), SplitProposal(cfg))
  {
    SplitLogs();
    SplitWellFormed(cfg);
    SplitReached(cfg);
  }

  function UniformProposal(cfg: Config): seq<StartMsg> {
    seq(cfg.Quorum(), i requires 0 <= i < cfg.Quorum() => StartMsg(i, LogY))
  }

  function UniformEnd(cfg: Config): State {
    SplitState(Setting(cfg, {}, Genesis, FullCheck), {}, OnlyY, OnlyY, ZThenW, cfg.NumReplicas())
  }

  lemma UniformReached(cfg: Config)
    ensures Reachable(Setting(cfg, {}, Genesis, FullCheck), UniformEnd(cfg))
    ensures Certified(Setting(cfg, {}, Genesis, FullCheck), UniformEnd(cfg), OnlyY)
  {
    var x := Setting(cfg, {}, Genesis, FullCheck);
    SplitLogs();
    SplitReachable(x, {}, OnlyY, OnlyY, ZThenW, cfg.NumReplicas());
    SplitMeaning(x, {}, OnlyY, OnlyY, ZThenW);
  }

  lemma UniformFromRound(cfg: Config)
    ensures FromRound(Setting(cfg, {}, Genesis, FullCheck), UniformEnd(cfg), UniformProposal(cfg))
  {
    SplitLogs();
    UniformReached(cfg);
    assert WellFormed(UniformProposal(cfg));
  }

  // What the survival theorems assume does happen: with more than one replica, some round
  // certifies a digest and a quorum of its logs then decides a suffix.
  lemma RepairAfterCommit(cfg: Config) returns (x: Setting, st: State, msgs: seq<StartMsg>, suffix: LogSuffix)
    requires cfg.f + cfg.e >= 1
    ensures x.cfg == cfg && x.Ok() && Reachable(x, st) && Certified(x, st, OnlyY)
    ensures FromRound(x, st, msgs) && |msgs| == cfg.Quorum() && LogSuffixOf(cfg, msgs) == Some(suffix)
  {
    x, st, msgs := Setting(cfg, {}, Genesis, FullCheck), UniformEnd(cfg), UniformProposal(cfg);
    UniformReached(cfg);
    UniformFromRound(cfg);
    SameCheckpointDecides(cfg, msgs, EmptyCheckpoint);
    suffix := LogSuffixOf(cfg, msgs).value;
  }

  // ----- A certificate that comes with another log

  const YThenV := Next(OnlyY, RequestId(4, 1), Increment)
  const LogYV := RepairLog(EmptyCheckpoint, [EntryOf(OnlyY), EntryOf(YThenV)], None)
  const LogZWithCert := RepairLog(EmptyCheckpoint, [EntryOf(OnlyZ)], Some(Cert(1, OnlyY)))

  // All logs have y, except one that shows z and carries the certificate for y.
  function BorrowedProposal(cfg: Config): seq<StartMsg> {
    seq(cfg.Quorum(), i requires 0 <= i < cfg.Quorum() => StartMsg(i, if i == 0 then LogZWithCert else LogYV))
  }

  // The sender of that one is faulty or, without faulty replicas, has fallen off the chain and
  // still carries a certificate from before.
  function BorrowedSetting(cfg: Config, check: Check): Setting {
    Setting(cfg, if cfg.f >= 1 then {0} else {}, Genesis, check)
  }

  function BorrowedOff(cfg: Config): set<nat> {
    if cfg.f >= 1 then {} else {0}
  }

  function BorrowedEnd(cfg: Config, check: Check): State {
    SplitState(BorrowedSetting(cfg, check), BorrowedOff(cfg), OnlyY, YThenV, OnlyZ, cfg.NumReplicas())
  }

  lemma BorrowedLogs()
    ensures ChainedLog(LogYV) && CertInLog(LogYV) && Head(LogYV) == YThenV
    ensures ChainedLog(LogZWithCert) && Head(LogZWithCert) == OnlyZ
    ensures Height(OnlyY) == 1 && Height(OnlyZ) == 1 && Height(YThenV) == 2
    ensures Extends(YThenV, OnlyY) && !Extends(OnlyZ, OnlyY) && !Extends(OnlyZ, YThenV)
  {
    assert EntryChained(LogZWithCert, 0);
    assert EntryChained(LogYV, 0) && EntryChained(LogYV, 1);
    assert Upto(YThenV, 1) == OnlyY;
  }

  lemma BorrowedReached(cfg: Config, check: Check)
    requires cfg.f + cfg.e >= 1
    ensures BorrowedSetting(cfg, check).Ok() && Reachable(BorrowedSetting(cfg, check), BorrowedEnd(cfg, check))
    ensures Certified(BorrowedSetting(cfg, check), BorrowedEnd(cfg, check), OnlyY)
    ensures cfg.f >= 1 ==> QuorumReplied(BorrowedSetting(cfg, check), BorrowedEnd(cfg, check), OnlyY)
  {
    BorrowedLogs();
    SplitReachable(BorrowedSetting(cfg, check), BorrowedOff(cfg), OnlyY, YThenV, OnlyZ, cfg.NumReplicas());
    SplitMeaning(BorrowedSetting(cfg, check), BorrowedOff(cfg), OnlyY, YThenV, OnlyZ);
  }

  lemma BorrowedProposed(cfg: Config, check: Check)
    requires cfg.f + cfg.e >= 1
    ensures Proposed(BorrowedSetting(cfg, check), BorrowedEnd(cfg, check), BorrowedProposal(cfg))
  {
    BorrowedLogs();
    assert WellFormed(BorrowedProposal(cfg));
  }

  // The suffix starts with z, and goes on with what follows y.
  lemma BorrowedOrder(cfg: Config)
    requires cfg.f + cfg.e >= 1
    ensures var order := Ordered(cfg, BorrowedProposal(cfg), 0);
            |order| >= 2 && order[0] == EntryOf(OnlyZ) && order[1].digest == YThenV
  {
    var msgs := BorrowedProposal(cfg);
    BorrowedLogs();
    assert WellFormed(msgs);
    assert Certifies(msgs[0].log, 0);
    UpToCertShows(msgs, 0);
    AfterCertFollows(cfg, msgs, 0);
    BorrowedWinner(cfg);
    assert UpToCert(msgs, 0)[0] == LogZWithCert.entries[0];
    assert AfterCert(cfg, msgs, 0)[0].digest == Upto(YThenV, 2);
  }

  lemma BorrowedWinner(cfg: Config)
    requires cfg.f + cfg.e >= 1
    ensures var w := LastReaching(Flat(BorrowedProposal(cfg), 1), cfg.Matching());
            w.Some? && w.value.1.digest == YThenV
  {
    var msgs := BorrowedProposal(cfg);
    BorrowedLogs();
    RangeSize(1, |msgs|, Holders(msgs, YThenV));
    ScanFindsLongest(cfg, msgs, 1, YThenV);
    var w := LastReaching(Flat(msgs, 1), cfg.Matching()).value;
    HeadOfLog(msgs[w.0].log);
  }

  // What the correct replicas replied is lost, from the suffix and from the history it leads to,
  // and the decided order is from two branches.
  lemma BorrowedIsBroken(cfg: Config)
    requires cfg.f + cfg.e >= 1
    ensures var s := LogSuffixOf(cfg, BorrowedProposal(cfg));
            s.Some? && !Keeps(s.value, OnlyY) && !Extends(Target(s.value), OnlyY)
    ensures Mixed(cfg, BorrowedProposal(cfg))
  {
    var msgs := BorrowedProposal(cfg);
    SameCheckpointDecides(cfg, msgs, EmptyCheckpoint);
    var s := LogSuffixOf(cfg, msgs).value;
    SuffixParts(cfg, msgs, s);
    BorrowedOrder(cfg);
    LostWith(s.checkpoint.logDigest, Ordered(cfg, msgs, 0), Remaining(cfg, msgs, 0));
    forall tip ensures !OrderedAs(cfg, msgs, 0, tip) {
      TwoBranches(cfg, msgs, tip);
    }
  }

  lemma LostWith(base: Digest, order: seq<ProtoEntry>, rest: seq<ProtoEntry>)
    requires base == Genesis && order != [] && order[0].digest == OnlyZ && order[0].id == OnlyZ.id
    ensures !Follows(order + rest, 0, OnlyY)
    ensures !Extends(TargetOf(base, order + rest), OnlyY)
  {
    BorrowedLogs();
    assert (order + rest)[0] == order[0];
    TargetUpto(base, order + rest, 1);
    TargetNext(base, order + rest, 0);
  }

  lemma TwoBranches(cfg: Config, msgs: seq<StartMsg>, tip: Digest)
    requires msgs != [] && |Ordered(cfg, msgs, 0)| >= 2
    requires Ordered(cfg, msgs, 0)[0].digest == OnlyZ && Ordered(cfg, msgs, 0)[1].digest == YThenV
    ensures !OrderedAs(cfg, msgs, 0, tip)
  {
    BorrowedLogs();
    if OrderedAs(cfg, msgs, 0, tip) {
      UptoUpto(tip, 2, 1);
    }
  }

  // ----- Exactly when

  // Which certificates the start messages carry: all of the round and for entries of their own
  // logs; this for correct senders, and those of faulty ones of the round; or any.
  datatype Certs = AllOwn | OfCorrectOwn | Any

  ghost predicate Carries(x: Setting, st: State, msgs: seq<StartMsg>, certs: Certs) {
    && Proposed(x, st, msgs)
    && (certs.AllOwn? ==> FromRound(x, st, msgs))
    && (certs.OfCorrectOwn? ==>
          forall i :: 0 <= i < |msgs| ==>
            CertOfRound(x, st, msgs[i].log) && (msgs[i].replicaId in x.Correct() ==> CertInLog(msgs[i].log)))
  }

  // A round of the configuration.
  predicate At(x: Setting, cfg: Config, check: Check) {
    x.cfg == cfg && x.check == check && x.Ok()
  }

  // What a quorum can propose in a state of the round.
  ghost predicate Offered(x: Setting, st: State, msgs: seq<StartMsg>, certs: Certs) {
    Reachable(x, st) && Carries(x, st, msgs, certs) && |msgs| >= x.cfg.Quorum()
  }

  // A decided suffix that does not keep what a superquorum replied.
  ghost predicate Loses(x: Setting, st: State, msgs: seq<StartMsg>, suffix: LogSuffix, d: Digest)
    requires msgs != []
  {
    LogSuffixOf(x.cfg, msgs) == Some(suffix) && Certified(x, st, d) && !Keeps(suffix, d)
  }

  // In every round, every such proposal decides entries that form one chain.
  ghost predicate AlwaysOneChain(cfg: Config, certs: Certs, check: Check) {
    forall x: Setting, st: State, msgs: seq<StartMsg> ::
      At(x, cfg, check) && Offered(x, st, msgs, certs) ==> !Mixed(x.cfg, msgs)
  }

  // In every round, every such proposal that decides a suffix keeps what a superquorum replied.
  ghost predicate AlwaysKeeps(cfg: Config, certs: Certs, check: Check) {
    forall x: Setting, st: State, msgs: seq<StartMsg>, suffix: LogSuffix, d: Digest ::
      At(x, cfg, check) && Offered(x, st, msgs, certs) ==> !Loses(x, st, msgs, suffix, d)
  }

  predicate KeepsApart(cfg: Config, certs: Certs) {
    match certs
    case AllOwn => true
    case OfCorrectOwn => cfg.f < 1
    case Any => cfg.f + cfg.e < 1
  }

  lemma NotOneChain(x: Setting, st: State, msgs: seq<StartMsg>, certs: Certs)
    requires x.Ok() && msgs != [] && Mixed(x.cfg, msgs)
    ensures Offered(x, st, msgs, certs) ==> !AlwaysOneChain(x.cfg, certs, x.check)
  {
  }

  lemma NotKeptFast(x: Setting, st: State, msgs: seq<StartMsg>, certs: Certs, suffix: LogSuffix, d: Digest)
    requires x.Ok() && msgs != [] && Loses(x, st, msgs, suffix, d)
    ensures Offered(x, st, msgs, certs) ==> !AlwaysKeeps(x.cfg, certs, x.check)
  {
  }

  // What it takes for one chain, besides the checks of snapshot replies.
  predicate StaysOneChain(cfg: Config, certs: Certs) {
    KeepsApart(cfg, certs) && (certs.AllOwn? ==> cfg.e >= cfg.f)
  }

  // The decided order is one chain in every round exactly when e >= f, if all certificates are for
  // entries of their own logs.  The source does not check that; then it takes f == 0 if correct
  // replicas do so nevertheless, and a single replica if they do not either.
  lemma CheckedOneChainIff(cfg: Config, certs: Certs, check: Check)
    requires Suffices(cfg, check)
    ensures AlwaysOneChain(cfg, certs, check) <==> StaysOneChain(cfg, certs)
  {
    if StaysOneChain(cfg, certs) {
      OneChainEverywhere(cfg, certs, check);
    } else if certs.AllOwn? {
      SplitBreaks(cfg);
    } else {
      BorrowedBreaks(cfg, certs, check);
    }
  }

  lemma OneChainEverywhere(cfg: Config, certs: Certs, check: Check)
    requires Suffices(cfg, check) && StaysOneChain(cfg, certs)
    ensures AlwaysOneChain(cfg, certs, check)
  {
    forall x: Setting, st: State, msgs: seq<StartMsg> | At(x, cfg, check) && Offered(x, st, msgs, certs)
      ensures !Mixed(x.cfg, msgs)
    {
      OneChainThere(x, st, msgs, certs);
    }
  }

  lemma SplitBreaks(cfg: Config)
    requires cfg.e < cfg.f
    ensures !AlwaysOneChain(cfg, AllOwn, FullCheck)
  {
    SplitReached(cfg);
    SplitFromRound(cfg);
    SplitIsBroken(cfg);
    NotOneChain(SplitSetting(cfg), SplitEnd(cfg), SplitProposal(cfg), AllOwn);
  }

  lemma BorrowedOffered(cfg: Config, certs: Certs, check: Check)
    requires !KeepsApart(cfg, certs)
    ensures At(BorrowedSetting(cfg, check), cfg, check)
    ensures Offered(BorrowedSetting(cfg, check), BorrowedEnd(cfg, check), BorrowedProposal(cfg), certs)
  {
    BorrowedReached(cfg, check);
    BorrowedCarries(cfg, check);
  }

  lemma BorrowedBreaks(cfg: Config, certs: Certs, check: Check)
    requires !KeepsApart(cfg, certs)
    ensures !AlwaysOneChain(cfg, certs, check)
  {
    BorrowedOffered(cfg, certs, check);
    BorrowedIsBroken(cfg);
    NotOneChain(BorrowedSetting(cfg, check), BorrowedEnd(cfg, check), BorrowedProposal(cfg), certs);
  }

  lemma OneChainThere(x: Setting, st: State, msgs: seq<StartMsg>, certs: Certs)
    requires x.Guarded() && StaysOneChain(x.cfg, certs) && Offered(x, st, msgs, certs)
    ensures !Mixed(x.cfg, msgs)
  {
    if x.cfg.f + x.cfg.e == 0 {
      AloneDecidesNothing(x, st, msgs);
    } else if LogSuffixOf(x.cfg, msgs).Some? {
      AllCarryOwn(x, st, msgs, certs);
      var steps :| Legal(x, steps) && Run(steps) == st;
      RoundOneChain(x, steps, msgs, LogSuffixOf(x.cfg, msgs).value);
    }
  }

  // The same for durability: if all certificates are for entries of their own logs, every decided
  // suffix keeps a fast commit; otherwise it takes f == 0, or a single replica.
  lemma CheckedKeptIff(cfg: Config, certs: Certs, check: Check)
    requires Suffices(cfg, check)
    ensures AlwaysKeeps(cfg, certs, check) <==> KeepsApart(cfg, certs)
  {
    if KeepsApart(cfg, certs) {
      KeptEverywhere(cfg, certs, check);
    } else {
      BorrowedLoses(cfg, certs, check);
    }
  }

  lemma KeptEverywhere(cfg: Config, certs: Certs, check: Check)
    requires Suffices(cfg, check) && KeepsApart(cfg, certs)
    ensures AlwaysKeeps(cfg, certs, check)
  {
    forall x: Setting, st: State, msgs: seq<StartMsg>, suffix: LogSuffix, d: Digest |
      At(x, cfg, check) && Offered(x, st, msgs, certs)
      ensures !Loses(x, st, msgs, suffix, d)
    {
      KeptThere(x, st, msgs, certs, suffix, d);
    }
  }

  lemma BorrowedLoses(cfg: Config, certs: Certs, check: Check)
    requires !KeepsApart(cfg, certs)
    ensures !AlwaysKeeps(cfg, certs, check)
  {
    BorrowedOffered(cfg, certs, check);
    BorrowedReached(cfg, check);
    BorrowedIsBroken(cfg);
    NotKeptFast(BorrowedSetting(cfg, check), BorrowedEnd(cfg, check), BorrowedProposal(cfg), certs,
      LogSuffixOf(cfg, BorrowedProposal(cfg)).value, OnlyY);
  }

  lemma AllCarryOwn(x: Setting, st: State, msgs: seq<StartMsg>, certs: Certs)
    requires x.Ok() && Carries(x, st, msgs, certs) && KeepsApart(x.cfg, certs) && !certs.Any?
    ensures FromRound(x, st, msgs)
  {
  }

  lemma KeptThere(x: Setting, st: State, msgs: seq<StartMsg>, certs: Certs, suffix: LogSuffix, d: Digest)
    requires x.Guarded() && KeepsApart(x.cfg, certs) && Offered(x, st, msgs, certs)
    ensures !Loses(x, st, msgs, suffix, d)
  {
    if !Loses(x, st, msgs, suffix, d) {
      return;
    }
    if x.cfg.f + x.cfg.e == 0 {
      AloneDecidesNothing(x, st, msgs);
    } else {
      AllCarryOwn(x, st, msgs, certs);
      var steps :| Legal(x, steps) && Run(steps) == st;
      RoundProposalKeeps(x, steps, d, msgs, suffix);
    }
  }

  lemma BorrowedCarries(cfg: Config, check: Check)
    requires cfg.f + cfg.e >= 1
    ensures BorrowedSetting(cfg, check).Ok() && Reachable(BorrowedSetting(cfg, check), BorrowedEnd(cfg, check))
    ensures Carries(BorrowedSetting(cfg, check), BorrowedEnd(cfg, check), BorrowedProposal(cfg), Any)
    ensures cfg.f >= 1 ==>
              Carries(BorrowedSetting(cfg, check), BorrowedEnd(cfg, check), BorrowedProposal(cfg), OfCorrectOwn)
  {
    BorrowedReached(cfg, check);
    BorrowedProposed(cfg, check);
    BorrowedLogs();
  }

  // A single replica has nobody to match its checkpoint.
  lemma AloneDecidesNothing(x: Setting, st: State, msgs: seq<StartMsg>)
    requires Proposed(x, st, msgs) && x.cfg.f + x.cfg.e == 0
    ensures LogSuffixOf(x.cfg, msgs).None?
  {
    assert forall i :: 0 <= i < |msgs| ==> msgs[i].replicaId == msgs[CheckpointChoice(msgs)].replicaId;
    assert Matches(msgs, CheckpointChoice(msgs)) == {};
  }

  lemma RoundOneChain(x: Setting, steps: seq<Step>, msgs: seq<StartMsg>, suffix: LogSuffix)
    requires x.Guarded() && Legal(x, steps) && FromRound(x, Run(steps), msgs) && x.cfg.e >= x.cfg.f
    requires LogSuffixOf(x.cfg, msgs) == Some(suffix)
    ensures exists tip :: OrderedAs(x.cfg, msgs, suffix.checkpoint.seqNo, tip)
  {
    SuffixParts(x.cfg, msgs, suffix);
    CheckpointsBelow(msgs, suffix.checkpoint.seqNo);
    CertSupportedWhenEnoughSpares(x, steps, msgs, suffix.checkpoint.seqNo);
    SupportedOneBranch(x.cfg, msgs, suffix.checkpoint.seqNo);
    OneChainIff(x.cfg, msgs, suffix);
  }
}
