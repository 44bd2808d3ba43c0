// Durability end to end, exactly: when what a client committed on the fast path is in the history
// of every correct replica after the repair, whatever checkpoints the replicas were sent before it.

module RepairSurvivalLimits {
  import opened Options
  import opened Digests
  import opened Quorums
  import opened ClientRecords
  import CounterApp
  import opened RepairSelection
  import opened RepairDurability
  import opened RoundSteps
  import opened RoundSafety
  import opened RoundTightness
  import opened RoundForgery
  import opened RoundCerts
  import opened RepairGuarantees
  import opened RepairBranches
  import opened RepairNormal
  import opened RepairNormalLimits
  import opened RepairForgery
  import opened RepairApply
  import Requests = RepairRequests
  import Logs
  import opened RepairSurvival

  // The suffix is decided in the round, by certificates that are all of it and for entries of their
  // own logs, and can be applied.
  ghost predicate Decides(x: Setting, w: World, msgs: seq<StartMsg>, suffix: LogSuffix) {
    && Arises(x, w, true) && Reported(x, w, msgs) && FromRound(x, w.st, msgs) && |msgs| >= x.cfg.Quorum()
    && LogSuffixOf(x.cfg, msgs) == Some(suffix) && Appliable(suffix)
  }

  // The committed checkpoint of replica r, on its log.
  ghost predicate IsCommittedOf(w: World, r: nat, committed: Logs.LogCheckpoint) {
    && r in w.st.logs && r in w.committed && w.committed[r] == committed.logDigest
    && Logs.IsCheckpointOf(committed, w.st.logs[r])
  }

  ghost predicate AlwaysSurvives(cfg: Config, check: Check) {
    forall x: Setting, w: World, msgs: seq<StartMsg>, suffix: LogSuffix, d: Digest, r: nat,
      committed: Logs.LogCheckpoint ::
      x.cfg == cfg && x.check == check && x.Ok() && Decides(x, w, msgs, suffix)
      && Certified(x, w.st, d) && Numbered(d) && IsCommittedOf(w, r, committed) ==>
        Extends(Repaired(suffix, w.st.logs[r], committed), d)
  }

  lemma SurvivesThere(
    x: Setting, w: World, msgs: seq<StartMsg>, suffix: LogSuffix, d: Digest, r: nat, committed: Logs.LogCheckpoint)
    requires x.Guarded() && Decides(x, w, msgs, suffix)
    requires Certified(x, w.st, d) && Numbered(d) && IsCommittedOf(w, r, committed)
    ensures Extends(Repaired(suffix, w.st.logs[r], committed), d)
  {
    AcksRemembered(x, w, true);
    var steps :| Legal(x, steps) && Run(steps) == w.st;
    SuffixParts(x.cfg, msgs, suffix);
    CheckpointsBelow(msgs, suffix.checkpoint.seqNo);
    RoundCertsAgree(x, steps, msgs, suffix.checkpoint.seqNo, d);
    FastCommitSurvives(x, steps, msgs, suffix, d, w.st.logs[r], committed);
  }

  // ----- The forged round of RepairForgery

  lemma ForgedSound(cfg: Config)
    ensures SoundLogs(ForgedProposal(cfg))
  {
    DroppedLogs();
    SoundB();
    assert WellFormed(ForgedProposal(cfg));
  }

  lemma SoundB()
    ensures Logs.Executable(BThenZW) && PositiveIds(BThenZW) && NoRepeats(BThenZW)
    ensures Ids(OnlyB) == {RequestId(9, 1)}
  {
    assert Ids(OnlyB) == {RequestId(9, 1)};
    assert Ids(BThenZ) == {RequestId(9, 1), RequestId(2, 1)};
  }

  lemma ForgedAppliable(cfg: Config, suffix: LogSuffix)
    requires cfg.f >= 1 && LogSuffixOf(cfg, ForgedProposal(cfg)) == Some(suffix)
    ensures Appliable(suffix)
  {
    var msgs := ForgedProposal(cfg);
    ForgedSound(cfg);
    ForgedDecides(cfg);
    SoundB();
    forall e | e in suffix.entries ensures e.id !in Ids(suffix.checkpoint.logDigest) {
      var i := Requests.DecidedFromLog(cfg, msgs, suffix, e);
      assert e in LogBZW.entries;
    }
    DecidedAppliableIff(cfg, msgs, suffix);
  }

  lemma ForgedLost(x: Setting)
    requires x == ForgedSetting(x.cfg, x.check) && x.Ok() && !x.check.FullCheck?
    ensures !AlwaysSurvives(x.cfg, x.check)
  {
    var w := ForgedArises(x);
    var msgs := ForgedProposal(x.cfg);
    ForgedReported(x, w);
    ForgedDecides(x.cfg);
    var suffix := LogSuffixOf(x.cfg, msgs).value;
    ForgedAppliable(x.cfg, suffix);
    CorrectSize(x);
    var r :| r in x.Correct();
    var committed := Logs.LogCheckpoint(1, OnlyB, None, NoRecord, None);
    DroppedLogs();
    SoundB();
    NotSurviving(x, w, msgs, suffix, r, committed);
  }

  lemma NotSurviving(
    x: Setting, w: World, msgs: seq<StartMsg>, suffix: LogSuffix, r: nat, committed: Logs.LogCheckpoint)
    requires x.Ok() && Decides(x, w, msgs, suffix) && Certified(x, w.st, BThenY) && IsCommittedOf(w, r, committed)
    requires !Extends(Target(suffix), BThenY) && committed.seqNo < EndOf(suffix)
    ensures !AlwaysSurvives(x.cfg, x.check)
  {
    assert Numbered(BThenY);
    assert Repaired(suffix, w.st.logs[r], committed) == Target(suffix);
  }

  // Every fast commit of every round is in every correct replica's history after the repair exactly
  // when the checks of snapshot replies suffice.
  lemma FastCommitSurvivesIff(cfg: Config, check: Check)
    ensures AlwaysSurvives(cfg, check) <==> Suffices(cfg, check)
  {
    if Suffices(cfg, check) {
      forall x: Setting, w: World, msgs: seq<StartMsg>, suffix: LogSuffix, d: Digest, r: nat,
        committed: Logs.LogCheckpoint |
        x.cfg == cfg && x.check == check && x.Ok() && Decides(x, w, msgs, suffix)
        && Certified(x, w.st, d) && Numbered(d) && IsCommittedOf(w, r, committed)
        ensures Extends(Repaired(suffix, w.st.logs[r], committed), d)
      {
        SurvivesThere(x, w, msgs, suffix, d, r, committed);
      }
    } else {
      ForgedLost(ForgedSetting(cfg, check));
    }
  }
}
