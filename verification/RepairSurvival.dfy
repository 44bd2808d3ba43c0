// From the decision to the logs: the suffix that a proposal of the round decides can be applied,
// and applying it keeps what clients have committed.

module RepairSurvival {
  import opened Options
  import opened Digests
  import opened Quorums
  import opened ClientRecords
  import opened CounterApp
  import opened RepairSelection
  import opened RepairDurability
  import opened RoundSteps
  import opened RoundSafety
  import opened RepairGuarantees
  import Requests = RepairRequests
  import opened Logs
  import opened RepairBodies
  import opened RepairApply
  import opened RepairConvergence

  // ----- Decided entries are honest

  // An entry of a chained log is honest, and carries a request of the log's history.
  lemma LogEntrySound(log: RepairLog, e: ProtoEntry)
    requires ChainedLog(log) && e in log.entries
    requires Executable(Head(log)) && PositiveIds(Head(log))
    ensures EntryHonest(e) && Parses(e.requestDigest.request) && e.id.clientSeq >= 1
  {
    var i :| 0 <= i < |log.entries| && log.entries[i] == e;
    assert EntryChained(log, i);
    HeadOfLog(log);
    var s := log.checkpoint.seqNo + 1 + i;
    ExecutableUpto(Head(log), s);
    DistinctUpto(Head(log), s);
  }

  // ----- The target repeats nothing

  lemma {:induction false} TargetSound(d: Digest, entries: seq<ProtoEntry>)
    requires Executable(d) && PositiveIds(d)
    requires forall e :: e in entries ==> Parses(e.requestDigest.request) && e.id.clientSeq >= 1
    ensures Executable(TargetOf(d, entries)) && PositiveIds(TargetOf(d, entries))
  {
    if entries != [] {
      var n := |entries| - 1;
      TargetSound(d, entries[..n]);
    }
  }

  lemma {:induction false} TargetRepeatsNothingIff(d: Digest, entries: seq<ProtoEntry>)
    requires NoRepeats(d) && Requests.DistinctRequests(entries)
    ensures NoRepeats(TargetOf(d, entries)) <==> forall e :: e in entries ==> e.id !in Ids(d)
  {
    if entries != [] {
      var n := |entries| - 1;
      var front, last := entries[..n], entries[n];
      TargetRepeatsNothingIff(d, front);
      TargetIds(d, front);
      assert entries == front + [last];
      assert last.id !in IdsOf(front);
    }
  }

  // What the start messages are taken to be, besides well formed: their histories parse and
  // repeat no request, and the client record of a checkpoint is the one of its history.
  ghost predicate SoundLogs(msgs: seq<StartMsg>) {
    && WellFormed(msgs)
    && forall i :: 0 <= i < |msgs| ==>
         var log := msgs[i].log;
         && Executable(Head(log)) && PositiveIds(Head(log)) && NoRepeats(Head(log))
         && log.checkpoint.clientRecord == RecordOf(log.checkpoint.logDigest)
  }

  lemma DecidedEntriesSound(cfg: Config, msgs: seq<StartMsg>, suffix: LogSuffix)
    requires SoundLogs(msgs) && LogSuffixOf(cfg, msgs) == Some(suffix)
    ensures forall e :: e in suffix.entries ==> EntryHonest(e) && Parses(e.requestDigest.request) && e.id.clientSeq >= 1
  {
    forall e | e in suffix.entries
      ensures EntryHonest(e) && Parses(e.requestDigest.request) && e.id.clientSeq >= 1
    {
      var i := Requests.DecidedFromLog(cfg, msgs, suffix, e);
      LogEntrySound(msgs[i].log, e);
    }
  }

  lemma AppliableIff(suffix: LogSuffix)
    requires var ck := suffix.checkpoint;
             && Height(ck.logDigest) == ck.seqNo && ck.clientRecord == RecordOf(ck.logDigest)
             && Executable(ck.logDigest) && PositiveIds(ck.logDigest) && NoRepeats(ck.logDigest)
    requires forall e :: e in suffix.entries ==>
               EntryHonest(e) && Parses(e.requestDigest.request) && e.id.clientSeq >= 1
    requires Requests.DistinctRequests(suffix.entries)
    ensures Appliable(suffix) <==> forall e :: e in suffix.entries ==> e.id !in Ids(suffix.checkpoint.logDigest)
  {
    TargetSound(suffix.checkpoint.logDigest, suffix.entries);
    TargetRepeatsNothingIff(suffix.checkpoint.logDigest, suffix.entries);
  }

  // A decided suffix can be applied exactly when the checkpoint it was decided with has none of
  // its requests already; the source only logs that case.
  lemma DecidedAppliableIff(cfg: Config, msgs: seq<StartMsg>, suffix: LogSuffix)
    requires SoundLogs(msgs) && LogSuffixOf(cfg, msgs) == Some(suffix)
    requires OneBranch(cfg, msgs, suffix.checkpoint.seqNo)
    ensures Appliable(suffix) <==> forall e :: e in suffix.entries ==> e.id !in Ids(suffix.checkpoint.logDigest)
  {
    Requests.SuffixRepeatsNothing(cfg, msgs, suffix);
    DecidedEntriesSound(cfg, msgs, suffix);
    SuffixParts(cfg, msgs, suffix);
    CheckpointSound(msgs[CheckpointChoice(msgs)].log);
    AppliableIff(suffix);
  }

  lemma CheckpointSound(log: RepairLog)
    requires ChainedLog(log) && Executable(Head(log)) && PositiveIds(Head(log)) && NoRepeats(Head(log))
    ensures var d := log.checkpoint.logDigest;
            Height(d) == log.checkpoint.seqNo && Executable(d) && PositiveIds(d) && NoRepeats(d)
  {
    HeadOfLog(log);
    ExecutableUpto(Head(log), log.checkpoint.seqNo);
    DistinctUpto(Head(log), log.checkpoint.seqNo);
  }

  // ----- What is kept is in the target

  lemma {:induction false} KeptUpto(ck: Digest, entries: seq<ProtoEntry>, d: Digest, k: nat)
    requires forall e :: e in entries ==> EntryHonest(e)
    requires Numbered(d) && Extends(d, ck) && Follows(entries, Height(ck), d) && Height(ck) + k <= Height(d)
    ensures TargetOf(ck, entries[..k]) == Upto(d, Height(ck) + k)
  {
    if k > 0 {
      KeptUpto(ck, entries, d, k - 1);
      TargetNext(ck, entries, k - 1);
      KeptStep(d, entries[k - 1], Height(ck) + k);
    }
  }

  lemma KeptStep(d: Digest, e: ProtoEntry, s: nat)
    requires Numbered(d) && 1 <= s <= Height(d) && e.digest == Upto(d, s) && EntryHonest(e)
    ensures Upto(d, s) == Next(Upto(d, s - 1), e.id, e.requestDigest.request)
  {
    NumberedUpto(d, s);
    UptoUpto(d, s, s - 1);
  }

  lemma KeptAbove(ck: Digest, entries: seq<ProtoEntry>, d: Digest)
    requires forall e :: e in entries ==> EntryHonest(e)
    requires Numbered(d) && Extends(d, ck) && Follows(entries, Height(ck), d)
    ensures Extends(TargetOf(ck, entries), d)
  {
    var k := Height(d) - Height(ck);
    KeptUpto(ck, entries, d, k);
    TargetUpto(ck, entries, k);
  }

  lemma KeptBelow(ck: Digest, entries: seq<ProtoEntry>, d: Digest)
    requires Extends(ck, d)
    ensures Extends(TargetOf(ck, entries), d)
  {
    TargetUpto(ck, entries, 0);
    ExtendsTransitive(TargetOf(ck, entries), ck, d);
  }

  lemma KeptOnTarget(suffix: LogSuffix, d: Digest)
    requires Appliable(suffix) && Numbered(d) && Keeps(suffix, d)
    ensures Height(d) <= EndOf(suffix) && Extends(Target(suffix), d)
  {
    TargetHeight(suffix.checkpoint.logDigest, suffix.entries);
    if Height(d) <= suffix.checkpoint.seqNo {
      KeptBelow(suffix.checkpoint.logDigest, suffix.entries, d);
    } else {
      KeptAbove(suffix.checkpoint.logDigest, suffix.entries, d);
    }
  }

  // ----- Survival

  // Every correct replica's log extends what the round started from.
  lemma FewStrayFromBase(x: Setting, st: State, msgs: seq<StartMsg>, c: Digest)
    requires x.Ok() && Typed(x, st) && Proposed(x, st, msgs) && Extends(x.base, c)
    ensures |Strays(msgs, c)| <= x.cfg.f
  {
    var strays := Strays(msgs, c);
    var senders := SendersOf(msgs, strays);
    SendersSize(msgs, strays);
    forall r | r in senders ensures r in x.byz {
      var i :| i in strays && msgs[i].replicaId == r;
      if r in x.Correct() {
        ExtendsTransitive(st.logs[r], x.base, c);
      }
    }
    SubsetSize(senders, x.byz);
  }

  // A committed checkpoint is kept by every proposal whose certificate's log agrees with it.
  lemma CheckpointKept(x: Setting, steps: seq<Step>, c: Digest, msgs: seq<StartMsg>, suffix: LogSuffix)
    requires x.Guarded() && Legal(x, steps) && Committed(x, Run(steps), c)
    requires Proposed(x, Run(steps), msgs) && |msgs| >= x.cfg.Quorum()
    requires LogSuffixOf(x.cfg, msgs) == Some(suffix)
    requires Height(c) <= suffix.checkpoint.seqNo || HolderAgrees(msgs, suffix.checkpoint.seqNo, c)
    ensures Keeps(suffix, c)
  {
    FewStrayFromCommitted(x, steps, msgs, c);
    FewStraysKept(x.cfg, msgs, suffix, c);
  }

  lemma FewStrayFromCommitted(x: Setting, steps: seq<Step>, msgs: seq<StartMsg>, c: Digest)
    requires x.Guarded() && Legal(x, steps) && Committed(x, Run(steps), c) && Proposed(x, Run(steps), msgs)
    ensures |Strays(msgs, c)| <= x.cfg.f + x.cfg.e
  {
    RunKeeps(x, steps);
    if Checkpointed(x, Run(steps), c) {
      CorrectCommitter(x, Run(steps), c);
    }
    if Certified(x, Run(steps), c) {
      FewStray(x, steps, msgs, c);
    } else {
      FewStrayFromBase(x, Run(steps), msgs, c);
    }
  }

  // So every correct replica can apply the suffix: its committed prefix lies on the suffix's
  // chain, if the log of the chosen certificate agrees with it.
  lemma CommittedOnTarget(
    x: Setting, steps: seq<Step>, msgs: seq<StartMsg>, suffix: LogSuffix, h: Digest, committed: LogCheckpoint)
    requires x.Guarded() && Legal(x, steps) && Committed(x, Run(steps), committed.logDigest)
    requires Proposed(x, Run(steps), msgs) && |msgs| >= x.cfg.Quorum()
    requires LogSuffixOf(x.cfg, msgs) == Some(suffix) && Appliable(suffix)
    requires committed.seqNo <= suffix.checkpoint.seqNo ||
             HolderAgrees(msgs, suffix.checkpoint.seqNo, committed.logDigest)
    requires Numbered(h) && IsCheckpointOf(committed, h)
    requires suffix.checkpoint.seqNo <= committed.seqNo || Extends(h, suffix.checkpoint.logDigest)
    ensures Consistent(suffix, h, committed)
  {
    CheckpointKept(x, steps, committed.logDigest, msgs, suffix);
    NumberedUpto(h, committed.seqNo);
    KeptOnTarget(suffix, committed.logDigest);
  }

  // The history of a replica after the repair.
  function Repaired(suffix: LogSuffix, h: Digest, committed: LogCheckpoint): Digest {
    if committed.seqNo >= EndOf(suffix) then h else Target(suffix)
  }

  // A kept digest is in the history of every correct replica after the repair of that round,
  // whether the replica rewrites its log or is already too far ahead to.
  lemma KeptSurvives(
    x: Setting, steps: seq<Step>, suffix: LogSuffix, d: Digest, h: Digest, committed: LogCheckpoint)
    requires x.Guarded() && Legal(x, steps) && Decided(x, Run(steps), d) && Numbered(d)
    requires Appliable(suffix) && Keeps(suffix, d)
    requires IsCheckpointOf(committed, h) && Committed(x, Run(steps), committed.logDigest)
    ensures Extends(Repaired(suffix, h, committed), d)
  {
    KeptOnTarget(suffix, d);
    if committed.seqNo >= EndOf(suffix) {
      CommittedCompatible(x, steps, committed.logDigest, d);
      CompatibleLower(committed.logDigest, d);
      ExtendsTransitive(h, committed.logDigest, d);
    }
  }

  lemma CompatibleLower(c: Digest, d: Digest)
    requires Compatible(c, d) && Height(d) <= Height(c)
    ensures Extends(c, d)
  {
    if Extends(d, c) {
      assert c == d;
    }
  }

  // Durability, end to end: what a client committed on the fast path in a round is in the history
  // of every correct replica after the repair of that round, if the log of the chosen certificate
  // agrees with it.
  lemma FastCommitSurvives(
    x: Setting, steps: seq<Step>, msgs: seq<StartMsg>, suffix: LogSuffix, d: Digest, h: Digest,
    committed: LogCheckpoint)
    requires x.Guarded() && Legal(x, steps) && Certified(x, Run(steps), d) && Numbered(d)
    requires Proposed(x, Run(steps), msgs) && |msgs| >= x.cfg.Quorum()
    requires LogSuffixOf(x.cfg, msgs) == Some(suffix) && Appliable(suffix)
    requires Height(d) <= suffix.checkpoint.seqNo || HolderAgrees(msgs, suffix.checkpoint.seqNo, d)
    requires IsCheckpointOf(committed, h) && Committed(x, Run(steps), committed.logDigest)
    ensures Extends(Repaired(suffix, h, committed), d)
  {
    FastCommitSurvivesRepair(x, steps, d, msgs, suffix);
    KeptSurvives(x, steps, suffix, d, h, committed);
  }

  // The same for what a quorum replied, if e >= f.
  lemma QuorumReplySurvives(
    x: Setting, steps: seq<Step>, msgs: seq<StartMsg>, suffix: LogSuffix, d: Digest, h: Digest,
    committed: LogCheckpoint)
    requires x.Guarded() && Legal(x, steps) && QuorumReplied(x, Run(steps), d) && Numbered(d) && x.cfg.e >= x.cfg.f
    requires Proposed(x, Run(steps), msgs) && |msgs| >= x.cfg.Quorum()
    requires LogSuffixOf(x.cfg, msgs) == Some(suffix) && Appliable(suffix)
    requires Height(d) <= suffix.checkpoint.seqNo || HolderAgrees(msgs, suffix.checkpoint.seqNo, d)
    requires IsCheckpointOf(committed, h) && Committed(x, Run(steps), committed.logDigest)
    ensures Extends(Repaired(suffix, h, committed), d)
  {
    QuorumReplySurvivesRepair(x, steps, d, msgs, suffix);
    KeptSurvives(x, steps, suffix, d, h, committed);
  }

  // A replica with this history and checkpoint gets the suffix of a round in which d was committed
  // on the fast path, or was replied by a quorum and e >= f.
  ghost predicate AfterCommit(
    x: Setting, steps: seq<Step>, msgs: seq<StartMsg>, suffix: LogSuffix, d: Digest, h: Digest,
    committed: LogCheckpoint) {
    && x.Guarded() && Legal(x, steps) && Numbered(d)
    && (Certified(x, Run(steps), d) || (QuorumReplied(x, Run(steps), d) && x.cfg.e >= x.cfg.f))
    && Proposed(x, Run(steps), msgs) && |msgs| >= x.cfg.Quorum()
    && LogSuffixOf(x.cfg, msgs) == Some(suffix) && Appliable(suffix)
    && (Height(d) <= suffix.checkpoint.seqNo || HolderAgrees(msgs, suffix.checkpoint.seqNo, d))
    && Executable(h) && IsCheckpointOf(committed, h) && Committed(x, Run(steps), committed.logDigest)
    && (committed.seqNo <= suffix.checkpoint.seqNo ||
        HolderAgrees(msgs, suffix.checkpoint.seqNo, committed.logDigest))
    && (suffix.checkpoint.seqNo <= committed.seqNo || Extends(h, suffix.checkpoint.logDigest))
  }

  // It can apply the suffix, and then has the digest.
  lemma RepairKeeps(
    x: Setting, steps: seq<Step>, msgs: seq<StartMsg>, suffix: LogSuffix, d: Digest, h: Digest,
    committed: LogCheckpoint)
    requires AfterCommit(x, steps, msgs, suffix, d, h, committed)
    ensures Appliable(suffix) && Consistent(suffix, h, committed) && Extends(Repaired(suffix, h, committed), d)
  {
    ExecutableNumbered(h);
    CommittedOnTarget(x, steps, msgs, suffix, h, committed);
    FastCommitSurvives(x, steps, msgs, suffix, d, h, committed);
  }

  // On a log: with requests at hand that fit, the replica applies the suffix, and has what was
  // committed on the fast path or, with e >= f, what a quorum replied.
  method RepairWithCommitted(
    suffix: LogSuffix, available: map<RequestId, Request>, log: Log,
    ghost x: Setting, ghost steps: seq<Step>, ghost msgs: seq<StartMsg>, ghost d: Digest)
    returns (result: Result, ghost kept: nat)
    requires log.Valid() && AfterCommit(x, steps, msgs, suffix, d, log.History(), log.committed)
    modifies log`log, log`nextSeq, log`clientRecord, log.app
    ensures log.committed.seqNo < EndOf(suffix) ==>
              && AgreesFor(suffix, old(log.History()), log.committed.seqNo, kept)
              && (result == Applied <==> BodiesFit(suffix, available, old(log.History()), kept))
    ensures result == Applied ==> Extends(log.History(), d)
  {
    RepairKeeps(x, steps, msgs, suffix, d, log.History(), log.committed);
    result, kept := ApplySuffix(suffix, available, log);
  }

  // ----- The certificate after a repair

  // Rewriting the log does not clear its certificate (lib/log.cc:100-122).  The next start message
  // carries it still; it is for an entry of that message's log exactly when the suffix led back to
  // the certificate's entry, or a checkpoint covers it.
  method StartAfterRepair(suffix: LogSuffix, available: map<RequestId, Request>, log: Log, full: bool)
    returns (result: Result, msg: RepairLog)
    requires log.Valid() && log.CertOnLog() && Appliable(suffix) && Consistent(suffix, log.History(), log.committed)
    requires log.committed.seqNo < EndOf(suffix)
    modifies log`log, log`nextSeq, log`clientRecord, log.app
    ensures result == Applied ==> Head(msg) == Target(suffix) && msg.cert == log.latestCert == old(log.latestCert)
    ensures result == Applied ==>
              (CertInLog(msg) <==>
               log.latestCert.None? || log.latestCert.value.seqNo <= log.committed.seqNo
               || Extends(Target(suffix), log.latestCert.value.digest))
  {
    ghost var kept: nat;
    msg := RepairLog(Checkpoint(0, Genesis, NoRecord), [], None);
    result, kept := ApplySuffix(suffix, available, log);
    if result == Applied {
      msg := log.ToProto(full);
    }
  }
}
