// How a replica rewrites its log to the suffix that a repair decided: getAbortedEntries and
// applySuffix of lib/repair_utils.cc.

module RepairApply {
  import opened Options
  import opened Digests
  import opened ClientRecords
  import opened CounterApp
  import opened RepairSelection
  import opened RepairDurability
  import opened Realignment
  import opened Logs
  import opened RepairBodies

  // ----- Where a suffix leads

  // The history that the entries lead to, by the request digests they carry.
  function TargetOf(d: Digest, entries: seq<ProtoEntry>): Digest {
    if entries == [] then d
    else
      var last := entries[|entries| - 1];
      Next(TargetOf(d, entries[..|entries| - 1]), last.id, last.requestDigest.request)
  }

  function Target(suffix: LogSuffix): Digest {
    TargetOf(suffix.checkpoint.logDigest, suffix.entries)
  }

  function EndOf(suffix: LogSuffix): nat {
    suffix.checkpoint.seqNo + |suffix.entries|
  }

  lemma {:induction false} TargetHeight(d: Digest, entries: seq<ProtoEntry>)
    ensures Height(TargetOf(d, entries)) == Height(d) + |entries|
  {
    if entries != [] {
      TargetHeight(d, entries[..|entries| - 1]);
    }
  }

  lemma TargetNext(d: Digest, entries: seq<ProtoEntry>, k: nat)
    requires k < |entries|
    ensures TargetOf(d, entries[..k + 1]) ==
            Next(TargetOf(d, entries[..k]), entries[k].id, entries[k].requestDigest.request)
  {
    assert entries[..k + 1][..k] == entries[..k];
  }

  lemma {:induction false} TargetUpto(d: Digest, entries: seq<ProtoEntry>, k: nat)
    requires k <= |entries|
    ensures Height(TargetOf(d, entries)) == Height(d) + |entries|
    ensures Upto(TargetOf(d, entries), Height(d) + k) == TargetOf(d, entries[..k])
  {
    var n := |entries|;
    TargetHeight(d, entries);
    if k == n {
      assert entries[..k] == entries;
    } else {
      TargetUpto(d, entries[..n - 1], k);
      assert entries[..n - 1][..k] == entries[..k];
      TargetHeight(d, entries[..n - 1]);
    }
  }

  lemma {:induction false} TargetIds(d: Digest, entries: seq<ProtoEntry>)
    ensures Ids(TargetOf(d, entries)) == Ids(d) + IdsOf(entries)
  {
    if entries != [] {
      var n := |entries|;
      TargetIds(d, entries[..n - 1]);
      assert IdsOf(entries) == IdsOf(entries[..n - 1]) + {entries[n - 1].id} by {
        assert entries == entries[..n - 1] + [entries[n - 1]];
      }
    }
  }

  // A history without repeats leads to distinct entries.
  lemma {:induction false} TargetDistinct(d: Digest, entries: seq<ProtoEntry>)
    requires NoRepeats(TargetOf(d, entries))
    ensures Distinct(entries)
  {
    if entries != [] {
      var front, last := entries[..|entries| - 1], entries[|entries| - 1];
      TargetDistinct(d, front);
      TargetIds(d, front);
      forall i, j | 0 <= i < j < |entries| ensures entries[i].id != entries[j].id {
        assert entries[i] == front[i];
        if j == |entries| - 1 {
          assert front[i] in front;
        }
      }
    }
  }

  // The suffix digest that the proposal computes is the one that applying it leads to exactly
  // when every entry's request field is the request that was hashed.  Without full requests in
  // the start messages the field is empty, so the digests differ.
  lemma {:induction false} ClaimedDigestRightIff(d: Digest, entries: seq<ProtoEntry>)
    ensures ClaimedDigest(d, Height(d), entries) == TargetOf(d, entries) <==>
            forall e :: e in entries ==> e.Body() == e.requestDigest.request
  {
    if entries != [] {
      var n := |entries|;
      var front, last := entries[..n - 1], entries[n - 1];
      ClaimedDigestRightIff(d, front);
      TargetHeight(d, front);
      assert entries == front + [last];
    }
  }

  // The assumptions on a decided suffix: the checkpoint is consistent, the entries are honest,
  // the requests parse, and no request is repeated or already in the checkpoint.
  ghost predicate Appliable(suffix: LogSuffix) {
    && Height(suffix.checkpoint.logDigest) == suffix.checkpoint.seqNo
    && suffix.checkpoint.clientRecord == RecordOf(suffix.checkpoint.logDigest)
    && (forall e :: e in suffix.entries ==> EntryHonest(e))
    && Executable(Target(suffix))
    && PositiveIds(Target(suffix)) && NoRepeats(Target(suffix))
  }

  // The log agrees with the suffix up to the suffix checkpoint (what the source asserts), and its
  // committed prefix lies on the suffix's chain.
  ghost predicate Consistent(suffix: LogSuffix, h: Digest, committed: LogCheckpoint) {
    && (suffix.checkpoint.seqNo <= committed.seqNo || Extends(h, suffix.checkpoint.logDigest))
    && (committed.seqNo < EndOf(suffix) ==> Extends(Target(suffix), committed.logDigest))
  }

  // Both agree up to position s.
  ghost predicate AgreeUpto(suffix: LogSuffix, h: Digest, s: nat) {
    suffix.checkpoint.seqNo <= s <= Height(h) && s <= Height(Target(suffix)) && Upto(h, s) == Upto(Target(suffix), s)
  }

  lemma AgreeAtCheckpoint(suffix: LogSuffix, h: Digest, committed: LogCheckpoint)
    requires Appliable(suffix) && Consistent(suffix, h, committed) && IsCheckpointOf(committed, h)
    requires committed.seqNo < EndOf(suffix)
    ensures AgreeUpto(suffix, h, suffix.checkpoint.seqNo)
    ensures suffix.checkpoint.seqNo <= committed.seqNo ==> AgreeUpto(suffix, h, committed.seqNo)
    ensures Height(Target(suffix)) == EndOf(suffix)
  {
    var ck, t := suffix.checkpoint, Target(suffix);
    TargetUpto(ck.logDigest, suffix.entries, 0);
    if ck.seqNo <= committed.seqNo {
      UptoUpto(h, committed.seqNo, ck.seqNo);
      UptoUpto(t, committed.seqNo, ck.seqNo);
    }
  }

  lemma AgreeBelow(suffix: LogSuffix, h: Digest, s: nat, t: nat)
    requires AgreeUpto(suffix, h, t) && suffix.checkpoint.seqNo <= s <= t
    ensures AgreeUpto(suffix, h, s)
  {
    UptoUpto(h, t, s);
    UptoUpto(Target(suffix), t, s);
  }

  // The suffix's position s + 1 shows in the chain.
  lemma TargetStep(suffix: LogSuffix, k: nat)
    requires Appliable(suffix) && k < |suffix.entries|
    ensures var s := suffix.checkpoint.seqNo + k;
            var e := suffix.entries[k];
            && Height(Target(suffix)) == EndOf(suffix)
            && Upto(Target(suffix), s + 1) == Next(Upto(Target(suffix), s), e.id, e.requestDigest.request)
            && RecordOf(Upto(Target(suffix), s + 1)) == RecordOf(Upto(Target(suffix), s)).Update(e.id)
  {
    TargetUpto(suffix.checkpoint.logDigest, suffix.entries, k);
    TargetUpto(suffix.checkpoint.logDigest, suffix.entries, k + 1);
    TargetNext(suffix.checkpoint.logDigest, suffix.entries, k);
  }

  // An own entry whose digest is the one in the suffix continues the agreement.
  lemma AgreeStep(suffix: LogSuffix, h: Digest, k: nat)
    requires Appliable(suffix) && k < |suffix.entries| && Executable(h)
    requires AgreeUpto(suffix, h, suffix.checkpoint.seqNo + k) && suffix.checkpoint.seqNo + k < Height(h)
    requires Upto(h, suffix.checkpoint.seqNo + k + 1) == suffix.entries[k].digest
    ensures AgreeUpto(suffix, h, suffix.checkpoint.seqNo + k + 1)
  {
    var s := suffix.checkpoint.seqNo + k;
    TargetStep(suffix, k);
    assert EntryHonest(suffix.entries[k]);
    ExecutableUpto(h, s + 1);
    UptoUpto(h, s + 1, s);
  }

  // Appending the next entry of the suffix follows the chain: it is never a duplicate.
  lemma AppendStep(suffix: LogSuffix, k: nat)
    requires Appliable(suffix) && k < |suffix.entries|
    ensures var s := suffix.checkpoint.seqNo + k;
            var e := suffix.entries[k];
            && Height(Target(suffix)) == EndOf(suffix)
            && Realignment.AddOnce(Upto(Target(suffix), s), e.id, e.requestDigest.request) ==
               Upto(Target(suffix), s + 1)
            && Parses(e.requestDigest.request) && e.id.clientSeq >= 1
  {
    var s, t := suffix.checkpoint.seqNo + k, Target(suffix);
    TargetStep(suffix, k);
    DistinctUpto(t, s + 1);
    ExecutableUpto(t, s + 1);
    RecordOfHistory(Upto(t, s));
    RecordUpdated(RecordOf(Upto(t, s)), suffix.entries[k].id);
  }

  method SaveAborted(log: Log, from: nat, available: map<RequestId, Request>) returns (bodies: map<RequestId, Request>)
    requires log.Core() && log.stable.seqNo < from <= log.nextSeq
    ensures bodies == Saved(available, log.History(), from - 1)
  {
    bodies := available;
    ghost var h := log.History();
    for s := from to log.nextSeq
      invariant bodies == Saved(available, Upto(h, s - 1), from - 1)
    {
      UptoUpto(h, s, s - 1);
      var entry := log.GetEntry(s).value;
      bodies := bodies[entry.id := entry.request];
    }
  }

  // ----- Applying a suffix

  // The first idx entries of the suffix are in the history, and counted in the record.
  ghost predicate Skipped(suffix: LogSuffix, h: Digest, record: Record, idx: nat) {
    && idx <= |suffix.entries|
    && AgreeUpto(suffix, h, suffix.checkpoint.seqNo + idx)
    && record == RecordOf(Upto(Target(suffix), suffix.checkpoint.seqNo + idx))
  }

  lemma SkipCommitted(suffix: LogSuffix, h: Digest, committedSeq: nat, record: Record, idx: nat)
    requires Appliable(suffix) && Skipped(suffix, h, record, idx) && idx < |suffix.entries|
    requires suffix.checkpoint.seqNo + idx + 1 <= committedSeq && AgreeUpto(suffix, h, committedSeq)
    ensures Skipped(suffix, h, record.Update(suffix.entries[idx].id), idx + 1)
  {
    TargetStep(suffix, idx);
    AgreeBelow(suffix, h, suffix.checkpoint.seqNo + idx + 1, committedSeq);
  }

  lemma SkipEqual(suffix: LogSuffix, h: Digest, record: Record, idx: nat)
    requires Appliable(suffix) && Executable(h) && Skipped(suffix, h, record, idx) && idx < |suffix.entries|
    requires suffix.checkpoint.seqNo + idx < Height(h)
    requires Upto(h, suffix.checkpoint.seqNo + idx + 1) == suffix.entries[idx].digest
    ensures Skipped(suffix, h, record.Update(suffix.entries[idx].id), idx + 1)
  {
    TargetStep(suffix, idx);
    AgreeStep(suffix, h, idx);
  }

  lemma SkippedNone(suffix: LogSuffix, h: Digest, committed: LogCheckpoint)
    requires Appliable(suffix) && Consistent(suffix, h, committed) && IsCheckpointOf(committed, h)
    requires committed.seqNo < EndOf(suffix)
    ensures Skipped(suffix, h, suffix.checkpoint.clientRecord, 0)
    ensures suffix.checkpoint.seqNo <= committed.seqNo ==> AgreeUpto(suffix, h, committed.seqNo)
    ensures Height(Target(suffix)) == EndOf(suffix)
  {
    AgreeAtCheckpoint(suffix, h, committed);
    TargetUpto(suffix.checkpoint.logDigest, suffix.entries, 0);
  }

  // Position s of the history counts as agreeing with the suffix: it is committed, or has the digest
  // of the suffix's entry.
  ghost predicate Agrees(suffix: LogSuffix, h: Digest, committedSeq: nat, s: nat)
    requires suffix.checkpoint.seqNo < s <= EndOf(suffix)
  {
    s <= Height(h) && (s <= committedSeq || Upto(h, s) == suffix.entries[s - suffix.checkpoint.seqNo - 1].digest)
  }

  ghost predicate AgreesBelow(suffix: LogSuffix, h: Digest, committedSeq: nat, idx: nat) {
    && idx <= |suffix.entries|
    && forall s :: suffix.checkpoint.seqNo < s <= suffix.checkpoint.seqNo + idx ==> Agrees(suffix, h, committedSeq, s)
  }

  // The first idx entries of the suffix agree, and the next one does not.
  ghost predicate AgreesFor(suffix: LogSuffix, h: Digest, committedSeq: nat, idx: nat) {
    && AgreesBelow(suffix, h, committedSeq, idx)
    && (idx < |suffix.entries| ==> !Agrees(suffix, h, committedSeq, suffix.checkpoint.seqNo + idx + 1))
  }

  lemma AgreesMore(suffix: LogSuffix, h: Digest, committedSeq: nat, idx: nat)
    requires AgreesBelow(suffix, h, committedSeq, idx) && idx < |suffix.entries|
    requires Agrees(suffix, h, committedSeq, suffix.checkpoint.seqNo + idx + 1)
    ensures AgreesBelow(suffix, h, committedSeq, idx + 1)
  {
  }

  // The first idx entries are counted: they agree, and the record has them.
  ghost predicate Counted(suffix: LogSuffix, h: Digest, committedSeq: nat, record: Record, idx: nat) {
    Skipped(suffix, h, record, idx) && AgreesBelow(suffix, h, committedSeq, idx)
  }

  lemma {:induction false} CountMore(suffix: LogSuffix, h: Digest, committedSeq: nat, record: Record, idx: nat)
    requires Appliable(suffix) && Executable(h) && Counted(suffix, h, committedSeq, record, idx)
    requires idx < |suffix.entries| && Agrees(suffix, h, committedSeq, suffix.checkpoint.seqNo + idx + 1)
    requires suffix.checkpoint.seqNo <= committedSeq ==> AgreeUpto(suffix, h, committedSeq)
    ensures Counted(suffix, h, committedSeq, record.Update(suffix.entries[idx].id), idx + 1)
  {
    if suffix.checkpoint.seqNo + idx + 1 <= committedSeq {
      SkipCommitted(suffix, h, committedSeq, record, idx);
    } else {
      SkipEqual(suffix, h, record, idx);
    }
    AgreesMore(suffix, h, committedSeq, idx);
  }

  // Skips the entries that the log already has, counting them in the record: the committed ones
  // unchecked, the others as long as the digests agree.
  method CountConsistent(suffix: LogSuffix, log: Log) returns (idx: nat, record: Record)
    requires log.Valid() && Appliable(suffix) && Consistent(suffix, log.History(), log.committed)
    requires log.committed.seqNo < EndOf(suffix)
    ensures log.committed.seqNo <= suffix.checkpoint.seqNo + idx
    ensures Skipped(suffix, log.History(), record, idx)
    ensures AgreesFor(suffix, log.History(), log.committed.seqNo, idx)
  {
    ghost var h := log.History();
    SkippedNone(suffix, h, log.committed);
    record := suffix.checkpoint.clientRecord;
    idx := 0;
    var s := suffix.checkpoint.seqNo + 1;
    while idx < |suffix.entries| && s < log.nextSeq
      invariant s == suffix.checkpoint.seqNo + idx + 1 && Counted(suffix, h, log.committed.seqNo, record, idx)
      decreases |suffix.entries| - idx
    {
      if s > log.committed.seqNo && log.GetDigest(s).value != suffix.entries[idx].digest {
        break;
      }
      CountMore(suffix, h, log.committed.seqNo, record, idx);
      record := record.Update(suffix.entries[idx].id);
      idx := idx + 1;
      s := s + 1;
    }
  }

  method SkipConsistent(suffix: LogSuffix, log: Log) returns (idx: nat)
    requires log.Valid() && Appliable(suffix) && Consistent(suffix, log.History(), log.committed)
    requires log.committed.seqNo < EndOf(suffix)
    modifies log`clientRecord
    ensures log.Valid() && log.History() == old(log.History())
    ensures log.committed.seqNo <= suffix.checkpoint.seqNo + idx
    ensures Skipped(suffix, log.History(), log.clientRecord, idx)
    ensures AgreesFor(suffix, log.History(), log.committed.seqNo, idx)
  {
    var record: Record;
    idx, record := CountConsistent(suffix, log);
    log.clientRecord := record;
  }

  // The log is the suffix's chain up to entry idx.
  ghost predicate OnSuffix(suffix: LogSuffix, log: Log, idx: nat)
    reads log, log.app
  {
    && log.Valid() && log.InSync()
    && idx <= |suffix.entries| && Height(Target(suffix)) == EndOf(suffix)
    && log.History() == Upto(Target(suffix), suffix.checkpoint.seqNo + idx)
  }

  // Appends entry idx, if the body at hand is the request that it was hashed with.
  method AppendOne(suffix: LogSuffix, idx: nat, body: Request, log: Log) returns (ok: bool)
    requires Appliable(suffix) && idx < |suffix.entries| && OnSuffix(suffix, log, idx)
    modifies log`log, log`nextSeq, log`clientRecord, log.app
    ensures ok <==> Sha(body) == suffix.entries[idx].requestDigest
    ensures ok ==> OnSuffix(suffix, log, idx + 1)
  {
    if Sha(body) != suffix.entries[idx].requestDigest {
      return false;
    }
    AppendStep(suffix, idx);
    log.AddOnce(suffix.entries[idx].id, body);
    return true;
  }

  // Appends the entries from index idx on; false where the source throws because a body does not
  // match its digest.
  method AppendRest(suffix: LogSuffix, idx: nat, bodies: map<RequestId, Request>, log: Log) returns (ok: bool)
    requires Appliable(suffix) && OnSuffix(suffix, log, idx)
    requires HaveFrom(bodies, suffix.entries, idx)
    modifies log`log, log`nextSeq, log`clientRecord, log.app
    ensures ok <==> Match(bodies, suffix.entries, idx, |suffix.entries|)
    ensures ok ==> OnSuffix(suffix, log, |suffix.entries|)
  {
    for i := idx to |suffix.entries|
      invariant OnSuffix(suffix, log, i) && Match(bodies, suffix.entries, idx, i)
    {
      ok := AppendOne(suffix, i, bodies[suffix.entries[i].id], log);
      if !ok {
        MatchFails(bodies, suffix.entries, idx, i);
        return false;
      }
      MatchMore(bodies, suffix.entries, idx, i);
    }
    return true;
  }

  // Aborts what follows the shared entries.
  method CutTo(suffix: LogSuffix, idx: nat, log: Log)
    requires log.Valid() && Appliable(suffix) && log.committed.seqNo <= suffix.checkpoint.seqNo + idx
    requires Skipped(suffix, log.History(), log.clientRecord, idx)
    modifies log`log, log`nextSeq, log.app
    ensures OnSuffix(suffix, log, idx)
    ensures log.History() == Upto(old(log.History()), suffix.checkpoint.seqNo + idx)
  {
    SkippedCut(suffix, log.History(), log.clientRecord, idx);
    CutInSync(log, suffix.checkpoint.seqNo + idx + 1);
  }

  // Cuts the log before s; it is in sync if its record is the one of what is left.
  method CutInSync(log: Log, s: nat)
    requires log.Valid() && log.committed.seqNo < s <= log.nextSeq
    requires log.clientRecord == RecordOf(Upto(log.History(), s - 1))
    requires PositiveIds(Upto(log.History(), s - 1)) && NoRepeats(Upto(log.History(), s - 1))
    modifies log`log, log`nextSeq, log.app
    ensures log.Valid() && log.InSync() && log.History() == Upto(old(log.History()), s - 1)
  {
    ghost var p := Upto(log.History(), s - 1);
    var _ := log.Abort(s);
    assert log.History() == p;
  }

  lemma SkippedCut(suffix: LogSuffix, h: Digest, record: Record, idx: nat)
    requires Appliable(suffix) && Skipped(suffix, h, record, idx)
    ensures Height(Target(suffix)) == EndOf(suffix) && suffix.checkpoint.seqNo + idx <= Height(h)
    ensures var p := Upto(h, suffix.checkpoint.seqNo + idx);
            && p == Upto(Target(suffix), suffix.checkpoint.seqNo + idx)
            && record == RecordOf(p) && PositiveIds(p) && NoRepeats(p)
  {
    TargetHeight(suffix.checkpoint.logDigest, suffix.entries);
    DistinctUpto(Target(suffix), suffix.checkpoint.seqNo + idx);
  }

  // Drops what the log does not share with the suffix; the requests dropped are at hand after.
  method CutBack(suffix: LogSuffix, available: map<RequestId, Request>, log: Log)
    returns (idx: nat, have: map<RequestId, Request>)
    requires log.Valid() && Appliable(suffix) && Consistent(suffix, log.History(), log.committed)
    requires log.committed.seqNo < EndOf(suffix)
    modifies log`log, log`nextSeq, log`clientRecord, log.app
    ensures log.committed.seqNo <= suffix.checkpoint.seqNo + idx && OnSuffix(suffix, log, idx)
    ensures AgreeUpto(suffix, old(log.History()), suffix.checkpoint.seqNo + idx)
    ensures AgreesFor(suffix, old(log.History()), log.committed.seqNo, idx)
    ensures log.History() == Upto(old(log.History()), suffix.checkpoint.seqNo + idx)
    ensures have == Saved(available, old(log.History()), suffix.checkpoint.seqNo + idx)
  {
    ghost var own := log.History();
    idx := SkipConsistent(suffix, log);
    var s := suffix.checkpoint.seqNo + idx + 1;
    assert log.stable.seqNo < s <= log.nextSeq && AgreeUpto(suffix, own, s - 1);
    have := SaveAborted(log, s, available);
    CutTo(suffix, idx, log);
  }

  // Appends the rest of the suffix if the requests are at hand.
  method FillIn(suffix: LogSuffix, idx: nat, have: map<RequestId, Request>, log: Log) returns (result: Result)
    requires Appliable(suffix) && OnSuffix(suffix, log, idx)
    modifies log`log, log`nextSeq, log`clientRecord, log.app
    ensures result == ResultOf(have, suffix.entries[idx..])
    ensures result == Applied ==> OnSuffix(suffix, log, |suffix.entries|)
    ensures result.Waiting? ==> OnSuffix(suffix, log, idx) && log.History() == old(log.History())
  {
    ghost var rest := suffix.entries[idx..];
    var bodies, missing := GatherBodies(suffix.entries[idx..], have);
    if missing != [] {
      return Waiting(missing);
    }
    NothingMissingHave(have, rest);
    forall j | idx <= j < |suffix.entries| ensures suffix.entries[j].id in bodies {
      assert suffix.entries[j] == rest[j - idx];
    }
    MatchShift(bodies, suffix.entries, idx);
    var ok := AppendRest(suffix, idx, bodies, log);
    result := if ok then Applied else Clash;
  }

  lemma MatchShift(bodies: map<RequestId, Request>, entries: seq<ProtoEntry>, idx: nat)
    requires idx <= |entries|
    ensures Match(bodies, entries, idx, |entries|) <==> Match(bodies, entries[idx..], 0, |entries| - idx)
  {
    var rest := entries[idx..];
    if Match(bodies, rest, 0, |rest|) {
      forall j | idx <= j < |entries|
        ensures entries[j].id in bodies && Sha(bodies[entries[j].id]) == entries[j].requestDigest
      {
        assert rest[j - idx] == entries[j];
      }
    }
  }

  // Whether there is a request that fits for every entry above the shared ones.
  ghost predicate BodiesFit(suffix: LogSuffix, available: map<RequestId, Request>, h: Digest, kept: nat) {
    forall j :: kept <= j < |suffix.entries| ==>
                  BodyFits(suffix.entries[j], available, h, suffix.checkpoint.seqNo + kept)
  }

  // Entry j is above the shared ones, and there is no request for it.
  ghost predicate Lacks(suffix: LogSuffix, available: map<RequestId, Request>, h: Digest, kept: nat, j: nat) {
    kept <= j < |suffix.entries| && NoBody(suffix.entries[j], available, h, suffix.checkpoint.seqNo + kept)
  }

  // What an attempt comes to, in terms of the entries and of the history before it.
  ghost predicate Outcomes(
    suffix: LogSuffix, available: map<RequestId, Request>, h: Digest, kept: nat, result: Result) {
    && (result == Applied <==> BodiesFit(suffix, available, h, kept))
    && (result.Waiting? <==> exists j :: Lacks(suffix, available, h, kept, j))
    && (result.Waiting? ==>
          forall j :: kept <= j < |suffix.entries| ==>
                        (suffix.entries[j].id in result.missing <==> Lacks(suffix, available, h, kept, j)))
  }

  lemma OutcomesOf(suffix: LogSuffix, available: map<RequestId, Request>, h: Digest, kept: nat)
    requires Appliable(suffix) && kept <= |suffix.entries|
    ensures Outcomes(suffix, available, h, kept,
              ResultOf(Saved(available, h, suffix.checkpoint.seqNo + kept), suffix.entries[kept..]))
  {
    var rest := suffix.entries[kept..];
    TargetDistinct(suffix.checkpoint.logDigest, suffix.entries);
    ResultIff(available, h, suffix.checkpoint.seqNo + kept, rest);
    OutcomesShift(suffix, available, h, kept,
      ResultOf(Saved(available, h, suffix.checkpoint.seqNo + kept), rest));
  }

  // From the entries above the shared ones to their positions in the suffix.
  lemma OutcomesShift(
    suffix: LogSuffix, available: map<RequestId, Request>, h: Digest, kept: nat, result: Result)
    requires kept <= |suffix.entries|
    requires var rest, lo := suffix.entries[kept..], suffix.checkpoint.seqNo + kept;
             && (result == Applied <==> forall e :: e in rest ==> BodyFits(e, available, h, lo))
             && (result.Waiting? <==> exists e :: e in rest && NoBody(e, available, h, lo))
             && (result.Waiting? ==>
                   forall e :: e in rest ==> (e.id in result.missing <==> NoBody(e, available, h, lo)))
    ensures Outcomes(suffix, available, h, kept, result)
  {
    var rest, lo := suffix.entries[kept..], suffix.checkpoint.seqNo + kept;
    forall j | kept <= j < |suffix.entries| ensures suffix.entries[j] in rest {
      assert suffix.entries[j] == rest[j - kept];
    }
    forall e | e in rest ensures exists j :: kept <= j < |suffix.entries| && suffix.entries[j] == e {
      var i :| 0 <= i < |rest| && rest[i] == e;
      assert suffix.entries[kept + i] == e;
    }
    if result.Waiting? {
      var e :| e in rest && NoBody(e, available, h, lo);
      var j :| kept <= j < |suffix.entries| && suffix.entries[j] == e;
      assert Lacks(suffix, available, h, kept, j);
    }
  }

  // An attempt that finds the first `kept` entries in the log, and its outcome.
  ghost predicate Tried(
    suffix: LogSuffix, available: map<RequestId, Request>, h: Digest, committedSeq: nat, kept: nat, result: Result) {
    && AgreesFor(suffix, h, committedSeq, kept)
    && AgreeUpto(suffix, h, suffix.checkpoint.seqNo + kept)
    && Outcomes(suffix, available, h, kept, result)
  }

  // The part of applySuffix for a suffix that goes beyond the committed checkpoint.
  method ApplyBeyond(suffix: LogSuffix, available: map<RequestId, Request>, log: Log)
    returns (result: Result, ghost kept: nat)
    requires log.Valid() && Appliable(suffix) && Consistent(suffix, log.History(), log.committed)
    requires log.committed.seqNo < EndOf(suffix)
    modifies log`log, log`nextSeq, log`clientRecord, log.app
    ensures log.committed.seqNo <= suffix.checkpoint.seqNo + kept
    ensures Tried(suffix, available, old(log.History()), log.committed.seqNo, kept, result)
    ensures result == Applied ==> OnSuffix(suffix, log, |suffix.entries|)
    ensures result.Waiting? ==>
              OnSuffix(suffix, log, kept)
              && log.History() == Upto(old(log.History()), suffix.checkpoint.seqNo + kept)
  {
    ghost var own := log.History();
    var idx, have := CutBack(suffix, available, log);
    kept := idx;
    OutcomesOf(suffix, available, own, kept);
    result := FillIn(suffix, idx, have, log);
  }

  // applySuffix.  A suffix that ends at or below the committed checkpoint changes nothing.  Any
  // other one makes the log the history that the suffix leads to, whatever the log was above its
  // committed checkpoint; with requests missing, the log is cut back to what it shares with the
  // suffix.
  method ApplySuffix(suffix: LogSuffix, available: map<RequestId, Request>, log: Log)
    returns (result: Result, ghost kept: nat)
    requires log.Valid() && Appliable(suffix) && Consistent(suffix, log.History(), log.committed)
    modifies log`log, log`nextSeq, log`clientRecord, log.app
    ensures log.committed.seqNo >= EndOf(suffix) ==>
              && result == Applied && unchanged(log`log, log`nextSeq, log`clientRecord) && unchanged(log.app)
    ensures log.committed.seqNo < EndOf(suffix) ==>
              && log.committed.seqNo <= suffix.checkpoint.seqNo + kept
              && Tried(suffix, available, old(log.History()), log.committed.seqNo, kept, result)
              && (result == Applied ==> OnSuffix(suffix, log, |suffix.entries|))
              && (result.Waiting? ==>
                    OnSuffix(suffix, log, kept)
                    && log.History() == Upto(old(log.History()), suffix.checkpoint.seqNo + kept))
  {
    if log.committed.seqNo >= EndOf(suffix) {
      return Applied, 0;
    }
    result, kept := ApplyBeyond(suffix, available, log);
  }
}
