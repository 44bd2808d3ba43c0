// What applying a repair means for the replicas together: they converge, a retry ends in the
// same place, and no request disappears without being queued again - except on a retry.

module RepairConvergence {
  import opened Options
  import opened Digests
  import opened Quorums
  import opened ClientRecords
  import opened CounterApp
  import opened RepairSelection
  import opened Realignment
  import opened Logs
  import opened RepairBodies
  import opened RepairApply
  import StateTransfer

  // Two replicas that apply the same suffix end with the same history, client record and
  // application state, however different their logs were above their committed checkpoints.
  method Converge(
    suffix: LogSuffix, availableA: map<RequestId, Request>, availableB: map<RequestId, Request>, a: Log, b: Log)
    returns (resultA: Result, resultB: Result, ghost keptA: nat, ghost keptB: nat)
    requires a != b && a.app != b.app && a.Valid() && b.Valid() && Appliable(suffix)
    requires Consistent(suffix, a.History(), a.committed) && a.committed.seqNo < EndOf(suffix)
    requires Consistent(suffix, b.History(), b.committed) && b.committed.seqNo < EndOf(suffix)
    modifies a, a.app, b, b.app
    ensures Tried(suffix, availableA, old(a.History()), a.committed.seqNo, keptA, resultA)
    ensures Tried(suffix, availableB, old(b.History()), b.committed.seqNo, keptB, resultB)
    ensures resultA == resultB == Applied ==>
              && a.Valid() && b.Valid()
              && a.History() == b.History() == Target(suffix)
              && a.nextSeq == b.nextSeq
              && a.clientRecord == b.clientRecord
              && a.app.counter == b.app.counter
              && forall s: nat :: a.stable.seqNo < s < a.nextSeq && b.stable.seqNo < s ==>
                                    a.GetEntry(s) == b.GetEntry(s)
  {
    resultA, keptA := ApplySuffix(suffix, availableA, a);
    resultB, keptB := ApplySuffix(suffix, availableB, b);
  }

  // Every request that the suffix came without has been fetched, and is the one it was hashed with.
  predicate FetchedFit(suffix: LogSuffix, fetched: map<RequestId, Request>) {
    forall e :: e in suffix.entries && e.request.None? ==>
      e.id in fetched && Sha(fetched[e.id]) == e.requestDigest
  }

  // Applying again after requests were missing: with the requests at hand, the log ends up where
  // it would have at once.
  method Retry(suffix: LogSuffix, ghost idx: nat, fetched: map<RequestId, Request>, log: Log) returns (result: Result)
    requires Appliable(suffix) && OnSuffix(suffix, log, idx)
    requires log.committed.seqNo < EndOf(suffix) && Extends(Target(suffix), log.committed.logDigest)
    requires forall e :: e in suffix.entries ==> e.request.Some? || e.id in fetched
    modifies log, log.app
    ensures !result.Waiting?
    ensures FetchedFit(suffix, fetched) ==> result == Applied
    ensures result == Applied ==> OnSuffix(suffix, log, |suffix.entries|)
  {
    ghost var h := log.History();
    ghost var kept: nat;
    StillConsistent(suffix, idx, h, log.committed);
    result, kept := ApplySuffix(suffix, fetched, log);
    if FetchedFit(suffix, fetched) {
      FetchedBodiesFit(suffix, fetched, h, idx, kept);
    }
    assert forall j :: kept <= j < |suffix.entries| ==> suffix.entries[j] in suffix.entries;
  }

  // What the log has on the suffix's chain is what the suffix's entries were hashed with.
  lemma OwnBodyFits(suffix: LogSuffix, available: map<RequestId, Request>, h: Digest, idx: nat, lo: nat, k: nat)
    requires Appliable(suffix) && idx <= |suffix.entries| && Height(Target(suffix)) == EndOf(suffix)
    requires h == Upto(Target(suffix), suffix.checkpoint.seqNo + idx) && lo <= suffix.checkpoint.seqNo + k
    requires k < |suffix.entries| && suffix.entries[k].request.None? && suffix.entries[k].id in IdsAbove(h, lo)
    ensures BodyFits(suffix.entries[k], available, h, lo)
  {
    var e, t, s := suffix.entries[k], Target(suffix), suffix.checkpoint.seqNo + k + 1;
    SavedAt(available, h, lo, e.id);
    var u: nat :| LastAt(h, lo, e.id, u);
    UptoUpto(t, suffix.checkpoint.seqNo + idx, u);
    TargetStep(suffix, k);
    if u < s {
      NoRepeatsBelow(t, u, s);
    } else if s < u {
      NoRepeatsBelow(t, s, u);
    }
  }

  lemma FetchedBodiesFit(suffix: LogSuffix, fetched: map<RequestId, Request>, h: Digest, idx: nat, kept: nat)
    requires Appliable(suffix) && idx <= |suffix.entries| && Height(Target(suffix)) == EndOf(suffix)
    requires h == Upto(Target(suffix), suffix.checkpoint.seqNo + idx)
    requires FetchedFit(suffix, fetched)
    ensures BodiesFit(suffix, fetched, h, kept)
  {
    var lo := suffix.checkpoint.seqNo + kept;
    forall j | kept <= j < |suffix.entries| ensures BodyFits(suffix.entries[j], fetched, h, lo) {
      var e := suffix.entries[j];
      assert e in suffix.entries;
      if e.request.None? && e.id in IdsAbove(h, lo) {
        OwnBodyFits(suffix, fetched, h, idx, lo, j);
      }
    }
  }

  lemma StillConsistent(suffix: LogSuffix, idx: nat, h: Digest, committed: LogCheckpoint)
    requires Appliable(suffix) && idx <= |suffix.entries| && Height(Target(suffix)) == EndOf(suffix)
    requires h == Upto(Target(suffix), suffix.checkpoint.seqNo + idx)
    requires Extends(Target(suffix), committed.logDigest)
    ensures Consistent(suffix, h, committed)
  {
    AgreeBetween(suffix, idx);
  }

  // The first attempt finds no request that does not fit: it applies the suffix, or has to wait.
  ghost predicate NoneWrong(suffix: LogSuffix, available: map<RequestId, Request>, h: Digest, kept: nat) {
    forall j :: kept <= j < |suffix.entries| ==>
                  || BodyFits(suffix.entries[j], available, h, suffix.checkpoint.seqNo + kept)
                  || Lacks(suffix, available, h, kept, j)
  }

  method ApplyWithRetry(
    suffix: LogSuffix, available: map<RequestId, Request>, fetched: map<RequestId, Request>, log: Log)
    returns (result: Result, ghost kept: nat)
    requires log.Valid() && Appliable(suffix) && Consistent(suffix, log.History(), log.committed)
    requires log.committed.seqNo < EndOf(suffix)
    requires forall e :: e in suffix.entries ==> e.request.Some? || e.id in fetched
    modifies log, log.app
    ensures !result.Waiting?
    ensures AgreesFor(suffix, old(log.History()), old(log.committed.seqNo), kept)
    ensures FetchedFit(suffix, fetched) && NoneWrong(suffix, available, old(log.History()), kept) ==> result == Applied
    ensures result == Applied ==> OnSuffix(suffix, log, |suffix.entries|)
  {
    result, kept := ApplySuffix(suffix, available, log);
    if result.Waiting? {
      result := Retry(suffix, kept, fetched, log);
    }
  }

  lemma AgreeBetween(suffix: LogSuffix, idx: nat)
    requires Appliable(suffix) && idx <= |suffix.entries|
    requires Height(Target(suffix)) == EndOf(suffix)
    ensures Extends(Upto(Target(suffix), suffix.checkpoint.seqNo + idx), suffix.checkpoint.logDigest)
  {
    TargetUpto(suffix.checkpoint.logDigest, suffix.entries, 0);
    UptoUpto(Target(suffix), suffix.checkpoint.seqNo + idx, suffix.checkpoint.seqNo);
  }

  // ----- A checkpoint that is not in the own log

  // The log has not gone back behind a checkpoint that it has shown.
  ghost predicate StillHas(log: Log, ck: Checkpoint)
    reads log
  {
    && Height(ck.logDigest) == ck.seqNo <= log.committed.seqNo
    && Extends(log.committed.logDigest, ck.logDigest)
  }

  // The replica that the suffix names can send its checkpoint to one whose log does not have it
  // (processes/replica/replica.cc:2679-2685): if it is correct, what it sends leads there.
  method FetchCheckpoint(
    ghost cfg: Config, ghost msgs: seq<StartMsg>, suffix: LogSuffix,
    sender: Log, receiver: Log, lastCheckpointSeq: nat) returns (outcome: Outcome)
    requires msgs != [] && LogSuffixOf(cfg, msgs) == Some(suffix)
    requires forall i :: 0 <= i < |msgs| && msgs[i].replicaId == suffix.checkpointReplica ==>
               StillHas(sender, msgs[i].log.checkpoint)
    requires sender != receiver && sender.app != receiver.app && sender.Valid() && receiver.Valid()
    requires lastCheckpointSeq <= receiver.committed.seqNo
    requires lastCheckpointSeq < sender.stable.seqNo ==> sender.stable.snapshot.Some?
    requires Extends(sender.committed.logDigest, receiver.committed.logDigest)
    modifies receiver, receiver.app
    ensures outcome == Done && receiver.Valid()
    ensures Extends(receiver.History(), suffix.checkpoint.logDigest)
    ensures sender.committed.seqNo == suffix.checkpoint.seqNo ==> receiver.History() == suffix.checkpoint.logDigest
    ensures sender.committed.seqNo == suffix.checkpoint.seqNo ==>
              Consistent(suffix, receiver.History(), receiver.committed)
  {
    CheckpointSender(cfg, msgs, suffix);
    outcome := StateTransfer.Reset(sender, receiver, suffix.checkpoint.seqNo, lastCheckpointSeq);
    TargetUpto(suffix.checkpoint.logDigest, suffix.entries, 0);
  }

  // ----- What the first attempt takes away from the second

  // The requests of a first attempt's answer, once fetched, are enough for the second attempt
  // exactly when the first had none of the others from the log entries that it dropped.
  lemma RetryCompletesIff(
    available: map<RequestId, Request>, own: Digest, lo: nat, have: map<RequestId, Request>,
    rest: seq<ProtoEntry>, fetched: map<RequestId, Request>)
    requires have == Saved(available, own, lo)
    requires fetched.Keys == available.Keys + (set id | id in MissingIds(have, rest))
    requires forall i, j :: 0 <= i < j < |rest| ==> rest[i].id != rest[j].id
    ensures MissingIds(fetched, rest) == [] <==>
            forall e :: e in rest && e.request.None? && e.id in IdsAbove(own, lo) ==> e.id in available
  {
    SavedIds(available, own, lo);
    FetchedEnoughIff(available, IdsAbove(own, lo), have, rest, fetched);
  }

  lemma FetchedEnoughIff(
    available: map<RequestId, Request>, dropped: set<RequestId>, have: map<RequestId, Request>,
    rest: seq<ProtoEntry>, fetched: map<RequestId, Request>)
    requires have.Keys == available.Keys + dropped
    requires fetched.Keys == available.Keys + (set id | id in MissingIds(have, rest))
    requires forall i, j :: 0 <= i < j < |rest| ==> rest[i].id != rest[j].id
    ensures MissingIds(fetched, rest) == [] <==>
            forall e :: e in rest && e.request.None? && e.id in dropped ==> e.id in available
  {
    MissingIff(have, rest);
    MissingNoneIff(fetched, rest);
    forall e | e in rest && e.request.None?
      ensures e.id in fetched <==> e.id in available || e.id !in dropped
    {
      assert e.id in MissingIds(have, rest) <==> e.id !in have;
    }
  }

  // ----- Aborted entries

  // The requests of a history above position lo that are not among those kept, oldest first.
  ghost function AbortedOf(h: Digest, lo: nat, kept: set<RequestId>): seq<(RequestId, Request)> {
    if Height(h) <= lo then []
    else
      var front := AbortedOf(h.prev, lo, kept);
      if h.id in kept then front else front + [(h.id, h.request)]
  }

  // getAbortedEntries: from startSeq on, and above the committed checkpoint.
  method GetAbortedEntries(suffix: LogSuffix, log: Log, startSeq: nat) returns (aborted: seq<(RequestId, Request)>)
    requires log.Valid()
    ensures aborted == AbortedOf(log.History(), Max(startSeq, log.committed.seqNo + 1) - 1, IdsOf(suffix.entries))
  {
    var keptReqs: set<RequestId> := {};
    for i := 0 to |suffix.entries|
      invariant keptReqs == IdsOf(suffix.entries[..i])
    {
      keptReqs := keptReqs + {suffix.entries[i].id};
      assert IdsOf(suffix.entries[..i + 1]) == IdsOf(suffix.entries[..i]) + {suffix.entries[i].id};
    }
    assert suffix.entries[..|suffix.entries|] == suffix.entries;
    aborted := [];
    ghost var h := log.History();
    var s := Max(startSeq, log.committed.seqNo + 1);
    ghost var lo := s - 1;
    while s < log.nextSeq
      invariant lo < s && (s == lo + 1 || s <= log.nextSeq)
      invariant aborted == if s <= log.nextSeq then AbortedOf(Upto(h, s - 1), lo, keptReqs) else []
    {
      UptoUpto(h, s, s - 1);
      var entry := log.GetEntry(s).value;
      if entry.id !in keptReqs {
        aborted := aborted + [(entry.id, entry.request)];
      }
      s := s + 1;
    }
  }

  // In order, exactly the own requests that the suffix drops.
  lemma {:induction false} AbortedExactly(h: Digest, lo: nat, kept: set<RequestId>)
    ensures Subsequence(AbortedOf(h, lo, kept), Requests(h, lo))
    ensures forall r :: r in AbortedOf(h, lo, kept) <==> r in Requests(h, lo) && r.0 !in kept
  {
    if Height(h) > lo {
      AbortedExactly(h.prev, lo, kept);
      SubsequenceSnoc(AbortedOf(h.prev, lo, kept), Requests(h.prev, lo), (h.id, h.request));
      SubsequenceSkip(AbortedOf(h.prev, lo, kept), Requests(h.prev, lo), (h.id, h.request));
    }
  }

  lemma {:induction false} RequestsIds(h: Digest, lo: nat)
    ensures forall id :: id in IdsAbove(h, lo) <==> exists q :: (id, q) in Requests(h, lo)
  {
    if Height(h) > lo {
      RequestsIds(h.prev, lo);
      assert (h.id, h.request) in Requests(h, lo);
      forall id | id in IdsAbove(h, lo) ensures exists q :: (id, q) in Requests(h, lo) {
        if id in IdsAbove(h.prev, lo) {
          var q :| (id, q) in Requests(h.prev, lo);
          assert (id, q) in Requests(h, lo);
        }
      }
    }
  }

  // Conservation: an own request is in the repaired history or in the list of aborted ones; both
  // only if the suffix's checkpoint already has it.
  lemma RequestsConserved(suffix: LogSuffix, own: Digest, lo: nat, id: RequestId, q: Request)
    requires (id, q) in Requests(own, lo)
    ensures var aborted := AbortedOf(own, lo, IdsOf(suffix.entries));
            && (id in Ids(Target(suffix)) || (id, q) in aborted)
            && (id in Ids(Target(suffix)) && (id, q) in aborted ==> id in Ids(suffix.checkpoint.logDigest))
  {
    AbortedExactly(own, lo, IdsOf(suffix.entries));
    TargetIds(suffix.checkpoint.logDigest, suffix.entries);
  }

  predicate Listed(aborted: seq<(RequestId, Request)>, id: RequestId) {
    exists i :: 0 <= i < |aborted| && aborted[i].0 == id
  }

  // After an attempt that found requests missing and cut the log back to position s, an own request
  // is in the target or on the list of the next attempt exactly if it was at or below s or is in
  // the suffix.  The others are gone.
  lemma RetryKeepsIff(suffix: LogSuffix, own: Digest, s: nat, id: RequestId, lo: nat)
    requires Appliable(suffix) && AgreeUpto(suffix, own, s) && NoRepeats(own) && id in Ids(own)
    ensures id in Ids(Target(suffix)) || Listed(AbortedOf(Upto(own, s), lo, IdsOf(suffix.entries)), id) <==>
            id in Ids(Upto(own, s)) || id in IdsOf(suffix.entries)
  {
    SharedIds(suffix, own, s);
    TargetIds(suffix.checkpoint.logDigest, suffix.entries);
    ListedIsIn(Upto(own, s), lo, IdsOf(suffix.entries), id);
  }

  // What is shared lies between the checkpoint and the target.
  lemma SharedIds(suffix: LogSuffix, own: Digest, s: nat)
    requires Appliable(suffix) && AgreeUpto(suffix, own, s)
    ensures Ids(suffix.checkpoint.logDigest) <= Ids(Upto(own, s)) <= Ids(Target(suffix))
  {
    var ck := suffix.checkpoint;
    TargetUpto(ck.logDigest, suffix.entries, 0);
    IdsSplit(Target(suffix), s);
    UptoUpto(Target(suffix), s, ck.seqNo);
    IdsSplit(Upto(own, s), ck.seqNo);
  }

  lemma ListedIsIn(h: Digest, lo: nat, kept: set<RequestId>, id: RequestId)
    ensures Listed(AbortedOf(h, lo, kept), id) ==> id in Ids(h)
  {
    var aborted := AbortedOf(h, lo, kept);
    if Listed(aborted, id) {
      var i :| 0 <= i < |aborted| && aborted[i].0 == id;
      AbortedExactly(h, lo, kept);
      assert aborted[i] in aborted && aborted[i] == (id, aborted[i].1);
      RequestsIds(h, lo);
      IdsAboveIn(h, lo);
    }
  }

  // Exactly the own requests that the history or the suffix still has are kept or listed.
  ghost predicate KeepsThese(suffix: LogSuffix, own: Digest, now: Digest, aborted: seq<(RequestId, Request)>) {
    forall id :: id in Ids(own) ==>
      (id in Ids(Target(suffix)) || Listed(aborted, id) <==> id in Ids(now) || id in IdsOf(suffix.entries))
  }

  lemma RetryKeepsThese(suffix: LogSuffix, own: Digest, s: nat, lo: nat)
    requires Appliable(suffix) && AgreeUpto(suffix, own, s) && NoRepeats(own)
    ensures KeepsThese(suffix, own, Upto(own, s), AbortedOf(Upto(own, s), lo, IdsOf(suffix.entries)))
  {
    forall id | id in Ids(own)
      ensures id in Ids(Target(suffix)) || Listed(AbortedOf(Upto(own, s), lo, IdsOf(suffix.entries)), id) <==>
              id in Ids(Upto(own, s)) || id in IdsOf(suffix.entries)
    {
      RetryKeepsIff(suffix, own, s, id, lo);
    }
  }

  // An attempt to apply the suffix and, if it finds requests missing, the list that the next
  // attempt then makes (processes/replica/replica.cc:2692-2697).
  method ApplyAndList(suffix: LogSuffix, available: map<RequestId, Request>, log: Log, startSeq: nat)
    returns (result: Result, aborted: seq<(RequestId, Request)>, ghost kept: nat)
    requires log.Valid() && Appliable(suffix) && Consistent(suffix, log.History(), log.committed)
    requires log.committed.seqNo < EndOf(suffix)
    modifies log`log, log`nextSeq, log`clientRecord, log.app
    ensures Tried(suffix, available, old(log.History()), log.committed.seqNo, kept, result)
    ensures result.Waiting? ==>
              && log.History() == Upto(old(log.History()), suffix.checkpoint.seqNo + kept)
              && aborted == AbortedOf(log.History(), Max(startSeq, log.committed.seqNo + 1) - 1, IdsOf(suffix.entries))
  {
    aborted := [];
    result, kept := ApplyBeyond(suffix, available, log);
    if result.Waiting? {
      aborted := GetAbortedEntries(suffix, log, startSeq);
    }
  }

  lemma {:induction false} WaitingKeeps(
    suffix: LogSuffix, available: map<RequestId, Request>, own: Digest, committedSeq: nat, kept: nat, result: Result,
    now: Digest, aborted: seq<(RequestId, Request)>, lo: nat)
    requires Appliable(suffix) && NoRepeats(own) && Tried(suffix, available, own, committedSeq, kept, result)
    requires now == Upto(own, suffix.checkpoint.seqNo + kept)
    requires aborted == AbortedOf(now, lo, IdsOf(suffix.entries))
    ensures KeepsThese(suffix, own, now, aborted)
  {
    RetryKeepsThese(suffix, own, suffix.checkpoint.seqNo + kept, lo);
  }

  // That list, and the suffix, keep exactly the own requests that are still in the log or that the
  // suffix has.
  method WaitAndList(suffix: LogSuffix, available: map<RequestId, Request>, log: Log, startSeq: nat)
    returns (result: Result, aborted: seq<(RequestId, Request)>, ghost kept: nat)
    requires log.Valid() && log.InSync() && Appliable(suffix) && Consistent(suffix, log.History(), log.committed)
    requires log.committed.seqNo < EndOf(suffix)
    modifies log`log, log`nextSeq, log`clientRecord, log.app
    ensures Tried(suffix, available, old(log.History()), log.committed.seqNo, kept, result)
    ensures result.Waiting? ==>
              && log.History() == Upto(old(log.History()), suffix.checkpoint.seqNo + kept)
              && KeepsThese(suffix, old(log.History()), log.History(), aborted)
  {
    ghost var own := log.History();
    assert NoRepeats(own);
    result, aborted, kept := ApplyAndList(suffix, available, log, startSeq);
    if result.Waiting? {
      ghost var lo := Max(startSeq, log.committed.seqNo + 1) - 1;
      WaitingKeeps(suffix, available, own, log.committed.seqNo, kept, result, log.History(), aborted, lo);
    }
  }

  lemma {:induction false} IdsAboveIn(h: Digest, lo: nat)
    ensures IdsAbove(h, lo) <= Ids(h)
  {
    if Height(h) > lo {
      IdsAboveIn(h.prev, lo);
    }
  }

  // ----- A request that is lost

  const LostId := RequestId(2, 1)
  const WantedEntry := ProtoEntry(1, RequestId(1, 1), Next(Genesis, RequestId(1, 1), Increment), Sha(Increment), None)
  const WaitingSuffix := LogSuffix(0, Checkpoint(0, Genesis, NoRecord), [WantedEntry], WantedEntry.digest)

  lemma WaitingAppliable()
    ensures Appliable(WaitingSuffix) && Target(WaitingSuffix) == WantedEntry.digest
    ensures IdsOf(WaitingSuffix.entries) == {RequestId(1, 1)} && Ids(Target(WaitingSuffix)) == {RequestId(1, 1)}
  {
    assert WaitingSuffix.entries[..0] == [];
    assert TargetOf(Genesis, []) == Genesis;
    assert WantedEntry in WaitingSuffix.entries;
  }

  function LostOwn(): Digest {
    Next(Genesis, LostId, Increment)
  }

  // Nothing is at hand and nothing of the own log is kept, so the attempt waits.
  ghost predicate MustWait(suffix: LogSuffix, own: Digest, committedSeq: nat) {
    forall kept: nat, result ::
      Tried(suffix, map[], own, committedSeq, kept, result) ==> result.Waiting? && suffix.checkpoint.seqNo + kept == 0
  }

  ghost predicate ReadyToWait(suffix: LogSuffix, own: Digest, committed: LogCheckpoint) {
    && Appliable(suffix) && Consistent(suffix, own, committed)
    && committed.seqNo < EndOf(suffix) && MustWait(suffix, own, committed.seqNo)
  }

  lemma WaitingReady()
    ensures ReadyToWait(WaitingSuffix, LostOwn(), NoCheckpoint)
  {
    WaitingAppliable();
    forall kept: nat, result | Tried(WaitingSuffix, map[], LostOwn(), 0, kept, result)
      ensures result.Waiting? && kept == 0
    {
      WaitingWaits(kept, result);
    }
  }

  lemma WaitingWaits(kept: nat, result: Result)
    requires Tried(WaitingSuffix, map[], LostOwn(), 0, kept, result)
    ensures result.Waiting? && kept == 0
  {
    WaitingAppliable();
    assert kept == 0;
    assert Lacks(WaitingSuffix, map[], LostOwn(), 0, 0);
  }

  lemma LostRecord()
    ensures NoRecord.IsNew(LostId) && NoRecord.Update(LostId) == RecordOf(LostOwn())
    ensures PositiveIds(LostOwn()) && NoRepeats(LostOwn()) && Ids(LostOwn()) == {LostId}
    ensures NoRecord == RecordOf(Genesis)
  {
  }

  lemma LostNow(own: Digest, now: Digest, aborted: seq<(RequestId, Request)>)
    requires own == LostOwn() && now == Upto(own, 0) && KeepsThese(WaitingSuffix, own, now, aborted)
    ensures LostId !in Ids(Target(WaitingSuffix)) && !Listed(aborted, LostId) && LostId !in Ids(now)
  {
    WaitingAppliable();
    LostRecord();
  }

  // A replica accepts a request.
  method Accept() returns (accepted: bool, log: Log)
    ensures fresh(log) && fresh(log.app) && accepted
    ensures log.Valid() && log.InSync() && log.History() == LostOwn() && log.committed == NoCheckpoint
  {
    var app := new Counter();
    log := new Log(app);
    var response: int;
    LostRecord();
    accepted, response := log.AddEntry(LostId, Increment, true);
  }

  method WaitOn(suffix: LogSuffix, log: Log) returns (aborted: seq<(RequestId, Request)>)
    requires log.Valid() && log.InSync() && ReadyToWait(suffix, log.History(), log.committed)
    modifies log`log, log`nextSeq, log`clientRecord, log.app
    ensures log.History() == Upto(old(log.History()), 0)
    ensures KeepsThese(suffix, old(log.History()), log.History(), aborted)
  {
    var result: Result;
    ghost var kept: nat;
    result, aborted, kept := WaitAndList(suffix, map[], log, 1);
    assert result.Waiting?;
  }

  // Then a repair decides an entry whose request the replica has not seen, and the attempt to apply
  // it waits.  Now the accepted request is neither in the log, nor in the history to come, nor on
  // the list of requests to queue again.
  method LoseWhileWaiting() returns (accepted: bool, log: Log, aborted: seq<(RequestId, Request)>)
    ensures accepted && LostId !in Ids(log.History())
    ensures LostId !in Ids(Target(WaitingSuffix)) && !Listed(aborted, LostId)
  {
    accepted, log := Accept();
    WaitingReady();
    ghost var own := log.History();
    aborted := WaitOn(WaitingSuffix, log);
    LostNow(own, log.History(), aborted);
  }
}
