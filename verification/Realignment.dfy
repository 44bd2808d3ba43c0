// What realigning a log to a checkpoint does to its history (lib/log.cc:225-257).
//
// The replica moves to the checkpoint and then reapplies its own last entries, refusing those
// that the checkpoint or an earlier reapplied entry already has.

module Realignment {
  import opened Digests
  import opened Quorums
  import opened ClientRecords

  // The history d after reapplying the entries of own above position lo.
  function Reapply(d: Digest, own: Digest, lo: nat): Digest {
    if Height(own) <= lo then d
    else AddOnce(Reapply(d, own.prev, lo), own.id, own.request)
  }

  // The history after adding a request if it is not a duplicate.
  function AddOnce(d: Digest, id: RequestId, request: Request): Digest {
    if RecordOf(d).IsNew(id) then Next(d, id, request) else d
  }

  // Adding a request keeps the record, and repeats nothing.
  lemma AddedOnce(d: Digest, id: RequestId, request: Request)
    requires PositiveIds(d) && NoRepeats(d) && id.clientSeq >= 1
    ensures var r := AddOnce(d, id, request);
            && RecordOf(r) == RecordOf(d).Update(id)
            && PositiveIds(r) && NoRepeats(r) && Extends(r, d)
            && Ids(r) == Ids(d) + {id}
  {
    RecordOfHistory(d);
    RecordUpdated(RecordOf(d), id);
    if RecordOf(d).IsNew(id) {
      ExtendsNext(d, d, id, request);
    } else {
      DuplicateLeavesRecord(d, id);
    }
  }

  // The requests of a history above position lo, oldest first.
  function Requests(d: Digest, lo: nat): seq<(RequestId, Request)> {
    if Height(d) <= lo then [] else Requests(d.prev, lo) + [(d.id, d.request)]
  }

  predicate Subsequence<T(==)>(a: seq<T>, b: seq<T>) {
    if a == [] then true
    else if b == [] then false
    else
      || (a[|a| - 1] == b[|b| - 1] && Subsequence(a[..|a| - 1], b[..|b| - 1]))
      || Subsequence(a, b[..|b| - 1])
  }

  ghost function IdsAbove(d: Digest, lo: nat): set<RequestId> {
    if Height(d) <= lo then {} else IdsAbove(d.prev, lo) + {d.id}
  }

  lemma ExtendsNext(d: Digest, p: Digest, id: RequestId, request: Request)
    requires Extends(d, p)
    ensures Extends(Next(d, id, request), p)
  {
    UptoNext(d, id, request, Height(p));
  }

  // A duplicate leaves the record as it is.
  lemma DuplicateLeavesRecord(d: Digest, id: RequestId)
    requires PositiveIds(d) && id.clientSeq >= 1 && !RecordOf(d).IsNew(id)
    ensures RecordOf(d).Update(id) == RecordOf(d)
  {
    RecordOfHistory(d);
    RecordUpdated(RecordOf(d), id);
    var r := RecordOf(d);
    assert r.Has(id);
    assert id.clientId in r.sequences;
    assert r.At(id.clientId).Update(id.clientSeq) == r.At(id.clientId);
    assert r.sequences[id.clientId := r.sequences[id.clientId]] == r.sequences;
  }

  // The result extends the checkpoint, without repeats, and has every request of the checkpoint
  // and every reapplied one.
  lemma {:induction false} RealignedRequests(d: Digest, own: Digest, lo: nat)
    requires PositiveIds(d) && NoRepeats(d) && PositiveIds(own)
    ensures var r := Reapply(d, own, lo);
            && Extends(r, d) && PositiveIds(r) && NoRepeats(r)
            && Ids(r) == Ids(d) + IdsAbove(own, lo)
  {
    if Height(own) > lo {
      RealignedRequests(d, own.prev, lo);
      var front := Reapply(d, own.prev, lo);
      AddedOnce(front, own.id, own.request);
      ExtendsTransitive(Reapply(d, own, lo), front, d);
    }
  }

  // What follows the checkpoint are own entries, in their order.
  lemma {:induction false} RealignedOrder(d: Digest, own: Digest, lo: nat)
    ensures Height(Reapply(d, own, lo)) >= Height(d)
    ensures Subsequence(Requests(Reapply(d, own, lo), Height(d)), Requests(own, lo))
  {
    if Height(own) > lo {
      RealignedOrder(d, own.prev, lo);
      var front := Reapply(d, own.prev, lo);
      SubsequenceSnoc(Requests(front, Height(d)), Requests(own.prev, lo), (own.id, own.request));
      SubsequenceSkip(Requests(front, Height(d)), Requests(own.prev, lo), (own.id, own.request));
    } else {
      assert Requests(d, Height(d)) == [];
    }
  }

  lemma SubsequenceSnoc<T>(a: seq<T>, b: seq<T>, x: T)
    requires Subsequence(a, b)
    ensures Subsequence(a + [x], b + [x])
  {
    assert (a + [x])[..|a|] == a;
    assert (b + [x])[..|b|] == b;
  }

  lemma SubsequenceSkip<T>(a: seq<T>, b: seq<T>, x: T)
    requires Subsequence(a, b)
    ensures Subsequence(a, b + [x])
  {
    assert (b + [x])[..|b|] == b;
  }

  lemma {:induction false} IdsSplit(d: Digest, lo: nat)
    requires lo <= Height(d)
    ensures Ids(d) == Ids(Upto(d, lo)) + IdsAbove(d, lo)
    ensures NoRepeats(d) ==> Ids(Upto(d, lo)) !! IdsAbove(d, lo)
  {
    if Height(d) > lo {
      IdsSplit(d.prev, lo);
    }
  }

  // No own request is lost exactly when the checkpoint has all those that are not reapplied.
  lemma NothingLostIff(d: Digest, own: Digest, lo: nat)
    requires PositiveIds(d) && NoRepeats(d) && PositiveIds(own) && NoRepeats(own) && lo <= Height(own)
    ensures Ids(own) <= Ids(Reapply(d, own, lo)) <==> Ids(Upto(own, lo)) <= Ids(d)
  {
    RealignedRequests(d, own, lo);
    IdsSplit(own, lo);
  }

  // A log that is already on the checkpoint's chain comes back unchanged.
  lemma {:induction false} AlignedUnchanged(d: Digest, own: Digest)
    requires Extends(own, d) && Numbered(own) && PositiveIds(own) && NoRepeats(own)
    ensures Reapply(d, own, Height(d)) == own
  {
    if Height(own) > Height(d) {
      AlignedUnchanged(d, own.prev);
      RecordOfHistory(own.prev);
      RecordUpdated(RecordOf(own.prev), own.id);
    }
  }

  // ----- Records that do not belong to the checkpoint

  // The source takes the client record from the reply (lib/log.cc:207), and duplicates are judged
  // by it.  The record and the history after adding a request.
  function AddWith(rec: Record, d: Digest, id: RequestId, request: Request): (Record, Digest) {
    (rec.Update(id), if rec.IsNew(id) then Next(d, id, request) else d)
  }

  // And after reapplying the entries of own above position lo.
  function ReapplyWith(rec: Record, d: Digest, own: Digest, lo: nat): (Record, Digest) {
    if Height(own) <= lo then (rec, d)
    else
      var (r, h) := ReapplyWith(rec, d, own.prev, lo);
      AddWith(r, h, own.id, own.request)
  }

  // With the record of the checkpoint this is what the rest of this module is about.
  lemma {:induction false} TrueRecordReapplies(d: Digest, own: Digest, lo: nat)
    requires PositiveIds(d) && NoRepeats(d) && PositiveIds(own)
    ensures var h := Reapply(d, own, lo);
            && ReapplyWith(RecordOf(d), d, own, lo) == (RecordOf(h), h)
            && PositiveIds(h) && NoRepeats(h)
  {
    RealignedRequests(d, own, lo);
    if Height(own) > lo {
      TrueRecordReapplies(d, own.prev, lo);
      AddedOnce(Reapply(d, own.prev, lo), own.id, own.request);
    }
  }

  lemma {:induction false} ReapplyWithExtends(rec: Record, d: Digest, own: Digest, lo: nat)
    ensures Extends(ReapplyWith(rec, d, own, lo).1, d)
  {
    if Height(own) > lo {
      var (r, h) := ReapplyWith(rec, d, own.prev, lo);
      ReapplyWithExtends(rec, d, own.prev, lo);
      ExtendsNext(h, d, own.id, own.request);
    }
  }

  lemma UpdatesNothing(rec: Record, id: RequestId, other: RequestId)
    requires !rec.IsNew(id)
    ensures rec.Update(id).IsNew(other) <==> rec.IsNew(other)
  {
    assert rec.At(id.clientId).Update(id.clientSeq) == rec.At(id.clientId);
  }

  // Nothing is reapplied exactly when the record, true or not, has all the requests already.
  lemma {:induction false} NothingReappliedIff(rec: Record, d: Digest, own: Digest, lo: nat)
    ensures ReapplyWith(rec, d, own, lo).1 == d <==> forall id :: id in IdsAbove(own, lo) ==> !rec.IsNew(id)
    ensures ReapplyWith(rec, d, own, lo).1 == d ==>
              forall id :: ReapplyWith(rec, d, own, lo).0.IsNew(id) <==> rec.IsNew(id)
  {
    if Height(own) > lo {
      var (r, h) := ReapplyWith(rec, d, own.prev, lo);
      NothingReappliedIff(rec, d, own.prev, lo);
      ReapplyWithExtends(rec, d, own.prev, lo);
      if h == d && !r.IsNew(own.id) {
        forall id ensures r.Update(own.id).IsNew(id) <==> rec.IsNew(id) {
          UpdatesNothing(r, own.id, id);
        }
      }
    }
  }

  // So a replica that is on the checkpoint's chain already can be made to drop what follows it.
  lemma FalseRecordDrops(d: Digest, own: Digest, lo: nat)
    requires PositiveIds(own)
    ensures ReapplyWith(RecordOf(own), d, own, lo).1 == d
  {
    RecordOfHistory(own);
    IdsBetweenSplit(own, lo, lo);
    NothingReappliedIff(RecordOf(own), d, own, lo);
  }

  // ----- Which own entries are reapplied

  const TWO_TO_THE_32: int := 0x1_0000_0000

  // The position above which own entries are reapplied; the source subtracts 32-bit unsigned
  // numbers (lib/log.cc:231-238).
  function Threshold(checkpointSeq: nat, numMissing: int): nat {
    (checkpointSeq - numMissing) % TWO_TO_THE_32
  }

  lemma ThresholdOfZero(checkpointSeq: nat)
    requires checkpointSeq < TWO_TO_THE_32
    ensures Threshold(checkpointSeq, 0) == checkpointSeq
  {
  }

  // The checkpoint's requests are all in the own log: the threshold is the checkpoint itself.
  lemma NothingMissingThreshold(d: Digest, own: Digest)
    requires PositiveIds(d) && PositiveIds(own) && Ids(d) <= Ids(own) && Height(d) < TWO_TO_THE_32
    ensures Threshold(Height(d), RecordOf(own).NumMissing(RecordOf(d))) == Height(d)
  {
    RecordOfHistory(d);
    RecordOfHistory(own);
    NothingMissing(RecordOf(own), RecordOf(d));
    ThresholdOfZero(Height(d));
  }

  lemma {:induction false} HeightCountsIds(d: Digest)
    requires NoRepeats(d)
    ensures |Ids(d)| == Height(d)
  {
    if d.Link? {
      HeightCountsIds(d.prev);
    }
  }

  // With so many requests missing and so many gaps counted with them
  // (ClientRecords.HistoryMissingMeaning), the position is the number of requests that both
  // histories have, less the gaps.
  lemma {:induction false} ThresholdMeaning(d: Digest, own: Digest, gaps: nat, missing: int)
    requires NoRepeats(d) && missing == |Ids(d) - Ids(own)| + gaps
    ensures Threshold(Height(d), missing) == (|Ids(d) * Ids(own)| - gaps) % TWO_TO_THE_32
  {
    HeightCountsIds(d);
    SplitSize(Ids(d), Ids(own));
    assert Height(d) - missing == |Ids(d) * Ids(own)| - gaps;
  }

  // The intended position: as far below the checkpoint as requests are missing.
  function Intended(checkpointSeq: nat, numMissing: nat): nat {
    if numMissing <= checkpointSeq then checkpointSeq - numMissing else 0
  }

  lemma ThresholdWrapped(checkpointSeq: nat, numMissing: nat)
    requires checkpointSeq < TWO_TO_THE_32 && numMissing < TWO_TO_THE_32
    ensures numMissing <= checkpointSeq ==> Threshold(checkpointSeq, numMissing) == Intended(checkpointSeq, numMissing)
    ensures Threshold(checkpointSeq, numMissing) >= Intended(checkpointSeq, numMissing)
  {
    if numMissing > checkpointSeq {
      assert Threshold(checkpointSeq, numMissing) == checkpointSeq - numMissing + TWO_TO_THE_32;
    }
  }

  // The requests of a history above position lo, up to position hi.
  ghost function IdsBetween(d: Digest, lo: nat, hi: nat): set<RequestId> {
    if Height(d) <= hi then IdsAbove(d, lo) else IdsBetween(d.prev, lo, hi)
  }

  lemma {:induction false} IdsBetweenSplit(d: Digest, lo: nat, hi: nat)
    requires lo <= hi
    ensures IdsAbove(d, lo) == IdsBetween(d, lo, hi) + IdsAbove(d, hi)
    ensures IdsAbove(d, lo) <= Ids(d)
    ensures NoRepeats(d) ==> IdsBetween(d, lo, hi) !! IdsAbove(d, hi)
  {
    if Height(d) > lo {
      IdsBetweenSplit(d.prev, lo, hi);
    }
  }

  // Requests that the checkpoint has are refused when they are reapplied.
  lemma {:induction false} KnownRefused(d: Digest, own: Digest, lo: nat)
    requires PositiveIds(d) && PositiveIds(own) && IdsAbove(own, lo) <= Ids(d)
    ensures Reapply(d, own, lo) == d
  {
    if Height(own) > lo {
      KnownRefused(d, own.prev, lo);
      RecordOfHistory(d);
      RecordUpdated(RecordOf(d), own.id);
    }
  }

  lemma {:induction false} ReapplyBetween(d: Digest, own: Digest, lo: nat, hi: nat)
    requires PositiveIds(d) && PositiveIds(own) && lo <= hi && IdsBetween(own, lo, hi) <= Ids(d)
    ensures Reapply(d, own, lo) == Reapply(d, own, hi)
  {
    if Height(own) <= hi {
      KnownRefused(d, own, lo);
    } else {
      ReapplyBetween(d, own.prev, lo, hi);
    }
  }

  // Reapplying from a higher position gives the same history exactly when the checkpoint has all
  // the own requests in between.
  lemma ReapplySameIff(d: Digest, own: Digest, lo: nat, hi: nat)
    requires PositiveIds(d) && NoRepeats(d) && PositiveIds(own) && NoRepeats(own) && lo <= hi
    ensures Reapply(d, own, lo) == Reapply(d, own, hi) <==> IdsBetween(own, lo, hi) <= Ids(d)
  {
    if IdsBetween(own, lo, hi) <= Ids(d) {
      ReapplyBetween(d, own, lo, hi);
    }
    RealignedRequests(d, own, lo);
    RealignedRequests(d, own, hi);
    IdsBetweenSplit(own, lo, hi);
  }

  // The history that an alignment to checkpoint d leads to, from the own history and with the own
  // stable checkpoint at stableSeq (Log.ApplySnapshotModifyLog).
  ghost function Aligned(d: Digest, own: Digest, stableSeq: nat): Digest {
    Reapply(d, own, Max(Threshold(Height(d), RecordOf(own).NumMissing(RecordOf(d))), stableSeq))
  }

  // It is the intended one exactly when the subtraction does not wrap around, or the checkpoint has
  // all the own requests that the wrapped position leaves out.
  lemma AlignedAsIntendedIff(d: Digest, own: Digest, stableSeq: nat)
    requires PositiveIds(d) && NoRepeats(d) && PositiveIds(own) && NoRepeats(own)
    requires Height(d) < TWO_TO_THE_32 && 0 <= RecordOf(own).NumMissing(RecordOf(d)) < TWO_TO_THE_32
    ensures var missing := RecordOf(own).NumMissing(RecordOf(d));
            var lo, hi := Max(Intended(Height(d), missing), stableSeq), Max(Threshold(Height(d), missing), stableSeq);
            Aligned(d, own, stableSeq) == Reapply(d, own, lo) <==>
            missing <= Height(d) || IdsBetween(own, lo, hi) <= Ids(d)
  {
    var missing := RecordOf(own).NumMissing(RecordOf(d));
    ThresholdWrapped(Height(d), missing);
    ReapplySameIff(d, own, Max(Intended(Height(d), missing), stableSeq),
      Max(Threshold(Height(d), missing), stableSeq));
  }

  lemma FirstRecord(s: nat)
    requires s >= 1
    ensures RecordOf(Next(Genesis, RequestId(1, s), Increment)) == Record(map[1 := Sequence(s, Between(0, s))])
  {
    assert RecordOf(Genesis) == NoRecord;
    assert NoRecord.At(1).Update(s) == Sequence(s, Between(0, s));
    assert RecordOf(Next(Genesis, RequestId(1, s), Increment)) == NoRecord.Update(RequestId(1, s));
  }

  lemma GapsCounted()
    ensures var d := Next(Genesis, RequestId(1, 3), Increment);
            var own := Next(Genesis, RequestId(1, 1), Increment);
            RecordOf(own).NumMissing(RecordOf(d)) == 2
  {
    var d := Next(Genesis, RequestId(1, 3), Increment);
    var own := Next(Genesis, RequestId(1, 1), Increment);
    var ref, mine := RecordOf(d), RecordOf(own);
    FirstRecord(3);
    FirstRecord(1);
    assert mine.sequences[1].missed == {};
    assert mine.sequences[1].NumMissing(ref.sequences[1]) == 2 by {
      assert (set m | m in mine.sequences[1].missed - ref.sequences[1].missed && m <= 3) == {};
    }
    SumMissingPick(mine, ref, {1}, 1);
    assert {1} - {1} == {};
    assert ref.sequences.Keys == {1};
  }

  // The only own request, left out by a position that wraps around.
  lemma WrapsAway(d: Digest, own: Digest)
    requires PositiveIds(d) && NoRepeats(d) && PositiveIds(own) && Height(d) == Height(own) == 1
    requires RecordOf(own).NumMissing(RecordOf(d)) == 2
    ensures Aligned(d, own, 0) == d
    ensures own.id in Ids(Reapply(d, own, Intended(1, 2)))
  {
    assert Threshold(1, 2) == TWO_TO_THE_32 - 1;
    RealignedRequests(d, own, 0);
    IdsBetweenSplit(own, 0, 0);
  }

  // It does happen: the counted gaps of the checkpoint's record can exceed its entries.  Here the
  // only own request is lost although the checkpoint does not have it.
  lemma ThresholdWraps()
    ensures var d := Next(Genesis, RequestId(1, 3), Increment);
            var own := Next(Genesis, RequestId(1, 1), Increment);
            && RecordOf(own).NumMissing(RecordOf(d)) == 2 > Height(d)
            && Aligned(d, own, 0) == d && RequestId(1, 1) !in Ids(d)
            && RequestId(1, 1) in Ids(Reapply(d, own, Intended(1, 2)))
  {
    GapsCounted();
    WrapsAway(Next(Genesis, RequestId(1, 3), Increment), Next(Genesis, RequestId(1, 1), Increment));
  }
}
