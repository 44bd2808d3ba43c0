// What the entries of a suffix are applied with (lib/repair_utils.cc:335-360, 377-391): the full
// requests that came with them, the requests of the own entries that are dropped, and others that
// are at hand.

module RepairBodies {
  import opened Options
  import opened Digests
  import opened ClientRecords
  import opened RepairSelection
  import opened Realignment

  // The requests of a history above position lo, added to those at hand.
  function Saved(available: map<RequestId, Request>, h: Digest, lo: nat): map<RequestId, Request> {
    if Height(h) <= lo then available else Saved(available, h.prev, lo)[h.id := h.request]
  }

  // The full requests of the entries, added to those at hand.
  function Gathered(available: map<RequestId, Request>, entries: seq<ProtoEntry>): map<RequestId, Request> {
    if entries == [] then available
    else
      var last := entries[|entries| - 1];
      var bodies := Gathered(available, entries[..|entries| - 1]);
      if last.request.Some? then bodies[last.id := last.request.value] else bodies
  }

  // The requests to ask the other replicas for.
  function MissingIds(available: map<RequestId, Request>, entries: seq<ProtoEntry>): seq<RequestId> {
    if entries == [] then []
    else
      var front, last := entries[..|entries| - 1], entries[|entries| - 1];
      MissingIds(available, front)
      + if last.request.None? && last.id !in Gathered(available, front) then [last.id] else []
  }

  predicate HaveFrom(bodies: map<RequestId, Request>, entries: seq<ProtoEntry>, idx: nat) {
    forall j :: idx <= j < |entries| ==> entries[j].id in bodies
  }

  // The bodies at hand are the requests that entries lo to hi were hashed with.
  predicate Match(bodies: map<RequestId, Request>, entries: seq<ProtoEntry>, lo: nat, hi: nat)
    requires hi <= |entries|
  {
    forall j :: lo <= j < hi ==> entries[j].id in bodies && Sha(bodies[entries[j].id]) == entries[j].requestDigest
  }

  lemma {:induction false} SavedIds(available: map<RequestId, Request>, h: Digest, lo: nat)
    ensures Saved(available, h, lo).Keys == available.Keys + IdsAbove(h, lo)
  {
    if Height(h) > lo {
      SavedIds(available, h.prev, lo);
    }
  }

  lemma {:induction false} GatheredIds(available: map<RequestId, Request>, entries: seq<ProtoEntry>)
    ensures forall id :: id in Gathered(available, entries) <==>
              id in available || exists e :: e in entries && e.request.Some? && e.id == id
  {
    if entries != [] {
      var n := |entries|;
      GatheredIds(available, entries[..n - 1]);
      assert entries == entries[..n - 1] + [entries[n - 1]];
    }
  }

  // When nothing is missing, there is a body for every entry.
  lemma {:induction false} NothingMissingHave(available: map<RequestId, Request>, entries: seq<ProtoEntry>)
    requires MissingIds(available, entries) == []
    ensures forall e :: e in entries ==> e.id in Gathered(available, entries)
  {
    if entries != [] {
      var front, last := entries[..|entries| - 1], entries[|entries| - 1];
      NothingMissingHave(available, front);
      forall e | e in entries ensures e.id in Gathered(available, entries) {
        assert entries == front + [last];
        assert e in front || e == last;
      }
    }
  }

  // A request is asked for only if its entry came without it and it is not at hand.
  lemma {:induction false} MissingMeaning(available: map<RequestId, Request>, entries: seq<ProtoEntry>, id: RequestId)
    requires id in MissingIds(available, entries)
    ensures id !in available && exists e :: e in entries && e.request.None? && e.id == id
  {
    var n := |entries|;
    var front, last := entries[..n - 1], entries[n - 1];
    assert entries == front + [last];
    if id in MissingIds(available, front) {
      MissingMeaning(available, front, id);
    } else {
      GatheredIds(available, front);
      assert last in entries;
    }
  }

  method GatherBodies(entries: seq<ProtoEntry>, available: map<RequestId, Request>)
    returns (bodies: map<RequestId, Request>, missing: seq<RequestId>)
    ensures bodies == Gathered(available, entries) && missing == MissingIds(available, entries)
  {
    bodies, missing := available, [];
    for i := 0 to |entries|
      invariant bodies == Gathered(available, entries[..i]) && missing == MissingIds(available, entries[..i])
    {
      assert entries[..i + 1][..i] == entries[..i];
      var entry := entries[i];
      if entry.request.Some? {
        bodies := bodies[entry.id := entry.request.value];
      } else if entry.id !in bodies {
        missing := missing + [entry.id];
      }
    }
    assert entries[..|entries|] == entries;
  }

  lemma MatchMore(bodies: map<RequestId, Request>, entries: seq<ProtoEntry>, lo: nat, hi: nat)
    requires hi < |entries| && Match(bodies, entries, lo, hi)
    requires entries[hi].id in bodies && Sha(bodies[entries[hi].id]) == entries[hi].requestDigest
    ensures Match(bodies, entries, lo, hi + 1)
  {
  }

  lemma MatchFails(bodies: map<RequestId, Request>, entries: seq<ProtoEntry>, lo: nat, i: nat)
    requires lo <= i < |entries| && entries[i].id in bodies && Sha(bodies[entries[i].id]) != entries[i].requestDigest
    ensures !Match(bodies, entries, lo, |entries|)
  {
  }

  lemma NoneMissing(have: map<RequestId, Request>, entries: seq<ProtoEntry>)
    requires forall e :: e in entries ==> e.request.Some? || e.id in have
    ensures MissingIds(have, entries) == []
  {
    var missing := MissingIds(have, entries);
    if missing != [] {
      assert missing[0] in missing;
      MissingMeaning(have, entries, missing[0]);
    }
  }

  predicate Distinct(entries: seq<ProtoEntry>) {
    forall i, j :: 0 <= i < j < |entries| ==> entries[i].id != entries[j].id
  }

  // With distinct entries: asked for exactly when the entry came without it and it is not at hand.
  lemma {:induction false} MissingIff(have: map<RequestId, Request>, entries: seq<ProtoEntry>)
    requires Distinct(entries)
    ensures forall e :: e in entries ==> (e.id in MissingIds(have, entries) <==> e.request.None? && e.id !in have)
  {
    if entries != [] {
      var n := |entries|;
      var front, last := entries[..n - 1], entries[n - 1];
      MissingIff(have, front);
      GatheredIds(have, front);
      forall e | e in entries ensures e.id in MissingIds(have, entries) <==> e.request.None? && e.id !in have {
        if last.id in MissingIds(have, front) {
          MissingMeaning(have, front, last.id);
        }
        var i :| 0 <= i < n && entries[i] == e;
        if i < n - 1 {
          assert front[i] == e;
        }
      }
    }
  }

  lemma MissingNoneIff(have: map<RequestId, Request>, entries: seq<ProtoEntry>)
    requires Distinct(entries)
    ensures MissingIds(have, entries) == [] <==> forall e :: e in entries && e.request.None? ==> e.id in have
  {
    MissingIff(have, entries);
    if forall e :: e in entries && e.request.None? ==> e.id in have {
      NoneMissing(have, entries);
    }
  }

  // What the source returns: true, false with the requests to ask for, or an exception.
  datatype Result = Applied | Waiting(missing: seq<RequestId>) | Clash

  function ResultOf(have: map<RequestId, Request>, entries: seq<ProtoEntry>): Result {
    if MissingIds(have, entries) != [] then Waiting(MissingIds(have, entries))
    else if Match(Gathered(have, entries), entries, 0, |entries|) then Applied
    else Clash
  }

  // ----- What that means, in terms of the entries and of the own history

  // The last position of the history above lo that has the request.
  ghost predicate LastAt(h: Digest, lo: nat, id: RequestId, s: nat) {
    && lo < s <= Height(h) && Upto(h, s).Link? && Upto(h, s).id == id
    && forall t :: s < t <= Height(h) ==> Upto(h, t).Link? && Upto(h, t).id != id
  }

  // The request that the entry came with is the one it was hashed with; or if it came without,
  // the last one of this id among the dropped entries is; or if there is none, the one at hand.
  ghost predicate BodyFits(e: ProtoEntry, available: map<RequestId, Request>, h: Digest, lo: nat) {
    match e.request
    case Some(q) => Sha(q) == e.requestDigest
    case None =>
      || (exists s :: LastAt(h, lo, e.id, s) && Sha(Upto(h, s).request) == e.requestDigest)
      || (e.id !in IdsAbove(h, lo) && e.id in available && Sha(available[e.id]) == e.requestDigest)
  }

  // There is no request for the entry.
  ghost predicate NoBody(e: ProtoEntry, available: map<RequestId, Request>, h: Digest, lo: nat) {
    e.request.None? && e.id !in IdsAbove(h, lo) && e.id !in available
  }

  lemma {:induction false} SavedAt(available: map<RequestId, Request>, h: Digest, lo: nat, id: RequestId)
    ensures id in IdsAbove(h, lo) ==>
              && id in Saved(available, h, lo)
              && exists s :: LastAt(h, lo, id, s) && Saved(available, h, lo)[id] == Upto(h, s).request
    ensures id !in IdsAbove(h, lo) ==>
              && (id in Saved(available, h, lo) <==> id in available)
              && (id in available ==> Saved(available, h, lo)[id] == available[id])
  {
    if Height(h) > lo {
      if h.id == id {
        assert LastAt(h, lo, id, Height(h));
      } else {
        SavedAt(available, h.prev, lo, id);
        if id in IdsAbove(h.prev, lo) {
          var s: nat :| LastAt(h.prev, lo, id, s) && Saved(available, h.prev, lo)[id] == Upto(h.prev, s).request;
          assert Upto(h, s) == Upto(h.prev, s);
          forall t | s < t <= Height(h) ensures Upto(h, t).Link? && Upto(h, t).id != id {
            assert t == Height(h) || Upto(h, t) == Upto(h.prev, t);
          }
          assert LastAt(h, lo, id, s);
        }
      }
    }
  }

  lemma {:induction false} LastAbove(h: Digest, lo: nat, id: RequestId, s: nat)
    requires LastAt(h, lo, id, s)
    ensures id in IdsAbove(h, lo)
  {
    if s < Height(h) {
      forall t | s < t <= Height(h.prev) ensures Upto(h.prev, t).Link? && Upto(h.prev, t).id != id {
        assert Upto(h.prev, t) == Upto(h, t);
      }
      LastAbove(h.prev, lo, id, s);
    }
  }

  lemma {:induction false} GatheredElsewhere(
    have: map<RequestId, Request>, entries: seq<ProtoEntry>, id: RequestId)
    requires forall e :: e in entries ==> e.id != id
    ensures id in Gathered(have, entries) <==> id in have
    ensures id in have ==> Gathered(have, entries)[id] == have[id]
  {
    if entries != [] {
      GatheredElsewhere(have, entries[..|entries| - 1], id);
    }
  }

  lemma {:induction false} GatheredAt(have: map<RequestId, Request>, entries: seq<ProtoEntry>, e: ProtoEntry)
    requires Distinct(entries) && e in entries
    ensures e.request.Some? ==> e.id in Gathered(have, entries) && Gathered(have, entries)[e.id] == e.request.value
    ensures e.request.None? ==>
              && (e.id in Gathered(have, entries) <==> e.id in have)
              && (e.id in have ==> Gathered(have, entries)[e.id] == have[e.id])
  {
    var front, last := entries[..|entries| - 1], entries[|entries| - 1];
    assert entries == front + [last];
    if e == last {
      GatheredElsewhere(have, front, e.id);
    } else {
      assert e in front;
      GatheredAt(have, front, e);
      assert e.id != last.id;
    }
  }

  lemma BodyFitsIff(available: map<RequestId, Request>, h: Digest, lo: nat, entries: seq<ProtoEntry>, e: ProtoEntry)
    requires Distinct(entries) && e in entries
    ensures var bodies := Gathered(Saved(available, h, lo), entries);
            BodyFits(e, available, h, lo) <==> e.id in bodies && Sha(bodies[e.id]) == e.requestDigest
  {
    GatheredAt(Saved(available, h, lo), entries, e);
    SavedAt(available, h, lo, e.id);
    if e.id in IdsAbove(h, lo) {
      var s: nat :| LastAt(h, lo, e.id, s) && Saved(available, h, lo)[e.id] == Upto(h, s).request;
      forall t: nat | LastAt(h, lo, e.id, t) ensures t == s {
      }
    } else {
      forall t: nat | LastAt(h, lo, e.id, t) ensures false {
        LastAbove(h, lo, e.id, t);
      }
    }
  }

  lemma FitsAll(available: map<RequestId, Request>, h: Digest, lo: nat, entries: seq<ProtoEntry>)
    requires Distinct(entries)
    ensures Match(Gathered(Saved(available, h, lo), entries), entries, 0, |entries|) <==>
            forall e :: e in entries ==> BodyFits(e, available, h, lo)
  {
    forall e | e in entries
      ensures BodyFits(e, available, h, lo) <==>
              var bodies := Gathered(Saved(available, h, lo), entries);
              e.id in bodies && Sha(bodies[e.id]) == e.requestDigest
    {
      BodyFitsIff(available, h, lo, entries, e);
    }
    assert forall e :: e in entries ==> exists j :: 0 <= j < |entries| && entries[j] == e;
  }

  // The three outcomes, exactly.
  lemma ResultIff(available: map<RequestId, Request>, h: Digest, lo: nat, entries: seq<ProtoEntry>)
    requires Distinct(entries)
    ensures var result := ResultOf(Saved(available, h, lo), entries);
            && (result == Applied <==> forall e :: e in entries ==> BodyFits(e, available, h, lo))
            && (result.Waiting? <==> exists e :: e in entries && NoBody(e, available, h, lo))
            && (result.Waiting? ==>
                  forall e :: e in entries ==> (e.id in result.missing <==> NoBody(e, available, h, lo)))
  {
    var have := Saved(available, h, lo);
    SavedIds(available, h, lo);
    MissingIff(have, entries);
    MissingNoneIff(have, entries);
    FitsAll(available, h, lo, entries);
    forall e | e in entries && NoBody(e, available, h, lo) ensures !BodyFits(e, available, h, lo) {
      forall t: nat | LastAt(h, lo, e.id, t) ensures false {
        LastAbove(h, lo, e.id, t);
      }
    }
  }
}
