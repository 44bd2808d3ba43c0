// Which client requests a repair keeps: every request that enough logs contain is in the suffix
// exactly once, and nothing is in it that only faulty replicas vouch for.

module RepairRequests {
  import opened Options
  import opened Digests
  import opened Quorums
  import opened ClientRecords
  import opened RepairSelection
  import opened RepairDurability
  import opened RoundSteps
  import opened RoundSafety
  import opened RepairGuarantees

  ghost predicate Shows(e: ProtoEntry, lo: nat, id: RequestId, body: Request) {
    e.seqNo > lo && e.id == id && e.Body() == body
  }

  // The logs that contain this request above lo.
  ghost function LogsWith(msgs: seq<StartMsg>, lo: nat, id: RequestId, body: Request): set<nat> {
    set i: nat | i < |msgs| && exists e :: e in msgs[i].log.entries && Shows(e, lo, id, body)
  }

  // No log contains a request twice.
  ghost predicate DistinctRequests(entries: seq<ProtoEntry>) {
    forall i, j :: 0 <= i < j < |entries| ==> entries[i].id != entries[j].id
  }

  lemma {:induction false} RequestConcat(
    a: seq<(nat, ProtoEntry)>, b: seq<(nat, ProtoEntry)>, id: RequestId, body: Request)
    ensures OccursRequest(a + b, id, body) == OccursRequest(a, id, body) + OccursRequest(b, id, body)
    decreases |b|
  {
    if b == [] {
      assert a + b == a;
    } else {
      RequestConcat(a, b[..|b| - 1], id, body);
      assert (a + b)[..|a + b| - 1] == a + b[..|b| - 1];
    }
  }

  // The occurrences in one log's entries, by its last entry.
  lemma TaggedSnoc(entries: seq<ProtoEntry>, i: nat, lo: nat, id: RequestId, body: Request)
    requires entries != []
    ensures var n := |entries| - 1;
            OccursRequest(Tagged(entries, i, lo), id, body) ==
            OccursRequest(Tagged(entries[..n], i, lo), id, body) + if Shows(entries[n], lo, id, body) then 1 else 0
  {
    var n := |entries| - 1;
    var front, last := entries[..n], entries[n];
    if last.seqNo > lo {
      SnocFront(Tagged(front, i, lo), (i, last));
    } else {
      assert Tagged(front, i, lo) + [] == Tagged(front, i, lo);
    }
  }

  lemma ShowsSnoc(entries: seq<ProtoEntry>, lo: nat, id: RequestId, body: Request)
    requires entries != []
    ensures var n := |entries| - 1;
            (exists e :: e in entries && Shows(e, lo, id, body)) <==>
            (exists e :: e in entries[..n] && Shows(e, lo, id, body)) || Shows(entries[n], lo, id, body)
  {
    var n := |entries| - 1;
    assert entries == entries[..n] + [entries[n]];
  }

  lemma {:induction false} RequestTagged(entries: seq<ProtoEntry>, i: nat, lo: nat, id: RequestId, body: Request)
    ensures OccursRequest(Tagged(entries, i, lo), id, body) >= 1 <==> exists e :: e in entries && Shows(e, lo, id, body)
    decreases |entries|
  {
    if entries != [] {
      RequestTagged(entries[..|entries| - 1], i, lo, id, body);
      TaggedSnoc(entries, i, lo, id, body);
      ShowsSnoc(entries, lo, id, body);
    }
  }

  lemma {:induction false} RequestTaggedOnce(entries: seq<ProtoEntry>, i: nat, lo: nat, id: RequestId, body: Request)
    requires DistinctRequests(entries)
    ensures OccursRequest(Tagged(entries, i, lo), id, body) <= 1
    decreases |entries|
  {
    if entries != [] {
      var n := |entries| - 1;
      RequestTaggedOnce(entries[..n], i, lo, id, body);
      RequestTagged(entries[..n], i, lo, id, body);
      TaggedSnoc(entries, i, lo, id, body);
      if exists e :: e in entries[..n] && Shows(e, lo, id, body) {
        var e :| e in entries[..n] && Shows(e, lo, id, body);
        var j :| 0 <= j < n && entries[j] == e;
        assert entries[j].id != entries[n].id;
      }
    }
  }

  lemma LogsWithFront(msgs: seq<StartMsg>, lo: nat, id: RequestId, body: Request)
    requires msgs != []
    ensures var n := |msgs| - 1;
            LogsWith(msgs, lo, id, body) == LogsWith(msgs[..n], lo, id, body) +
              if exists e :: e in msgs[n].log.entries && Shows(e, lo, id, body) then {n} else {}
  {
    var n := |msgs| - 1;
    forall i: nat | i < n ensures msgs[..n][i] == msgs[i] {
    }
  }

  // Entries are counted once per log that contains the request, if logs repeat no request.
  lemma {:induction false} RequestsCounted(msgs: seq<StartMsg>, lo: nat, id: RequestId, body: Request)
    ensures OccursRequest(Flat(msgs, lo), id, body) >= |LogsWith(msgs, lo, id, body)|
    ensures (forall i :: 0 <= i < |msgs| ==> DistinctRequests(msgs[i].log.entries)) ==>
              OccursRequest(Flat(msgs, lo), id, body) == |LogsWith(msgs, lo, id, body)|
    decreases |msgs|
  {
    if msgs == [] {
      assert LogsWith(msgs, lo, id, body) == {};
    } else {
      var n := |msgs| - 1;
      RequestsCounted(msgs[..n], lo, id, body);
      RequestsOfLast(msgs, lo, id, body);
      RequestConcat(Flat(msgs[..n], lo), Tagged(msgs[n].log.entries, n, lo), id, body);
    }
  }

  // What the last start message adds to both sides.
  lemma RequestsOfLast(msgs: seq<StartMsg>, lo: nat, id: RequestId, body: Request)
    requires msgs != []
    ensures var n := |msgs| - 1;
            var added := |LogsWith(msgs, lo, id, body)| - |LogsWith(msgs[..n], lo, id, body)|;
            && OccursRequest(Tagged(msgs[n].log.entries, n, lo), id, body) >= added
            && (DistinctRequests(msgs[n].log.entries) ==>
                  OccursRequest(Tagged(msgs[n].log.entries, n, lo), id, body) == added)
  {
    var n := |msgs| - 1;
    RequestTagged(msgs[n].log.entries, n, lo, id, body);
    if DistinctRequests(msgs[n].log.entries) {
      RequestTaggedOnce(msgs[n].log.entries, n, lo, id, body);
    }
    LogsWithFront(msgs, lo, id, body);
  }

  // The valid requests are those that some body brings to the threshold.
  lemma {:induction false} ValidMeaning(flat: seq<(nat, ProtoEntry)>, t: nat, id: RequestId)
    requires t > 0
    ensures forall body :: OccursRequest(flat, id, body) >= t ==> id in ValidRequests(flat, t)
    ensures id in ValidRequests(flat, t) ==>
              var e := ValidRequests(flat, t)[id];
              e.id == id && OccursRequest(flat, id, e.Body()) >= t && exists p :: p in flat && p.1 == e
    decreases |flat|
  {
    if flat != [] {
      var n := |flat| - 1;
      ValidMeaning(flat[..n], t, id);
      assert flat[n] in flat;
      forall body | OccursRequest(flat, id, body) >= t ensures id in ValidRequests(flat, t) {
        if OccursRequest(flat[..n], id, body) < t {
          assert flat[n].1.id == id;
        }
      }
      if id in ValidRequests(flat[..n], t) {
        var e := ValidRequests(flat[..n], t)[id];
        var p :| p in flat[..n] && p.1 == e;
        assert p in flat;
      }
    }
  }

  lemma InOrderLists(m: map<RequestId, ProtoEntry>)
    requires forall id :: id in m ==> m[id].id == id
    ensures forall e :: e in InOrder(m) <==> e.id in m && m[e.id] == e
    ensures DistinctRequests(InOrder(m))
  {
    InOrderMembers(m);
    InOrderDistinct(m);
  }

  lemma {:induction false} InOrderMembers(m: map<RequestId, ProtoEntry>)
    requires forall id :: id in m ==> m[id].id == id
    ensures forall e :: e in InOrder(m) <==> e.id in m && m[e.id] == e
    decreases |m|
  {
    if m != map[] {
      FirstExists(m.Keys);
      var a :| IsFirst(m.Keys, a) && InOrder(m) == [m[a]] + InOrder(m - {a});
      InOrderMembers(m - {a});
    }
  }

  // The entries are listed by client, and then by the client's sequence number.
  lemma {:induction false} ValidIds(flat: seq<(nat, ProtoEntry)>, t: nat)
    requires t > 0
    ensures forall id :: id in ValidRequests(flat, t) ==> ValidRequests(flat, t)[id].id == id
  {
    forall id | id in ValidRequests(flat, t) ensures ValidRequests(flat, t)[id].id == id {
      ValidMeaning(flat, t, id);
    }
  }

  // With entry i its body has been seen in t entries.
  ghost predicate BackedAt(flat: seq<(nat, ProtoEntry)>, t: nat, i: nat)
    requires i < |flat|
  {
    OccursRequest(flat[..i + 1], flat[i].1.id, flat[i].1.Body()) >= t
  }

  // Of the entries of a request with which some body has been seen in t entries, the last is taken.
  lemma {:induction false} LastBackedTaken(flat: seq<(nat, ProtoEntry)>, t: nat, id: RequestId) returns (i: nat)
    requires id in ValidRequests(flat, t)
    ensures i < |flat| && flat[i].1 == ValidRequests(flat, t)[id] && flat[i].1.id == id && BackedAt(flat, t, i)
    ensures forall j :: i < j < |flat| && flat[j].1.id == id ==> !BackedAt(flat, t, j)
    decreases |flat|
  {
    var n := |flat| - 1;
    assert flat[..n + 1] == flat;
    if flat[n].1.id == id && BackedAt(flat, t, n) {
      return n;
    }
    i := LastBackedTaken(flat[..n], t, id);
    assert flat[..n][..i + 1] == flat[..i + 1];
    forall j | i < j < |flat| && flat[j].1.id == id ensures !BackedAt(flat, t, j) {
      if j < n {
        assert flat[..n][..j + 1] == flat[..j + 1];
        assert !BackedAt(flat[..n], t, j);
      }
    }
  }

  ghost predicate Ascending(entries: seq<ProtoEntry>) {
    forall i, j :: 0 <= i < j < |entries| ==>
      var a, b := entries[i].id, entries[j].id;
      a.clientId < b.clientId || (a.clientId == b.clientId && a.clientSeq < b.clientSeq)
  }

  lemma {:induction false} FirstAscends(first: ProtoEntry, rest: seq<ProtoEntry>)
    requires Ascending(rest) && forall e :: e in rest ==> Before(first.id, e.id)
    ensures Ascending([first] + rest)
  {
  }

  lemma {:induction false} InOrderAscending(m: map<RequestId, ProtoEntry>)
    requires forall id :: id in m ==> m[id].id == id
    ensures Ascending(InOrder(m))
    decreases |m|
  {
    if m != map[] {
      FirstExists(m.Keys);
      var a :| IsFirst(m.Keys, a) && InOrder(m) == [m[a]] + InOrder(m - {a});
      InOrderAscending(m - {a});
      InOrderMembers(m - {a});
      FirstAscends(m[a], InOrder(m - {a}));
    }
  }

  lemma {:induction false} InOrderDistinct(m: map<RequestId, ProtoEntry>)
    requires forall id :: id in m ==> m[id].id == id
    ensures DistinctRequests(InOrder(m))
    decreases |m|
  {
    if m != map[] {
      FirstExists(m.Keys);
      var a :| IsFirst(m.Keys, a) && InOrder(m) == [m[a]] + InOrder(m - {a});
      InOrderDistinct(m - {a});
      InOrderMembers(m - {a});
      var rest := InOrder(m - {a});
      forall j | 0 <= j < |rest| ensures rest[j].id != a {
        assert rest[j] in rest;
      }
    }
  }

  // Inclusion: a request that f + 1 logs contain past the checkpoint is in the suffix.
  lemma BackedRequestIncluded(cfg: Config, msgs: seq<StartMsg>, suffix: LogSuffix, id: RequestId, body: Request)
    requires msgs != [] && LogSuffixOf(cfg, msgs) == Some(suffix)
    requires |LogsWith(msgs, suffix.checkpoint.seqNo, id, body)| >= cfg.f + 1
    ensures id in IdsOf(suffix.entries)
  {
    SuffixParts(cfg, msgs, suffix);
    BackedIncluded(cfg, msgs, suffix.checkpoint.seqNo, id, body);
  }

  lemma BackedIncluded(cfg: Config, msgs: seq<StartMsg>, ckSeq: nat, id: RequestId, body: Request)
    requires msgs != [] && |LogsWith(msgs, ckSeq, id, body)| >= cfg.f + 1
    ensures id in IdsOf(Ordered(cfg, msgs, ckSeq) + Remaining(cfg, msgs, ckSeq))
  {
    var ordered, remaining := Ordered(cfg, msgs, ckSeq), Remaining(cfg, msgs, ckSeq);
    BackedValid(cfg, msgs, ckSeq, id, body);
    RemainingMeaning(cfg, msgs, ckSeq);
    IdsOfConcat(ordered, remaining);
    if id !in IdsOf(ordered) {
      var e := ValidRequests(Flat(msgs, ckSeq), cfg.f + 1)[id];
      assert e.id == id && e in remaining;
    }
  }

  lemma BackedValid(cfg: Config, msgs: seq<StartMsg>, ckSeq: nat, id: RequestId, body: Request)
    requires |LogsWith(msgs, ckSeq, id, body)| >= cfg.f + 1
    ensures var valid := ValidRequests(Flat(msgs, ckSeq), cfg.f + 1);
            id in valid && valid[id].id == id
  {
    RequestsCounted(msgs, ckSeq, id, body);
    ValidMeaning(Flat(msgs, ckSeq), cfg.f + 1, id);
  }

  lemma IdsOfConcat(a: seq<ProtoEntry>, b: seq<ProtoEntry>)
    ensures IdsOf(a + b) == IdsOf(a) + IdsOf(b)
  {
  }

  lemma RemainingMeaning(cfg: Config, msgs: seq<StartMsg>, ckSeq: nat)
    requires msgs != []
    ensures var valid := ValidRequests(Flat(msgs, ckSeq), cfg.f + 1);
            forall e :: e in Remaining(cfg, msgs, ckSeq) <==>
              e.id in valid && valid[e.id] == e && e.id !in IdsOf(Ordered(cfg, msgs, ckSeq))
    ensures DistinctRequests(Remaining(cfg, msgs, ckSeq))
  {
    var valid := ValidRequests(Flat(msgs, ckSeq), cfg.f + 1);
    ValidKeys(Flat(msgs, ckSeq), cfg.f + 1);
    ListedMeaning(valid, IdsOf(Ordered(cfg, msgs, ckSeq)));
  }

  lemma ValidKeys(flat: seq<(nat, ProtoEntry)>, t: nat)
    requires t > 0
    ensures forall id :: id in ValidRequests(flat, t) ==> ValidRequests(flat, t)[id].id == id
  {
    forall id | id in ValidRequests(flat, t) ensures ValidRequests(flat, t)[id].id == id {
      ValidMeaning(flat, t, id);
    }
  }

  lemma ListedMeaning(m: map<RequestId, ProtoEntry>, ids: set<RequestId>)
    requires forall id :: id in m ==> m[id].id == id
    ensures forall e :: e in InOrder(m - ids) <==> e.id in m && m[e.id] == e && e.id !in ids
    ensures DistinctRequests(InOrder(m - ids))
  {
    InOrderLists(m - ids);
  }

  // More logs than there are faulty replicas include one from a correct replica.
  lemma CorrectAmong(msgs: seq<StartMsg>, s: set<nat>, faulty: set<nat>) returns (i: nat)
    requires WellFormed(msgs) && (forall j :: j in s ==> j < |msgs|) && |s| > |faulty|
    ensures i in s && msgs[i].replicaId !in faulty
  {
    SendersSize(msgs, s);
    SplitSize(SendersOf(msgs, s), faulty);
    var r :| r in SendersOf(msgs, s) - faulty;
    i :| i in s && msgs[i].replicaId == r;
  }

  // Log i is from a correct replica and holds the entry, or at least its request.
  ghost predicate Vouches(msgs: seq<StartMsg>, faulty: set<nat>, ckSeq: nat, e: ProtoEntry, i: nat) {
    && i < |msgs| && msgs[i].replicaId !in faulty
    && (Extends(Head(msgs[i].log), e.digest) || i in LogsWith(msgs, ckSeq, e.id, e.Body()))
  }

  // Validity: an entry that was not copied from the log of the certificate is held by a correct
  // replica's log, at that position or, if it was added at the end, at some other.
  lemma SuffixEntriesBacked(cfg: Config, msgs: seq<StartMsg>, suffix: LogSuffix, e: ProtoEntry, faulty: set<nat>)
    requires WellFormed(msgs) && LogSuffixOf(cfg, msgs) == Some(suffix)
    requires forall i :: 0 <= i < |msgs| ==> DistinctRequests(msgs[i].log.entries)
    requires e in suffix.entries && |faulty| <= cfg.f
    ensures e in UpToCert(msgs, suffix.checkpoint.seqNo) ||
            exists i :: Vouches(msgs, faulty, suffix.checkpoint.seqNo, e, i)
  {
    SuffixParts(cfg, msgs, suffix);
    CheckpointsBelow(msgs, suffix.checkpoint.seqNo);
    EntriesBacked(cfg, msgs, suffix.checkpoint.seqNo, e, faulty);
  }

  lemma EntriesBacked(cfg: Config, msgs: seq<StartMsg>, ckSeq: nat, e: ProtoEntry, faulty: set<nat>)
    requires WellFormed(msgs) && ChainedMsgs(msgs, ckSeq)
    requires forall i :: 0 <= i < |msgs| ==> DistinctRequests(msgs[i].log.entries)
    requires e in Ordered(cfg, msgs, ckSeq) + Remaining(cfg, msgs, ckSeq) && |faulty| <= cfg.f
    ensures e in UpToCert(msgs, ckSeq) || exists i :: Vouches(msgs, faulty, ckSeq, e, i)
  {
    if e in Remaining(cfg, msgs, ckSeq) {
      RemainingMeaning(cfg, msgs, ckSeq);
      ValidMeaning(Flat(msgs, ckSeq), cfg.f + 1, e.id);
      RequestsCounted(msgs, ckSeq, e.id, e.Body());
      var i := CorrectAmong(msgs, LogsWith(msgs, ckSeq, e.id, e.Body()), faulty);
      assert Vouches(msgs, faulty, ckSeq, e, i);
    } else if e in AfterCert(cfg, msgs, ckSeq) {
      AfterCertBacked(cfg, msgs, ckSeq, e);
      var i := CorrectAmong(msgs, Holders(msgs, e.digest), faulty);
      assert Vouches(msgs, faulty, ckSeq, e, i);
    }
  }

  // A copied entry is an entry of the certificate's log; if the certificate is of the round and
  // for an entry of that log, a correct replica replied a digest that contains the copied entry.
  lemma CopiedEntriesBacked(x: Setting, st: State, msgs: seq<StartMsg>, ckSeq: nat, e: ProtoEntry) returns (r: nat)
    requires x.Ok() && Typed(x, st) && WellFormed(msgs) && ChainedMsgs(msgs, ckSeq)
    requires CertInLog(Holder(msgs, ckSeq)) && CertOfRound(x, st, Holder(msgs, ckSeq))
    requires e in UpToCert(msgs, ckSeq)
    ensures e in Holder(msgs, ckSeq).entries && Holder(msgs, ckSeq).cert.Some?
    ensures var d := Holder(msgs, ckSeq).cert.value.digest;
            r in x.Correct() && (r, d) in st.replies && Extends(d, e.digest)
  {
    TakenFrom(Holder(msgs, ckSeq).entries, ckSeq, CertSeq(msgs, ckSeq));
    UpToCertFollows(msgs, ckSeq);
    var d := Holder(msgs, ckSeq).cert.value.digest;
    var k :| 0 <= k < |UpToCert(msgs, ckSeq)| && UpToCert(msgs, ckSeq)[k] == e;
    UptoExtended(d, ckSeq + 1 + k);
    CorrectRepliers(x, st, d, x.cfg.f + 1);
    r :| r in Repliers(st, d) * x.Correct();
    assert (r, d) in st.replies;
  }

  lemma {:induction false} AfterCertBacked(cfg: Config, msgs: seq<StartMsg>, ckSeq: nat, e: ProtoEntry)
    requires WellFormed(msgs) && ChainedMsgs(msgs, ckSeq)
    requires e in AfterCert(cfg, msgs, ckSeq)
    ensures |Holders(msgs, e.digest)| >= cfg.Matching()
  {
    AfterCertFollows(cfg, msgs, ckSeq);
    WinnerSupported(msgs, ScanFloor(msgs, ckSeq), cfg.Matching());
    var tip := Decider(cfg, msgs, ckSeq).value.1.digest;
    EntryFollows(AfterCert(cfg, msgs, ckSeq), ScanFloor(msgs, ckSeq), tip, e);
    HoldersOfPrefix(msgs, tip, e.digest);
  }

  lemma {:induction false} EntryFollows(entries: seq<ProtoEntry>, lo: nat, d: Digest, e: ProtoEntry)
    requires Follows(entries, lo, d) && e in entries && Height(d) == lo + |entries|
    ensures Extends(d, e.digest)
  {
    var k :| 0 <= k < |entries| && entries[k] == e;
    UptoExtended(d, lo + 1 + k);
  }

  lemma HoldersOfPrefix(msgs: seq<StartMsg>, d: Digest, p: Digest)
    requires Extends(d, p)
    ensures |Holders(msgs, p)| >= |Holders(msgs, d)|
  {
    forall i | i in Holders(msgs, d) ensures i in Holders(msgs, p) {
      ExtendsTransitive(Head(msgs[i].log), d, p);
    }
    SubsetSize(Holders(msgs, d), Holders(msgs, p));
  }

  // ----- Exactly once

  lemma TakenHonest(log: RepairLog, lo: nat, hi: nat)
    requires ChainedLog(log)
    ensures forall e :: e in TakeBetween(log.entries, lo, hi) ==> EntryHonest(e)
  {
    TakenFrom(log.entries, lo, hi);
    forall e | e in log.entries ensures EntryHonest(e) {
      var i :| 0 <= i < |log.entries| && log.entries[i] == e;
      assert EntryChained(log, i);
    }
  }

  lemma {:induction false} TakenFrom(entries: seq<ProtoEntry>, lo: nat, hi: nat)
    ensures forall e :: e in TakeBetween(entries, lo, hi) ==> e in entries
    decreases |entries|
  {
    if entries != [] {
      TakenFrom(entries[1..], lo, hi);
    }
  }

  lemma OrderedHonest(cfg: Config, msgs: seq<StartMsg>, ckSeq: nat)
    requires WellFormed(msgs)
    ensures forall e :: e in Ordered(cfg, msgs, ckSeq) ==> EntryHonest(e)
  {
    TakenHonest(msgs[CertIdx(msgs, ckSeq)].log, ckSeq, CertSeq(msgs, ckSeq));
    match Decider(cfg, msgs, ckSeq)
    case None =>
      TakenHonest(msgs[CertIdx(msgs, ckSeq)].log, ScanFloor(msgs, ckSeq), 0);
    case Some((i, e)) =>
      if i < |msgs| {
        TakenHonest(msgs[i].log, ScanFloor(msgs, ckSeq), e.seqNo);
      }
  }

  // A decided entry is an entry of some start message.
  lemma DecidedFromLog(cfg: Config, msgs: seq<StartMsg>, suffix: LogSuffix, e: ProtoEntry) returns (i: nat)
    requires WellFormed(msgs) && LogSuffixOf(cfg, msgs) == Some(suffix) && e in suffix.entries
    ensures i < |msgs| && e in msgs[i].log.entries
  {
    SuffixParts(cfg, msgs, suffix);
    var ckSeq := suffix.checkpoint.seqNo;
    if e in Ordered(cfg, msgs, ckSeq) {
      i := OrderedFromLog(cfg, msgs, ckSeq, e);
    } else {
      i := RemainingFromLog(cfg, msgs, ckSeq, e);
    }
  }

  lemma OrderedFromLog(cfg: Config, msgs: seq<StartMsg>, ckSeq: nat, e: ProtoEntry) returns (i: nat)
    requires WellFormed(msgs) && e in Ordered(cfg, msgs, ckSeq)
    ensures i < |msgs| && e in msgs[i].log.entries
  {
    var c := CertIdx(msgs, ckSeq);
    TakenFrom(msgs[c].log.entries, ckSeq, CertSeq(msgs, ckSeq));
    if e in UpToCert(msgs, ckSeq) {
      return c;
    }
    match Decider(cfg, msgs, ckSeq)
    case None =>
      TakenFrom(msgs[c].log.entries, ScanFloor(msgs, ckSeq), 0);
      return c;
    case Some((j, last)) =>
      TakenFrom(msgs[j].log.entries, ScanFloor(msgs, ckSeq), last.seqNo);
      return j;
  }

  lemma RemainingFromLog(cfg: Config, msgs: seq<StartMsg>, ckSeq: nat, e: ProtoEntry) returns (i: nat)
    requires WellFormed(msgs) && e in Remaining(cfg, msgs, ckSeq)
    ensures i < |msgs| && e in msgs[i].log.entries
  {
    var flat := Flat(msgs, ckSeq);
    RemainingMeaning(cfg, msgs, ckSeq);
    ValidMeaning(flat, cfg.f + 1, e.id);
    var p :| p in flat && p.1 == e;
    FlatInRange(msgs, ckSeq);
    return p.0;
  }

  lemma ChainDistinct(entries: seq<ProtoEntry>, lo: nat, tip: Digest)
    requires Follows(entries, lo, tip) && |entries| == Height(tip) - lo
    requires NoRepeats(tip)
    requires forall e :: e in entries ==> EntryHonest(e)
    ensures DistinctRequests(entries)
  {
    forall i, j | 0 <= i < j < |entries| ensures entries[i].id != entries[j].id {
      ChainPairDistinct(tip, entries[i], entries[j], lo + 1 + i, lo + 1 + j);
    }
  }

  lemma ChainPairDistinct(tip: Digest, a: ProtoEntry, b: ProtoEntry, s: nat, t: nat)
    requires NoRepeats(tip) && 1 <= s < t <= Height(tip)
    requires a.digest == Upto(tip, s) && b.digest == Upto(tip, t) && EntryHonest(a) && EntryHonest(b)
    ensures a.id != b.id
  {
    NoRepeatsBelow(tip, s, t);
  }

  // The other requests follow the ordered entries in ascending order.
  lemma {:induction false} RemainingAscending(cfg: Config, msgs: seq<StartMsg>, suffix: LogSuffix)
    requires msgs != [] && LogSuffixOf(cfg, msgs) == Some(suffix)
    ensures var n := |Ordered(cfg, msgs, suffix.checkpoint.seqNo)|;
            n <= |suffix.entries| && Ascending(suffix.entries[n..])
  {
    var ckSeq := suffix.checkpoint.seqNo;
    SuffixParts(cfg, msgs, suffix);
    RemainingInOrder(cfg, msgs, ckSeq);
    var n := |Ordered(cfg, msgs, ckSeq)|;
    assert suffix.entries[n..] == Remaining(cfg, msgs, ckSeq);
  }

  lemma {:induction false} RemainingInOrder(cfg: Config, msgs: seq<StartMsg>, ckSeq: nat)
    requires msgs != []
    ensures Ascending(Remaining(cfg, msgs, ckSeq))
  {
    var valid := ValidRequests(Flat(msgs, ckSeq), cfg.f + 1);
    ValidIds(Flat(msgs, ckSeq), cfg.f + 1);
    InOrderAscending(valid - IdsOf(Ordered(cfg, msgs, ckSeq)));
  }

  // No request is twice in the suffix.
  lemma SuffixRepeatsNothing(cfg: Config, msgs: seq<StartMsg>, suffix: LogSuffix)
    requires WellFormed(msgs) && LogSuffixOf(cfg, msgs) == Some(suffix)
    requires forall i :: 0 <= i < |msgs| ==> NoRepeats(Head(msgs[i].log))
    requires OneBranch(cfg, msgs, suffix.checkpoint.seqNo)
    ensures DistinctRequests(suffix.entries)
  {
    var ckSeq := suffix.checkpoint.seqNo;
    OneChainIff(cfg, msgs, suffix);
    SuffixParts(cfg, msgs, suffix);
    OrderedDistinct(cfg, msgs, ckSeq);
    RemainingApart(cfg, msgs, ckSeq);
    DistinctConcat(Ordered(cfg, msgs, ckSeq), Remaining(cfg, msgs, ckSeq));
  }

  lemma OrderedDistinct(cfg: Config, msgs: seq<StartMsg>, ckSeq: nat)
    requires WellFormed(msgs)
    requires forall i :: 0 <= i < |msgs| ==> NoRepeats(Head(msgs[i].log))
    requires exists tip: Digest, i: nat :: OrderedFrom(cfg, msgs, ckSeq, tip, i)
    ensures DistinctRequests(Ordered(cfg, msgs, ckSeq))
  {
    var tip: Digest, i: nat :| OrderedFrom(cfg, msgs, ckSeq, tip, i);
    DistinctUpto(Head(msgs[i].log), Height(tip));
    OrderedHonest(cfg, msgs, ckSeq);
    ChainDistinct(Ordered(cfg, msgs, ckSeq), ckSeq, tip);
  }

  lemma RemainingApart(cfg: Config, msgs: seq<StartMsg>, ckSeq: nat)
    requires msgs != []
    ensures DistinctRequests(Remaining(cfg, msgs, ckSeq))
    ensures forall e :: e in Remaining(cfg, msgs, ckSeq) ==> e.id !in IdsOf(Ordered(cfg, msgs, ckSeq))
  {
    RemainingMeaning(cfg, msgs, ckSeq);
  }

  lemma DistinctConcat(a: seq<ProtoEntry>, b: seq<ProtoEntry>)
    requires DistinctRequests(a) && DistinctRequests(b)
    requires forall e :: e in b ==> e.id !in IdsOf(a)
    ensures DistinctRequests(a + b)
  {
    forall i, j | 0 <= i < j < |a + b| ensures (a + b)[i].id != (a + b)[j].id {
      if i < |a| <= j {
        assert a[i] in a && b[j - |a|] in b;
      }
    }
  }

  // A request that f + 1 logs contain past the checkpoint is in the suffix exactly once.
  lemma BackedRequestOnce(cfg: Config, msgs: seq<StartMsg>, suffix: LogSuffix, id: RequestId, body: Request)
    requires WellFormed(msgs) && LogSuffixOf(cfg, msgs) == Some(suffix)
    requires forall i :: 0 <= i < |msgs| ==> NoRepeats(Head(msgs[i].log))
    requires OneBranch(cfg, msgs, suffix.checkpoint.seqNo)
    requires |LogsWith(msgs, suffix.checkpoint.seqNo, id, body)| >= cfg.f + 1
    ensures exists k :: 0 <= k < |suffix.entries| && suffix.entries[k].id == id
    ensures forall j, k :: 0 <= j < k < |suffix.entries| ==> suffix.entries[j].id != suffix.entries[k].id
  {
    BackedRequestIncluded(cfg, msgs, suffix, id, body);
    SuffixRepeatsNothing(cfg, msgs, suffix);
    var e :| e in suffix.entries && e.id == id;
  }
}
