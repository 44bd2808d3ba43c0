// The decided suffix does not depend on the order in which a proposal lists the start messages,
// and when the decision itself does not either.

module RepairOrder {
  import opened Options
  import opened Digests
  import opened Quorums
  import opened ClientRecords
  import opened RepairSelection
  import opened RepairDurability
  import opened RoundSteps
  import opened RoundSafety
  import opened RepairGuarantees
  import opened RepairRequests
  import opened RepairApply

  // ----- Totals over a proposal

  ghost function Total(msgs: seq<StartMsg>, count: StartMsg -> nat): nat {
    if msgs == [] then 0 else Total(msgs[1..], count) + count(msgs[0])
  }

  lemma {:induction false} TotalConcat(a: seq<StartMsg>, b: seq<StartMsg>, count: StartMsg -> nat)
    ensures Total(a + b, count) == Total(a, count) + Total(b, count)
    decreases |a|
  {
    if a == [] {
      assert a + b == b;
    } else {
      assert (a + b)[1..] == a[1..] + b;
      TotalConcat(a[1..], b, count);
    }
  }

  lemma TotalSnoc(msgs: seq<StartMsg>, count: StartMsg -> nat)
    requires msgs != []
    ensures Total(msgs, count) == Total(msgs[..|msgs| - 1], count) + count(msgs[|msgs| - 1])
  {
    var last := |msgs| - 1;
    TotalConcat(msgs[..last], [msgs[last]], count);
    assert msgs == msgs[..last] + [msgs[last]];
  }

  lemma RemoveSame(a: seq<StartMsg>, b: seq<StartMsg>, i: nat)
    requires multiset(a) == multiset(b) && a != [] && i < |b| && b[i] == a[0]
    ensures multiset(a[1..]) == multiset(b[..i] + b[i + 1..])
  {
    assert a == [a[0]] + a[1..];
    assert multiset(a[1..]) == multiset(a) - multiset{a[0]};
    assert b == b[..i] + [b[i]] + b[i + 1..];
    assert multiset(b[..i] + b[i + 1..]) == multiset(b) - multiset{b[i]};
  }

  lemma {:induction false} TotalPermuted(a: seq<StartMsg>, b: seq<StartMsg>, count: StartMsg -> nat)
    requires multiset(a) == multiset(b)
    ensures Total(a, count) == Total(b, count)
    decreases |a|
  {
    if a == [] {
      assert |a| == |multiset(a)| == |multiset(b)| == |b|;
    } else {
      assert a[0] in multiset(b);
      var i :| 0 <= i < |b| && b[i] == a[0];
      var rest := b[..i] + b[i + 1..];
      assert b == b[..i] + ([b[i]] + b[i + 1..]);
      RemoveSame(a, b, i);
      TotalPermuted(a[1..], rest, count);
      TotalConcat(b[..i], b[i + 1..], count);
      TotalConcat(b[..i], [b[i]] + b[i + 1..], count);
      TotalConcat([b[i]], b[i + 1..], count);
    }
  }

  lemma SameMember(a: seq<StartMsg>, b: seq<StartMsg>, i: nat) returns (j: nat)
    requires multiset(a) == multiset(b) && i < |a|
    ensures j < |b| && b[j] == a[i]
  {
    assert a[i] in multiset(b);
    j :| j < |b| && b[j] == a[i];
  }

  // ----- Holders

  ghost function HoldsOne(d: Digest): StartMsg -> nat {
    (m: StartMsg) => if Extends(Head(m.log), d) then 1 else 0
  }

  lemma {:induction false} HoldersCounted(msgs: seq<StartMsg>, d: Digest)
    ensures |Holders(msgs, d)| == Total(msgs, HoldsOne(d))
    decreases |msgs|
  {
    if msgs == [] {
      assert Holders(msgs, d) == {};
    } else {
      HoldersCounted(msgs[..|msgs| - 1], d);
      HoldersFront(msgs, d);
      TotalSnoc(msgs, HoldsOne(d));
    }
  }

  lemma HoldersPermuted(a: seq<StartMsg>, b: seq<StartMsg>, d: Digest)
    requires multiset(a) == multiset(b)
    ensures |Holders(a, d)| == |Holders(b, d)|
  {
    HoldersCounted(a, d);
    HoldersCounted(b, d);
    TotalPermuted(a, b, HoldsOne(d));
  }

  // ----- The checkpoint

  lemma HighestCheckpointPermuted(a: seq<StartMsg>, b: seq<StartMsg>)
    requires a != [] && b != [] && multiset(a) == multiset(b)
    ensures a[CheckpointChoice(a)].log.checkpoint.seqNo == b[CheckpointChoice(b)].log.checkpoint.seqNo
  {
    var i := SameMember(a, b, CheckpointChoice(a));
    var j := SameMember(b, a, CheckpointChoice(b));
  }

  // The logs that match the chosen checkpoint are those that hold it, less the one it came from.
  lemma MatchesAreHolders(msgs: seq<StartMsg>)
    requires WellFormed(msgs)
    ensures var k := CheckpointChoice(msgs);
            |Matches(msgs, k)| + 1 == |Holders(msgs, msgs[k].log.checkpoint.logDigest)|
  {
    var k := CheckpointChoice(msgs);
    var ck := msgs[k].log.checkpoint;
    HeadOfLog(msgs[k].log);
    forall i | 0 <= i < |msgs|
      ensures MatchesCheckpoint(msgs[i].log, ck) <==> Extends(Head(msgs[i].log), ck.logDigest)
    {
      MatchingIff(msgs[i].log, ck);
    }
    assert Holders(msgs, ck.logDigest) == Matches(msgs, k) + {k};
  }

  lemma MatchingIff(log: RepairLog, ck: Checkpoint)
    requires ChainedLog(log) && log.checkpoint.seqNo <= ck.seqNo == Height(ck.logDigest)
    ensures MatchesCheckpoint(log, ck) <==> Extends(Head(log), ck.logDigest)
  {
    HeadOfLog(log);
  }

  // A proposal decides a suffix exactly when enough logs hold the chosen checkpoint.
  lemma DecidesIff(cfg: Config, msgs: seq<StartMsg>)
    requires WellFormed(msgs)
    ensures LogSuffixOf(cfg, msgs).Some? <==>
            |Holders(msgs, msgs[CheckpointChoice(msgs)].log.checkpoint.logDigest)| > cfg.Matching()
  {
    MatchesAreHolders(msgs);
  }

  ghost predicate Highest(msgs: seq<StartMsg>, i: nat) {
    i < |msgs| && forall j :: 0 <= j < |msgs| ==> msgs[j].log.checkpoint.seqNo <= msgs[i].log.checkpoint.seqNo
  }

  ghost predicate WellHeld(cfg: Config, msgs: seq<StartMsg>, i: nat)
    requires i < |msgs|
  {
    |Holders(msgs, msgs[i].log.checkpoint.logDigest)| > cfg.Matching()
  }

  // The start messages with message i moved to the end.
  function MovedLast(msgs: seq<StartMsg>, i: nat): seq<StartMsg>
    requires i < |msgs|
  {
    msgs[..i] + msgs[i + 1..] + [msgs[i]]
  }

  lemma MovedLastSame(msgs: seq<StartMsg>, i: nat)
    requires i < |msgs|
    ensures multiset(MovedLast(msgs, i)) == multiset(msgs)
    ensures forall k :: 0 <= k < |msgs| - 1 ==> MovedLast(msgs, i)[k] == msgs[if k < i then k else k + 1]
  {
    assert msgs == msgs[..i] + [msgs[i]] + msgs[i + 1..];
  }

  lemma MovedLastChosen(msgs: seq<StartMsg>, i: nat)
    requires WellFormed(msgs) && Highest(msgs, i)
    ensures WellFormed(MovedLast(msgs, i)) && CheckpointChoice(MovedLast(msgs, i)) == |msgs| - 1
  {
    MovedLastSame(msgs, i);
  }

  // Whether the source exits for lack of matches does not depend on the order exactly when the
  // highest checkpoints are all held by enough logs, or none of them is.
  lemma ExitIndependentIff(cfg: Config, msgs: seq<StartMsg>)
    requires WellFormed(msgs)
    ensures (forall other: seq<StartMsg> :: multiset(other) == multiset(msgs) && WellFormed(other) ==>
               (LogSuffixOf(cfg, other).Some? <==> LogSuffixOf(cfg, msgs).Some?))
            <==>
            (forall i, j :: Highest(msgs, i) && Highest(msgs, j) ==>
               (WellHeld(cfg, msgs, i) <==> WellHeld(cfg, msgs, j)))
  {
    if forall i, j :: Highest(msgs, i) && Highest(msgs, j) ==> (WellHeld(cfg, msgs, i) <==> WellHeld(cfg, msgs, j)) {
      forall other: seq<StartMsg> | multiset(other) == multiset(msgs) && WellFormed(other)
        ensures LogSuffixOf(cfg, other).Some? <==> LogSuffixOf(cfg, msgs).Some?
      {
        var i := ChosenElsewhere(cfg, other, msgs);
        var j := ChosenElsewhere(cfg, msgs, msgs);
      }
    } else {
      var i: nat, j: nat :| Highest(msgs, i) && Highest(msgs, j) && WellHeld(cfg, msgs, i) && !WellHeld(cfg, msgs, j);
      LastDecides(cfg, msgs, i);
      LastDecides(cfg, msgs, j);
      MovedLastSame(msgs, i);
      MovedLastSame(msgs, j);
    }
  }

  // The choice in one order, seen in the other.
  lemma ChosenElsewhere(cfg: Config, a: seq<StartMsg>, b: seq<StartMsg>) returns (i: nat)
    requires WellFormed(a) && WellFormed(b) && multiset(a) == multiset(b)
    ensures Highest(b, i) && (LogSuffixOf(cfg, a).Some? <==> WellHeld(cfg, b, i))
  {
    DecidesIff(cfg, a);
    i := SameMember(a, b, CheckpointChoice(a));
    HoldersPermuted(a, b, b[i].log.checkpoint.logDigest);
    forall j | 0 <= j < |b| ensures b[j].log.checkpoint.seqNo <= b[i].log.checkpoint.seqNo {
      var k := SameMember(b, a, j);
    }
  }

  lemma LastDecides(cfg: Config, msgs: seq<StartMsg>, i: nat)
    requires WellFormed(msgs) && Highest(msgs, i)
    ensures WellFormed(MovedLast(msgs, i))
    ensures LogSuffixOf(cfg, MovedLast(msgs, i)).Some? <==> WellHeld(cfg, msgs, i)
  {
    MovedLastChosen(msgs, i);
    MovedLastSame(msgs, i);
    DecidesIff(cfg, MovedLast(msgs, i));
    HoldersPermuted(MovedLast(msgs, i), msgs, msgs[i].log.checkpoint.logDigest);
  }

  lemma WellHeldCompatible(cfg: Config, msgs: seq<StartMsg>, c: Digest, d: Digest)
    requires |msgs| <= cfg.Quorum()
    requires |Holders(msgs, c)| >= cfg.Matching() && |Holders(msgs, d)| >= cfg.Matching()
    ensures Compatible(c, d)
  {
    Overlap(Replicas(|msgs|), Holders(msgs, c), Holders(msgs, d));
    var i :| i in Holders(msgs, c) * Holders(msgs, d);
    PrefixesCompatible(Head(msgs[i].log), c, d);
  }

  // If both orders decide, they decide the same checkpoint digest.
  lemma ChoicePermuted(cfg: Config, a: seq<StartMsg>, b: seq<StartMsg>)
    requires WellFormed(a) && WellFormed(b) && multiset(a) == multiset(b) && |b| <= cfg.Quorum()
    requires LogSuffixOf(cfg, a).Some? && LogSuffixOf(cfg, b).Some?
    ensures a[CheckpointChoice(a)].log.checkpoint.seqNo == b[CheckpointChoice(b)].log.checkpoint.seqNo
    ensures a[CheckpointChoice(a)].log.checkpoint.logDigest == b[CheckpointChoice(b)].log.checkpoint.logDigest
  {
    var ca, cb := a[CheckpointChoice(a)].log.checkpoint, b[CheckpointChoice(b)].log.checkpoint;
    HighestCheckpointPermuted(a, b);
    DecidesIff(cfg, a);
    DecidesIff(cfg, b);
    HoldersPermuted(a, b, ca.logDigest);
    WellHeldCompatible(cfg, b, ca.logDigest, cb.logDigest);
    assert ChainedLog(a[CheckpointChoice(a)].log) && ChainedLog(b[CheckpointChoice(b)].log);
  }

  // ----- The ordered entries

  lemma CertSeqPermuted(a: seq<StartMsg>, b: seq<StartMsg>, ckSeq: nat)
    requires multiset(a) == multiset(b)
    ensures CertChoice(a, ckSeq).None? <==> CertChoice(b, ckSeq).None?
    ensures CertSeq(a, ckSeq) == CertSeq(b, ckSeq)
  {
    if CertChoice(a, ckSeq).Some? {
      var i := SameMember(a, b, CertChoice(a, ckSeq).value);
    }
    if CertChoice(b, ckSeq).Some? {
      var j := SameMember(b, a, CertChoice(b, ckSeq).value);
    }
  }

  function CopyOf(log: RepairLog, certSeq: nat): Digest {
    Upto(Head(log), Min(certSeq, Height(Head(log))))
  }

  // The logs with the highest certificate agree up to it, so that it does not matter which of
  // them comes first.
  ghost predicate CopiesAgree(msgs: seq<StartMsg>, ckSeq: nat) {
    forall i, j :: 0 <= i < |msgs| && 0 <= j < |msgs|
                   && Certifies(msgs[i].log, ckSeq) && msgs[i].log.cert.value.seqNo == CertSeq(msgs, ckSeq)
                   && Certifies(msgs[j].log, ckSeq) && msgs[j].log.cert.value.seqNo == CertSeq(msgs, ckSeq) ==>
      CopyOf(msgs[i].log, CertSeq(msgs, ckSeq)) == CopyOf(msgs[j].log, CertSeq(msgs, ckSeq))
  }

  // They do if certificates of one height are for one digest, and for entries of their own logs.
  lemma OwnCertsAgree(msgs: seq<StartMsg>, ckSeq: nat)
    requires WellFormed(msgs) && ChainedMsgs(msgs, ckSeq) && CertsInLogs(msgs)
    requires forall i, j :: 0 <= i < |msgs| && 0 <= j < |msgs|
                            && Certifies(msgs[i].log, ckSeq) && Certifies(msgs[j].log, ckSeq)
                            && msgs[i].log.cert.value.seqNo == msgs[j].log.cert.value.seqNo ==>
               msgs[i].log.cert.value.digest == msgs[j].log.cert.value.digest
    ensures CopiesAgree(msgs, ckSeq)
  {
    forall i | 0 <= i < |msgs| && Certifies(msgs[i].log, ckSeq)
      ensures CopyOf(msgs[i].log, msgs[i].log.cert.value.seqNo) == msgs[i].log.cert.value.digest
    {
      HeadOfLog(msgs[i].log);
    }
  }

  // So they do in every proposal of a round whose certificates are all of that round and for
  // entries of their own logs.
  lemma RoundCopiesAgree(x: Setting, steps: seq<Step>, msgs: seq<StartMsg>, ckSeq: nat)
    requires x.Guarded() && Legal(x, steps) && FromRound(x, Run(steps), msgs) && ChainedMsgs(msgs, ckSeq)
    ensures CopiesAgree(msgs, ckSeq)
  {
    forall i, j | 0 <= i < |msgs| && 0 <= j < |msgs|
                  && Certifies(msgs[i].log, ckSeq) && Certifies(msgs[j].log, ckSeq)
                  && msgs[i].log.cert.value.seqNo == msgs[j].log.cert.value.seqNo
      ensures msgs[i].log.cert.value.digest == msgs[j].log.cert.value.digest
    {
      var c, d := msgs[i].log.cert.value.digest, msgs[j].log.cert.value.digest;
      HeadOfLog(msgs[i].log);
      HeadOfLog(msgs[j].log);
      RoundIsSafe(x, steps, c, d);
      assert Height(c) == Height(d);
    }
    OwnCertsAgree(msgs, ckSeq);
  }

  function DigestsOf(entries: seq<ProtoEntry>): seq<Digest> {
    seq(|entries|, i requires 0 <= i < |entries| => entries[i].digest)
  }

  lemma FollowsSame(a: seq<ProtoEntry>, b: seq<ProtoEntry>, lo: nat, d: Digest)
    requires Follows(a, lo, d) && Follows(b, lo, d) && |a| == |b| == Height(d) - lo
    ensures DigestsOf(a) == DigestsOf(b)
  {
    forall i | 0 <= i < |a| ensures a[i].digest == b[i].digest {
    }
  }

  // The longest supported digest is the same for both orders.
  lemma DeciderPermuted(cfg: Config, a: seq<StartMsg>, b: seq<StartMsg>, ckSeq: nat)
    requires WellFormed(a) && WellFormed(b) && multiset(a) == multiset(b)
    requires ChainedMsgs(a, ckSeq) && ChainedMsgs(b, ckSeq)
    requires |a| == cfg.Quorum() && |b| == cfg.Quorum()
    ensures Decider(cfg, a, ckSeq).None? <==> Decider(cfg, b, ckSeq).None?
    ensures Decider(cfg, a, ckSeq).Some? ==>
              Decider(cfg, a, ckSeq).value.1.digest == Decider(cfg, b, ckSeq).value.1.digest
  {
    CertSeqPermuted(a, b, ckSeq);
    var floor := ScanFloor(a, ckSeq);
    var t := cfg.Matching();
    WinnerSupported(a, floor, t);
    WinnerSupported(b, floor, t);
    if Decider(cfg, a, ckSeq).Some? {
      var d := Decider(cfg, a, ckSeq).value.1.digest;
      HoldersPermuted(a, b, d);
      ScanFindsLongest(cfg, b, floor, d);
    }
    if Decider(cfg, b, ckSeq).Some? {
      var d := Decider(cfg, b, ckSeq).value.1.digest;
      HoldersPermuted(a, b, d);
      ScanFindsLongest(cfg, a, floor, d);
    }
  }

  lemma UpToCertPermuted(a: seq<StartMsg>, b: seq<StartMsg>, ckSeq: nat)
    requires WellFormed(a) && WellFormed(b) && multiset(a) == multiset(b)
    requires ChainedMsgs(a, ckSeq) && ChainedMsgs(b, ckSeq) && CopiesAgree(a, ckSeq)
    ensures DigestsOf(UpToCert(a, ckSeq)) == DigestsOf(UpToCert(b, ckSeq))
  {
    CertSeqPermuted(a, b, ckSeq);
    UpToCertShows(a, ckSeq);
    UpToCertShows(b, ckSeq);
    if CertChoice(b, ckSeq).Some? {
      var j := SameMember(b, a, CertChoice(b, ckSeq).value);
      assert Copied(a, ckSeq) == CopyOf(a[CertIdx(a, ckSeq)].log, CertSeq(a, ckSeq));
      assert Copied(b, ckSeq) == CopyOf(a[j].log, CertSeq(a, ckSeq));
      if Height(Copied(a, ckSeq)) > ckSeq {
        FollowsSame(UpToCert(a, ckSeq), UpToCert(b, ckSeq), ckSeq, Copied(a, ckSeq));
      }
    }
  }

  lemma AfterCertPermuted(cfg: Config, a: seq<StartMsg>, b: seq<StartMsg>, ckSeq: nat)
    requires WellFormed(a) && WellFormed(b) && multiset(a) == multiset(b)
    requires ChainedMsgs(a, ckSeq) && ChainedMsgs(b, ckSeq)
    requires |a| == cfg.Quorum() && |b| == cfg.Quorum()
    ensures DigestsOf(AfterCert(cfg, a, ckSeq)) == DigestsOf(AfterCert(cfg, b, ckSeq))
  {
    CertSeqPermuted(a, b, ckSeq);
    DeciderPermuted(cfg, a, b, ckSeq);
    AfterCertFollows(cfg, a, ckSeq);
    AfterCertFollows(cfg, b, ckSeq);
    if Decider(cfg, a, ckSeq).Some? {
      FollowsSame(AfterCert(cfg, a, ckSeq), AfterCert(cfg, b, ckSeq), ScanFloor(a, ckSeq),
        Decider(cfg, a, ckSeq).value.1.digest);
    }
  }

  lemma DigestsConcat(a: seq<ProtoEntry>, b: seq<ProtoEntry>)
    ensures DigestsOf(a + b) == DigestsOf(a) + DigestsOf(b)
  {
  }

  lemma OrderedPermuted(cfg: Config, a: seq<StartMsg>, b: seq<StartMsg>, ckSeq: nat)
    requires WellFormed(a) && WellFormed(b) && multiset(a) == multiset(b)
    requires ChainedMsgs(a, ckSeq) && ChainedMsgs(b, ckSeq) && CopiesAgree(a, ckSeq)
    requires |a| == cfg.Quorum() && |b| == cfg.Quorum()
    ensures DigestsOf(Ordered(cfg, a, ckSeq)) == DigestsOf(Ordered(cfg, b, ckSeq))
  {
    UpToCertPermuted(a, b, ckSeq);
    AfterCertPermuted(cfg, a, b, ckSeq);
    DigestsConcat(UpToCert(a, ckSeq), AfterCert(cfg, a, ckSeq));
    DigestsConcat(UpToCert(b, ckSeq), AfterCert(cfg, b, ckSeq));
  }

  // ----- The other requests

  // How often a start message shows a request above lo.
  ghost function TimesShown(lo: nat, id: RequestId, body: Request): StartMsg -> nat {
    (m: StartMsg) => OccursRequest(Tagged(m.log.entries, 0, lo), id, body)
  }

  lemma {:induction false} TaggedAnywhere(entries: seq<ProtoEntry>, i: nat, lo: nat, id: RequestId, body: Request)
    ensures OccursRequest(Tagged(entries, i, lo), id, body) == OccursRequest(Tagged(entries, 0, lo), id, body)
    decreases |entries|
  {
    if entries != [] {
      TaggedAnywhere(entries[..|entries| - 1], i, lo, id, body);
      TaggedSnoc(entries, i, lo, id, body);
      TaggedSnoc(entries, 0, lo, id, body);
    }
  }

  lemma {:induction false} ShownCounted(msgs: seq<StartMsg>, lo: nat, id: RequestId, body: Request)
    ensures OccursRequest(Flat(msgs, lo), id, body) == Total(msgs, TimesShown(lo, id, body))
    decreases |msgs|
  {
    if msgs != [] {
      var last := |msgs| - 1;
      ShownCounted(msgs[..last], lo, id, body);
      RequestConcat(Flat(msgs[..last], lo), Tagged(msgs[last].log.entries, last, lo), id, body);
      TaggedAnywhere(msgs[last].log.entries, last, lo, id, body);
      TotalSnoc(msgs, TimesShown(lo, id, body));
    }
  }

  lemma ShownPermuted(a: seq<StartMsg>, b: seq<StartMsg>, lo: nat, id: RequestId, body: Request)
    requires multiset(a) == multiset(b)
    ensures OccursRequest(Flat(a, lo), id, body) == OccursRequest(Flat(b, lo), id, body)
  {
    ShownCounted(a, lo, id, body);
    ShownCounted(b, lo, id, body);
    TotalPermuted(a, b, TimesShown(lo, id, body));
  }

  // The same requests are valid in both orders.
  lemma ValidPermuted(a: seq<StartMsg>, b: seq<StartMsg>, lo: nat, t: nat)
    requires multiset(a) == multiset(b) && t > 0
    ensures ValidRequests(Flat(a, lo), t).Keys == ValidRequests(Flat(b, lo), t).Keys
  {
    forall id ensures id in ValidRequests(Flat(a, lo), t) <==> id in ValidRequests(Flat(b, lo), t) {
      if id in ValidRequests(Flat(a, lo), t) {
        ValidOnlyIf(a, b, lo, t, id);
      }
      if id in ValidRequests(Flat(b, lo), t) {
        ValidOnlyIf(b, a, lo, t, id);
      }
    }
  }

  lemma ValidOnlyIf(a: seq<StartMsg>, b: seq<StartMsg>, lo: nat, t: nat, id: RequestId)
    requires multiset(a) == multiset(b) && t > 0 && id in ValidRequests(Flat(a, lo), t)
    ensures id in ValidRequests(Flat(b, lo), t)
  {
    ValidMeaning(Flat(a, lo), t, id);
    ValidMeaning(Flat(b, lo), t, id);
    ShownPermuted(a, b, lo, id, ValidRequests(Flat(a, lo), t)[id].Body());
  }

  // Entries for the same request.
  predicate SameAsk(a: ProtoEntry, b: ProtoEntry) {
    a.id == b.id && a.requestDigest == b.requestDigest
  }

  ghost predicate SameAsks(a: seq<ProtoEntry>, b: seq<ProtoEntry>) {
    |a| == |b| && forall i :: 0 <= i < |a| ==> SameAsk(a[i], b[i])
  }

  // No client sent two requests under one id.
  ghost predicate NoEquivocation(msgs: seq<StartMsg>) {
    forall i, j, e, g ::
      0 <= i < |msgs| && 0 <= j < |msgs| && e in msgs[i].log.entries && g in msgs[j].log.entries && e.id == g.id ==>
        SameAsk(e, g)
  }

  lemma ValidSame(a: seq<StartMsg>, b: seq<StartMsg>, lo: nat, t: nat, id: RequestId)
    requires multiset(a) == multiset(b) && NoEquivocation(a) && t > 0
    requires id in ValidRequests(Flat(a, lo), t) && id in ValidRequests(Flat(b, lo), t)
    ensures SameAsk(ValidRequests(Flat(a, lo), t)[id], ValidRequests(Flat(b, lo), t)[id])
  {
    ValidMeaning(Flat(a, lo), t, id);
    ValidMeaning(Flat(b, lo), t, id);
    var p :| p in Flat(a, lo) && p.1 == ValidRequests(Flat(a, lo), t)[id];
    var q :| q in Flat(b, lo) && q.1 == ValidRequests(Flat(b, lo), t)[id];
    FlatInRange(a, lo);
    FlatInRange(b, lo);
    var j := SameMember(b, a, q.0);
  }

  // Maps from the same ids to entries for the same requests.
  ghost predicate SameRequests(m: map<RequestId, ProtoEntry>, n: map<RequestId, ProtoEntry>) {
    && (forall id :: id in m <==> id in n)
    && forall id :: id in m ==> SameAsk(m[id], n[id])
  }

  lemma SameWithout(m: map<RequestId, ProtoEntry>, n: map<RequestId, ProtoEntry>, ids: set<RequestId>)
    requires SameRequests(m, n)
    ensures SameRequests(m - ids, n - ids)
  {
  }

  lemma FirstOf(m: map<RequestId, ProtoEntry>) returns (i: RequestId)
    requires m != map[]
    ensures IsFirst(m.Keys, i) && InOrder(m) == [m[i]] + InOrder(m - {i}) && |m - {i}| < |m|
  {
    FirstExists(m.Keys);
    i :| IsFirst(m.Keys, i) && InOrder(m) == [m[i]] + InOrder(m - {i});
    assert (m - {i}).Keys == m.Keys - {i};
  }

  lemma {:induction false} InOrderSame(m: map<RequestId, ProtoEntry>, n: map<RequestId, ProtoEntry>)
    requires SameRequests(m, n)
    ensures SameAsks(InOrder(m), InOrder(n))
    decreases |m|
  {
    if m == map[] {
      assert n == map[];
    } else {
      var i := FirstOf(m);
      assert i in n;
      var j := FirstOf(n);
      assert i == j;
      SameWithout(m, n, {i});
      InOrderSame(m - {i}, n - {i});
      SameAsksConcat([m[i]], [n[i]], InOrder(m - {i}), InOrder(n - {i}));
    }
  }

  lemma ValidSameRequests(a: seq<StartMsg>, b: seq<StartMsg>, lo: nat, t: nat)
    requires multiset(a) == multiset(b) && NoEquivocation(a) && t > 0
    ensures SameRequests(ValidRequests(Flat(a, lo), t), ValidRequests(Flat(b, lo), t))
  {
    var va, vb := ValidRequests(Flat(a, lo), t), ValidRequests(Flat(b, lo), t);
    ValidPermuted(a, b, lo, t);
    forall id ensures id in va <==> id in vb {
      assert id in va.Keys <==> id in vb.Keys;
    }
    forall id | id in va ensures SameAsk(va[id], vb[id]) {
      ValidSame(a, b, lo, t, id);
    }
  }

  lemma RemainingSame(cfg: Config, a: seq<StartMsg>, b: seq<StartMsg>, ckSeq: nat)
    requires a != [] && b != [] && multiset(a) == multiset(b) && NoEquivocation(a)
    requires IdsOf(Ordered(cfg, a, ckSeq)) == IdsOf(Ordered(cfg, b, ckSeq))
    ensures SameAsks(Remaining(cfg, a, ckSeq), Remaining(cfg, b, ckSeq))
  {
    var va, vb := ValidRequests(Flat(a, ckSeq), cfg.f + 1), ValidRequests(Flat(b, ckSeq), cfg.f + 1);
    var ids := IdsOf(Ordered(cfg, a, ckSeq));
    ValidSameRequests(a, b, ckSeq, cfg.f + 1);
    SameWithout(va, vb, ids);
    InOrderSame(va - ids, vb - ids);
  }

  // ----- The suffix

  lemma SameDigestsSameAsks(a: seq<ProtoEntry>, b: seq<ProtoEntry>)
    requires DigestsOf(a) == DigestsOf(b)
    requires (forall e :: e in a ==> EntryHonest(e)) && (forall e :: e in b ==> EntryHonest(e))
    ensures SameAsks(a, b) && IdsOf(a) == IdsOf(b)
  {
    assert |a| == |DigestsOf(a)| == |DigestsOf(b)| == |b|;
    forall i | 0 <= i < |a| ensures SameAsk(a[i], b[i]) {
      assert DigestsOf(a)[i] == DigestsOf(b)[i];
      assert a[i] in a && b[i] in b;
    }
    SameAsksIds(a, b);
  }

  lemma SameAsksIds(a: seq<ProtoEntry>, b: seq<ProtoEntry>)
    requires SameAsks(a, b)
    ensures IdsOf(a) == IdsOf(b)
  {
    forall id ensures id in IdsOf(a) <==> id in IdsOf(b) {
      if id in IdsOf(a) {
        var i :| 0 <= i < |a| && a[i].id == id;
        assert b[i] in b && b[i].id == id;
      }
      if id in IdsOf(b) {
        var i :| 0 <= i < |b| && b[i].id == id;
        assert a[i] in a && a[i].id == id;
      }
    }
  }

  lemma {:induction false} SameAsksTarget(d: Digest, a: seq<ProtoEntry>, b: seq<ProtoEntry>)
    requires SameAsks(a, b)
    ensures TargetOf(d, a) == TargetOf(d, b)
    decreases |a|
  {
    if a != [] {
      SameAsksTarget(d, a[..|a| - 1], b[..|b| - 1]);
    }
  }

  lemma SameAsksConcat(a: seq<ProtoEntry>, b: seq<ProtoEntry>, c: seq<ProtoEntry>, d: seq<ProtoEntry>)
    requires SameAsks(a, b) && SameAsks(c, d)
    ensures SameAsks(a + c, b + d)
  {
  }

  lemma EntriesPermuted(cfg: Config, a: seq<StartMsg>, b: seq<StartMsg>, ckSeq: nat)
    requires WellFormed(a) && WellFormed(b) && multiset(a) == multiset(b) && NoEquivocation(a)
    requires ChainedMsgs(a, ckSeq) && ChainedMsgs(b, ckSeq) && CopiesAgree(a, ckSeq)
    requires |a| == cfg.Quorum() && |b| == cfg.Quorum()
    ensures SameAsks(Ordered(cfg, a, ckSeq) + Remaining(cfg, a, ckSeq),
                     Ordered(cfg, b, ckSeq) + Remaining(cfg, b, ckSeq))
  {
    OrderedPermuted(cfg, a, b, ckSeq);
    OrderedHonest(cfg, a, ckSeq);
    OrderedHonest(cfg, b, ckSeq);
    SameDigestsSameAsks(Ordered(cfg, a, ckSeq), Ordered(cfg, b, ckSeq));
    RemainingSame(cfg, a, b, ckSeq);
    SameAsksConcat(Ordered(cfg, a, ckSeq), Ordered(cfg, b, ckSeq), Remaining(cfg, a, ckSeq), Remaining(cfg, b, ckSeq));
  }

  // The whole suffix is deterministic: two orders of the same start messages that decide, decide the
  // same checkpoint digest, the same requests in the same order, and so the same history.
  lemma OrderIndependent(cfg: Config, a: seq<StartMsg>, b: seq<StartMsg>, sa: LogSuffix, sb: LogSuffix)
    requires WellFormed(a) && WellFormed(b) && multiset(a) == multiset(b) && NoEquivocation(a)
    requires |a| == cfg.Quorum() && |b| == cfg.Quorum()
    requires LogSuffixOf(cfg, a) == Some(sa) && LogSuffixOf(cfg, b) == Some(sb)
    requires CopiesAgree(a, sa.checkpoint.seqNo)
    ensures sa.checkpoint.seqNo == sb.checkpoint.seqNo && sa.checkpoint.logDigest == sb.checkpoint.logDigest
    ensures SameAsks(sa.entries, sb.entries) && Target(sa) == Target(sb)
  {
    ChoicePermuted(cfg, a, b);
    SuffixParts(cfg, a, sa);
    SuffixParts(cfg, b, sb);
    CheckpointsBelow(a, sa.checkpoint.seqNo);
    CheckpointsBelow(b, sa.checkpoint.seqNo);
    EntriesPermuted(cfg, a, b, sa.checkpoint.seqNo);
    SameAsksTarget(sa.checkpoint.logDigest, sa.entries, sb.entries);
  }

  // With full requests, the digest that the proposal computes for the suffix is the one of that
  // history, in both orders.
  lemma DigestIndependent(cfg: Config, a: seq<StartMsg>, b: seq<StartMsg>, sa: LogSuffix, sb: LogSuffix)
    requires WellFormed(a) && WellFormed(b) && multiset(a) == multiset(b) && NoEquivocation(a)
    requires |a| == cfg.Quorum() && |b| == cfg.Quorum()
    requires LogSuffixOf(cfg, a) == Some(sa) && LogSuffixOf(cfg, b) == Some(sb)
    requires CopiesAgree(a, sa.checkpoint.seqNo)
    requires FullRequests(a) && FullRequests(b)
    ensures sa.logDigest == sb.logDigest == Target(sa)
  {
    OrderIndependent(cfg, a, b, sa, sb);
    DigestIsTarget(cfg, a, sa);
    DigestIsTarget(cfg, b, sb);
  }

  ghost predicate FullRequests(msgs: seq<StartMsg>) {
    forall i, e :: 0 <= i < |msgs| && e in msgs[i].log.entries ==> e.request.Some?
  }

  lemma DigestIsTarget(cfg: Config, msgs: seq<StartMsg>, suffix: LogSuffix)
    requires WellFormed(msgs) && FullRequests(msgs) && LogSuffixOf(cfg, msgs) == Some(suffix)
    ensures suffix.logDigest == Target(suffix)
  {
    forall e | e in suffix.entries ensures e.Body() == e.requestDigest.request {
      var i := DecidedFromLog(cfg, msgs, suffix, e);
      var k :| 0 <= k < |msgs[i].log.entries| && msgs[i].log.entries[k] == e;
      assert EntryChained(msgs[i].log, k);
    }
    SuffixParts(cfg, msgs, suffix);
    HeadOfLog(msgs[CheckpointChoice(msgs)].log);
    ClaimedDigestRightIff(suffix.checkpoint.logDigest, suffix.entries);
    DigestComputed(cfg, msgs, suffix);
  }

  lemma DigestComputed(cfg: Config, msgs: seq<StartMsg>, suffix: LogSuffix)
    requires msgs != [] && LogSuffixOf(cfg, msgs) == Some(suffix)
    ensures suffix.logDigest == ClaimedDigest(suffix.checkpoint.logDigest, suffix.checkpoint.seqNo, suffix.entries)
  {
  }
}
