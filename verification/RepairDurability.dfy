// What the suffix choice guarantees about well-formed proposals: the threshold scan finds the
// longest sufficiently supported chain, and everything that a superquorum replied survives.

module RepairDurability {
  import opened Options
  import opened Digests
  import opened Quorums
  import opened ClientRecords
  import opened RepairSelection

  // ----- Well-formed logs

  // The digest before entry i of a log.
  function DigestBefore(log: RepairLog, i: nat): Digest
    requires i <= |log.entries|
  {
    if i == 0 then log.checkpoint.logDigest else log.entries[i - 1].digest
  }

  // The fields of an entry are those that its digest hashes.
  predicate EntryHonest(e: ProtoEntry) {
    && e.digest.Link?
    && e.id == e.digest.id
    && e.requestDigest == Sha(e.digest.request)
    && (e.request.Some? ==> e.request.value == e.digest.request)
  }

  // Entry i hashes what it shows, on top of the digest before it.
  predicate EntryChained(log: RepairLog, i: nat)
    requires i < |log.entries|
  {
    && EntryHonest(log.entries[i])
    && log.entries[i].digest.prev == DigestBefore(log, i)
    && log.entries[i].seqNo == log.entries[i].digest.seqNo == log.checkpoint.seqNo + 1 + i
  }

  // Contiguous from its checkpoint and chained.
  ghost predicate ChainedLog(log: RepairLog) {
    && Numbered(log.checkpoint.logDigest)
    && Height(log.checkpoint.logDigest) == log.checkpoint.seqNo
    && forall i :: 0 <= i < |log.entries| ==> EntryChained(log, i)
  }

  // The certificate a log carries past its checkpoint is for one of its own entries.
  ghost predicate CertInLog(log: RepairLog) {
    log.cert.Some? && log.cert.value.seqNo > log.checkpoint.seqNo ==>
      && log.cert.value.seqNo <= log.checkpoint.seqNo + |log.entries|
      && log.entries[log.cert.value.seqNo - log.checkpoint.seqNo - 1].digest == log.cert.value.digest
  }

  // The digest that stands for the whole log.
  function Head(log: RepairLog): Digest {
    DigestBefore(log, |log.entries|)
  }

  function Cut(log: RepairLog, k: nat): RepairLog
    requires k <= |log.entries|
  {
    log.(entries := log.entries[..k])
  }

  lemma CutChained(log: RepairLog, k: nat)
    requires ChainedLog(log) && k <= |log.entries|
    ensures ChainedLog(Cut(log, k))
  {
    forall i | 0 <= i < k ensures EntryChained(Cut(log, k), i) {
      assert EntryChained(log, i);
    }
  }

  lemma {:induction false} HeadOfLog(log: RepairLog)
    requires ChainedLog(log)
    ensures Numbered(Head(log))
    ensures Height(Head(log)) == log.checkpoint.seqNo + |log.entries|
    ensures Extends(Head(log), log.checkpoint.logDigest)
    ensures forall i :: 0 <= i < |log.entries| ==>
              log.entries[i].digest == Upto(Head(log), log.checkpoint.seqNo + 1 + i)
    decreases |log.entries|
  {
    if log.entries != [] {
      var k := |log.entries| - 1;
      var cut := Cut(log, k);
      CutChained(log, k);
      HeadOfLog(cut);
      assert EntryChained(log, k);
      assert Head(log).prev == Head(cut);
      forall i | 0 <= i < |log.entries| ensures log.entries[i].digest == Upto(Head(log), log.checkpoint.seqNo + 1 + i) {
        if i < k {
          assert log.entries[i] == cut.entries[i];
          assert cut.entries[i].digest == Upto(Head(cut), log.checkpoint.seqNo + 1 + i);
        }
      }
    }
  }

  // Entries of a chained log between two positions are a slice of it.
  lemma {:induction false} TakeBetweenSlice(entries: seq<ProtoEntry>, a: nat, lo: nat, hi: nat)
    requires forall i :: 0 <= i < |entries| ==> entries[i].seqNo == a + 1 + i
    requires a <= lo
    ensures hi <= lo ==> TakeBetween(entries, lo, hi) == []
    ensures lo <= hi <= a + |entries| ==> TakeBetween(entries, lo, hi) == entries[lo - a..hi - a]
    decreases |entries|
  {
    if lo == a {
      TakeBetweenFirst(entries, a, lo, hi);
    } else if entries != [] {
      TakeBetweenSlice(entries[1..], a + 1, lo, hi);
      if lo <= hi <= a + |entries| {
        assert entries[1..][lo - a - 1..hi - a - 1] == entries[lo - a..hi - a];
      }
    }
  }

  // If the entries start above lo, they are taken up to hi.
  lemma {:induction false} TakeBetweenFirst(entries: seq<ProtoEntry>, a: nat, lo: nat, hi: nat)
    requires forall i :: 0 <= i < |entries| ==> entries[i].seqNo == a + 1 + i
    requires lo <= a
    ensures hi <= a ==> TakeBetween(entries, lo, hi) == []
    ensures a <= hi <= a + |entries| ==> TakeBetween(entries, lo, hi) == entries[..hi - a]
    decreases |entries|
  {
    if entries != [] && hi > a {
      TakeBetweenFirst(entries[1..], a + 1, lo, hi);
      if hi <= a + |entries| {
        assert [entries[0]] + entries[1..][..hi - a - 1] == entries[..hi - a];
      }
    }
  }

  // Past the last entry there is nothing more to take.
  lemma {:induction false} TakeBetweenBeyond(entries: seq<ProtoEntry>, a: nat, lo: nat, hi: nat)
    requires forall i :: 0 <= i < |entries| ==> entries[i].seqNo == a + 1 + i
    requires hi >= a + |entries|
    ensures TakeBetween(entries, lo, hi) == TakeBetween(entries, lo, a + |entries|)
    ensures lo >= a + |entries| ==> TakeBetween(entries, lo, hi) == []
    decreases |entries|
  {
    if entries != [] {
      TakeBetweenBeyond(entries[1..], a + 1, lo, hi);
    }
  }

  // ----- Counting holders

  ghost predicate ChainedMsgs(msgs: seq<StartMsg>, lo: nat) {
    forall i :: 0 <= i < |msgs| ==> ChainedLog(msgs[i].log) && msgs[i].log.checkpoint.seqNo <= lo
  }

  // The start messages whose log lies on d's chain at least up to d.
  ghost function Holders(msgs: seq<StartMsg>, d: Digest): set<nat> {
    set i: nat | i < |msgs| && Extends(Head(msgs[i].log), d)
  }

  lemma HoldersFront(msgs: seq<StartMsg>, d: Digest)
    requires msgs != []
    ensures var last := |msgs| - 1;
            Holders(msgs, d) ==
            Holders(msgs[..last], d) + if Extends(Head(msgs[last].log), d) then {last} else {}
  {
    var last := |msgs| - 1;
    forall i: nat | i < last ensures msgs[..last][i] == msgs[i] {
    }
  }

  lemma {:induction false} OccursConcat(a: seq<(nat, ProtoEntry)>, b: seq<(nat, ProtoEntry)>, s: nat, d: Digest)
    ensures Occurs(a + b, s, d) == Occurs(a, s, d) + Occurs(b, s, d)
    decreases |b|
  {
    if b == [] {
      assert a + b == a;
    } else {
      OccursConcat(a, b[..|b| - 1], s, d);
      assert (a + b)[..|a + b| - 1] == a + b[..|b| - 1];
    }
  }

  // The last entry of a log on top of the log without it.
  lemma LastEntry(log: RepairLog, d: Digest)
    requires ChainedLog(log) && log.entries != []
    ensures var last := log.entries[|log.entries| - 1];
            var cut := Cut(log, |log.entries| - 1);
            && ChainedLog(cut)
            && last.digest == Head(log) && last.seqNo == Height(Head(log))
            && (Extends(Head(log), d) <==> Extends(Head(cut), d) || d == Head(log))
            && !Extends(Head(cut), Head(log))
  {
    var k := |log.entries| - 1;
    CutChained(log, k);
    HeadOfLog(log);
    HeadOfLog(Cut(log, k));
    assert EntryChained(log, k);
  }

  lemma OccursSnoc(entries: seq<ProtoEntry>, i: nat, lo: nat, s: nat, d: Digest)
    requires entries != []
    ensures var front, last := entries[..|entries| - 1], entries[|entries| - 1];
            Occurs(Tagged(entries, i, lo), s, d) ==
            Occurs(Tagged(front, i, lo), s, d) + if last.seqNo > lo && last.seqNo == s && last.digest == d then 1 else 0
  {
    var k := |entries| - 1;
    var front := Tagged(entries[..k], i, lo);
    if entries[k].seqNo > lo {
      SnocFront(front, (i, entries[k]));
    } else {
      assert front + [] == front;
    }
  }

  lemma {:induction false} OccursTagged(log: RepairLog, i: nat, lo: nat, s: nat, d: Digest)
    requires ChainedLog(log) && log.checkpoint.seqNo <= lo
    ensures Occurs(Tagged(log.entries, i, lo), s, d) ==
            if s == Height(d) && s > lo && Extends(Head(log), d) then 1 else 0
    decreases |log.entries|
  {
    if log.entries == [] {
      HeadOfLog(log);
    } else {
      LastEntry(log, d);
      OccursTagged(Cut(log, |log.entries| - 1), i, lo, s, d);
      OccursSnoc(log.entries, i, lo, s, d);
    }
  }

  // In a well-formed proposal an entry is seen once per log that holds it.
  lemma {:induction false} OccursHolders(msgs: seq<StartMsg>, lo: nat, s: nat, d: Digest)
    requires ChainedMsgs(msgs, lo)
    ensures Occurs(Flat(msgs, lo), s, d) == if s == Height(d) && s > lo then |Holders(msgs, d)| else 0
    decreases |msgs|
  {
    if msgs != [] {
      var last := |msgs| - 1;
      OccursHolders(msgs[..last], lo, s, d);
      OccursTagged(msgs[last].log, last, lo, s, d);
      OccursConcat(Flat(msgs[..last], lo), Tagged(msgs[last].log.entries, last, lo), s, d);
      HoldersFront(msgs, d);
    } else {
      assert Holders(msgs, d) == {};
    }
  }

  // ----- The threshold scan

  lemma {:induction false} WinnerCounted(flat: seq<(nat, ProtoEntry)>, t: nat)
    ensures var w := LastReaching(flat, t);
            w.Some? ==> w.value in flat && Occurs(flat, w.value.1.seqNo, w.value.1.digest) >= t
    decreases |flat|
  {
    if flat != [] {
      WinnerCounted(flat[..|flat| - 1], t);
    }
  }

  // A digest above lo that at least t logs hold.
  ghost predicate Supported(msgs: seq<StartMsg>, lo: nat, t: nat, d: Digest) {
    Height(d) > lo && |Holders(msgs, d)| >= t
  }

  // An entry of log i that enough logs hold.
  ghost predicate SupportedEntry(msgs: seq<StartMsg>, lo: nat, t: nat, i: nat, e: ProtoEntry) {
    && i < |msgs|
    && e in msgs[i].log.entries
    && e.seqNo == Height(e.digest)
    && Extends(Head(msgs[i].log), e.digest)
    && Supported(msgs, lo, t, e.digest)
  }

  // The winner is held by enough logs, among them the one that the source then reads.
  lemma {:induction false} WinnerSupported(msgs: seq<StartMsg>, lo: nat, t: nat)
    requires ChainedMsgs(msgs, lo)
    ensures var w := LastReaching(Flat(msgs, lo), t);
            w.Some? ==> SupportedEntry(msgs, lo, t, w.value.0, w.value.1)
  {
    var flat := Flat(msgs, lo);
    WinnerCounted(flat, t);
    FlatInRange(msgs, lo);
    match LastReaching(flat, t)
    case None =>
    case Some((i, e)) =>
      assert (i, e) in flat;
      EntryOnChain(msgs[i].log, e);
      OccursHolders(msgs, lo, e.seqNo, e.digest);
  }

  lemma {:induction false} EntryOnChain(log: RepairLog, e: ProtoEntry)
    requires ChainedLog(log) && e in log.entries
    ensures e.seqNo == Height(e.digest) && Extends(Head(log), e.digest)
  {
    var j :| 0 <= j < |log.entries| && log.entries[j] == e;
    assert EntryChained(log, j);
    HeadOfLog(log);
  }

  // In every prefix, y has been seen at least as often as d.
  ghost predicate Leads(flat: seq<(nat, ProtoEntry)>, y: Digest, d: Digest) {
    forall k :: 0 <= k <= |flat| ==> Occurs(flat[..k], Height(y), y) >= Occurs(flat[..k], Height(d), d)
  }

  lemma LeadsConcat(a: seq<(nat, ProtoEntry)>, b: seq<(nat, ProtoEntry)>, y: Digest, d: Digest)
    requires Leads(a, y, d) && Leads(b, y, d)
    ensures Leads(a + b, y, d)
  {
    forall k | 0 <= k <= |a + b|
      ensures Occurs((a + b)[..k], Height(y), y) >= Occurs((a + b)[..k], Height(d), d)
    {
      if k <= |a| {
        assert (a + b)[..k] == a[..k];
      } else {
        assert (a + b)[..k] == a[..|a|] + b[..k - |a|];
        OccursConcat(a[..|a|], b[..k - |a|], Height(y), y);
        OccursConcat(a[..|a|], b[..k - |a|], Height(d), d);
      }
    }
  }

  // A chained log shows a prefix of d before it shows d.
  lemma {:induction false} LeadsTagged(log: RepairLog, i: nat, lo: nat, y: Digest, d: Digest)
    requires ChainedLog(log) && log.checkpoint.seqNo <= lo < Height(y) && Extends(d, y)
    ensures Leads(Tagged(log.entries, i, lo), y, d)
    decreases |log.entries|
  {
    var tagged := Tagged(log.entries, i, lo);
    if log.entries != [] {
      var n := |log.entries| - 1;
      CutChained(log, n);
      LeadsTagged(Cut(log, n), i, lo, y, d);
      OccursTagged(log, i, lo, Height(y), y);
      OccursTagged(log, i, lo, Height(d), d);
      if Extends(Head(log), d) {
        ExtendsTransitive(Head(log), d, y);
      }
      LeadsLonger(Tagged(log.entries[..n], i, lo), tagged, y, d);
    }
  }

  lemma LeadsLonger(front: seq<(nat, ProtoEntry)>, all: seq<(nat, ProtoEntry)>, y: Digest, d: Digest)
    requires Leads(front, y, d) && front <= all && |all| <= |front| + 1
    requires Occurs(all, Height(y), y) >= Occurs(all, Height(d), d)
    ensures Leads(all, y, d)
  {
    forall k | 0 <= k <= |all| ensures Occurs(all[..k], Height(y), y) >= Occurs(all[..k], Height(d), d) {
      if k <= |front| {
        assert all[..k] == front[..k];
      } else {
        assert all[..k] == all;
      }
    }
  }

  lemma {:induction false} LeadsFlat(msgs: seq<StartMsg>, lo: nat, y: Digest, d: Digest)
    requires ChainedMsgs(msgs, lo) && lo < Height(y) && Extends(d, y)
    ensures Leads(Flat(msgs, lo), y, d)
    decreases |msgs|
  {
    if msgs != [] {
      var last := |msgs| - 1;
      LeadsFlat(msgs[..last], lo, y, d);
      LeadsTagged(msgs[last].log, last, lo, y, d);
      LeadsConcat(Flat(msgs[..last], lo), Tagged(msgs[last].log.entries, last, lo), y, d);
    }
  }

  ghost predicate Covers(w: Option<(nat, ProtoEntry)>, s: nat) {
    w.Some? && w.value.1.seqNo >= s
  }

  // If d reaches the threshold and no entry below d can reach it after d does, the last writer
  // is at least as far as d.
  lemma {:induction false} LastWriterCovers(flat: seq<(nat, ProtoEntry)>, t: nat, d: Digest)
    requires t > 0 && Occurs(flat, Height(d), d) >= t
    requires forall p :: p in flat && p.1.seqNo < Height(d) && Occurs(flat, p.1.seqNo, p.1.digest) >= t ==>
               p.1.seqNo == Height(p.1.digest) && Leads(flat, p.1.digest, d)
    ensures Covers(LastReaching(flat, t), Height(d))
    decreases |flat|
  {
    var n := |flat| - 1;
    var front, z := flat[..n], flat[n].1;
    if Occurs(front, Height(d), d) >= t {
      forall p | p in front && p.1.seqNo < Height(d) && Occurs(front, p.1.seqNo, p.1.digest) >= t
        ensures p.1.seqNo == Height(p.1.digest) && Leads(front, p.1.digest, d)
      {
        assert Leads(flat, p.1.digest, d);
        LeadsPrefix(flat, n, p.1.digest, d);
      }
      LastWriterCovers(front, t, d);
      assert flat[n] in flat;
      assert Leads(flat, z.digest, d) ==>
          Occurs(flat[..n], Height(z.digest), z.digest) >= Occurs(flat[..n], Height(d), d);
    }
  }

  lemma LeadsPrefix(flat: seq<(nat, ProtoEntry)>, n: nat, y: Digest, d: Digest)
    requires n <= |flat| && Leads(flat, y, d)
    ensures Leads(flat[..n], y, d)
  {
    forall k | 0 <= k <= n ensures flat[..n][..k] == flat[..k] {
    }
  }

  // If a digest is supported and every supported digest lies on its chain, the last writer is
  // at least as far as that digest.
  lemma WinnerCovers(msgs: seq<StartMsg>, lo: nat, t: nat, d: Digest)
    requires ChainedMsgs(msgs, lo) && t > 0
    requires Supported(msgs, lo, t, d)
    requires forall x :: Supported(msgs, lo, t, x) ==> Compatible(x, d)
    ensures Covers(LastReaching(Flat(msgs, lo), t), Height(d))
  {
    var flat := Flat(msgs, lo);
    OccursHolders(msgs, lo, Height(d), d);
    forall p | p in flat && p.1.seqNo < Height(d) && Occurs(flat, p.1.seqNo, p.1.digest) >= t
      ensures p.1.seqNo == Height(p.1.digest) && Leads(flat, p.1.digest, d)
    {
      OccursHolders(msgs, lo, p.1.seqNo, p.1.digest);
      assert Supported(msgs, lo, t, p.1.digest);
      LeadsFlat(msgs, lo, p.1.digest, d);
    }
    LastWriterCovers(flat, t, d);
  }

  // With exactly a quorum of logs, two supported digests lie on one chain.
  lemma SupportedCompatible(cfg: Config, msgs: seq<StartMsg>, lo: nat, a: Digest, b: Digest)
    requires |msgs| <= cfg.Quorum()
    requires Supported(msgs, lo, cfg.Matching(), a) && Supported(msgs, lo, cfg.Matching(), b)
    ensures Compatible(a, b)
  {
    Overlap(Replicas(|msgs|), Holders(msgs, a), Holders(msgs, b));
    var i :| i in Holders(msgs, a) * Holders(msgs, b);
    PrefixesCompatible(Head(msgs[i].log), a, b);
  }

  // The last-writer-wins scan is right: with exactly a quorum of well-formed logs it finds the
  // one longest digest that f + e + 1 logs hold, and nothing if there is none.
  lemma ScanFindsLongest(cfg: Config, msgs: seq<StartMsg>, lo: nat, d: Digest)
    requires ChainedMsgs(msgs, lo) && |msgs| <= cfg.Quorum()
    requires Supported(msgs, lo, cfg.Matching(), d)
    ensures var w := LastReaching(Flat(msgs, lo), cfg.Matching());
            && w.Some?
            && SupportedEntry(msgs, lo, cfg.Matching(), w.value.0, w.value.1)
            && Extends(w.value.1.digest, d)
  {
    forall x | Supported(msgs, lo, cfg.Matching(), x) ensures Compatible(x, d) {
      SupportedCompatible(cfg, msgs, lo, x, d);
    }
    WinnerCovers(msgs, lo, cfg.Matching(), d);
    WinnerSupported(msgs, lo, cfg.Matching());
  }

  // ----- Durability

  // A proposal whose logs are all chained and from distinct replicas.
  ghost predicate WellFormed(msgs: seq<StartMsg>) {
    && msgs != []
    && (forall i :: 0 <= i < |msgs| ==> ChainedLog(msgs[i].log))
    && (forall i, j :: 0 <= i < j < |msgs| ==> msgs[i].replicaId != msgs[j].replicaId)
  }

  // Every certificate is for an entry of the log it is sent with.  The source does not check
  // this: it verifies the signatures of a certificate, and then copies the log it came with.
  ghost predicate CertsInLogs(msgs: seq<StartMsg>) {
    forall i :: 0 <= i < |msgs| ==> CertInLog(msgs[i].log)
  }

  // The start messages whose log does not lie on d's chain up to d.
  ghost function Strays(msgs: seq<StartMsg>, d: Digest): set<nat> {
    set i: nat | i < |msgs| && !Extends(Head(msgs[i].log), d)
  }

  lemma HoldersAndStrays(msgs: seq<StartMsg>, d: Digest)
    ensures |Holders(msgs, d)| + |Strays(msgs, d)| == |msgs|
  {
    assert Replicas(|msgs|) == Holders(msgs, d) + Strays(msgs, d);
  }

  // More holders than strays are enough to meet one that is not a stray.
  lemma MeetHolder(msgs: seq<StartMsg>, s: set<nat>, d: Digest) returns (i: nat)
    requires |s| > |Strays(msgs, d)|
    requires forall j :: j in s ==> j < |msgs|
    ensures i in s && i in Holders(msgs, d)
  {
    SplitSize(s, Strays(msgs, d));
    i :| i in s - Strays(msgs, d);
  }

  // The first entries of a suffix are exactly the entries of d above the checkpoint.
  ghost predicate Follows(entries: seq<ProtoEntry>, ckSeq: nat, d: Digest) {
    && ckSeq <= Height(d) <= ckSeq + |entries|
    && forall k :: 0 <= k < Height(d) - ckSeq ==> entries[k].digest == Upto(d, ckSeq + 1 + k)
  }

  // The suffix keeps the history d: either the checkpoint already contains it, or the
  // checkpoint is on its chain and the suffix's first entries are d's.
  ghost predicate Keeps(suffix: LogSuffix, d: Digest) {
    if Height(d) <= suffix.checkpoint.seqNo then Extends(suffix.checkpoint.logDigest, d)
    else Extends(d, suffix.checkpoint.logDigest) && Follows(suffix.entries, suffix.checkpoint.seqNo, d)
  }

  lemma CheckpointsBelow(msgs: seq<StartMsg>, lo: nat)
    requires WellFormed(msgs)
    requires lo >= msgs[CheckpointChoice(msgs)].log.checkpoint.seqNo
    ensures ChainedMsgs(msgs, lo)
  {
  }

  // A log that matches the checkpoint lies on its chain.
  lemma MatchingExtends(log: RepairLog, ck: Checkpoint)
    requires ChainedLog(log) && MatchesCheckpoint(log, ck)
    ensures Extends(Head(log), ck.logDigest) && Height(ck.logDigest) == ck.seqNo
  {
    HeadOfLog(log);
  }

  // The chosen checkpoint lies on the chain of every digest with few strays.
  lemma CheckpointOnChain(cfg: Config, msgs: seq<StartMsg>, d: Digest)
    requires WellFormed(msgs)
    requires |Matches(msgs, CheckpointChoice(msgs))| >= cfg.Matching()
    requires |Strays(msgs, d)| <= cfg.f + cfg.e
    ensures Compatible(msgs[CheckpointChoice(msgs)].log.checkpoint.logDigest, d)
    ensures Height(msgs[CheckpointChoice(msgs)].log.checkpoint.logDigest) ==
            msgs[CheckpointChoice(msgs)].log.checkpoint.seqNo
  {
    var k := CheckpointChoice(msgs);
    var ck := msgs[k].log.checkpoint;
    var i := MeetHolder(msgs, Matches(msgs, k), d);
    MatchingExtends(msgs[i].log, ck);
    PrefixesCompatible(Head(msgs[i].log), ck.logDigest, d);
  }

  // The entries of a chained log between two positions have the digests of its chain.
  lemma {:induction false} SliceFollows(log: RepairLog, lo: nat, hi: nat, d: Digest)
    requires ChainedLog(log) && log.checkpoint.seqNo <= lo <= hi
    requires Extends(Head(log), d) && Height(d) == hi
    ensures Follows(TakeBetween(log.entries, lo, hi), lo, d)
    ensures |TakeBetween(log.entries, lo, hi)| == hi - lo
  {
    SliceOf(log, lo, hi, d);
    var slice := TakeBetween(log.entries, lo, hi);
    forall k | 0 <= k < hi - lo ensures slice[k].digest == Upto(d, lo + 1 + k) {
      SliceAt(log, lo + k, d);
    }
  }

  lemma {:induction false} SliceOf(log: RepairLog, lo: nat, hi: nat, d: Digest)
    requires ChainedLog(log) && log.checkpoint.seqNo <= lo <= hi
    requires Extends(Head(log), d) && Height(d) == hi
    ensures hi - log.checkpoint.seqNo <= |log.entries|
    ensures TakeBetween(log.entries, lo, hi) == log.entries[lo - log.checkpoint.seqNo..hi - log.checkpoint.seqNo]
  {
    HeadOfLog(log);
    EntriesNumbered(log);
    TakeBetweenSlice(log.entries, log.checkpoint.seqNo, lo, hi);
  }

  lemma EntriesNumbered(log: RepairLog)
    requires ChainedLog(log)
    ensures forall i :: 0 <= i < |log.entries| ==> log.entries[i].seqNo == log.checkpoint.seqNo + 1 + i
  {
    forall i | 0 <= i < |log.entries| ensures log.entries[i].seqNo == log.checkpoint.seqNo + 1 + i {
      assert EntryChained(log, i);
    }
  }

  lemma SliceAt(log: RepairLog, s: nat, d: Digest)
    requires ChainedLog(log) && Extends(Head(log), d) && log.checkpoint.seqNo <= s < Height(d)
    ensures s - log.checkpoint.seqNo < |log.entries|
    ensures log.entries[s - log.checkpoint.seqNo].digest == Upto(d, s + 1)
  {
    HeadOfLog(log);
    UptoPrefix(Head(log), d, s + 1);
  }

  // The log that the chosen certificate came with, and its history up to the certificate: this
  // is what the source copies.
  function Holder(msgs: seq<StartMsg>, ckSeq: nat): RepairLog
    requires msgs != []
  {
    msgs[CertIdx(msgs, ckSeq)].log
  }

  function Copied(msgs: seq<StartMsg>, ckSeq: nat): Digest
    requires msgs != []
  {
    var head := Head(Holder(msgs, ckSeq));
    Upto(head, Min(CertSeq(msgs, ckSeq), Height(head)))
  }

  // The log of the chosen certificate agrees with d up to the certificate.
  ghost predicate HolderAgrees(msgs: seq<StartMsg>, ckSeq: nat, d: Digest)
    requires msgs != []
  {
    CertChoice(msgs, ckSeq).Some? ==>
      Extends(Head(Holder(msgs, ckSeq)), Upto(d, Min(CertSeq(msgs, ckSeq), Height(d))))
  }

  // That log goes as far as d, or as far as the certificate.
  ghost predicate HolderReaches(msgs: seq<StartMsg>, ckSeq: nat, d: Digest)
    requires msgs != []
  {
    CertChoice(msgs, ckSeq).Some? ==>
      Height(Head(Holder(msgs, ckSeq))) >= Min(CertSeq(msgs, ckSeq), Height(d))
  }

  // Up to the certificate the suffix has the entries of the log that it came with.
  lemma UpToCertShows(msgs: seq<StartMsg>, ckSeq: nat)
    requires WellFormed(msgs) && ChainedMsgs(msgs, ckSeq)
    ensures CertChoice(msgs, ckSeq).None? ==> UpToCert(msgs, ckSeq) == [] && ScanFloor(msgs, ckSeq) == ckSeq
    ensures CertChoice(msgs, ckSeq).Some? ==>
              var t := Copied(msgs, ckSeq);
              && ScanFloor(msgs, ckSeq) == CertSeq(msgs, ckSeq) > ckSeq
              && (Height(t) <= ckSeq ==> UpToCert(msgs, ckSeq) == [])
              && (Height(t) > ckSeq ==>
                    Follows(UpToCert(msgs, ckSeq), ckSeq, t) && |UpToCert(msgs, ckSeq)| == Height(t) - ckSeq)
  {
    var log := Holder(msgs, ckSeq);
    var certSeq := CertSeq(msgs, ckSeq);
    HeadOfLog(log);
    forall i | 0 <= i < |log.entries| ensures log.entries[i].seqNo == log.checkpoint.seqNo + 1 + i {
      assert EntryChained(log, i);
    }
    if CertChoice(msgs, ckSeq).None? {
      TakeBetweenSlice(log.entries, log.checkpoint.seqNo, ckSeq, 0);
    } else {
      if certSeq > Height(Head(log)) {
        TakeBetweenBeyond(log.entries, log.checkpoint.seqNo, ckSeq, certSeq);
      }
      var t := Copied(msgs, ckSeq);
      if Height(t) > ckSeq {
        UptoExtended(Head(log), Height(t));
        SliceFollows(log, ckSeq, Height(t), t);
      }
    }
  }

  // If the certificate is for an entry of its log, these are the certificate's entries.
  lemma UpToCertFollows(msgs: seq<StartMsg>, ckSeq: nat)
    requires WellFormed(msgs) && ChainedMsgs(msgs, ckSeq) && CertInLog(Holder(msgs, ckSeq))
    ensures CertChoice(msgs, ckSeq).None? ==> UpToCert(msgs, ckSeq) == [] && ScanFloor(msgs, ckSeq) == ckSeq
    ensures CertChoice(msgs, ckSeq).Some? ==>
              var cert := Holder(msgs, ckSeq).cert.value;
              && ScanFloor(msgs, ckSeq) == cert.seqNo == Height(cert.digest)
              && |UpToCert(msgs, ckSeq)| == cert.seqNo - ckSeq
              && Follows(UpToCert(msgs, ckSeq), ckSeq, cert.digest)
  {
    UpToCertShows(msgs, ckSeq);
    HeadOfLog(Holder(msgs, ckSeq));
  }

  // A certificate for an entry of its log that is compatible with d makes that log agree.
  lemma CertInLogAgrees(msgs: seq<StartMsg>, ckSeq: nat, d: Digest)
    requires WellFormed(msgs) && ChainedMsgs(msgs, ckSeq) && CertInLog(Holder(msgs, ckSeq))
    requires CertChoice(msgs, ckSeq).Some? ==> Compatible(Holder(msgs, ckSeq).cert.value.digest, d)
    ensures HolderAgrees(msgs, ckSeq, d)
  {
    if CertChoice(msgs, ckSeq).Some? {
      var log := Holder(msgs, ckSeq);
      var cert := log.cert.value;
      HeadOfLog(log);
      assert Extends(Head(log), cert.digest) && Height(cert.digest) == cert.seqNo;
      if Extends(cert.digest, d) {
        ExtendsTransitive(Head(log), cert.digest, d);
      }
    }
  }

  // Above the certificate the suffix has the winner's entries.
  lemma AfterCertFollows(cfg: Config, msgs: seq<StartMsg>, ckSeq: nat)
    requires WellFormed(msgs) && ChainedMsgs(msgs, ckSeq)
    ensures Decider(cfg, msgs, ckSeq).None? ==> AfterCert(cfg, msgs, ckSeq) == []
    ensures Decider(cfg, msgs, ckSeq).Some? ==>
              var tip := Decider(cfg, msgs, ckSeq).value.1.digest;
              && Follows(AfterCert(cfg, msgs, ckSeq), ScanFloor(msgs, ckSeq), tip)
              && Height(tip) == ScanFloor(msgs, ckSeq) + |AfterCert(cfg, msgs, ckSeq)|
  {
    var floor := ScanFloor(msgs, ckSeq);
    assert ChainedMsgs(msgs, floor);
    WinnerSupported(msgs, floor, cfg.Matching());
    match Decider(cfg, msgs, ckSeq)
    case None =>
      var log := msgs[CertIdx(msgs, ckSeq)].log;
      forall i | 0 <= i < |log.entries| ensures log.entries[i].seqNo == log.checkpoint.seqNo + 1 + i {
        assert EntryChained(log, i);
      }
      TakeBetweenSlice(log.entries, log.checkpoint.seqNo, floor, 0);
    case Some((i, e)) =>
      SliceFollows(msgs[i].log, floor, e.seqNo, e.digest);
  }

  lemma UptoPrefix(d: Digest, p: Digest, s: nat)
    requires Extends(d, p) && s <= Height(p)
    ensures Upto(p, s) == Upto(d, s)
  {
    UptoUpto(d, Height(p), s);
  }

  // Two consecutive pieces of one chain.
  lemma FollowsConcat(a: seq<ProtoEntry>, b: seq<ProtoEntry>, lo: nat, mid: nat, c: Digest, d: Digest)
    requires |a| == mid - lo && Height(c) == mid && Follows(a, lo, c)
    requires Follows(b, mid, d) && Extends(d, c)
    ensures Follows(a + b, lo, d)
  {
    forall k | 0 <= k < Height(d) - lo ensures (a + b)[k].digest == Upto(d, lo + 1 + k) {
      if k < mid - lo {
        UptoPrefix(d, c, lo + 1 + k);
      }
    }
  }

  lemma {:induction false} FollowsPrefix(a: seq<ProtoEntry>, lo: nat, d: Digest, p: Digest)
    requires Follows(a, lo, d) && Extends(d, p) && lo <= Height(p)
    ensures Follows(a, lo, p)
  {
    forall k | 0 <= k < Height(p) - lo ensures a[k].digest == Upto(p, lo + 1 + k) {
      assert a[k].digest == Upto(d, lo + 1 + k);
      UptoPrefix(d, p, lo + 1 + k);
    }
  }

  // A history that ends with the entries is the digest of the last one.
  lemma LastFollows(entries: seq<ProtoEntry>, lo: nat, d: Digest)
    requires Follows(entries, lo, d) && entries != [] && Height(d) == lo + |entries|
    ensures entries[|entries| - 1].digest == d
  {
  }

  // With few strays, the decided order contains d if the certificate's log agrees with it.
  lemma OrderedFollows(cfg: Config, msgs: seq<StartMsg>, ckSeq: nat, d: Digest)
    requires WellFormed(msgs) && ChainedMsgs(msgs, ckSeq)
    requires |msgs| >= cfg.Quorum() && |Strays(msgs, d)| <= cfg.f + cfg.e
    requires ckSeq < Height(d) && HolderAgrees(msgs, ckSeq, d)
    ensures Follows(Ordered(cfg, msgs, ckSeq), ckSeq, d)
  {
    var floor := ScanFloor(msgs, ckSeq);
    var a, b := UpToCert(msgs, ckSeq), AfterCert(cfg, msgs, ckSeq);
    UpToCertShows(msgs, ckSeq);
    if floor < Height(d) {
      AfterCertCovers(cfg, msgs, ckSeq, d);
      if CertChoice(msgs, ckSeq).Some? {
        assert Copied(msgs, ckSeq) == Upto(d, floor);
        UptoExtended(d, floor);
        FollowsConcat(a, b, ckSeq, floor, Upto(d, floor), d);
      } else {
        assert a + b == b;
      }
    } else {
      var head := Head(Holder(msgs, ckSeq));
      UptoUpto(head, Min(floor, Height(head)), Height(d));
      FollowsPrefix(a, ckSeq, Copied(msgs, ckSeq), d);
    }
  }

  // With few strays, the entries above the certificate go at least as far as d, and are d's.
  lemma AfterCertCovers(cfg: Config, msgs: seq<StartMsg>, ckSeq: nat, d: Digest)
    requires WellFormed(msgs) && ChainedMsgs(msgs, ckSeq)
    requires |msgs| >= cfg.Quorum() && |Strays(msgs, d)| <= cfg.f + cfg.e
    requires ScanFloor(msgs, ckSeq) < Height(d)
    ensures Follows(AfterCert(cfg, msgs, ckSeq), ScanFloor(msgs, ckSeq), d)
  {
    var floor, t := ScanFloor(msgs, ckSeq), cfg.Matching();
    HoldersAndStrays(msgs, d);
    forall x | Supported(msgs, floor, t, x) ensures Compatible(x, d) {
      var i := MeetHolder(msgs, Holders(msgs, x), d);
      PrefixesCompatible(Head(msgs[i].log), x, d);
    }
    WinnerCovers(msgs, floor, t, d);
    WinnerSupported(msgs, floor, t);
    AfterCertFollows(cfg, msgs, ckSeq);
    FollowsPrefix(AfterCert(cfg, msgs, ckSeq), floor, Decider(cfg, msgs, ckSeq).value.1.digest, d);
  }

  // The other way round: if the decided entries start with d's, and the certificate's log goes far
  // enough, that log agrees with d.
  lemma KeptAgrees(msgs: seq<StartMsg>, ckSeq: nat, entries: seq<ProtoEntry>, d: Digest)
    requires WellFormed(msgs) && ChainedMsgs(msgs, ckSeq) && ckSeq < Height(d)
    requires UpToCert(msgs, ckSeq) <= entries && Follows(entries, ckSeq, d)
    requires HolderReaches(msgs, ckSeq, d)
    ensures HolderAgrees(msgs, ckSeq, d)
  {
    if CertChoice(msgs, ckSeq).Some? {
      UpToCertShows(msgs, ckSeq);
      var head := Head(Holder(msgs, ckSeq));
      var m := Min(CertSeq(msgs, ckSeq), Height(d));
      assert entries[m - ckSeq - 1] == UpToCert(msgs, ckSeq)[m - ckSeq - 1];
      assert Upto(Copied(msgs, ckSeq), m) == Upto(d, m);
      UptoUpto(head, Min(CertSeq(msgs, ckSeq), Height(head)), m);
      UptoExtended(head, m);
    }
  }

  // Entries above the certificate cannot fill the gap after a log that is too short: their
  // positions are above the certificate.
  lemma FirstAfterCert(cfg: Config, msgs: seq<StartMsg>, ckSeq: nat)
    requires WellFormed(msgs) && ChainedMsgs(msgs, ckSeq)
    requires AfterCert(cfg, msgs, ckSeq) != []
    ensures Height(AfterCert(cfg, msgs, ckSeq)[0].digest) == ScanFloor(msgs, ckSeq) + 1
  {
    AfterCertFollows(cfg, msgs, ckSeq);
  }

  lemma OrderedReaches(cfg: Config, msgs: seq<StartMsg>, ckSeq: nat, d: Digest)
    requires WellFormed(msgs) && ChainedMsgs(msgs, ckSeq)
    requires ckSeq < Height(d) && Follows(Ordered(cfg, msgs, ckSeq), ckSeq, d)
    ensures HolderReaches(msgs, ckSeq, d)
  {
    if CertChoice(msgs, ckSeq).Some? {
      UpToCertShows(msgs, ckSeq);
      if AfterCert(cfg, msgs, ckSeq) != [] {
        FirstAfterCert(cfg, msgs, ckSeq);
        NoGap(UpToCert(msgs, ckSeq), AfterCert(cfg, msgs, ckSeq), ckSeq, ScanFloor(msgs, ckSeq), d);
      }
    }
  }

  // Of two pieces that follow one history, the second starts where the first ends.
  lemma NoGap(a: seq<ProtoEntry>, b: seq<ProtoEntry>, lo: nat, mid: nat, d: Digest)
    requires Follows(a + b, lo, d) && b != [] && Height(b[0].digest) == mid + 1
    ensures lo + |a| >= Min(mid, Height(d))
  {
    if lo + |a| < Height(d) {
      assert (a + b)[|a|] == b[0];
      assert (a + b)[|a|].digest == Upto(d, lo + 1 + |a|);
    }
  }

  // Durability, exactly: of a history d that at most f + e of the start messages stray from, the
  // decided order keeps everything above the checkpoint if and only if the log that the chosen
  // certificate came with agrees with d up to that certificate.
  lemma OrderKeepsIff(cfg: Config, msgs: seq<StartMsg>, suffix: LogSuffix, d: Digest)
    requires WellFormed(msgs) && |msgs| >= cfg.Quorum()
    requires LogSuffixOf(cfg, msgs) == Some(suffix)
    requires |Strays(msgs, d)| <= cfg.f + cfg.e && suffix.checkpoint.seqNo < Height(d)
    ensures Follows(Ordered(cfg, msgs, suffix.checkpoint.seqNo), suffix.checkpoint.seqNo, d) <==>
            HolderAgrees(msgs, suffix.checkpoint.seqNo, d)
  {
    var ckSeq := suffix.checkpoint.seqNo;
    SuffixParts(cfg, msgs, suffix);
    CheckpointsBelow(msgs, ckSeq);
    if HolderAgrees(msgs, ckSeq, d) {
      OrderedFollows(cfg, msgs, ckSeq, d);
    } else if Follows(Ordered(cfg, msgs, ckSeq), ckSeq, d) {
      OrderedReaches(cfg, msgs, ckSeq, d);
      KeptAgrees(msgs, ckSeq, Ordered(cfg, msgs, ckSeq), d);
    }
  }

  // Whatever the certificate's log, the chosen checkpoint is on d's chain; and the suffix keeps
  // d if that log agrees with it, or if the checkpoint has all of d.  This is exact for a log that
  // goes as far as its certificate; below a gap, requests that were added at the end could by
  // chance be d's.
  lemma FewStraysKept(cfg: Config, msgs: seq<StartMsg>, suffix: LogSuffix, d: Digest)
    requires WellFormed(msgs) && |msgs| >= cfg.Quorum()
    requires LogSuffixOf(cfg, msgs) == Some(suffix)
    requires |Strays(msgs, d)| <= cfg.f + cfg.e
    ensures Compatible(suffix.checkpoint.logDigest, d)
    ensures Height(d) <= suffix.checkpoint.seqNo || HolderAgrees(msgs, suffix.checkpoint.seqNo, d) ==>
              Keeps(suffix, d)
    ensures Keeps(suffix, d) && HolderReaches(msgs, suffix.checkpoint.seqNo, d) ==>
              Height(d) <= suffix.checkpoint.seqNo || HolderAgrees(msgs, suffix.checkpoint.seqNo, d)
  {
    var ckSeq := suffix.checkpoint.seqNo;
    SuffixParts(cfg, msgs, suffix);
    CheckpointOnChain(cfg, msgs, d);
    CheckpointsBelow(msgs, ckSeq);
    if ckSeq < Height(d) {
      KeptIffAgrees(cfg, msgs, ckSeq, suffix.entries, d);
    }
  }

  lemma KeptIffAgrees(cfg: Config, msgs: seq<StartMsg>, ckSeq: nat, entries: seq<ProtoEntry>, d: Digest)
    requires WellFormed(msgs) && ChainedMsgs(msgs, ckSeq) && |msgs| >= cfg.Quorum()
    requires |Strays(msgs, d)| <= cfg.f + cfg.e && ckSeq < Height(d)
    requires Ordered(cfg, msgs, ckSeq) <= entries
    ensures HolderAgrees(msgs, ckSeq, d) ==> Follows(entries, ckSeq, d)
    ensures Follows(entries, ckSeq, d) && HolderReaches(msgs, ckSeq, d) ==> HolderAgrees(msgs, ckSeq, d)
  {
    if HolderAgrees(msgs, ckSeq, d) {
      OrderedFollows(cfg, msgs, ckSeq, d);
    } else if Follows(entries, ckSeq, d) && HolderReaches(msgs, ckSeq, d) {
      KeptAgrees(msgs, ckSeq, entries, d);
    }
  }
}
