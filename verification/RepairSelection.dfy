// How a repair proposal is reduced to one log suffix: getLogSuffixFromProposal and
// getValidClientRequests of lib/repair_utils.cc.
//
// Each loop of the source is a method; the functions say what the loops compute.  All of them
// are total: nothing here assumes that the logs in a proposal are well formed.

module RepairSelection {
  import opened Options
  import opened Digests
  import opened Quorums
  import opened ClientRecords

  // ----- Messages

  datatype Checkpoint = Checkpoint(seqNo: nat, logDigest: Digest, clientRecord: Record)

  datatype Cert = Cert(seqNo: nat, digest: Digest)

  // A log entry on the wire; the request itself is optional, its digest is always there.
  datatype ProtoEntry = ProtoEntry(
    seqNo: nat, id: RequestId, digest: Digest, requestDigest: RequestDigest, request: Option<Request>)
  {
    // The request field as protobuf reads it: an absent field is the empty string.
    function Body(): Request {
      if request.Some? then request.value else Empty
    }
  }

  datatype RepairLog = RepairLog(checkpoint: Checkpoint, entries: seq<ProtoEntry>, cert: Option<Cert>)

  datatype StartMsg = StartMsg(replicaId: nat, log: RepairLog)

  datatype LogSuffix = LogSuffix(
    checkpointReplica: nat, checkpoint: Checkpoint, entries: seq<ProtoEntry>, logDigest: Digest)

  // ----- The checkpoint

  // The last of the start messages with the highest checkpoint.
  ghost predicate IsCheckpointChoice(msgs: seq<StartMsg>, k: nat) {
    && k < |msgs|
    && forall i :: 0 <= i < |msgs| ==>
         && msgs[i].log.checkpoint.seqNo <= msgs[k].log.checkpoint.seqNo
         && (i > k ==> msgs[i].log.checkpoint.seqNo < msgs[k].log.checkpoint.seqNo)
  }

  function CheckpointChoice(msgs: seq<StartMsg>): (k: nat)
    requires msgs != []
    ensures IsCheckpointChoice(msgs, k)
  {
    var last := |msgs| - 1;
    if last == 0 then 0
    else
      var k := CheckpointChoice(msgs[..last]);
      assert forall i :: 0 <= i < last ==> msgs[..last][i] == msgs[i];
      if msgs[last].log.checkpoint.seqNo >= msgs[k].log.checkpoint.seqNo then last else k
  }

  method ChooseCheckpoint(msgs: seq<StartMsg>) returns (k: nat)
    requires msgs != []
    ensures k == CheckpointChoice(msgs)
  {
    k := 0;
    var maxSeq := 0;
    for i := 0 to |msgs|
      invariant k < |msgs|
      invariant i > 0 ==> k == CheckpointChoice(msgs[..i]) && maxSeq == msgs[k].log.checkpoint.seqNo
      invariant i == 0 ==> maxSeq == 0
    {
      assert msgs[..i + 1][..i] == msgs[..i];
      if msgs[i].log.checkpoint.seqNo >= maxSeq {
        k := i;
        maxSeq := msgs[i].log.checkpoint.seqNo;
      }
    }
    assert msgs[..|msgs|] == msgs;
  }

  predicate MatchesCheckpoint(log: RepairLog, ck: Checkpoint) {
    if log.checkpoint.seqNo == ck.seqNo then log.checkpoint.logDigest == ck.logDigest
    else
      && log.checkpoint.seqNo < ck.seqNo <= log.checkpoint.seqNo + |log.entries|
      && log.entries[ck.seqNo - log.checkpoint.seqNo - 1].digest == ck.logDigest
  }

  // The other start messages whose log contains the chosen checkpoint.
  function Matches(msgs: seq<StartMsg>, k: nat): set<nat>
    requires k < |msgs|
  {
    set i: nat | i < |msgs| && msgs[i].replicaId != msgs[k].replicaId
      && MatchesCheckpoint(msgs[i].log, msgs[k].log.checkpoint)
  }

  method CountMatches(msgs: seq<StartMsg>, k: nat) returns (count: nat)
    requires k < |msgs|
    ensures count == |Matches(msgs, k)|
  {
    count := 0;
    ghost var seen: set<nat> := {};
    for i := 0 to |msgs|
      invariant seen == set j: nat | j in Matches(msgs, k) && j < i
      invariant count == |seen|
    {
      if msgs[i].replicaId != msgs[k].replicaId && MatchesCheckpoint(msgs[i].log, msgs[k].log.checkpoint) {
        count := count + 1;
        seen := seen + {i};
      }
    }
    assert seen == Matches(msgs, k);
  }

  // ----- The certificate

  // Whether a log carries a certificate past the chosen checkpoint.
  predicate Certifies(log: RepairLog, floor: nat) {
    log.cert.Some? && log.cert.value.seqNo > floor
  }

  // The first of the start messages with the highest certificate past the checkpoint.
  function CertChoice(msgs: seq<StartMsg>, floor: nat): (c: Option<nat>)
    ensures c.Some? ==>
              && c.value < |msgs|
              && Certifies(msgs[c.value].log, floor)
              && forall i :: 0 <= i < |msgs| && Certifies(msgs[i].log, floor) ==>
                   && msgs[i].log.cert.value.seqNo <= msgs[c.value].log.cert.value.seqNo
                   && (i < c.value ==> msgs[i].log.cert.value.seqNo < msgs[c.value].log.cert.value.seqNo)
    ensures c.None? ==> forall i :: 0 <= i < |msgs| ==> !Certifies(msgs[i].log, floor)
  {
    if msgs == [] then None
    else
      var last := |msgs| - 1;
      var c := CertChoice(msgs[..last], floor);
      assert forall i :: 0 <= i < last ==> msgs[..last][i] == msgs[i];
      if Certifies(msgs[last].log, floor)
         && (c.None? || msgs[last].log.cert.value.seqNo > msgs[c.value].log.cert.value.seqNo)
      then Some(last)
      else c
  }

  // The log to take entries from, and the certificate's position (0 if there is none).
  function CertIdx(msgs: seq<StartMsg>, floor: nat): (k: nat)
    ensures msgs != [] ==> k < |msgs|
  {
    var c := CertChoice(msgs, floor);
    if c.Some? then c.value else 0
  }

  function CertSeq(msgs: seq<StartMsg>, floor: nat): nat {
    var c := CertChoice(msgs, floor);
    if c.Some? then msgs[c.value].log.cert.value.seqNo else 0
  }

  method ChooseCert(msgs: seq<StartMsg>, floor: nat) returns (logToUse: nat, maxCertSeq: nat)
    ensures logToUse == CertIdx(msgs, floor) && maxCertSeq == CertSeq(msgs, floor)
  {
    logToUse, maxCertSeq := 0, 0;
    for i := 0 to |msgs|
      invariant logToUse == CertIdx(msgs[..i], floor)
      invariant maxCertSeq == CertSeq(msgs[..i], floor)
    {
      assert msgs[..i + 1][..i] == msgs[..i];
      var log := msgs[i].log;
      if log.cert.None? || log.cert.value.seqNo <= floor {
        continue;
      }
      if log.cert.value.seqNo > maxCertSeq {
        maxCertSeq := log.cert.value.seqNo;
        logToUse := i;
      }
    }
    assert msgs[..|msgs|] == msgs;
  }

  // ----- Entries of one log

  // The entries above lo, up to the first one above hi.
  function TakeBetween(entries: seq<ProtoEntry>, lo: nat, hi: nat): seq<ProtoEntry> {
    if entries == [] then []
    else if entries[0].seqNo <= lo then TakeBetween(entries[1..], lo, hi)
    else if entries[0].seqNo > hi then []
    else [entries[0]] + TakeBetween(entries[1..], lo, hi)
  }

  method CollectBetween(entries: seq<ProtoEntry>, lo: nat, hi: nat) returns (taken: seq<ProtoEntry>)
    ensures taken == TakeBetween(entries, lo, hi)
  {
    taken := [];
    var i := 0;
    while i < |entries|
      invariant i <= |entries|
      invariant taken + TakeBetween(entries[i..], lo, hi) == TakeBetween(entries, lo, hi)
    {
      var entry := entries[i];
      i := i + 1;
      if entry.seqNo <= lo {
        continue;
      }
      if entry.seqNo > hi {
        break;
      }
      taken := taken + [entry];
    }
  }

  // ----- Entries of all logs

  // The entries above lo of one log, tagged with the log's position in the proposal.
  function Tagged(entries: seq<ProtoEntry>, i: nat, lo: nat): seq<(nat, ProtoEntry)> {
    if entries == [] then []
    else
      var last := |entries| - 1;
      Tagged(entries[..last], i, lo) + if entries[last].seqNo > lo then [(i, entries[last])] else []
  }

  // All entries above lo in the order in which the proposal lists them.
  function Flat(msgs: seq<StartMsg>, lo: nat): seq<(nat, ProtoEntry)> {
    if msgs == [] then []
    else
      var last := |msgs| - 1;
      Flat(msgs[..last], lo) + Tagged(msgs[last].log.entries, last, lo)
  }

  // How many of the entries have this sequence number and digest.
  function Occurs(flat: seq<(nat, ProtoEntry)>, s: nat, d: Digest): nat {
    if flat == [] then 0
    else
      var last := flat[|flat| - 1].1;
      Occurs(flat[..|flat| - 1], s, d) + if last.seqNo == s && last.digest == d then 1 else 0
  }

  // Whether the last entry is the one that brings its digest to the threshold t.
  predicate ReachesNow(flat: seq<(nat, ProtoEntry)>, t: nat)
    requires flat != []
  {
    var last := flat[|flat| - 1].1;
    Occurs(flat, last.seqNo, last.digest) == t
  }

  // The last entry that brings its digest to the threshold, as (position of its log, entry).
  function LastReaching(flat: seq<(nat, ProtoEntry)>, t: nat): Option<(nat, ProtoEntry)> {
    if flat == [] then None
    else if ReachesNow(flat, t) then Some(flat[|flat| - 1])
    else LastReaching(flat[..|flat| - 1], t)
  }

  lemma SnocFront<T>(s: seq<T>, x: T)
    ensures (s + [x])[..|s + [x]| - 1] == s
  {
  }

  // The count map holds the number of occurrences so far.
  ghost predicate Tallies(counts: map<(nat, Digest), nat>, flat: seq<(nat, ProtoEntry)>) {
    forall s: nat, d: Digest :: Occurs(flat, s, d) == if (s, d) in counts then counts[(s, d)] else 0
  }

  function Increment<K>(counts: map<K, nat>, key: K): map<K, nat> {
    counts[key := (if key in counts then counts[key] else 0) + 1]
  }

  lemma TallyOne(counts: map<(nat, Digest), nat>, flat: seq<(nat, ProtoEntry)>, i: nat, entry: ProtoEntry)
    requires Tallies(counts, flat)
    ensures Tallies(Increment(counts, (entry.seqNo, entry.digest)), flat + [(i, entry)])
  {
    SnocFront(flat, (i, entry));
  }

  // The position of the last entry that brings its digest to the threshold.
  function PositionOf(winner: Option<(nat, ProtoEntry)>): Option<(nat, nat)> {
    if winner.Some? then Some((winner.value.0, winner.value.1.seqNo)) else None
  }

  // The counts and the position found so far are those of these entries.
  ghost predicate Scanned(
    counts: map<(nat, Digest), nat>, found: Option<(nat, nat)>, t: nat, done: seq<(nat, ProtoEntry)>) {
    Tallies(counts, done) && found == PositionOf(LastReaching(done, t))
  }

  // One turn of the scan: the last writer wins.
  method ScanOne(
    counts: map<(nat, Digest), nat>, found: Option<(nat, nat)>, t: nat, entry: ProtoEntry, i: nat,
    ghost done: seq<(nat, ProtoEntry)>)
    returns (newCounts: map<(nat, Digest), nat>, newFound: Option<(nat, nat)>)
    requires Scanned(counts, found, t, done)
    ensures Scanned(newCounts, newFound, t, done + [(i, entry)])
  {
    TallyOne(counts, done, i, entry);
    SnocFront(done, (i, entry));
    var key := (entry.seqNo, entry.digest);
    newCounts := Increment(counts, key);
    newFound := if newCounts[key] == t then Some((i, entry.seqNo)) else found;
  }

  // The inner loop: the entries of one log.
  method ScanLog(
    counts: map<(nat, Digest), nat>, found: Option<(nat, nat)>, t: nat, entries: seq<ProtoEntry>, i: nat, lo: nat,
    ghost done: seq<(nat, ProtoEntry)>)
    returns (newCounts: map<(nat, Digest), nat>, newFound: Option<(nat, nat)>)
    requires Scanned(counts, found, t, done)
    ensures Scanned(newCounts, newFound, t, done + Tagged(entries, i, lo))
  {
    newCounts, newFound := counts, found;
    ghost var seen := done;
    assert done + [] == done;
    for j := 0 to |entries|
      invariant seen == done + Tagged(entries[..j], i, lo) && Scanned(newCounts, newFound, t, seen)
    {
      assert entries[..j + 1][..j] == entries[..j];
      if entries[j].seqNo <= lo {
        continue;
      }
      newCounts, newFound := ScanOne(newCounts, newFound, t, entries[j], i, seen);
      seen := seen + [(i, entries[j])];
    }
    assert entries[..|entries|] == entries;
  }

  // The scan over all logs with its count map.
  method ScanMatching(msgs: seq<StartMsg>, lo: nat, t: nat) returns (found: Option<(nat, nat)>)
    ensures found == PositionOf(LastReaching(Flat(msgs, lo), t))
  {
    found := None;
    var counts: map<(nat, Digest), nat> := map[];
    for i := 0 to |msgs|
      invariant Scanned(counts, found, t, Flat(msgs[..i], lo))
    {
      assert msgs[..i + 1][..i] == msgs[..i];
      counts, found := ScanLog(counts, found, t, msgs[i].log.entries, i, lo, Flat(msgs[..i], lo));
    }
    assert msgs[..|msgs|] == msgs;
  }

  // ----- Client requests

  function OccursRequest(flat: seq<(nat, ProtoEntry)>, id: RequestId, body: Request): nat {
    if flat == [] then 0
    else
      var last := flat[|flat| - 1].1;
      OccursRequest(flat[..|flat| - 1], id, body) + if last.id == id && last.Body() == body then 1 else 0
  }

  // Per request id, the last entry whose body has by then been seen in t entries.
  function ValidRequests(flat: seq<(nat, ProtoEntry)>, t: nat): map<RequestId, ProtoEntry> {
    if flat == [] then map[]
    else
      var last := flat[|flat| - 1].1;
      var m := ValidRequests(flat[..|flat| - 1], t);
      if OccursRequest(flat, last.id, last.Body()) >= t then m[last.id := last] else m
  }

  ghost predicate TalliesRequests(counts: map<(RequestId, Request), nat>, flat: seq<(nat, ProtoEntry)>) {
    forall id, body :: OccursRequest(flat, id, body) == if (id, body) in counts then counts[(id, body)] else 0
  }

  lemma TallyOneRequest(counts: map<(RequestId, Request), nat>, flat: seq<(nat, ProtoEntry)>, i: nat, entry: ProtoEntry)
    requires TalliesRequests(counts, flat)
    ensures TalliesRequests(Increment(counts, (entry.id, entry.Body())), flat + [(i, entry)])
  {
    SnocFront(flat, (i, entry));
  }

  // The counts and the requests found so far are those of these entries.
  ghost predicate Counting(
    counts: map<(RequestId, Request), nat>, m: map<RequestId, ProtoEntry>, t: nat, done: seq<(nat, ProtoEntry)>) {
    TalliesRequests(counts, done) && m == ValidRequests(done, t)
  }

  // One turn of the counting loop.
  method CountRequest(
    counts: map<(RequestId, Request), nat>, m: map<RequestId, ProtoEntry>, t: nat, entry: ProtoEntry,
    ghost done: seq<(nat, ProtoEntry)>, ghost i: nat)
    returns (newCounts: map<(RequestId, Request), nat>, newM: map<RequestId, ProtoEntry>)
    requires Counting(counts, m, t, done)
    ensures Counting(newCounts, newM, t, done + [(i, entry)])
  {
    TallyOneRequest(counts, done, i, entry);
    SnocFront(done, (i, entry));
    var key := (entry.id, entry.Body());
    newCounts := Increment(counts, key);
    newM := if newCounts[key] >= t then m[entry.id := entry] else m;
  }

  // The inner loop: the entries of one log.
  method CountLog(
    counts: map<(RequestId, Request), nat>, m: map<RequestId, ProtoEntry>, t: nat, entries: seq<ProtoEntry>, lo: nat,
    ghost done: seq<(nat, ProtoEntry)>, ghost i: nat)
    returns (newCounts: map<(RequestId, Request), nat>, newM: map<RequestId, ProtoEntry>)
    requires Counting(counts, m, t, done)
    ensures Counting(newCounts, newM, t, done + Tagged(entries, i, lo))
  {
    newCounts, newM := counts, m;
    ghost var seen := done;
    assert done + [] == done;
    for j := 0 to |entries|
      invariant seen == done + Tagged(entries[..j], i, lo) && Counting(newCounts, newM, t, seen)
    {
      assert entries[..j + 1][..j] == entries[..j];
      if entries[j].seqNo <= lo {
        continue;
      }
      newCounts, newM := CountRequest(newCounts, newM, t, entries[j], seen, i);
      seen := seen + [(i, entries[j])];
    }
    assert entries[..|entries|] == entries;
  }

  method GetValidClientRequests(msgs: seq<StartMsg>, lo: nat, t: nat) returns (m: map<RequestId, ProtoEntry>)
    ensures m == ValidRequests(Flat(msgs, lo), t)
  {
    m := map[];
    var counts: map<(RequestId, Request), nat> := map[];
    for i := 0 to |msgs|
      invariant Counting(counts, m, t, Flat(msgs[..i], lo))
    {
      assert msgs[..i + 1][..i] == msgs[..i];
      counts, m := CountLog(counts, m, t, msgs[i].log.entries, lo, Flat(msgs[..i], lo), i);
    }
    assert msgs[..|msgs|] == msgs;
  }

  // The order of std::map over (client id, client sequence number).
  predicate Before(a: RequestId, b: RequestId) {
    a.clientId < b.clientId || (a.clientId == b.clientId && a.clientSeq < b.clientSeq)
  }

  ghost predicate IsFirst(s: set<RequestId>, a: RequestId) {
    a in s && forall b :: b in s && b != a ==> Before(a, b)
  }

  lemma {:induction false} FirstExists(s: set<RequestId>)
    requires s != {}
    ensures exists a :: IsFirst(s, a)
    decreases |s|
  {
    var a :| a in s;
    if s == {a} {
      assert IsFirst(s, a);
    } else {
      FirstExists(s - {a});
      var b :| IsFirst(s - {a}, b);
      var c := if Before(a, b) then a else b;
      forall d | d in s && d != c ensures Before(c, d) {
        assert d == a || d in s - {a};
      }
      assert IsFirst(s, c);
    }
  }

  // The values of a map in key order.
  ghost function InOrder(m: map<RequestId, ProtoEntry>): seq<ProtoEntry>
    decreases |m|
  {
    if m == map[] then []
    else
      FirstExists(m.Keys);
      var a :| IsFirst(m.Keys, a);
      [m[a]] + InOrder(m - {a})
  }

  method ListInOrder(m: map<RequestId, ProtoEntry>) returns (listed: seq<ProtoEntry>)
    ensures listed == InOrder(m)
  {
    listed := [];
    var rest := m;
    while rest != map[]
      invariant listed + InOrder(rest) == InOrder(m)
      decreases |rest|
    {
      FirstExists(rest.Keys);
      var a :| a in rest && forall b :: b in rest && b != a ==> Before(a, b);
      assert IsFirst(rest.Keys, a);
      listed := listed + [rest[a]];
      rest := rest - {a};
    }
  }

  ghost function IdsOf(entries: seq<ProtoEntry>): set<RequestId> {
    set e | e in entries :: e.id
  }

  method EraseListed(m: map<RequestId, ProtoEntry>, entries: seq<ProtoEntry>) returns (rest: map<RequestId, ProtoEntry>)
    ensures rest == m - IdsOf(entries)
  {
    rest := m;
    for i := 0 to |entries|
      invariant rest == m - IdsOf(entries[..i])
    {
      rest := rest - {entries[i].id};
      assert IdsOf(entries[..i + 1]) == IdsOf(entries[..i]) + {entries[i].id};
    }
    assert entries[..|entries|] == entries;
  }

  // ----- The suffix

  // The digest that the proposal's own request fields give for the suffix.
  function ClaimedDigest(d: Digest, s: nat, entries: seq<ProtoEntry>): Digest {
    if entries == [] then d
    else
      var last := entries[|entries| - 1];
      Link(ClaimedDigest(d, s, entries[..|entries| - 1]), s + |entries|, last.id, last.Body())
  }

  method ComputeDigest(d: Digest, s: nat, entries: seq<ProtoEntry>) returns (digest: Digest)
    ensures digest == ClaimedDigest(d, s, entries)
  {
    digest := d;
    var seqNo := s + 1;
    for i := 0 to |entries|
      invariant digest == ClaimedDigest(d, s, entries[..i]) && seqNo == s + 1 + i
    {
      assert entries[..i + 1][..i] == entries[..i];
      digest := Link(digest, seqNo, entries[i].id, entries[i].Body());
      seqNo := seqNo + 1;
    }
    assert entries[..|entries|] == entries;
  }

  // Where the threshold scan starts: above the certificate and above the checkpoint.
  function ScanFloor(msgs: seq<StartMsg>, ckSeq: nat): nat {
    Max(CertSeq(msgs, ckSeq), ckSeq)
  }

  // The entry that decides how far the common suffix reaches.
  function Decider(cfg: Config, msgs: seq<StartMsg>, ckSeq: nat): Option<(nat, ProtoEntry)> {
    LastReaching(Flat(msgs, ScanFloor(msgs, ckSeq)), cfg.Matching())
  }

  function UpToCert(msgs: seq<StartMsg>, ckSeq: nat): seq<ProtoEntry>
    requires msgs != []
  {
    TakeBetween(msgs[CertIdx(msgs, ckSeq)].log.entries, ckSeq, CertSeq(msgs, ckSeq))
  }

  function AfterCert(cfg: Config, msgs: seq<StartMsg>, ckSeq: nat): seq<ProtoEntry>
    requires msgs != []
  {
    var decider := Decider(cfg, msgs, ckSeq);
    var floor := ScanFloor(msgs, ckSeq);
    match decider
    case None => TakeBetween(msgs[CertIdx(msgs, ckSeq)].log.entries, floor, 0)
    case Some((i, e)) => if i < |msgs| then TakeBetween(msgs[i].log.entries, floor, e.seqNo) else []
  }

  // The entries whose order the proposal decides.
  function Ordered(cfg: Config, msgs: seq<StartMsg>, ckSeq: nat): seq<ProtoEntry>
    requires msgs != []
  {
    UpToCert(msgs, ckSeq) + AfterCert(cfg, msgs, ckSeq)
  }

  // The other requests that f + 1 logs contain.
  ghost function Remaining(cfg: Config, msgs: seq<StartMsg>, ckSeq: nat): seq<ProtoEntry>
    requires msgs != []
  {
    InOrder(ValidRequests(Flat(msgs, ckSeq), cfg.f + 1) - IdsOf(Ordered(cfg, msgs, ckSeq)))
  }

  // The suffix a proposal decides; None if the checkpoint is not matched by enough other logs,
  // in which case the source exits.
  ghost function LogSuffixOf(cfg: Config, msgs: seq<StartMsg>): Option<LogSuffix>
    requires msgs != []
  {
    var k := CheckpointChoice(msgs);
    var ck := msgs[k].log.checkpoint;
    if |Matches(msgs, k)| < cfg.Matching() then None
    else
      var entries := Ordered(cfg, msgs, ck.seqNo) + Remaining(cfg, msgs, ck.seqNo);
      Some(LogSuffix(msgs[k].replicaId, ck, entries, ClaimedDigest(ck.logDigest, ck.seqNo, entries)))
  }

  // What a decided suffix consists of.
  lemma SuffixParts(cfg: Config, msgs: seq<StartMsg>, suffix: LogSuffix)
    requires msgs != [] && LogSuffixOf(cfg, msgs) == Some(suffix)
    ensures suffix.checkpoint == msgs[CheckpointChoice(msgs)].log.checkpoint
    ensures |Matches(msgs, CheckpointChoice(msgs))| >= cfg.Matching()
    ensures suffix.entries ==
            Ordered(cfg, msgs, suffix.checkpoint.seqNo) + Remaining(cfg, msgs, suffix.checkpoint.seqNo)
  {
  }

  // The last start message with the highest checkpoint of all is from this replica and has this one.
  ghost predicate SentWith(msgs: seq<StartMsg>, replicaId: nat, ck: Checkpoint) {
    exists i :: 0 <= i < |msgs| && msgs[i].replicaId == replicaId && msgs[i].log.checkpoint == ck
                && (forall j :: 0 <= j < |msgs| ==> msgs[j].log.checkpoint.seqNo <= ck.seqNo)
                && (forall j :: i < j < |msgs| ==> msgs[j].log.checkpoint.seqNo < ck.seqNo)
  }

  // The checkpoint of the suffix is one that the named replica has sent.
  lemma CheckpointSender(cfg: Config, msgs: seq<StartMsg>, suffix: LogSuffix)
    requires msgs != [] && LogSuffixOf(cfg, msgs) == Some(suffix)
    ensures SentWith(msgs, suffix.checkpointReplica, suffix.checkpoint)
  {
    var k := CheckpointChoice(msgs);
    assert msgs[k].replicaId == suffix.checkpointReplica && msgs[k].log.checkpoint == suffix.checkpoint;
  }

  // That many other replicas show this checkpoint in their logs.
  ghost predicate ShownByOthers(msgs: seq<StartMsg>, k: nat, n: nat)
    requires k < |msgs|
  {
    exists s: set<nat> ::
      && |s| >= n
      && forall i :: i in s ==>
           && i < |msgs| && msgs[i].replicaId != msgs[k].replicaId
           && MatchesCheckpoint(msgs[i].log, msgs[k].log.checkpoint)
  }

  // A suffix is decided exactly when f + e + 1 others show the highest checkpoint.
  lemma DecidedIffShown(cfg: Config, msgs: seq<StartMsg>, k: nat)
    requires IsCheckpointChoice(msgs, k)
    ensures LogSuffixOf(cfg, msgs).Some? <==> ShownByOthers(msgs, k, cfg.f + cfg.e + 1)
  {
    assert k == CheckpointChoice(msgs);
    forall s: set<nat> |
      forall i :: i in s ==>
        && i < |msgs| && msgs[i].replicaId != msgs[k].replicaId
        && MatchesCheckpoint(msgs[i].log, msgs[k].log.checkpoint)
      ensures |s| <= |Matches(msgs, k)|
    {
      SubsetSize(s, Matches(msgs, k));
    }
  }

  lemma {:induction false} TaggedInRange(entries: seq<ProtoEntry>, i: nat, lo: nat)
    ensures forall p :: p in Tagged(entries, i, lo) ==> p.0 == i && p.1 in entries && p.1.seqNo > lo
  {
    if entries != [] {
      TaggedInRange(entries[..|entries| - 1], i, lo);
    }
  }

  lemma {:induction false} FlatInRange(msgs: seq<StartMsg>, lo: nat)
    ensures forall p :: p in Flat(msgs, lo) ==>
              p.0 < |msgs| && p.1 in msgs[p.0].log.entries && p.1.seqNo > lo
  {
    if msgs != [] {
      var last := |msgs| - 1;
      FlatInRange(msgs[..last], lo);
      TaggedInRange(msgs[last].log.entries, last, lo);
    }
  }

  lemma {:induction false} LastReachingIn(flat: seq<(nat, ProtoEntry)>, t: nat)
    ensures LastReaching(flat, t).Some? ==> LastReaching(flat, t).value in flat
  {
    if flat != [] {
      LastReachingIn(flat[..|flat| - 1], t);
    }
  }

  lemma FoundInRange(msgs: seq<StartMsg>, lo: nat, t: nat)
    ensures var found := LastReaching(Flat(msgs, lo), t);
            found.Some? ==> found.value.0 < |msgs|
  {
    FlatInRange(msgs, lo);
    LastReachingIn(Flat(msgs, lo), t);
  }

  method CollectOrdered(cfg: Config, msgs: seq<StartMsg>, ckSeq: nat) returns (entries: seq<ProtoEntry>)
    requires msgs != []
    ensures entries == Ordered(cfg, msgs, ckSeq)
  {
    var logToUse, maxCertSeq := ChooseCert(msgs, ckSeq);
    entries := CollectBetween(msgs[logToUse].log.entries, ckSeq, maxCertSeq);

    var floor := Max(maxCertSeq, ckSeq);
    FoundInRange(msgs, floor, cfg.Matching());
    var found := ScanMatching(msgs, floor, cfg.f + cfg.e + 1);
    var logToUseSeq := 0;
    if found.Some? {
      logToUse, logToUseSeq := found.value.0, found.value.1;
    }
    var common := CollectBetween(msgs[logToUse].log.entries, floor, logToUseSeq);
    entries := entries + common;
  }

  method CollectRemaining(cfg: Config, msgs: seq<StartMsg>, ckSeq: nat, ordered: seq<ProtoEntry>)
    returns (listed: seq<ProtoEntry>)
    requires msgs != [] && ordered == Ordered(cfg, msgs, ckSeq)
    ensures listed == Remaining(cfg, msgs, ckSeq)
  {
    var remaining := GetValidClientRequests(msgs, ckSeq, cfg.f + 1);
    remaining := EraseListed(remaining, ordered);
    listed := ListInOrder(remaining);
  }

  method GetLogSuffixFromProposal(cfg: Config, msgs: seq<StartMsg>) returns (suffix: Option<LogSuffix>)
    requires msgs != []
    ensures suffix == LogSuffixOf(cfg, msgs)
    ensures suffix.Some? ==> SentWith(msgs, suffix.value.checkpointReplica, suffix.value.checkpoint)
  {
    var k := ChooseCheckpoint(msgs);
    var ck := msgs[k].log.checkpoint;
    var numMatches := CountMatches(msgs, k);
    if numMatches < cfg.f + cfg.e + 1 {
      return None;
    }
    var ordered := CollectOrdered(cfg, msgs, ck.seqNo);
    var remaining := CollectRemaining(cfg, msgs, ck.seqNo, ordered);
    var entries := ordered + remaining;
    var digest := ComputeDigest(ck.logDigest, ck.seqNo, entries);
    suffix := Some(LogSuffix(msgs[k].replicaId, ck, entries, digest));
    CheckpointSender(cfg, msgs, suffix.value);
  }
}
