// The replicated log (lib/log.cc): a truncated deque of entries with two checkpoints, a client
// record, and the application that executes it.
//
// A digest determines a whole history, so the digest of the last entry is the abstract state:
// `History()`.  `Valid()` says that the deque, the checkpoints and the application are what
// appending that history entry by entry, from the start, would have produced.

module Logs {
  import opened Options
  import opened Digests
  import opened ClientRecords
  import opened CounterApp
  import opened RepairSelection
  import opened RepairDurability
  import opened Realignment

  datatype LogEntry = LogEntry(seqNo: nat, id: RequestId, request: Request, result: int, digest: Digest)

  // `snapshot` is the pointer to the application snapshot; `appDigest` is None for the empty
  // string.
  datatype LogCheckpoint = LogCheckpoint(
    seqNo: nat, logDigest: Digest, appDigest: Option<Snapshot>, clientRecord: Record, snapshot: Option<Snapshot>)

  const NoCheckpoint := LogCheckpoint(0, Genesis, None, NoRecord, None)

  // A checkpoint read from a message: the snapshot pointer is not part of it
  // (lib/log_checkpoint.cc:4-21).
  function Received(cp: LogCheckpoint): LogCheckpoint {
    cp.(snapshot := None)
  }

  // The entry that the log holds for the last position of a history.
  function EntryOf(h: Digest): LogEntry
    requires h.Link?
  {
    LogEntry(Height(h), h.id, h.request, Exec(h), h)
  }

  // The entries of a history above position lo.
  function Stored(h: Digest, lo: nat): (log: seq<LogEntry>)
    ensures |log| == if Height(h) <= lo then 0 else Height(h) - lo
  {
    if Height(h) <= lo then [] else Stored(h.prev, lo) + [EntryOf(h)]
  }

  lemma {:induction false} StoredAt(h: Digest, lo: nat, s: nat)
    requires lo < s <= Height(h)
    ensures Stored(h, lo)[s - lo - 1] == EntryOf(Upto(h, s))
  {
    if s < Height(h) {
      StoredAt(h.prev, lo, s);
    }
  }

  // Aborting keeps a prefix.
  lemma {:induction false} StoredBelow(h: Digest, lo: nat, t: nat)
    requires lo <= t <= Height(h)
    ensures Stored(h, lo)[..t - lo] == Stored(Upto(h, t), lo)
  {
    if t < Height(h) {
      StoredBelow(h.prev, lo, t);
    }
  }

  // What aborting from position s leaves valid.
  lemma AbortedParts(h: Digest, stable: LogCheckpoint, committed: LogCheckpoint, s: nat)
    requires Executable(h) && IsCheckpointOf(stable, h) && IsCheckpointOf(committed, h)
    requires stable.seqNo <= committed.seqNo < s <= Height(h)
    ensures var p := Upto(h, s - 1);
            && Executable(p) && IsCheckpointOf(stable, p) && IsCheckpointOf(committed, p)
            && Stored(h, stable.seqNo)[..s - 1 - stable.seqNo] == Stored(p, stable.seqNo)
  {
    StoredBelow(h, stable.seqNo, s - 1);
    ExecutableUpto(h, s - 1);
    UptoUpto(h, s - 1, stable.seqNo);
    UptoUpto(h, s - 1, committed.seqNo);
  }

  // Truncating keeps a suffix.
  lemma {:induction false} StoredAbove(h: Digest, lo: nat, t: nat)
    requires lo <= t <= Height(h)
    ensures Stored(h, lo)[t - lo..] == Stored(h, t)
  {
    if t < Height(h) {
      StoredAbove(h.prev, lo, t);
    }
  }

  // What a start message shows of the last position of a history.
  function ProtoOf(h: Digest, full: bool): ProtoEntry
    requires h.Link?
  {
    ProtoEntry(Height(h), h.id, h, Sha(h.request), if full then Some(h.request) else None)
  }

  // What a start message shows of a history above position lo.
  function Protos(h: Digest, lo: nat, full: bool): (entries: seq<ProtoEntry>)
    ensures |entries| == if Height(h) <= lo then 0 else Height(h) - lo
  {
    if Height(h) <= lo then [] else Protos(h.prev, lo, full) + [ProtoOf(h, full)]
  }

  // What the entry of a position shows: the request itself only if asked for.
  ghost predicate ShowsPosition(e: ProtoEntry, h: Digest, s: nat, full: bool) {
    s <= Height(h) && Upto(h, s).Link? && ShowsLast(e, Upto(h, s), full)
  }

  ghost predicate ShowsLast(e: ProtoEntry, d: Digest, full: bool)
    requires d.Link?
  {
    && e.seqNo == Height(d) && e.id == d.id && e.digest == d && e.requestDigest == Sha(d.request)
    && e.request == if full then Some(d.request) else None
  }

  lemma {:induction false} ProtosShow(h: Digest, lo: nat, full: bool)
    ensures forall i :: 0 <= i < |Protos(h, lo, full)| ==> ShowsPosition(Protos(h, lo, full)[i], h, lo + 1 + i, full)
  {
    var entries := Protos(h, lo, full);
    if entries != [] {
      var before := Protos(h.prev, lo, full);
      ProtosShow(h.prev, lo, full);
      forall i | 0 <= i < |entries| ensures ShowsPosition(entries[i], h, lo + 1 + i, full) {
        if i < |before| {
          assert ShowsPosition(before[i], h.prev, lo + 1 + i, full);
          assert Upto(h, lo + 1 + i) == Upto(h.prev, lo + 1 + i);
        } else {
          assert Upto(h, lo + 1 + i) == h;
        }
      }
    }
  }

  ghost predicate IsCheckpointOf(cp: LogCheckpoint, h: Digest) {
    Height(cp.logDigest) == cp.seqNo && Extends(h, cp.logDigest)
  }

  // The client record of a checkpoint is the one of its history, which repeats no request.
  ghost predicate RecordMatches(cp: LogCheckpoint) {
    cp.clientRecord == RecordOf(cp.logDigest) && PositiveIds(cp.logDigest) && NoRepeats(cp.logDigest)
  }

  // Every entry has its own position as sequence number and a request that parses.
  predicate Executable(d: Digest) {
    d.Link? ==> d.seqNo == Height(d.prev) + 1 && Parses(d.request) && Executable(d.prev)
  }

  lemma {:induction false} ExecutableUpto(d: Digest, s: nat)
    requires Executable(d) && s <= Height(d)
    ensures Executable(Upto(d, s))
  {
    if s < Height(d) {
      ExecutableUpto(d.prev, s);
    }
  }

  lemma {:induction false} ExecutableNumbered(d: Digest)
    requires Executable(d)
    ensures Numbered(d)
  {
    if d.Link? {
      ExecutableNumbered(d.prev);
    }
  }

  // ----- Snapshot messages

  datatype SnapEntry = SnapEntry(seqNo: nat, id: RequestId, request: Request)

  datatype AppSnapshot = AppSnapshot(data: Snapshot, checkpoint: LogCheckpoint)

  datatype SnapshotReply = SnapshotReply(
    checkpoint: LogCheckpoint, appSnapshot: Option<AppSnapshot>, entries: seq<SnapEntry>)

  // The application snapshot in a reply is of the history it is sent with, and the heights of
  // the digests are the sequence numbers.
  ghost predicate ReplySound(reply: SnapshotReply) {
    && Height(reply.checkpoint.logDigest) == reply.checkpoint.seqNo
    && (reply.appSnapshot.Some? ==>
          var cp := reply.appSnapshot.value.checkpoint;
          && Height(cp.logDigest) == cp.seqNo
          && Executable(cp.logDigest)
          && reply.appSnapshot.value.data == Snapshot(cp.seqNo, Exec(cp.logDigest)))
  }

  // The history that the entries of a reply are applied to.
  function BaseOf(reply: SnapshotReply, own: LogCheckpoint): Digest {
    if reply.appSnapshot.Some? then reply.appSnapshot.value.checkpoint.logDigest else own.logDigest
  }

  // The history after appending the entries from position start on.
  function Replay(d: Digest, entries: seq<SnapEntry>, start: nat): Digest {
    if entries == [] then d
    else
      var last := entries[|entries| - 1];
      var front := Replay(d, entries[..|entries| - 1], start);
      if last.seqNo < start then front else Next(front, last.id, last.request)
  }

  predicate AllParse(entries: seq<SnapEntry>, start: nat) {
    forall i :: 0 <= i < |entries| && entries[i].seqNo >= start ==> Parses(entries[i].request)
  }

  // Mismatch: the source throws because the digest reached is not the checkpoint's.
  datatype Outcome = Done | Failed | Mismatch

  function Reached(base: Digest, reply: SnapshotReply): Digest {
    Replay(base, reply.entries, Height(base) + 1)
  }

  function ResetOutcome(base: Digest, reply: SnapshotReply): Outcome {
    if !AllParse(reply.entries, Height(base) + 1) then Failed
    else if Reached(base, reply) == reply.checkpoint.logDigest then Done
    else Mismatch
  }

  // The entries of a history above position lo, with their requests.
  function Sent(h: Digest, lo: nat): seq<SnapEntry> {
    if Height(h) <= lo then [] else Sent(h.prev, lo) + [SnapEntry(Height(h), h.id, h.request)]
  }

  function Above(entries: seq<LogEntry>, threshold: nat): seq<LogEntry> {
    if entries == [] then []
    else
      var last := entries[|entries| - 1];
      Above(entries[..|entries| - 1], threshold) + if last.seqNo > threshold then [last] else []
  }

  lemma {:induction false} AboveSnoc(front: seq<LogEntry>, last: LogEntry, threshold: nat)
    ensures Above(front + [last], threshold) ==
            Above(front, threshold) + if last.seqNo > threshold then [last] else []
  {
    assert (front + [last])[..|front|] == front;
  }

  lemma {:induction false} AboveOfStored(h: Digest, lo: nat, threshold: nat)
    ensures Above(Stored(h, lo), threshold) == Stored(h, Max(threshold, lo))
  {
    if Height(h) > lo {
      AboveOfStored(h.prev, lo, threshold);
      AboveSnoc(Stored(h.prev, lo), EntryOf(h), threshold);
    }
  }

  function ReapplyAll(rec: Record, d: Digest, entries: seq<LogEntry>): (Record, Digest) {
    if entries == [] then (rec, d)
    else
      var last := entries[|entries| - 1];
      var (r, h) := ReapplyAll(rec, d, entries[..|entries| - 1]);
      AddWith(r, h, last.id, last.request)
  }

  lemma {:induction false} StoredReapplies(rec: Record, d: Digest, own: Digest, lo: nat)
    requires Executable(own)
    ensures ReapplyAll(rec, d, Stored(own, lo)) == ReapplyWith(rec, d, own, lo)
    ensures forall e :: e in Stored(own, lo) ==> Parses(e.request)
  {
    if Height(own) > lo {
      StoredReapplies(rec, d, own.prev, lo);
      assert Stored(own, lo)[..|Stored(own, lo)| - 1] == Stored(own.prev, lo);
    }
  }

  function LastDigest(log: seq<LogEntry>, stable: LogCheckpoint): Digest {
    if log == [] then stable.logDigest else log[|log| - 1].digest
  }

  lemma LastOfStored(h: Digest, stable: LogCheckpoint)
    requires IsCheckpointOf(stable, h)
    ensures LastDigest(Stored(h, stable.seqNo), stable) == h
  {
  }

  ghost predicate IsEntryOf(h: Digest, cert: Cert) {
    cert.seqNo <= Height(h) && Upto(h, cert.seqNo) == cert.digest
  }

  // A certificate above the committed position is for an entry of the history.
  ghost predicate Stands(h: Digest, cert: Option<Cert>, committedSeq: nat) {
    cert.Some? && cert.value.seqNo > committedSeq ==> IsEntryOf(h, cert.value)
  }

  // The higher one of the certificate that is held and another one above the committed position;
  // of equals, the one that is held.
  function Higher(held: Option<Cert>, cert: Cert, committedSeq: nat): (latest: Option<Cert>)
    ensures latest == held || latest == Some(cert)
    ensures held.Some? ==> latest.Some? && latest.value.seqNo >= held.value.seqNo
    ensures cert.seqNo > committedSeq ==> latest.Some? && latest.value.seqNo >= cert.seqNo
    ensures cert.seqNo <= committedSeq || (held.Some? && held.value.seqNo >= cert.seqNo) ==> latest == held
  {
    if cert.seqNo > committedSeq && (held.None? || cert.seqNo > held.value.seqNo) then Some(cert) else held
  }

  // A deque and an application state that hold a history above the stable checkpoint.
  ghost predicate Holds(log: seq<LogEntry>, nextSeq: nat, stable: LogCheckpoint, app: CounterState) {
    var h := LastDigest(log, stable);
    && Executable(h)
    && IsCheckpointOf(stable, h)
    && nextSeq == Height(h) + 1
    && log == Stored(h, stable.seqNo)
    && Tracks(app, h)
    && (stable.snapshot.Some? ==> stable.snapshot.value == Snapshot(stable.seqNo, Exec(stable.logDigest)))
  }

  lemma TruncationHolds(
    log: seq<LogEntry>, nextSeq: nat, stable: LogCheckpoint, app: CounterState, cp: LogCheckpoint)
    requires Holds(log, nextSeq, stable, app)
    requires IsCheckpointOf(cp, LastDigest(log, stable)) && stable.seqNo < cp.seqNo
    requires cp.snapshot == Some(Snapshot(cp.seqNo, Exec(cp.logDigest)))
    ensures cp.seqNo - stable.seqNo <= |log|
    ensures var rest := log[cp.seqNo - stable.seqNo..];
            Holds(rest, nextSeq, cp, app) && LastDigest(rest, cp) == LastDigest(log, stable)
  {
    StoredAbove(LastDigest(log, stable), stable.seqNo, cp.seqNo);
  }

  lemma AppendHolds(
    log: seq<LogEntry>, nextSeq: nat, stable: LogCheckpoint, app: CounterState, next: Digest, app': CounterState)
    requires Holds(log, nextSeq, stable, app)
    requires next.Link? && next == Next(LastDigest(log, stable), next.id, next.request)
    requires Executable(next) && Tracks(app', next)
    ensures Holds(log + [EntryOf(next)], nextSeq + 1, stable, app') && LastDigest(log + [EntryOf(next)], stable) == next
  {
    UptoNext(next.prev, next.id, next.request, stable.seqNo);
  }

  class Log {
    var log: seq<LogEntry>
    var nextSeq: nat
    var committed: LogCheckpoint
    var stable: LogCheckpoint
    var clientRecord: Record
    const app: Counter
    var latestCert: Option<Cert>
    var latestCertSeq: nat

    constructor (app: Counter)
      requires Tracks(app.State(), Genesis) && app.committedIdx == 0
      ensures Valid() && this.app == app
      ensures History() == Genesis && clientRecord == NoRecord
      ensures stable == NoCheckpoint && committed == NoCheckpoint && latestCert == None
    {
      this.app := app;
      log := [];
      nextSeq := 1;
      committed, stable := NoCheckpoint, NoCheckpoint;
      clientRecord := NoRecord;
      latestCert, latestCertSeq := None, 0;
    }

    // getDigest without an argument.
    function History(): Digest
      reads this
    {
      LastDigest(log, stable)
    }

    // The deque and the application hold the history above the stable checkpoint.
    ghost predicate Core()
      reads this, app
    {
      Holds(log, nextSeq, stable, app.State())
    }

    ghost predicate Valid()
      reads this, app
    {
      && Core()
      && IsCheckpointOf(committed, History())
      && stable.seqNo <= committed.seqNo
      && app.committedIdx <= committed.seqNo
    }

    // The client record is the one of the history, and no request is in it twice.
    ghost predicate InSync()
      reads this
    {
      && clientRecord == RecordOf(History())
      && PositiveIds(History())
      && NoRepeats(History())
    }

    // The latest certificate is for an entry of the history.
    ghost predicate CertOnLog()
      reads this
    {
      latestCert.Some? ==>
        && latestCertSeq == latestCert.value.seqNo == Height(latestCert.value.digest)
        && Extends(History(), latestCert.value.digest)
    }

    // A certificate above the committed checkpoint is for an entry of the history.
    ghost predicate CertStands()
      reads this
    {
      Stands(History(), latestCert, committed.seqNo)
    }

    lemma LogAt(s: nat)
      requires Core() && stable.seqNo < s < nextSeq
      ensures log[s - stable.seqNo - 1] == EntryOf(Upto(History(), s))
    {
      StoredAt(History(), stable.seqNo, s);
    }

    predicate InRange(s: nat)
      reads this
    {
      s > stable.seqNo && s < nextSeq && log != []
    }

    // getDigest with an argument; None where the source throws.
    function GetDigest(s: nat): (d: Option<Digest>)
      requires Core()
      reads this, app
      ensures d == if stable.seqNo <= s < nextSeq then Some(Upto(History(), s)) else None
    {
      if s == stable.seqNo then Some(stable.logDigest)
      else if !InRange(s) then None
      else
        LogAt(stable.seqNo + 1);
        LogAt(s);
        Some(log[s - log[0].seqNo].digest)
    }

    // getEntry; None where the source throws.
    function GetEntry(s: nat): (e: Option<LogEntry>)
      requires Core()
      reads this, app
      ensures e == if stable.seqNo < s < nextSeq then Some(EntryOf(Upto(History(), s))) else None
    {
      if !InRange(s) then None
      else
        LogAt(stable.seqNo + 1);
        LogAt(s);
        Some(log[s - log[0].seqNo])
    }

    // Appends and executes a request.  A duplicate is refused; a request that does not parse
    // leaves an entry behind.
    method AddEntry(id: RequestId, request: Request, checkDup: bool) returns (ok: bool, result: int)
      requires Core()
      modifies this`log, this`nextSeq, this`clientRecord, app
      ensures app.committedIdx == old(app.committedIdx)
      ensures clientRecord == if checkDup then old(clientRecord).Update(id) else old(clientRecord)
      ensures ok <==> (checkDup ==> old(clientRecord).IsNew(id)) && Parses(request)
      ensures ok ==> Core() && History() == Next(old(History()), id, request) && result == Exec(History())
      ensures checkDup && !old(clientRecord).IsNew(id) ==> Core() && History() == old(History())
      ensures !ok && (checkDup ==> old(clientRecord).IsNew(id)) ==>
                !Core() && History() == Next(old(History()), id, request) && nextSeq == old(nextSeq)
    {
      result := 0;
      if checkDup {
        var isNew := clientRecord.IsNew(id);
        clientRecord := clientRecord.Update(id);
        if !isNew {
          return false, 0;
        }
      }
      var prevDigest: Digest;
      if nextSeq - 1 == stable.seqNo {
        prevDigest := stable.logDigest;
      } else {
        prevDigest := log[|log| - 1].digest;
      }
      ghost var h := History();
      ghost var next := Next(h, id, request);
      log := log + [LogEntry(nextSeq, id, request, 0, Link(prevDigest, nextSeq, id, request))];
      assert History() == next;
      if !Parses(request) {
        return false, 0;
      }
      result := app.Execute(request, nextSeq, h, id);
      AppendHolds(old(log), nextSeq, stable, old(app.State()), next, app.State());
      log := log[|log| - 1 := log[|log| - 1].(result := result)];
      assert log == old(log) + [EntryOf(next)];
      nextSeq := nextSeq + 1;
      ok := true;
    }

    // Drops the history from position s on.  Past the end it only moves nextSeq, which opens a
    // gap; at or below the committed checkpoint the source throws (ok is false).
    method Abort(s: nat) returns (ok: bool)
      requires Valid()
      modifies this`log, this`nextSeq, app
      ensures ok <==> s > committed.seqNo
      ensures committed.seqNo < s <= old(nextSeq) ==> Valid() && History() == Upto(old(History()), s - 1)
      ensures s > old(nextSeq) ==> nextSeq == s && log == old(log) && app.State() == old(app.State())
      ensures !ok ==> Valid() && log == old(log) && nextSeq == old(nextSeq)
      ensures app.committedIdx == old(app.committedIdx)
      ensures committed.seqNo < s <= old(nextSeq) && old(CertStands()) ==>
                (CertStands() <==>
                 latestCert.None? || latestCert.value.seqNo < s || latestCert.value.seqNo <= committed.seqNo)
    {
      if s >= nextSeq {
        nextSeq := s;
        return true;
      }
      if s <= committed.seqNo {
        return false;
      }
      ghost var h := History();
      ghost var p := Upto(h, s - 1);
      AbortedParts(h, stable, committed, s);
      LastOfStored(p, stable);
      if log != [] {
        LogAt(stable.seqNo + 1);
        log := log[..s - log[0].seqNo];
      }
      assert log == Stored(p, stable.seqNo);
      StandsAfterCut(h, latestCert, committed.seqNo, s);
      app.Abort(s, h);
      nextSeq := s;
      ok := true;
    }

    // Commits a checkpoint of the own history, and truncates if it has an application digest.
    // With the contracts of GetDigest and GetEntry: what is still in range does not change.
    method SetCheckpoint(cp: LogCheckpoint)
      requires Valid()
      requires IsCheckpointOf(cp, History())
      requires cp.appDigest.Some? && cp.seqNo > stable.seqNo ==>
                 cp.snapshot == Some(Snapshot(cp.seqNo, Exec(cp.logDigest)))
      modifies this`log, this`committed, this`stable, app
      ensures Valid() && History() == old(History()) && nextSeq == old(nextSeq)
      ensures committed == if cp.seqNo > old(committed).seqNo then cp else old(committed)
      ensures stable == if cp.appDigest.Some? && cp.seqNo > old(stable).seqNo then cp else old(stable)
      ensures app.committedIdx == if cp.seqNo > old(committed).seqNo then cp.seqNo else old(app.committedIdx)
    {
      if cp.seqNo > committed.seqNo {
        CommitTo(cp);
      }
      if cp.appDigest.Some? && cp.seqNo > stable.seqNo {
        Truncate(cp);
      }
    }

    method CommitTo(cp: LogCheckpoint)
      requires Valid() && IsCheckpointOf(cp, History()) && cp.seqNo > committed.seqNo
      modifies this`committed, app
      ensures Valid() && committed == cp && app.committedIdx == cp.seqNo
    {
      committed := cp;
      app.Commit(cp.seqNo, History());
    }

    method Truncate(cp: LogCheckpoint)
      requires Valid() && IsCheckpointOf(cp, History()) && stable.seqNo < cp.seqNo <= committed.seqNo
      requires cp.snapshot == Some(Snapshot(cp.seqNo, Exec(cp.logDigest)))
      modifies this`log, this`stable
      ensures Valid() && History() == old(History()) && stable == cp
    {
      TruncationHolds(log, nextSeq, stable, app.State(), cp);
      if log != [] {
        LogAt(stable.seqNo + 1);
        var stableIdx := cp.seqNo - log[0].seqNo + 1;
        log := log[stableIdx..];
      }
      stable := cp;
    }

    // The first half of resetToSnapshot: back to the history that the entries of the reply are
    // applied to.
    method ResetToBase(reply: SnapshotReply) returns (startSeq: nat)
      requires Valid() && ReplySound(reply)
      modifies this`log, this`nextSeq, this`stable, app
      ensures Core() && History() == old(BaseOf(reply, committed)) && startSeq == Height(History()) + 1
      ensures stable == if reply.appSnapshot.Some? then Received(reply.appSnapshot.value.checkpoint) else old(stable)
    {
      if reply.appSnapshot.Some? {
        var cp := Received(reply.appSnapshot.value.checkpoint);
        app.ApplySnapshot(reply.appSnapshot.value.data, cp.seqNo, cp.logDigest);
        log := [];
        nextSeq := cp.seqNo + 1;
        startSeq := nextSeq;
        stable := cp;
      } else {
        var _ := Abort(committed.seqNo + 1);
        startSeq := committed.seqNo + 1;
      }
    }

    // The second half: appends the entries from position startSeq on, duplicates or not.
    method AppendEntries(entries: seq<SnapEntry>, startSeq: nat) returns (ok: bool)
      requires Core()
      modifies this`log, this`nextSeq, this`clientRecord, app
      ensures ok <==> AllParse(entries, startSeq)
      ensures ok ==> Core() && History() == Replay(old(History()), entries, startSeq)
    {
      for i := 0 to |entries|
        invariant Core() && History() == Replay(old(History()), entries[..i], startSeq)
        invariant AllParse(entries[..i], startSeq)
      {
        assert entries[..i + 1][..i] == entries[..i];
        if entries[i].seqNo < startSeq {
          continue;
        }
        var added, _ := AddEntry(entries[i].id, entries[i].request, false);
        if !added {
          return false;
        }
      }
      assert entries[..|entries|] == entries;
      return true;
    }

    // Replaces the history by the one in the reply: on top of its application snapshot, or on
    // top of the own committed checkpoint.
    method ResetToSnapshot(reply: SnapshotReply) returns (outcome: Outcome)
      requires Valid() && ReplySound(reply)
      modifies this, app
      ensures outcome == ResetOutcome(old(BaseOf(reply, committed)), reply)
      ensures outcome == Done ==>
                && Valid()
                && History() == reply.checkpoint.logDigest
                && clientRecord == reply.checkpoint.clientRecord
                && latestCert == None
      ensures committed == Received(reply.checkpoint)
      ensures stable == if reply.appSnapshot.Some? then Received(reply.appSnapshot.value.checkpoint) else old(stable)
    {
      var startSeq := ResetToBase(reply);
      committed := Received(reply.checkpoint);
      var ok := AppendEntries(reply.entries, startSeq);
      if !ok {
        return Failed;
      }
      clientRecord := reply.checkpoint.clientRecord;
      if History() != reply.checkpoint.logDigest {
        return Mismatch;
      }
      latestCertSeq := 0;
      latestCert := None;
      return Done;
    }

    // addEntry with a request that parses: it is added unless the record has it.
    method AddOnce(id: RequestId, request: Request)
      requires Valid() && Parses(request)
      modifies this`log, this`nextSeq, this`clientRecord, app
      ensures Valid() && app.committedIdx == old(app.committedIdx)
      ensures (clientRecord, History()) == AddWith(old(clientRecord), old(History()), id, request)
      ensures old(InSync()) && id.clientSeq >= 1 ==>
                InSync() && History() == Realignment.AddOnce(old(History()), id, request)
    {
      if InSync() && id.clientSeq >= 1 {
        AddedOnce(History(), id, request);
      }
      ExtendsNext(History(), committed.logDigest, id, request);
      var _, _ := AddEntry(id, request, true);
    }

    // The own entries above a position.
    method EntriesAbove(threshold: nat) returns (entries: seq<LogEntry>)
      ensures entries == Above(log, threshold)
    {
      entries := [];
      for i := 0 to |log|
        invariant entries == Above(log[..i], threshold)
      {
        assert log[..i + 1][..i] == log[..i];
        if log[i].seqNo > threshold {
          entries := entries + [log[i]];
        }
      }
      assert log[..|log|] == log;
    }

    // Reapplies entries on top of the own history.
    method ReapplyEntries(entries: seq<LogEntry>)
      requires Valid() && forall e :: e in entries ==> Parses(e.request)
      modifies this`log, this`nextSeq, this`clientRecord, app
      ensures Valid() && (clientRecord, History()) == ReapplyAll(old(clientRecord), old(History()), entries)
    {
      for i := 0 to |entries|
        invariant Valid()
        invariant (clientRecord, History()) == ReapplyAll(old(clientRecord), old(History()), entries[..i])
      {
        assert entries[..i + 1][..i] == entries[..i];
        AddOnce(entries[i].id, entries[i].request);
      }
      assert entries[..|entries|] == entries;
    }

    // The position above which own entries are reapplied onto a checkpoint.
    ghost function ReapplyFrom(cp: LogCheckpoint): nat
      reads this
    {
      Max(Threshold(cp.seqNo, clientRecord.NumMissing(cp.clientRecord)), stable.seqNo)
    }

    // Moves to the checkpoint in the reply and reapplies the own last entries on top of it, as far as
    // the client record in the reply does not have them; nobody checks that it is the checkpoint's.
    method ApplySnapshotModifyLog(reply: SnapshotReply) returns (outcome: Outcome)
      requires Valid() && ReplySound(reply)
      modifies this, app
      ensures outcome == ResetOutcome(old(BaseOf(reply, committed)), reply)
      ensures outcome == Done ==>
                && Valid() && latestCert == None && committed == Received(reply.checkpoint)
                && (clientRecord, History()) ==
                   ReapplyWith(reply.checkpoint.clientRecord, reply.checkpoint.logDigest,
                               old(History()), old(ReapplyFrom(reply.checkpoint)))
      ensures stable == if reply.appSnapshot.Some? then Received(reply.appSnapshot.value.checkpoint) else old(stable)
      ensures outcome == Done && old(InSync()) && RecordMatches(reply.checkpoint) ==>
                && InSync()
                && History() == Reapply(reply.checkpoint.logDigest, old(History()), old(ReapplyFrom(reply.checkpoint)))
    {
      ghost var own, from, cp := History(), ReapplyFrom(reply.checkpoint), reply.checkpoint;
      if InSync() && RecordMatches(cp) {
        TrueRecordReapplies(cp.logDigest, own, from);
      }
      var numMissing := CountMissing(clientRecord, reply.checkpoint.clientRecord);
      var toReapply := EntriesAbove(Threshold(reply.checkpoint.seqNo, numMissing));
      AboveOfStored(own, stable.seqNo, Threshold(reply.checkpoint.seqNo, numMissing));
      StoredReapplies(cp.clientRecord, cp.logDigest, own, from);
      outcome := ResetToSnapshot(reply);
      if outcome != Done {
        return;
      }
      ReapplyEntries(toReapply);
    }

    // What the replica sends to another one that asks for a checkpoint (None: nothing).  The
    // source asserts that the snapshot it has to send is there.
    method SnapshotFor(requestedSeq: nat, lastCheckpointSeq: nat) returns (reply: Option<SnapshotReply>)
      requires Valid()
      requires lastCheckpointSeq < stable.seqNo ==> stable.snapshot.Some?
      ensures reply.None? <==> requestedSeq > committed.seqNo
      ensures reply.Some? ==>
                && ReplySound(reply.value)
                && reply.value.checkpoint == Received(committed)
                && (reply.value.appSnapshot.Some? <==> lastCheckpointSeq < stable.seqNo)
                && (lastCheckpointSeq < stable.seqNo ==> reply.value.appSnapshot.value.checkpoint == Received(stable))
                && reply.value.entries ==
                     Sent(committed.logDigest,
                          if lastCheckpointSeq < stable.seqNo then stable.seqNo else lastCheckpointSeq)
    {
      if requestedSeq > committed.seqNo {
        return None;
      }
      ghost var h := History();
      var snapshot: Option<AppSnapshot> := None;
      if lastCheckpointSeq < stable.seqNo {
        snapshot := Some(AppSnapshot(stable.snapshot.value, Received(stable)));
        ExecutableUpto(h, stable.seqNo);
      }
      var from := if lastCheckpointSeq < stable.seqNo then stable.seqNo else lastCheckpointSeq;
      var entries: seq<SnapEntry> := [];
      var s := from + 1;
      while s <= committed.seqNo
        invariant s == from + 1 || s <= committed.seqNo + 1
        invariant s > from
        invariant entries == if s <= committed.seqNo + 1 then Sent(Upto(h, s - 1), from) else []
      {
        var entry := GetEntry(s).value;
        entries := entries + [SnapEntry(entry.seqNo, entry.id, entry.request)];
        UptoUpto(h, s, s - 1);
        s := s + 1;
      }
      return Some(SnapshotReply(Received(committed), snapshot, entries));
    }

    // Keeps the certificate with the highest sequence number among those for own entries.
    method AddCert(s: nat, id: RequestId, cert: Cert) returns (ok: bool)
      requires Valid() && s == cert.seqNo
      modifies this`latestCert, this`latestCertSeq
      ensures s >= nextSeq ==> !ok
      ensures s <= committed.seqNo ==> ok == committed.clientRecord.Contains(id)
      ensures committed.seqNo < s < nextSeq ==>
                (ok <==> Upto(History(), s).id == id && Upto(History(), s) == cert.digest)
      ensures old(CertOnLog()) ==> CertOnLog()
      ensures latestCert == if ok then Higher(old(latestCert), cert, committed.seqNo) else old(latestCert)
      ensures latestCertSeq == if latestCert == old(latestCert) then old(latestCertSeq) else s
    {
      if s >= nextSeq {
        return false;
      }
      if s <= committed.seqNo {
        return committed.clientRecord.Contains(id);
      }
      var entry := GetEntry(s).value;
      if id != entry.id || cert.digest != entry.digest {
        return false;
      }
      if latestCert.None? || cert.seqNo > latestCert.value.seqNo {
        latestCert := Some(cert);
        latestCertSeq := s;
      }
      return true;
    }

    // The start message of a repair: the committed checkpoint and the entries above it.
    method ToProto(full: bool) returns (msg: RepairLog)
      requires Valid()
      ensures msg == RepairLog(Checkpoint(committed.seqNo, committed.logDigest, committed.clientRecord),
                               Protos(History(), committed.seqNo, full), latestCert)
      ensures ChainedLog(msg) && Head(msg) == History()
      ensures forall i :: 0 <= i < |msg.entries| ==>
                ShowsPosition(msg.entries[i], History(), committed.seqNo + 1 + i, full)
      ensures CertInLog(msg) <==> CertStands()
    {
      var entries := EntriesToProto(full);
      msg := RepairLog(Checkpoint(committed.seqNo, committed.logDigest, committed.clientRecord), entries, latestCert);
      ExecutableNumbered(History());
      ProtosShow(History(), committed.seqNo, full);
      ProtosChained(msg.checkpoint, History(), full, latestCert);
      CertShown(msg, History());
    }

    method EntriesToProto(full: bool) returns (entries: seq<ProtoEntry>)
      requires Core() && stable.seqNo <= committed.seqNo
      ensures entries == Protos(History(), committed.seqNo, full)
    {
      ghost var h := History();
      entries := [];
      for i := 0 to |log|
        invariant entries == Protos(Upto(h, stable.seqNo + i), committed.seqNo, full)
      {
        LogAt(stable.seqNo + 1 + i);
        ProtosNext(h, stable.seqNo + i, committed.seqNo, full);
        var entry := log[i];
        if entry.seqNo <= committed.seqNo {
          continue;
        }
        var request := if full then Some(entry.request) else None;
        entries := entries + [ProtoEntry(entry.seqNo, entry.id, entry.digest, Sha(entry.request), request)];
      }
    }
  }

  lemma ProtosNext(h: Digest, s: nat, lo: nat, full: bool)
    requires s < Height(h)
    ensures Upto(h, s + 1).Link?
    ensures Protos(Upto(h, s + 1), lo, full) ==
            Protos(Upto(h, s), lo, full) + if s < lo then [] else [ProtoOf(Upto(h, s + 1), full)]
  {
    UptoUpto(h, s + 1, s);
  }

  // Entries read off a history form a chained message with that history as head.
  lemma {:induction false} ProtosChained(ck: Checkpoint, h: Digest, full: bool, cert: Option<Cert>)
    requires Numbered(h) && Extends(h, ck.logDigest) && Height(ck.logDigest) == ck.seqNo
    ensures ChainedLog(RepairLog(ck, Protos(h, ck.seqNo, full), cert))
    ensures Head(RepairLog(ck, Protos(h, ck.seqNo, full), cert)) == h
  {
    if Height(h) > ck.seqNo {
      ProtosChained(ck, h.prev, full, cert);
      ChainMore(RepairLog(ck, Protos(h.prev, ck.seqNo, full), cert), ProtoOf(h, full));
    }
  }

  lemma ChainMore(log: RepairLog, e: ProtoEntry)
    requires ChainedLog(log) && EntryHonest(e) && e.digest.prev == Head(log)
    requires e.seqNo == e.digest.seqNo == log.checkpoint.seqNo + 1 + |log.entries|
    ensures ChainedLog(log.(entries := log.entries + [e]))
  {
    var more := log.(entries := log.entries + [e]);
    forall i | 0 <= i < |more.entries| ensures EntryChained(more, i) {
      if i < |log.entries| {
        assert EntryChained(log, i);
      }
    }
  }

  // A certificate for a position of the history is for the entry shown there.
  lemma CertShown(msg: RepairLog, h: Digest)
    requires ChainedLog(msg) && Head(msg) == h
    ensures CertInLog(msg) <==>
            (msg.cert.Some? && msg.cert.value.seqNo > msg.checkpoint.seqNo ==> IsEntryOf(h, msg.cert.value))
  {
    HeadOfLog(msg);
  }

  // Of an entry of a history, what is left after the history is cut before position s.
  lemma StandsAfterCut(h: Digest, cert: Option<Cert>, committedSeq: nat, s: nat)
    requires 1 <= s <= Height(h) + 1
    ensures Stands(h, cert, committedSeq) ==>
              (Stands(Upto(h, s - 1), cert, committedSeq) <==>
               cert.None? || cert.value.seqNo < s || cert.value.seqNo <= committedSeq)
  {
    if cert.Some? && IsEntryOf(h, cert.value) {
      EntryAfterCut(h, cert.value, s);
    }
  }

  lemma EntryAfterCut(h: Digest, cert: Cert, s: nat)
    requires IsEntryOf(h, cert) && 1 <= s <= Height(h) + 1
    ensures IsEntryOf(Upto(h, s - 1), cert) <==> cert.seqNo < s
  {
    if cert.seqNo < s {
      UptoUpto(h, s - 1, cert.seqNo);
    }
  }
}
