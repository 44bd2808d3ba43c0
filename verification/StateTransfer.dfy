// State transfer from one log to another (processes/replica/replica.cc:1502-1694): a reply built
// from a correct sender's log, applied by a receiver whose committed prefix agrees with it.

module StateTransfer {
  import opened Options
  import opened Digests
  import opened ClientRecords
  import opened CounterApp
  import opened Realignment
  import opened Logs
  import RoundSteps
  import RoundCerts
  import opened RepairSelection

  lemma {:induction false} SentParses(c: Digest, lo: nat)
    requires Executable(c)
    ensures forall e :: e in Sent(c, lo) ==> Parses(e.request)
  {
    if Height(c) > lo {
      SentParses(c.prev, lo);
    }
  }

  lemma ReplaySnoc(d: Digest, entries: seq<SnapEntry>, e: SnapEntry, start: nat)
    ensures Replay(d, entries + [e], start) ==
            var front := Replay(d, entries, start);
            if e.seqNo < start then front else Next(front, e.id, e.request)
  {
    assert (entries + [e])[..|entries|] == entries;
  }

  lemma {:induction false} SkippedBelow(base: Digest, c: Digest, lo: nat, start: nat)
    requires Height(c) < start
    ensures Replay(base, Sent(c, lo), start) == base
  {
    if Height(c) > lo {
      SkippedBelow(base, c.prev, lo, start);
      ReplaySnoc(base, Sent(c.prev, lo), SnapEntry(Height(c), c.id, c.request), start);
    }
  }

  // Replaying the entries of a history on top of any of its prefixes that the entries reach back
  // to gives the history.
  lemma {:induction false} ReplayOfSent(base: Digest, c: Digest, lo: nat)
    requires Executable(c) && Extends(c, base) && lo <= Height(base)
    ensures Replay(base, Sent(c, lo), Height(base) + 1) == c
  {
    if Height(c) == Height(base) {
      SkippedBelow(base, c, lo, Height(base) + 1);
    } else {
      ReplayOfSent(base, c.prev, lo);
      ReplaySnoc(base, Sent(c.prev, lo), SnapEntry(Height(c), c.id, c.request), Height(base) + 1);
    }
  }

  // The reply of a sender with committed history c, asked by a replica that had committed up to
  // lastCheckpointSeq; stable is the sender's stable checkpoint.
  ghost predicate ReplyOf(reply: SnapshotReply, c: Digest, stable: LogCheckpoint, lastCheckpointSeq: nat) {
    && reply.checkpoint.logDigest == c
    && (reply.appSnapshot.Some? <==> lastCheckpointSeq < stable.seqNo)
    && (reply.appSnapshot.Some? ==> reply.appSnapshot.value.checkpoint == Received(stable))
    && reply.entries == Sent(c, if lastCheckpointSeq < stable.seqNo then stable.seqNo else lastCheckpointSeq)
  }

  lemma ReplyParses(entries: seq<SnapEntry>, c: Digest, lo: nat, start: nat)
    requires Executable(c) && entries == Sent(c, lo)
    ensures AllParse(entries, start)
  {
    SentParses(c, lo);
    forall i | 0 <= i < |entries| ensures Parses(entries[i].request) {
      assert entries[i] in Sent(c, lo);
    }
  }

  lemma ReachesFrom(reply: SnapshotReply, base: Digest, c: Digest, lo: nat)
    requires reply.checkpoint.logDigest == c && reply.entries == Sent(c, lo)
    requires Executable(c) && Extends(c, base) && lo <= Height(base)
    ensures ResetOutcome(base, reply) == Done
  {
    ReplayOfSent(base, c, lo);
    ReplyParses(reply.entries, c, lo, Height(base) + 1);
  }

  // With or without the application snapshot, and even if the receiver has committed more since
  // it asked, the reply leads to the sender's committed history.
  lemma ReplyReaches(reply: SnapshotReply, c: Digest, stable: LogCheckpoint, lastCheckpointSeq: nat, own: LogCheckpoint)
    requires ReplyOf(reply, c, stable, lastCheckpointSeq) && Executable(c)
    requires IsCheckpointOf(stable, c)
    requires Extends(c, own.logDigest) && Height(own.logDigest) == own.seqNo >= lastCheckpointSeq
    ensures ResetOutcome(BaseOf(reply, own), reply) == Done
  {
    var lo := if lastCheckpointSeq < stable.seqNo then stable.seqNo else lastCheckpointSeq;
    ReachesFrom(reply, BaseOf(reply, own), c, lo);
  }

  lemma CommittedHistory(log: Log)
    requires log.Valid()
    ensures Executable(log.committed.logDigest) && IsCheckpointOf(log.stable, log.committed.logDigest)
  {
    ExecutableUpto(log.History(), log.committed.seqNo);
    PrefixesCompatible(log.History(), log.stable.logDigest, log.committed.logDigest);
  }

  // During a repair: the receiver ends up with exactly the sender's committed state.
  method Reset(sender: Log, receiver: Log, requestedSeq: nat, lastCheckpointSeq: nat) returns (outcome: Outcome)
    requires sender != receiver && sender.app != receiver.app && sender.Valid() && receiver.Valid()
    requires requestedSeq <= sender.committed.seqNo && lastCheckpointSeq <= receiver.committed.seqNo
    requires lastCheckpointSeq < sender.stable.seqNo ==> sender.stable.snapshot.Some?
    requires Extends(sender.committed.logDigest, receiver.committed.logDigest)
    modifies receiver, receiver.app
    ensures outcome == Done && receiver.Valid()
    ensures receiver.History() == sender.committed.logDigest && receiver.nextSeq == sender.committed.seqNo + 1
    ensures receiver.clientRecord == sender.committed.clientRecord
    ensures receiver.committed == sender.committed.(snapshot := None)
    ensures receiver.app.counter == Exec(sender.committed.logDigest)
  {
    CommittedHistory(sender);
    var reply := sender.SnapshotFor(requestedSeq, lastCheckpointSeq);
    ReplyReaches(reply.value, sender.committed.logDigest, sender.stable, lastCheckpointSeq, receiver.committed);
    outcome := receiver.ResetToSnapshot(reply.value);
  }

  // Between repairs: the receiver ends up with the sender's committed history followed by own
  // requests, without repeats, and with the same history if it was on that one already; its
  // certificate is gone in any case.
  method Realign(sender: Log, receiver: Log, requestedSeq: nat, lastCheckpointSeq: nat) returns (outcome: Outcome)
    requires sender != receiver && sender.app != receiver.app && sender.Valid() && receiver.Valid()
    requires receiver.InSync() && RecordMatches(sender.committed)
    requires requestedSeq <= sender.committed.seqNo < TWO_TO_THE_32 && lastCheckpointSeq <= receiver.committed.seqNo
    requires lastCheckpointSeq < sender.stable.seqNo ==> sender.stable.snapshot.Some?
    requires Extends(sender.committed.logDigest, receiver.committed.logDigest)
    modifies receiver, receiver.app
    ensures outcome == Done && receiver.Valid() && receiver.InSync()
    ensures Extends(receiver.History(), sender.committed.logDigest)
    ensures receiver.History() ==
            Aligned(sender.committed.logDigest, old(receiver.History()), old(receiver.stable.seqNo))
    ensures var lo := old(receiver.ReapplyFrom(sender.committed));
            && Subsequence(
                 Requests(receiver.History(), sender.committed.seqNo), Requests(old(receiver.History()), lo))
            && Ids(receiver.History()) == Ids(sender.committed.logDigest) + IdsAbove(old(receiver.History()), lo)
    ensures Extends(old(receiver.History()), sender.committed.logDigest) ==>
              receiver.History() == old(receiver.History())
    ensures receiver.committed == Received(sender.committed) && receiver.latestCert == None
    ensures receiver.app.counter == Exec(receiver.History())
  {
    ghost var c, own := sender.committed.logDigest, receiver.History();
    ghost var lo := receiver.ReapplyFrom(sender.committed);
    CommittedHistory(sender);
    var reply := sender.SnapshotFor(requestedSeq, lastCheckpointSeq);
    ReplyReaches(reply.value, c, sender.stable, lastCheckpointSeq, receiver.committed);
    RealignedRequests(c, own, lo);
    RealignedOrder(c, own, lo);
    if Extends(own, c) {
      IdsSplit(own, Height(c));
      NothingMissingThreshold(c, own);
      ExecutableNumbered(own);
      AlignedUnchanged(c, own);
    }
    outcome := receiver.ApplySnapshotModifyLog(reply.value);
  }

  // A faulty sender: with a record that has all the receiver's requests, a checkpoint on the
  // receiver's own chain makes it drop everything after it.
  method SendBack(receiver: Log, s: nat) returns (outcome: Outcome)
    requires receiver.Valid() && receiver.InSync() && receiver.committed.seqNo < s <= Height(receiver.History())
    modifies receiver, receiver.app
    ensures outcome == Done && receiver.Valid() && receiver.History() == Upto(old(receiver.History()), s)
  {
    ghost var own := receiver.History();
    var c := Upto(receiver.History(), s);
    var checkpoint := LogCheckpoint(s, c, None, receiver.clientRecord, None);
    var reply := SnapshotReply(checkpoint, None, Sent(c, receiver.committed.seqNo));
    ExecutableUpto(own, s);
    UptoUpto(own, s, receiver.committed.seqNo);
    ReachesFrom(reply, receiver.committed.logDigest, c, receiver.committed.seqNo);
    FalseRecordDrops(c, own, receiver.ReapplyFrom(checkpoint));
    outcome := receiver.ApplySnapshotModifyLog(reply);
  }

  // A forged reply, whatever its record, takes a replica where the round model allows it.
  method Misled(
    receiver: Log, reply: SnapshotReply, ghost x: RoundSteps.Setting, ghost st: RoundSteps.State, ghost r: nat)
    returns (outcome: Outcome)
    requires receiver.Valid() && ReplySound(reply) && r in st.logs && st.logs[r] == receiver.History()
    requires RoundSteps.Forgeable(x, st, reply.checkpoint.logDigest)
    modifies receiver, receiver.app
    ensures outcome == Done ==>
              RoundSteps.Enabled(
                x, st, RoundSteps.Step.Align(r, reply.checkpoint.logDigest, receiver.History()))
  {
    ReapplyWithExtends(reply.checkpoint.clientRecord, reply.checkpoint.logDigest,
      receiver.History(), receiver.ReapplyFrom(reply.checkpoint));
    outcome := receiver.ApplySnapshotModifyLog(reply);
  }

  // And so does the reply of a correct sender: an Align step to its checkpoint.
  lemma RealignIsRoundStep(
    x: RoundSteps.Setting, st: RoundSteps.State, r: nat, c: Digest, own: Digest, stableSeq: nat)
    requires r in st.logs && st.logs[r] == own && RoundSteps.Committed(x, st, c)
    requires Numbered(own) && PositiveIds(own) && NoRepeats(own) && PositiveIds(c) && NoRepeats(c)
    requires stableSeq <= Height(c) < TWO_TO_THE_32
    ensures RoundSteps.Enabled(x, st, RoundSteps.Step.Align(r, c, Aligned(c, own, stableSeq)))
  {
    var lo := Max(Threshold(Height(c), RecordOf(own).NumMissing(RecordOf(c))), stableSeq);
    RealignedRequests(c, own, lo);
    if Extends(own, c) {
      IdsSplit(own, Height(c));
      NothingMissingThreshold(c, own);
      AlignedUnchanged(c, own);
    }
  }

  // What Log.AddCert accepts is what the round model lets a correct replica acknowledge.
  lemma AcceptedIsRoundMove(h: Digest, committed: LogCheckpoint, cert: Cert)
    requires IsCheckpointOf(committed, h) && RecordMatches(committed)
    requires cert.digest.Link? && cert.digest.id.clientSeq >= 1 && Height(cert.digest) == cert.seqNo <= Height(h)
    ensures RoundCerts.Accepts(h, committed.logDigest, cert.digest) <==>
            if cert.seqNo <= committed.seqNo then committed.clientRecord.Contains(cert.digest.id)
            else
              var own := Upto(h, cert.seqNo);
              own.Link? && own.id == cert.digest.id && own == cert.digest
  {
    RecordOfHistory(committed.logDigest);
  }

  // The log is what the round has of replica r: its history, its committed checkpoint, and its
  // latest certificate, unless that is at or below the checkpoint.
  ghost predicate IsLogOf(log: Log, w: RoundCerts.World, r: nat)
    reads log
  {
    && r in w.st.logs && w.st.logs[r] == log.History()
    && r in w.committed && w.committed[r] == log.committed.logDigest
    && HoldsCert(log.latestCert, w, r)
  }

  ghost predicate HoldsCert(held: Option<Cert>, w: RoundCerts.World, r: nat) {
    && (held.Some? <==> r in w.certs)
    && (held.Some? ==> held.value == Cert(Height(w.certs[r]), w.certs[r]))
  }

  // The log accepts a certificate exactly if the round lets the replica acknowledge it, and then
  // holds the one that the round stores.
  method CertifyOnLog(log: Log, cert: Cert, ghost x: RoundSteps.Setting, ghost w: RoundCerts.World, ghost r: nat)
    returns (ok: bool)
    requires log.Valid() && RecordMatches(log.committed) && IsLogOf(log, w, r)
    requires cert.digest.Link? && cert.digest.id.clientSeq >= 1
    requires Height(cert.digest) == cert.seqNo <= Height(log.History())
    modifies log`latestCert, log`latestCertSeq
    ensures ok <==> RoundCerts.Accepts(log.History(), log.committed.logDigest, cert.digest)
    ensures ok ==> IsLogOf(log, RoundCerts.Moved(w, RoundCerts.Certify(r, cert.digest)), r)
    ensures !ok ==> log.latestCert == old(log.latestCert)
  {
    AcceptedIsRoundMove(log.History(), log.committed, cert);
    ok := log.AddCert(cert.seqNo, cert.digest.id, cert);
  }
}
