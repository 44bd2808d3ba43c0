// Collecting a client's replies: CertCollector of lib/cert_collector.cc.
//
// Replies are stored by replica, whatever round they are from, and later ones overwrite earlier
// ones.  f + 1 replies of a later round move the collector to it; a quorum of equal replies of
// the current round makes a certificate.

module CertCollection {
  import opened Options
  import opened Digests
  import opened Quorums
  import opened Grouping

  datatype Reply = Reply(replicaId: nat, seqNo: nat, round: nat, id: RequestId, digest: Digest, result: int)

  // What replies are compared by.
  datatype Key = Key(seqNo: nat, round: nat, id: RequestId, digest: Digest, result: int)

  function KeyOf(r: Reply): Key {
    Key(r.seqNo, r.round, r.id, r.digest, r.result)
  }

  // Two replies that differ at most in who sent them.
  predicate Same(a: Reply, b: Reply) {
    a.seqNo == b.seqNo && a.round == b.round && a.id == b.id && a.digest == b.digest && a.result == b.result
  }

  datatype Cert = Cert(seqNo: nat, round: nat, replies: map<nat, Reply>)

  function Rounds(replies: map<nat, Reply>): map<nat, nat> {
    map i | i in replies :: replies[i].round
  }

  // The keys of the stored replies of one round.
  function InRound(replies: map<nat, Reply>, round: nat): map<nat, Key> {
    map i | i in replies && replies[i].round == round :: KeyOf(replies[i])
  }

  function CountOf(counts: map<nat, nat>, round: nat): nat {
    if round in counts then counts[round] else 0
  }

  // Counting replies by round.
  ghost predicate Counted(rounds: map<nat, nat>, counts: map<nat, nat>, bound: nat) {
    forall r :: CountOf(counts, r) == |Group(rounds, r, bound)|
  }

  lemma CountedMore(rounds: map<nat, nat>, counts: map<nat, nat>, i: nat)
    requires Counted(rounds, counts, i)
    ensures Counted(rounds, if i in rounds then counts[rounds[i] := CountOf(counts, rounds[i]) + 1] else counts, i + 1)
  {
    var more := if i in rounds then counts[rounds[i] := CountOf(counts, rounds[i]) + 1] else counts;
    forall r ensures CountOf(more, r) == |Group(rounds, r, i + 1)| {
      GroupMore(rounds, r, i);
      assert CountOf(counts, r) == |Group(rounds, r, i)|;
    }
  }

  // The round that the stored replies show: no lower than before, named by f + 1 replicas if it
  // is higher, and no lower than any round that f + 1 replicas name.
  ghost predicate ShownRound(cfg: Config, replies: map<nat, Reply>, before: nat, round: nat, bound: nat) {
    && before <= round
    && (round == before || |Group(Rounds(replies), round, bound)| >= cfg.f + 1)
    && forall r :: |Group(Rounds(replies), r, bound)| >= cfg.f + 1 ==> r <= round
  }

  lemma ShownMore(cfg: Config, replies: map<nat, Reply>, before: nat, round: nat, i: nat)
    requires ShownRound(cfg, replies, before, round, i)
    ensures var rounds := Rounds(replies);
            var raised := i in rounds && |Group(rounds, rounds[i], i + 1)| >= cfg.f + 1 && rounds[i] > round;
            ShownRound(cfg, replies, before, if raised then rounds[i] else round, i + 1)
  {
    var rounds, next := Rounds(replies), i + 1;
    var raised := i in rounds && |Group(rounds, rounds[i], next)| >= cfg.f + 1 && rounds[i] > round;
    var after := if raised then rounds[i] else round;
    forall r | |Group(rounds, r, next)| >= cfg.f + 1 ensures r <= after {
      GroupMore(rounds, r, i);
      assert !Joins(rounds, i, r) ==> |Group(rounds, r, i)| >= cfg.f + 1;
    }
    GroupMore(rounds, round, i);
  }

  // A quorum of replicas that sent the same reply of this round.
  ghost predicate IsQuorumCert(cfg: Config, cert: Cert, received: set<Reply>) {
    && |cert.replies| == cfg.Quorum()
    && (forall i :: i in cert.replies ==> cert.replies[i].replicaId == i && cert.replies[i] in received)
    && (forall i, j :: i in cert.replies && j in cert.replies ==> Same(cert.replies[i], cert.replies[j]))
    && (forall i :: i in cert.replies ==> cert.replies[i].round == cert.round && cert.replies[i].seqNo == cert.seqNo)
  }

  // Some replicas, m of them, sent equal replies.
  ghost predicate Backed(received: set<Reply>, m: nat) {
    exists replies: map<nat, Reply> ::
      && |replies| == m
      && (forall i :: i in replies ==> replies[i].replicaId == i && replies[i] in received)
      && (forall i, j :: i in replies && j in replies ==> Same(replies[i], replies[j]))
  }

  // A certificate that is made of stored replies.
  ghost predicate OfStored(cert: Cert, replies: map<nat, Reply>) {
    forall i :: i in cert.replies ==> i in replies && cert.replies[i] == replies[i]
  }

  // A certificate is kept; if there was none, the first quorum of stored replies makes one.
  ghost predicate Collected(
    cfg: Config, replies: map<nat, Reply>, before: Option<Cert>, cert: Option<Cert>, largest: nat) {
    if before.Some? then cert == before
    else (cert.Some? <==> largest >= cfg.Quorum()) && (cert.Some? ==> OfStored(cert.value, replies))
  }

  lemma CollectedMore(
    cfg: Config, replies: map<nat, Reply>, a: Option<Cert>, b: Option<Cert>, c: Option<Cert>, m: nat, n: nat)
    requires Collected(cfg, replies, a, b, m) && Collected(cfg, replies, b, c, n) && m <= n
    ensures Collected(cfg, replies, a, c, n)
  {
  }

  ghost predicate Stored(replies: map<nat, Reply>, received: set<Reply>, n: nat) {
    forall i :: i in replies ==> i < n && replies[i].replicaId == i && replies[i] in received
  }

  ghost predicate Sound(
    cfg: Config, replies: map<nat, Reply>, received: set<Reply>, cert: Option<Cert>, round: nat, maxMatchSize: nat) {
    && Stored(replies, received, cfg.NumReplicas())
    && (cert.Some? ==> IsQuorumCert(cfg, cert.value, received) && cert.value.round == round)
    && Backed(received, maxMatchSize)
  }

  class CertCollector {
    const cfg: Config
    var replies: map<nat, Reply>
    var maxMatchSize: nat
    var round: nat
    var cert: Option<Cert>
    // All replies so far.
    ghost var received: set<Reply>

    constructor (cfg: Config)
      ensures Valid() && this.cfg == cfg && round == 0 && cert == None && replies == map[] && received == {}
    {
      this.cfg := cfg;
      replies, maxMatchSize, round, cert := map[], 0, 0, None;
      received := {};
      new;
      BackedByNone(received);
    }

    // A certificate is a quorum of equal replies of the current round, and the largest match
    // reported so far is backed by that many replicas.
    ghost predicate Valid()
      reads this
    {
      Sound(cfg, replies, received, cert, round, maxMatchSize)
    }

    // Moves to a later round if f + 1 stored replies name it; that drops the certificate.
    method AdvanceRound()
      modifies this`round, this`cert
      ensures ShownRound(cfg, replies, old(round), round, cfg.NumReplicas())
      ensures cert == if round == old(round) then old(cert) else None
    {
      var roundCounts: map<nat, nat> := map[];
      for i := 0 to cfg.NumReplicas()
        invariant Counted(Rounds(replies), roundCounts, i)
        invariant ShownRound(cfg, replies, old(round), round, i)
        invariant cert == if round == old(round) then old(cert) else None
      {
        CountedMore(Rounds(replies), roundCounts, i);
        ShownMore(cfg, replies, old(round), round, i);
        if i in replies {
          var r := replies[i].round;
          roundCounts := roundCounts[r := CountOf(roundCounts, r) + 1];
          assert CountOf(roundCounts, r) == |Group(Rounds(replies), r, i + 1)|;
          if roundCounts[r] >= cfg.f + 1 && r > round {
            round := r;
            cert := None;
          }
        }
      }
    }

    // One more reply has joined a group of the current round.
    method ConsiderGroup(key: Key, ids: set<nat>, ghost bound: nat)
      requires Valid() && key.round == round && ids == Group(InRound(replies, round), key, bound)
      requires cert.None? ==> |ids| <= cfg.Quorum()
      modifies this`maxMatchSize, this`cert
      ensures Valid()
      ensures maxMatchSize == if |ids| > old(maxMatchSize) then |ids| else old(maxMatchSize)
      ensures old(cert).Some? ==> cert == old(cert)
      ensures old(cert).None? ==> (cert.Some? <==> |ids| >= cfg.Quorum())
      ensures old(cert).None? && cert.Some? ==> OfStored(cert.value, replies)
    {
      GroupStored(cfg, replies, received, round, key, bound);
      if |ids| > maxMatchSize {
        maxMatchSize := |ids|;
      }
      if |ids| >= cfg.Quorum() {
        if cert.Some? && cert.value.round >= key.round {
          return;
        }
        cert := Some(Cert(key.seqNo, key.round, Restrict(replies, ids)));
      }
    }

    // One turn of the loop in MatchReplies: replica i.
    method MatchOne(i: nat, groups: map<Key, set<nat>>, ghost best: Key, ghost largest: nat)
      returns (more: map<Key, set<nat>>, ghost newBest: Key, ghost newLargest: nat)
      requires Valid() && Scanned(InRound(replies, round), groups, best, largest, i)
      requires largest <= maxMatchSize && (cert.None? ==> largest < cfg.Quorum())
      modifies this`maxMatchSize, this`cert
      ensures Valid() && Scanned(InRound(replies, round), more, newBest, newLargest, i + 1)
      ensures largest <= newLargest
      ensures maxMatchSize == if newLargest > old(maxMatchSize) then newLargest else old(maxMatchSize)
      ensures Collected(cfg, replies, old(cert), cert, newLargest)
    {
      ghost var keys := InRound(replies, round);
      if i !in replies || replies[i].round != round {
        ScannedSkip(keys, groups, best, largest, i);
        return groups, best, largest;
      }
      var key := KeyOf(replies[i]);
      ScannedMore(keys, groups, best, largest, i);
      more := Insert(groups, key, i);
      newBest := if |more[key]| > largest then key else best;
      newLargest := if |more[key]| > largest then |more[key]| else largest;
      ConsiderGroup(key, more[key], i + 1);
    }

    // Groups the replies of the current round, and makes a certificate of the first quorum.
    method MatchReplies() returns (ghost largest: nat)
      requires Valid()
      modifies this`maxMatchSize, this`cert
      ensures Valid() && LargestMatch(cfg, replies, round, largest)
      ensures maxMatchSize == if largest > old(maxMatchSize) then largest else old(maxMatchSize)
      ensures Collected(cfg, replies, old(cert), cert, largest)
    {
      ghost var best := Key(0, 0, RequestId(0, 0), Genesis, 0);
      largest := 0;
      var matching: map<Key, set<nat>> := map[];
      ScannedNone(InRound(replies, round), best);
      for i := 0 to cfg.NumReplicas()
        invariant Valid() && Scanned(InRound(replies, round), matching, best, largest, i)
        invariant maxMatchSize == if largest > old(maxMatchSize) then largest else old(maxMatchSize)
        invariant Collected(cfg, replies, old(cert), cert, largest)
      {
        ghost var held, m := cert, largest;
        matching, best, largest := MatchOne(i, matching, best, largest);
        CollectedMore(cfg, replies, old(cert), held, cert, m, largest);
      }
      LargestMeaning(cfg, replies, round, best, largest);
    }

    method InsertReply(reply: Reply) returns (m: nat, ghost largest: nat)
      requires Valid() && reply.replicaId < cfg.NumReplicas()
      modifies this
      ensures Valid() && replies == old(replies)[reply.replicaId := reply] && received == old(received) + {reply}
      ensures ShownRound(cfg, replies, old(round), round, cfg.NumReplicas())
      ensures LargestMatch(cfg, replies, round, largest)
      ensures m == maxMatchSize == if largest > old(maxMatchSize) then largest else old(maxMatchSize)
      ensures Backed(received, m)
      ensures Collected(cfg, replies, if round == old(round) then old(cert) else None, cert, largest)
    {
      replies := replies[reply.replicaId := reply];
      received := received + {reply};
      AdvanceRound();
      largest := MatchReplies();
      m := maxMatchSize;
    }

    method NumReceived() returns (count: nat)
      requires Valid()
      ensures count == |Group(Rounds(replies), round, cfg.NumReplicas())|
    {
      count := 0;
      for i := 0 to cfg.NumReplicas()
        invariant count == |Group(Rounds(replies), round, i)|
      {
        GroupMore(Rounds(replies), round, i);
        if i in replies && replies[i].round == round {
          count := count + 1;
        }
      }
    }
  }

  // The stored replies that say the same as this one.
  ghost function Alike(cfg: Config, replies: map<nat, Reply>, r: Reply): set<nat> {
    set i: nat | i < cfg.NumReplicas() && i in replies && Same(replies[i], r)
  }

  // The largest number of stored replies of a round that say the same.
  ghost predicate LargestMatch(cfg: Config, replies: map<nat, Reply>, round: nat, largest: nat) {
    && (forall i :: i in replies && replies[i].round == round ==> |Alike(cfg, replies, replies[i])| <= largest)
    && (largest > 0 ==>
          exists i :: i in replies && replies[i].round == round && |Alike(cfg, replies, replies[i])| == largest)
  }

  lemma AlikeIsGroup(cfg: Config, replies: map<nat, Reply>, r: Reply)
    ensures Alike(cfg, replies, r) == Group(InRound(replies, r.round), KeyOf(r), cfg.NumReplicas())
  {
  }

  lemma LargestMeaning(cfg: Config, replies: map<nat, Reply>, round: nat, best: Key, largest: nat)
    requires Largest(InRound(replies, round), best, largest, cfg.NumReplicas())
    ensures LargestMatch(cfg, replies, round, largest)
  {
    forall i | i in replies && replies[i].round == round ensures |Alike(cfg, replies, replies[i])| <= largest {
      AlikeIsGroup(cfg, replies, replies[i]);
    }
    if largest > 0 {
      var i :| i in Group(InRound(replies, round), best, cfg.NumReplicas());
      AlikeIsGroup(cfg, replies, replies[i]);
    }
  }

  lemma RestrictSize(replies: map<nat, Reply>, ids: set<nat>)
    requires ids <= replies.Keys
    ensures |Restrict(replies, ids)| == |ids|
  {
    assert Restrict(replies, ids).Keys == ids;
  }

  // A group of stored replies is evidence: a certificate if it is a quorum.
  lemma GroupStored(cfg: Config, replies: map<nat, Reply>, received: set<Reply>, round: nat, key: Key, bound: nat)
    requires Stored(replies, received, cfg.NumReplicas()) && key.round == round
    ensures var group := Group(InRound(replies, round), key, bound);
            && Backed(received, |group|)
            && (|group| == cfg.Quorum() ==>
                  IsQuorumCert(cfg, Cert(key.seqNo, round, Restrict(replies, group)), received))
  {
    var group := Group(InRound(replies, round), key, bound);
    RestrictSize(replies, group);
    var evidence := Restrict(replies, group);
    assert forall i :: i in evidence ==> KeyOf(evidence[i]) == key;
    assert |evidence| == |group|;
  }

  lemma BackedByNone(received: set<Reply>)
    ensures Backed(received, 0)
  {
    var none: map<nat, Reply> := map[];
    assert |none| == 0;
  }

  // The collector never moves to a round that no correct replica has named.
  lemma RoundNamedByCorrect(cfg: Config, replies: map<nat, Reply>, before: nat, round: nat, faulty: set<nat>)
    requires ShownRound(cfg, replies, before, round, cfg.NumReplicas()) && round != before && |faulty| <= cfg.f
    ensures exists i :: i in replies && i !in faulty && replies[i].round == round
  {
    var group := Group(Rounds(replies), round, cfg.NumReplicas());
    SplitSize(group, faulty);
    assert group - faulty != {};
    var i :| i in group - faulty;
    assert i in replies;
  }

  // At least Quorum - f of the replicas in a certificate are correct.
  lemma CertMostlyCorrect(cfg: Config, cert: Cert, received: set<Reply>, faulty: set<nat>)
    requires IsQuorumCert(cfg, cert, received) && |faulty| <= cfg.f
    ensures |cert.replies.Keys - faulty| >= cfg.Quorum() - cfg.f
  {
    SplitSize(cert.replies.Keys, faulty);
  }
}
