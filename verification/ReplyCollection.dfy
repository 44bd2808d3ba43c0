// Collecting checkpoint replies: ReplyCollector of lib/checkpoint_collector.cc.
//
// Replies are stored by replica and can be overwritten.  The collector looks for a superquorum of
// equal replies that includes its own, and for proof that no superquorum can form any more.

module ReplyCollection {
  import opened Options
  import opened Digests
  import opened Quorums
  import opened Grouping

  datatype Reply = Reply(replicaId: nat, digest: Digest, round: nat, seqNo: nat)

  datatype Key = Key(digest: Digest, round: nat, seqNo: nat)

  function KeyOf(r: Reply): Key {
    Key(r.digest, r.round, r.seqNo)
  }

  datatype ReplyCert = ReplyCert(seqNo: nat, replies: map<nat, Reply>)

  datatype ConflictProof = ConflictProof(round: nat, replies: map<nat, Reply>)

  function Keys(replies: map<nat, Reply>): map<nat, Key> {
    map i | i in replies :: KeyOf(replies[i])
  }

  // The replicas whose stored reply has this key.
  function Senders(cfg: Config, replies: map<nat, Reply>, key: Key): set<nat> {
    Group(Keys(replies), key, cfg.NumReplicas())
  }

  // The own reply is one of a superquorum of equal ones.
  ghost predicate OwnSuperquorum(cfg: Config, replies: map<nat, Reply>, own: nat) {
    own in replies && |Senders(cfg, replies, KeyOf(replies[own]))| >= cfg.SuperQuorum()
  }

  function CertOf(replies: map<nat, Reply>, key: Key, bound: nat): ReplyCert {
    ReplyCert(key.seqNo, Restrict(replies, Group(Keys(replies), key, bound)))
  }

  // A certificate for the reply r: the stored replies that agree with it in digest, round and
  // sequence number, a superquorum of them, r's own sender among them.
  ghost predicate Certifies(cfg: Config, cert: ReplyCert, replies: map<nat, Reply>, r: Reply) {
    && cert.seqNo == r.seqNo && |cert.replies| >= cfg.SuperQuorum()
    && (forall i :: i in cert.replies ==> i in replies && cert.replies[i] == replies[i])
    && (forall i :: i in cert.replies <==>
          i in replies && i < cfg.NumReplicas()
          && replies[i].digest == r.digest && replies[i].round == r.round && replies[i].seqNo == r.seqNo)
  }

  lemma CertMeaning(cfg: Config, replies: map<nat, Reply>, own: nat)
    requires OwnSuperquorum(cfg, replies, own)
    ensures Certifies(cfg, CertOf(replies, KeyOf(replies[own]), cfg.NumReplicas()), replies, replies[own])
  {
    var group := Senders(cfg, replies, KeyOf(replies[own]));
    var cert := CertOf(replies, KeyOf(replies[own]), cfg.NumReplicas());
    assert cert.replies.Keys == group;
    assert |cert.replies.Keys| == |cert.replies|;
  }

  ghost function CertSoFar(cfg: Config, replies: map<nat, Reply>, own: nat, bound: nat): Option<ReplyCert>
    requires own in replies
  {
    var group := Group(Keys(replies), KeyOf(replies[own]), bound);
    if own in group && |group| >= cfg.SuperQuorum() then Some(CertOf(replies, KeyOf(replies[own]), bound)) else None
  }

  // The replies of all replicas, of which some are known.
  ghost predicate Completes(cfg: Config, replies: map<nat, Reply>, all: map<nat, Reply>) {
    && all.Keys == Replicas(cfg.NumReplicas())
    && forall i :: i in replies ==> i in all && all[i] == replies[i]
  }

  // Whatever the missing replicas reply, no superquorum will agree.
  ghost predicate Hopeless(cfg: Config, replies: map<nat, Reply>) {
    forall all, key :: Completes(cfg, replies, all) ==> |Senders(cfg, all, key)| < cfg.SuperQuorum()
  }

  ghost predicate IsMaxMatch(cfg: Config, replies: map<nat, Reply>, m: nat) {
    && (forall key :: |Senders(cfg, replies, key)| <= m)
    && (m > 0 ==> exists key :: |Senders(cfg, replies, key)| == m)
  }

  lemma CompletionAdds(cfg: Config, replies: map<nat, Reply>, all: map<nat, Reply>, key: Key)
    requires replies.Keys <= Replicas(cfg.NumReplicas()) && Completes(cfg, replies, all)
    ensures |Senders(cfg, all, key)|
            <= |Senders(cfg, replies, key)| + (cfg.NumReplicas() - |replies|)
  {
    var n := cfg.NumReplicas();
    var missing := Replicas(n) - replies.Keys;
    SubsetSize(replies.Keys, Replicas(n));
    SubsetSize(Senders(cfg, all, key), Senders(cfg, replies, key) + missing);
  }

  // The test that the source makes on the counts says exactly that.
  lemma HopelessIff(cfg: Config, replies: map<nat, Reply>, m: nat)
    requires replies.Keys <= Replicas(cfg.NumReplicas()) && IsMaxMatch(cfg, replies, m)
    ensures Hopeless(cfg, replies) <==> cfg.NumReplicas() - |replies| < cfg.SuperQuorum() - m
  {
    var n := cfg.NumReplicas();
    if n - |replies| < cfg.SuperQuorum() - m {
      forall all, key | Completes(cfg, replies, all) ensures |Senders(cfg, all, key)| < cfg.SuperQuorum() {
        CompletionAdds(cfg, replies, all, key);
      }
    } else {
      HopefulCompletion(cfg, replies, m);
    }
  }

  // A certificate and a conflict proof exclude each other.
  lemma CertExcludesProof(cfg: Config, replies: map<nat, Reply>, own: nat)
    requires replies.Keys <= Replicas(cfg.NumReplicas()) && OwnSuperquorum(cfg, replies, own)
    ensures !Hopeless(cfg, replies)
  {
    var n, key := cfg.NumReplicas(), KeyOf(replies[own]);
    FillSenders(cfg, replies, key);
    SubsetSize(replies.Keys, Replicas(n));
    assert Completes(cfg, replies, Fill(cfg, replies, key));
  }

  // All missing replicas join one group.
  function Fill(cfg: Config, replies: map<nat, Reply>, key: Key): map<nat, Reply> {
    map i | i in Replicas(cfg.NumReplicas()) ::
      if i in replies then replies[i] else Reply(i, key.digest, key.round, key.seqNo)
  }

  lemma FillMember(cfg: Config, replies: map<nat, Reply>, key: Key, i: nat)
    requires replies.Keys <= Replicas(cfg.NumReplicas())
    ensures i in Senders(cfg, Fill(cfg, replies, key), key) <==>
            i in Senders(cfg, replies, key) || (i in Replicas(cfg.NumReplicas()) && i !in replies)
  {
  }

  lemma FillSendersAre(cfg: Config, replies: map<nat, Reply>, key: Key, after: set<nat>)
    requires replies.Keys <= Replicas(cfg.NumReplicas()) && after == Senders(cfg, Fill(cfg, replies, key), key)
    ensures after == Senders(cfg, replies, key) + (Replicas(cfg.NumReplicas()) - replies.Keys)
  {
    forall i: nat
      ensures i in after <==> i in Senders(cfg, replies, key) + (Replicas(cfg.NumReplicas()) - replies.Keys)
    {
      FillMember(cfg, replies, key, i);
    }
  }

  lemma FillSenders(cfg: Config, replies: map<nat, Reply>, key: Key)
    requires replies.Keys <= Replicas(cfg.NumReplicas())
    ensures |Senders(cfg, Fill(cfg, replies, key), key)| ==
            |Senders(cfg, replies, key)| + cfg.NumReplicas() - |replies|
  {
    FillSendersAre(cfg, replies, key, Senders(cfg, Fill(cfg, replies, key), key));
    SubsetSize(replies.Keys, Replicas(cfg.NumReplicas()));
    assert Senders(cfg, replies, key) !! Replicas(cfg.NumReplicas()) - replies.Keys;
  }

  // If all missing replicas join the largest group, a superquorum forms.
  lemma HopefulCompletion(cfg: Config, replies: map<nat, Reply>, m: nat)
    requires replies.Keys <= Replicas(cfg.NumReplicas()) && IsMaxMatch(cfg, replies, m)
    requires cfg.NumReplicas() - |replies| >= cfg.SuperQuorum() - m
    ensures !Hopeless(cfg, replies)
  {
    var n := cfg.NumReplicas();
    var key := if m > 0 then var k :| |Senders(cfg, replies, k)| == m; k else Key(Genesis, 0, 0);
    FillSenders(cfg, replies, key);
    assert Completes(cfg, replies, Fill(cfg, replies, key));
  }

  // The round of the reply of the replica with the highest id.
  ghost predicate LastRound(replies: map<nat, Reply>, round: nat) {
    exists i :: i in replies && (forall j :: j in replies ==> j <= i) && round == replies[i].round
  }

  class ReplyCollector {
    const cfg: Config
    const replicaId: nat
    var replies: map<nat, Reply>
    var hasOwnReply: bool
    var cert: Option<ReplyCert>
    var conflictProof: Option<ConflictProof>

    constructor (cfg: Config, replicaId: nat)
      ensures Valid() && this.cfg == cfg && this.replicaId == replicaId
      ensures replies == map[] && cert == None && conflictProof == None
    {
      this.cfg, this.replicaId := cfg, replicaId;
      replies, hasOwnReply := map[], false;
      cert, conflictProof := None, None;
    }

    ghost predicate Valid()
      reads this
    {
      replies.Keys <= Replicas(cfg.NumReplicas()) && (hasOwnReply <==> replicaId in replies)
    }

    // A reply that makes the collector count its replies.
    ghost predicate Counts(before: map<nat, Reply>, reply: Reply)
      reads this
    {
      reply.replicaId !in before && (replicaId in before || reply.replicaId == replicaId) && cert.None?
    }

    // Groups equal replies, and builds the certificate of a superquorum that includes the own one.
    method CountMatching() returns (maxMatch: nat, found: Option<ReplyCert>)
      requires Valid() && hasOwnReply
      ensures IsMaxMatch(cfg, replies, maxMatch)
      ensures found == if OwnSuperquorum(cfg, replies, replicaId)
                       then Some(CertOf(replies, KeyOf(replies[replicaId]), cfg.NumReplicas())) else None
    {
      var matching: map<Key, set<nat>> := map[];
      ghost var best := KeyOf(replies[replicaId]);
      ghost var keys := Keys(replies);
      ghost var ownKey := KeyOf(replies[replicaId]);
      maxMatch, found := 0, None;
      ScannedNone(keys, best);
      for i := 0 to cfg.NumReplicas()
        invariant Scanned(keys, matching, best, maxMatch, i)
        invariant found == CertSoFar(cfg, replies, replicaId, i)
      {
        GroupMore(keys, ownKey, i);
        if i !in replies {
          ScannedSkip(keys, matching, best, maxMatch, i);
          continue;
        }
        ScannedMore(keys, matching, best, maxMatch, i);
        var key := KeyOf(replies[i]);
        matching := Insert(matching, key, i);
        if |matching[key]| > maxMatch {
          maxMatch := |matching[key]|;
          best := key;
        }
        if |matching[key]| >= cfg.SuperQuorum() && replicaId in matching[key] {
          found := Some(ReplyCert(key.seqNo, Restrict(replies, matching[key])));
        }
      }
      assert |Senders(cfg, replies, best)| == maxMatch;
    }

    // The proof carries all replies, and the round of the last of them.
    method Prove() returns (proof: ConflictProof)
      requires Valid() && replies != map[]
      ensures proof.replies == replies
      ensures LastRound(replies, proof.round)
    {
      proof := ConflictProof(0, map[]);
      ghost var last: nat := 0;
      for i := 0 to cfg.NumReplicas()
        invariant proof.replies == Restrict(replies, Replicas(i))
        invariant proof.replies != map[] ==>
                    last in replies && last < i && proof.round == replies[last].round
                    && forall j :: j in replies && j < i ==> j <= last
      {
        if i in replies {
          assert forall j :: j in replies && j < i ==> j in proof.replies;
          proof := ConflictProof(replies[i].round, proof.replies[i := replies[i]]);
          last := i;
        }
      }
    }

    // Stores a reply.  Only the first reply of a replica, with the own reply present and no
    // certificate yet, makes the collector count.
    method AddAndCheckReply(reply: Reply) returns (ret: bool)
      requires Valid() && reply.replicaId < cfg.NumReplicas()
      modifies this
      ensures Valid() && replies == old(replies)[reply.replicaId := reply]
      ensures ret <==>
                && old(Counts(replies, reply))
                && OwnSuperquorum(cfg, replies, replicaId)
      ensures cert ==
              if ret then Some(CertOf(replies, KeyOf(replies[replicaId]), cfg.NumReplicas()))
              else old(cert)
      ensures ret ==> Certifies(cfg, cert.value, replies, replies[replicaId])
      ensures old(Counts(replies, reply)) && Hopeless(cfg, replies) ==>
                && conflictProof.Some? && conflictProof.value.replies == replies
                && LastRound(replies, conflictProof.value.round)
      ensures !(old(Counts(replies, reply)) && Hopeless(cfg, replies)) ==>
                conflictProof == old(conflictProof)
    {
      var nRepliesOld := |replies|;
      replies := replies[reply.replicaId := reply];
      hasOwnReply := hasOwnReply || reply.replicaId == replicaId;
      if |replies| == nRepliesOld || !hasOwnReply || cert.Some? {
        return false;
      }
      var maxMatch, found := CountMatching();
      cert := found;
      ret := found.Some?;
      if ret {
        CertMeaning(cfg, replies, replicaId);
      }
      if cfg.NumReplicas() - |replies| < cfg.SuperQuorum() - maxMatch {
        var proof := Prove();
        conflictProof := Some(proof);
      }
      HopelessIff(cfg, replies, maxMatch);
    }
  }
}
