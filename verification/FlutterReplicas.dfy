// The Flutter replica as the source runs it: handlers that update the candidate pool, the current
// bets and the commit trackers in place (processes/flutter/flutter_replica.h and .cc).  Each one
// is proved to do what FlutterState says.

module FlutterReplicas {
  import opened Options
  import opened Quorums
  import opened FlutterState
  import opened FlutterClocks

  // ----- Commit trackers

  // Committed sequence numbers of one client: all up to lastCommitted, and some beyond.
  datatype Tracker = Tracker(lastCommitted: nat, outOfOrderCommits: set<nat>) {
    predicate IsCommitted(s: nat) {
      s <= lastCommitted || s in outOfOrderCommits
    }

    // The representation is canonical: nothing beyond continues the contiguous part.
    ghost predicate Valid() {
      forall s :: s in outOfOrderCommits ==> s > lastCommitted + 1
    }
  }

  const NoTracker := Tracker(0, {})

  method CommitSeq(tracker: Tracker, s: nat) returns (after: Tracker)
    requires tracker.Valid()
    ensures after.Valid()
    ensures forall t: nat :: after.IsCommitted(t) <==> tracker.IsCommitted(t) || t == s
  {
    after := tracker;
    if s <= after.lastCommitted {
      return;
    }
    if s == after.lastCommitted + 1 {
      var last, beyond := s, after.outOfOrderCommits;
      while last + 1 in beyond
        invariant forall t :: t in beyond ==> t > last
        invariant forall t: nat :: t <= last || t in beyond <==> tracker.IsCommitted(t) || t == s
        decreases |beyond|
      {
        last := last + 1;
        beyond := beyond - {last};
      }
      after := Tracker(last, beyond);
    } else {
      after := after.(outOfOrderCommits := after.outOfOrderCommits + {s});
    }
  }

  // A canonical representation: equal when the same sequence numbers are committed.
  lemma TrackerCanonical(a: Tracker, b: Tracker)
    requires a.Valid() && b.Valid()
    requires forall t: nat :: a.IsCommitted(t) <==> b.IsCommitted(t)
    ensures a == b
  {
    assert a.IsCommitted(a.lastCommitted) && !a.IsCommitted(a.lastCommitted + 1);
    assert b.IsCommitted(b.lastCommitted) && !b.IsCommitted(b.lastCommitted + 1);
    assert a.lastCommitted == b.lastCommitted;
    forall t: nat ensures t in a.outOfOrderCommits <==> t in b.outOfOrderCommits {
      assert a.IsCommitted(t) <==> b.IsCommitted(t);
    }
    assert a.outOfOrderCommits == b.outOfOrderCommits;
  }

  // ----- Pool order

  ghost predicate IsFirstOf(keys: set<Key>, k: Key) {
    k in keys && forall j :: j in keys ==> j == k || Earlier(k, j)
  }

  lemma {:induction false} EarliestExists(keys: set<Key>)
    requires keys != {}
    ensures exists k :: IsFirstOf(keys, k)
    decreases |keys|
  {
    var w :| w in keys;
    if keys == {w} {
      assert IsFirstOf(keys, w);
    } else {
      EarliestExists(keys - {w});
      var k :| IsFirstOf(keys - {w}, k);
      FirstOfMore(keys, w, k);
    }
  }

  lemma FirstOfMore(keys: set<Key>, w: Key, k: Key)
    requires w in keys && IsFirstOf(keys - {w}, k)
    ensures IsFirstOf(keys, if Earlier(w, k) then w else k)
  {
    var first := if Earlier(w, k) then w else k;
    forall j | j in keys ensures j == first || Earlier(first, j) {
      assert j == w || j in keys - {w};
    }
  }

  // Where the commit loop is: it has taken a prefix of the pool, all of it ready, and the
  // trackers have it.
  ghost predicate Taking(f: nat, r: Replica, taken: set<Key>, rest: set<Key>, trackers: map<nat, Tracker>) {
    && taken + rest == r.pool.Keys && taken !! rest
    && (forall a, b :: a in taken && b in rest ==> Earlier(a, b))
    && (forall a :: a in taken ==> Ready(f, r, a))
    && Tracks(trackers, r.done + IdsOf(taken))
  }

  lemma TakeOne(
    f: nat, r: Replica, taken: set<Key>, rest: set<Key>, trackers: map<nat, Tracker>, key: Key, tracker: Tracker)
    requires Taking(f, r, taken, rest, trackers) && IsFirstOf(rest, key) && Ready(f, r, key)
    requires tracker.Valid()
    requires forall t: nat ::
               tracker.IsCommitted(t) <==> TrackerOf(trackers, key.clientId).IsCommitted(t) || t == key.clientSeq
    ensures Taking(f, r, taken + {key}, rest - {key}, trackers[key.clientId := tracker])
  {
    TracksMore(trackers, r.done + IdsOf(taken), key, tracker);
    assert IdsOf(taken + {key}) == IdsOf(taken) + {key.Id()};
    assert r.done + IdsOf(taken + {key}) == r.done + IdsOf(taken) + {key.Id()};
  }

  // What the commit loop has taken when it stops is the longest prefix that can be committed.
  lemma TakenIsCommittable(f: nat, r: Replica, taken: set<Key>, rest: set<Key>, trackers: map<nat, Tracker>)
    requires Taking(f, r, taken, rest, trackers)
    requires rest != {} ==> exists k :: IsFirstOf(rest, k) && !Ready(f, r, k)
    ensures taken == Committable(f, r)
  {
    forall k | k in r.pool ensures k in taken <==> Reached(f, r, k) {
      if k in rest {
        var stop :| IsFirstOf(rest, stop) && !Ready(f, r, stop);
        assert !Earlier(k, stop);
      }
    }
  }

  class FlutterReplica {
    const f: nat
    const replicaId: nat
    const leaderId: nat
    var candidatePool: map<Key, Candidate>
    var clientCurrentBets: map<(nat, nat), nat>
    var clientSeqTrackers: map<nat, Tracker>
    var replicaClocks: map<nat, nat>
    var lockTime: nat
    // What the trackers say, as one set.
    ghost var done: set<(nat, nat)>

    constructor (f: nat, replicaId: nat)
      ensures Valid() && State() == Fresh && this.f == f && this.replicaId == replicaId && leaderId == 0
    {
      this.f, this.replicaId, leaderId := f, replicaId, 0;
      candidatePool, clientCurrentBets, clientSeqTrackers := map[], map[], map[];
      replicaClocks := map[];
      lockTime, done := 0, {};
    }

    ghost function State(): Replica
      reads this
    {
      Replica(candidatePool, clientCurrentBets, done, lockTime)
    }

    ghost predicate Valid()
      reads this
    {
      && PoolSound(f, State())
      && Tracks(clientSeqTrackers, done)
    }

    predicate IsCommitted(key: Key)
      reads this
    {
      TrackerOf(clientSeqTrackers, key.clientId).IsCommitted(key.clientSeq)
    }

    method InitializeCandidate(key: Key, request: string, now: nat) returns (outs: seq<Out>)
      requires Valid()
      modifies this
      ensures Valid() && (State(), outs) == OnRequest(old(State()), key, request, now)
      ensures replicaClocks == old(replicaClocks)
    {
      RequestKeepsPool(f, State(), key, request, now);
      if IsCommitted(key) {
        return [];
      }
      if key.Id() in clientCurrentBets {
        var currentBet := clientCurrentBets[key.Id()];
        if key.bet <= currentBet {
          return [];
        }
        candidatePool := candidatePool - {Key(currentBet, key.clientId, key.clientSeq)};
      }
      clientCurrentBets := clientCurrentBets[key.Id() := key.bet];
      if key in candidatePool {
        candidatePool := candidatePool[key := candidatePool[key].(request := Some(request))];
      } else {
        candidatePool := candidatePool[key := Blank.(request := Some(request))];
      }
      return [Vote(key, now <= key.bet)];
    }

    // The loop of checkCandidatesForCommit, in the order of the pool.
    method CollectCommittable() returns (toRemove: set<Key>, trackers: map<nat, Tracker>)
      requires Valid()
      ensures toRemove == Committable(f, State()) && Tracks(trackers, done + IdsOf(toRemove))
    {
      toRemove, trackers := {}, clientSeqTrackers;
      var rest := candidatePool.Keys;
      assert done + IdsOf({}) == done;
      while rest != {}
        invariant Taking(f, State(), toRemove, rest, trackers)
        decreases |rest|
      {
        EarliestExists(rest);
        var key :| key in rest && forall j :: j in rest ==> j == key || Earlier(key, j);
        assert IsFirstOf(rest, key);
        if !CheckCandidate(key) {
          break;
        }
        assert TrackerOf(trackers, key.clientId).Valid();
        var tracker := CommitSeq(TrackerOf(trackers, key.clientId), key.clientSeq);
        TakeOne(f, State(), toRemove, rest, trackers, key, tracker);
        trackers := trackers[key.clientId := tracker];
        toRemove := toRemove + {key};
        rest := rest - {key};
      }
      TakenIsCommittable(f, State(), toRemove, rest, trackers);
    }

    // One turn of the loop: whether the candidate is committed.  The assertions are the source's.
    predicate CheckCandidate(key: Key)
      requires Valid() && key in candidatePool
      reads this
      ensures CheckCandidate(key) == Ready(f, State(), key)
    {
      var candidate := candidatePool[key];
      if lockTime <= key.bet || candidate.request.None? then false
      else
        var hasFastConsensus := candidate.acceptVotes >= SuperQuorum(f) || candidate.rejectVotes >= SuperQuorum(f);
        var hasSlowConsensus := candidate.slowValueReceived;
        if !(hasFastConsensus || hasSlowConsensus) then false
        else
          ReadyIsAccepted(f, State(), key);
          var accepted := if hasFastConsensus then candidate.acceptVotes >= SuperQuorum(f) else candidate.slowAccepted;
          assert hasFastConsensus && hasSlowConsensus ==> accepted == candidate.slowAccepted;
          assert accepted;
          true
    }

    method CheckCandidatesForCommit() returns (outs: seq<Out>)
      requires Valid()
      modifies this
      ensures Valid() && (State(), outs) == Commit(f, old(State())) && replicaClocks == old(replicaClocks)
      ensures |outs| == 1 && outs[0].Committed?
      ensures forall k :: k in outs[0].keys ==> k in old(candidatePool) && MayCommit(f, old(State()), k)
      ensures forall k :: IsFirst(State(), k) ==> k in old(candidatePool) && !MayCommit(f, old(State()), k)
    {
      CommittedMeaning(f, State());
      var toRemove, trackers := CollectCommittable();
      clientSeqTrackers := trackers;
      candidatePool := candidatePool - toRemove;
      clientCurrentBets := clientCurrentBets - IdsOf(toRemove);
      done := done + IdsOf(toRemove);
      return [Committed(toRemove)];
    }

    // Whether the key comes first in the pool.
    method IsBegin(key: Key) returns (first: bool)
      requires key in candidatePool
      ensures first == IsFirst(State(), key)
    {
      first := true;
      var rest := candidatePool.Keys;
      while rest != {}
        invariant rest <= candidatePool.Keys
        invariant first <==> forall k :: k in candidatePool.Keys - rest ==> k == key || Earlier(key, k)
        decreases |rest|
      {
        var k :| k in rest;
        first := first && (k == key || Earlier(key, k));
        rest := rest - {k};
      }
    }

    // The end of processRBCProposal, with the candidate's votes counted.
    method ActOnVotes(key: Key, ghost before: Replica) returns (outs: seq<Out>)
      requires key in candidatePool && Tracks(clientSeqTrackers, done)
      requires State() == before.(pool := before.pool[key := candidatePool[key]])
      requires candidatePool[key].acceptVotes >= SuperQuorum(f) ==> PoolSound(f, State())
      modifies this
      ensures (State(), outs) == OnTally(f, before, key, old(candidatePool[key])) && Tracks(clientSeqTrackers, done)
      ensures replicaClocks == old(replicaClocks)
    {
      var candidate := candidatePool[key];
      if candidate.acceptVotes >= SuperQuorum(f) {
        var first := IsBegin(key);
        if first {
          outs := CheckCandidatesForCommit();
          return;
        }
        return [];
      } else if candidate.rejectVotes >= SuperQuorum(f) {
        candidatePool := candidatePool - {key};
        clientCurrentBets := Bump(clientCurrentBets, key.Id());
        return [Rejected(key)];
      }
      var totalVotes := candidate.acceptVotes + candidate.rejectVotes;
      if totalVotes == SuperQuorum(f) && !candidate.slowPathInitiated {
        candidatePool := candidatePool[key := candidate.(slowPathInitiated := true)];
        assert candidatePool == before.pool[key := candidate.(slowPathInitiated := true)];
        var majorityAccept := candidate.acceptVotes > candidate.rejectVotes;
        return [SlowProposal(key, majorityAccept)];
      }
      return [];
    }

    method ProcessRBCProposal(senderId: nat, key: Key, accept: bool) returns (outs: seq<Out>)
      requires Valid() && senderId < NumReplicas(f)
      modifies this
      ensures Valid() && (State(), outs) == OnVote(f, old(State()), senderId, key, accept)
      ensures replicaClocks == old(replicaClocks)
    {
      ghost var before := State();
      VoteKeepsPool(f, before, senderId, key, accept);
      if IsCommitted(key) {
        return [];
      }
      if key.Id() in clientCurrentBets && clientCurrentBets[key.Id()] > key.bet {
        return [];
      }
      var candidate := if key in candidatePool then candidatePool[key] else Blank;
      if senderId in candidate.voted {
        return [];
      }
      VotedKeepsPool(f, before, senderId, key, accept);
      candidate := CountVote(candidate, senderId, accept);
      candidatePool := candidatePool[key := candidate];
      outs := ActOnVotes(key, before);
    }

    method CountVote(candidate: Candidate, senderId: nat, accept: bool) returns (counted: Candidate)
      ensures counted == Voted(candidate, senderId, accept)
    {
      counted := candidate.(voted := candidate.voted + {senderId});
      if accept {
        counted := counted.(acceptVotes := counted.acceptVotes + 1);
      } else {
        counted := counted.(rejectVotes := counted.rejectVotes + 1);
      }
    }

    // Counts the slow proposals for each decision.
    method CountProposals(candidate: Candidate) returns (acceptCount: nat, rejectCount: nat)
      ensures acceptCount == |Supporters(candidate, true)| && rejectCount == |Supporters(candidate, false)|
    {
      acceptCount, rejectCount := 0, 0;
      var proposals := candidate.slowProposals;
      ghost var seen: set<nat> := {};
      var rest := proposals.Keys;
      while rest != {}
        invariant seen <= proposals.Keys && rest == proposals.Keys - seen
        invariant acceptCount == |Supporters(candidate, true) * seen|
        invariant rejectCount == |Supporters(candidate, false) * seen|
        decreases |rest|
      {
        var s :| s in rest;
        SupportersMore(candidate, seen, s);
        if proposals[s] {
          acceptCount := acceptCount + 1;
        } else {
          rejectCount := rejectCount + 1;
        }
        seen := seen + {s};
        rest := rest - {s};
      }
      assert Supporters(candidate, true) * seen == Supporters(candidate, true);
      assert Supporters(candidate, false) * seen == Supporters(candidate, false);
    }

    method ProcessRBCSlowProposal(senderId: nat, key: Key, accept: bool) returns (outs: seq<Out>)
      requires Valid()
      modifies this
      ensures Valid() && replicaClocks == old(replicaClocks)
      ensures (State(), outs) ==
              if replicaId != leaderId then (old(State()), [])
              else OnSlowProposal(f, old(State()), senderId, key, accept)
    {
      SlowProposalKeepsPool(f, State(), senderId, key, accept);
      if replicaId != leaderId {
        return [];
      }
      if IsCommitted(key) {
        return [];
      }
      if key.Id() in clientCurrentBets && clientCurrentBets[key.Id()] > key.bet {
        return [];
      }
      var candidate := if key in candidatePool then candidatePool[key] else Blank;
      if candidate.slowValueSent {
        return [];
      }
      candidate := candidate.(slowProposals := candidate.slowProposals[senderId := accept]);
      candidatePool := candidatePool[key := candidate];
      var acceptCount, rejectCount := CountProposals(candidate);
      var decision: bool;
      if acceptCount >= f + 1 {
        decision := true;
      } else if rejectCount >= f + 1 {
        decision := false;
      } else {
        return [];
      }
      candidatePool := candidatePool[key := candidate.(slowValueSent := true)];
      assert candidatePool == old(candidatePool)[key := candidate.(slowValueSent := true)];
      return [SlowValue(key, decision)];
    }

    method ProcessRBCSlowValue(senderId: nat, key: Key, accept: bool) returns (outs: seq<Out>)
      requires Valid()
      modifies this
      ensures Valid() && replicaClocks == old(replicaClocks)
      ensures (State(), outs) ==
              if senderId != leaderId then (old(State()), []) else OnSlowValue(f, old(State()), key, accept)
    {
      SlowValueKeepsPool(f, State(), key, accept);
      if senderId != leaderId || key !in candidatePool {
        return [];
      }
      candidatePool := candidatePool[key := candidatePool[key].(slowAccepted := accept, slowValueReceived := true)];
      if accept {
        var first := IsBegin(key);
        if first {
          outs := CheckCandidatesForCommit();
          return;
        }
        return [];
      }
      candidatePool := candidatePool - {key};
      assert candidatePool == old(candidatePool) - {key};
      clientCurrentBets := Bump(clientCurrentBets, key.Id());
      return [Rejected(key)];
    }

    method SetLockTime(newLockTime: nat) returns (outs: seq<Out>)
      requires Valid()
      modifies this
      ensures Valid() && replicaClocks == old(replicaClocks)
      ensures (State(), outs) == OnLockTime(f, old(State()), newLockTime)
    {
      var oldLockTime := lockTime;
      lockTime := newLockTime;
      if newLockTime > oldLockTime {
        outs := CheckCandidatesForCommit();
        return;
      }
      return [];
    }

    // A clock of another replica; the lock time follows the clocks, and may also go back.
    method ProcessFlutterTime(senderId: nat, clockTime: nat) returns (outs: seq<Out>)
      requires Valid()
      modifies this
      ensures Valid() && replicaClocks == old(replicaClocks)[senderId := clockTime]
      ensures IsLockTime(f, replicaClocks, old(lockTime), State().lockTime)
      ensures (State(), outs) == OnLockTime(f, old(State()), State().lockTime)
    {
      replicaClocks := replicaClocks[senderId := clockTime];
      var newLockTime := ChooseLockTime(f, replicaClocks, lockTime);
      outs := SetLockTime(newLockTime);
    }
  }

  lemma SupportersMore(c: Candidate, seen: set<nat>, s: nat)
    requires s in c.slowProposals && s !in seen
    ensures |Supporters(c, true) * (seen + {s})| == |Supporters(c, true) * seen| + if c.slowProposals[s] then 1 else 0
    ensures |Supporters(c, false) * (seen + {s})| == |Supporters(c, false) * seen| + if c.slowProposals[s] then 0 else 1
  {
    if c.slowProposals[s] {
      assert Supporters(c, true) * (seen + {s}) == Supporters(c, true) * seen + {s};
      assert Supporters(c, false) * (seen + {s}) == Supporters(c, false) * seen;
    } else {
      assert Supporters(c, false) * (seen + {s}) == Supporters(c, false) * seen + {s};
      assert Supporters(c, true) * (seen + {s}) == Supporters(c, true) * seen;
    }
  }

  function TrackerOf(trackers: map<nat, Tracker>, clientId: nat): Tracker {
    if clientId in trackers then trackers[clientId] else NoTracker
  }

  ghost predicate Tracks(trackers: map<nat, Tracker>, done: set<(nat, nat)>) {
    forall c: nat :: TrackerOf(trackers, c).Valid() &&
                     forall s: nat :: TrackerOf(trackers, c).IsCommitted(s) <==> s == 0 || (c, s) in done
  }

  lemma TracksMore(trackers: map<nat, Tracker>, done: set<(nat, nat)>, key: Key, tracker: Tracker)
    requires Tracks(trackers, done) && tracker.Valid()
    requires forall t: nat ::
               tracker.IsCommitted(t) <==> TrackerOf(trackers, key.clientId).IsCommitted(t) || t == key.clientSeq
    ensures Tracks(trackers[key.clientId := tracker], done + {key.Id()})
  {
    var after := trackers[key.clientId := tracker];
    forall c: nat
      ensures TrackerOf(after, c).Valid()
      ensures forall s: nat :: TrackerOf(after, c).IsCommitted(s) <==> s == 0 || (c, s) in done + {key.Id()}
    {
      assert TrackerOf(trackers, c).Valid();
    }
  }
}
