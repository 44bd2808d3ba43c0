// What one Flutter replica does with each message, as functions on its state
// (processes/flutter/flutter_replica.cc).  FlutterReplicas proves that the imperative code
// computes them; FlutterAgreement proves what they keep over all runs.

module FlutterState {
  import opened Options
  import opened Quorums

  // The key of the candidate pool; the pool is ordered by it.
  datatype Key = Key(bet: nat, clientId: nat, clientSeq: nat) {
    function Id(): (nat, nat) { (clientId, clientSeq) }
  }

  predicate Earlier(a: Key, b: Key) {
    || a.bet < b.bet
    || (a.bet == b.bet && a.clientId < b.clientId)
    || (a.bet == b.bet && a.clientId == b.clientId && a.clientSeq < b.clientSeq)
  }

  datatype Candidate = Candidate(
    request: Option<string>,
    acceptVotes: nat, rejectVotes: nat, voted: set<nat>,
    slowPathInitiated: bool, slowValueReceived: bool, slowAccepted: bool,
    slowValueSent: bool, slowProposals: map<nat, bool>)

  // A placeholder that tracks votes before the request arrives.
  const Blank := Candidate(None, 0, 0, {}, false, false, false, false, map[])

  // `bets` are the current bets of the clients' requests; `done` are the committed ones.
  datatype Replica = Replica(
    pool: map<Key, Candidate>, bets: map<(nat, nat), nat>, done: set<(nat, nat)>, lockTime: nat)

  const Fresh := Replica(map[], map[], {}, 0)

  // What a replica sends or decides.
  datatype Out =
    | Vote(key: Key, accept: bool)
    | SlowProposal(key: Key, accept: bool)
    | SlowValue(key: Key, accept: bool)
    | Committed(keys: set<Key>)
    | Rejected(key: Key)

  function NumReplicas(f: nat): nat { 5 * f + 1 }

  function SuperQuorum(f: nat): nat { 4 * f + 1 }

  // Sequence number 0 counts as committed from the start.
  predicate IsDone(r: Replica, key: Key) {
    key.clientSeq == 0 || key.Id() in r.done
  }

  // The client has moved on to a higher bet.
  predicate IsStale(r: Replica, key: Key) {
    key.Id() in r.bets && r.bets[key.Id()] > key.bet
  }

  function CandidateAt(r: Replica, key: Key): Candidate {
    if key in r.pool then r.pool[key] else Blank
  }

  // clientCurrentBets_[...]++, which creates an absent entry.
  function Bump(bets: map<(nat, nat), nat>, id: (nat, nat)): map<(nat, nat), nat> {
    bets[id := (if id in bets then bets[id] else 0) + 1]
  }

  // ----- Committing

  // The lock time has passed, the request is here, and there is a decision.
  predicate Ready(f: nat, r: Replica, key: Key)
    requires key in r.pool
  {
    var c := r.pool[key];
    && r.lockTime > key.bet
    && c.request.Some?
    && (c.acceptVotes >= SuperQuorum(f) || c.rejectVotes >= SuperQuorum(f) || c.slowValueReceived)
  }

  // The key and all before it are ready.
  ghost predicate Reached(f: nat, r: Replica, key: Key) {
    key in r.pool && forall k :: k in r.pool && !Earlier(key, k) ==> Ready(f, r, k)
  }

  // The longest prefix of the pool that can be committed.
  ghost function Committable(f: nat, r: Replica): set<Key> {
    set k | k in r.pool && Reached(f, r, k)
  }

  function IdsOf(keys: set<Key>): set<(nat, nat)> {
    set k | k in keys :: k.Id()
  }

  // checkCandidatesForCommit.
  ghost function Commit(f: nat, r: Replica): (Replica, seq<Out>) {
    var keys := Committable(f, r);
    (Replica(r.pool - keys, r.bets - IdsOf(keys), r.done + IdsOf(keys), r.lockTime), [Committed(keys)])
  }

  predicate IsFirst(r: Replica, key: Key) {
    key in r.pool && forall k :: k in r.pool ==> k == key || Earlier(key, k)
  }

  ghost function CommitIfFirst(f: nat, r: Replica, key: Key): (Replica, seq<Out>) {
    if IsFirst(r, key) then Commit(f, r) else (r, [])
  }

  // ----- Messages

  // initializeCandidate: a request, from the client or relayed by another replica.
  function OnRequest(r: Replica, key: Key, request: string, now: nat): (Replica, seq<Out>) {
    if IsDone(r, key) || (key.Id() in r.bets && key.bet <= r.bets[key.Id()]) then (r, [])
    else
      var pool :=
        if key.Id() in r.bets then r.pool - {Key(r.bets[key.Id()], key.clientId, key.clientSeq)} else r.pool;
      var candidate := (if key in pool then pool[key] else Blank).(request := Some(request));
      (r.(pool := pool[key := candidate], bets := r.bets[key.Id() := key.bet]), [Vote(key, now <= key.bet)])
  }

  // The candidate after a vote of a replica that has not voted yet.
  function Voted(c: Candidate, sender: nat, accept: bool): Candidate {
    c.(voted := c.voted + {sender},
       acceptVotes := c.acceptVotes + if accept then 1 else 0,
       rejectVotes := c.rejectVotes + if accept then 0 else 1)
  }

  predicate Counts(r: Replica, sender: nat, key: Key) {
    !IsDone(r, key) && !IsStale(r, key) && sender !in CandidateAt(r, key).voted
  }

  // processRBCProposal.
  ghost function OnVote(f: nat, r: Replica, sender: nat, key: Key, accept: bool): (Replica, seq<Out>) {
    if !Counts(r, sender, key) then (r, [])
    else OnTally(f, r, key, Voted(CandidateAt(r, key), sender, accept))
  }

  // What the counts of the candidate lead to.
  ghost function OnTally(f: nat, r: Replica, key: Key, c: Candidate): (Replica, seq<Out>) {
    var after := r.(pool := r.pool[key := c]);
    if c.acceptVotes >= SuperQuorum(f) then CommitIfFirst(f, after, key)
    else if c.rejectVotes >= SuperQuorum(f) then Reject(after, key)
    else if c.acceptVotes + c.rejectVotes == SuperQuorum(f) && !c.slowPathInitiated then
      (r.(pool := r.pool[key := c.(slowPathInitiated := true)]), [SlowProposal(key, c.acceptVotes > c.rejectVotes)])
    else (after, [])
  }

  function Reject(r: Replica, key: Key): (Replica, seq<Out>) {
    (r.(pool := r.pool - {key}, bets := Bump(r.bets, key.Id())), [Rejected(key)])
  }

  function Supporters(c: Candidate, accept: bool): set<nat> {
    set s | s in c.slowProposals && c.slowProposals[s] == accept
  }

  // processRBCSlowProposal, at the leader.
  function OnSlowProposal(f: nat, r: Replica, sender: nat, key: Key, accept: bool): (Replica, seq<Out>) {
    if IsDone(r, key) || IsStale(r, key) || CandidateAt(r, key).slowValueSent then (r, [])
    else
      var before := CandidateAt(r, key);
      var c := before.(slowProposals := before.slowProposals[sender := accept]);
      if |Supporters(c, true)| >= f + 1 then
        (r.(pool := r.pool[key := c.(slowValueSent := true)]), [SlowValue(key, true)])
      else if |Supporters(c, false)| >= f + 1 then
        (r.(pool := r.pool[key := c.(slowValueSent := true)]), [SlowValue(key, false)])
      else (r.(pool := r.pool[key := c]), [])
  }

  // processRBCSlowValue, from the leader.
  ghost function OnSlowValue(f: nat, r: Replica, key: Key, accept: bool): (Replica, seq<Out>) {
    if key !in r.pool then (r, [])
    else if !accept then Reject(r, key)
    else
      var c := r.pool[key].(slowAccepted := true, slowValueReceived := true);
      CommitIfFirst(f, r.(pool := r.pool[key := c]), key)
  }

  // updateLockTime: the lock time is assigned, and commits are checked if it has advanced.
  ghost function OnLockTime(f: nat, r: Replica, lockTime: nat): (Replica, seq<Out>) {
    if lockTime > r.lockTime then Commit(f, r.(lockTime := lockTime)) else (r.(lockTime := lockTime), [])
  }

  // ----- What every message keeps at one replica

  // Votes are counted once per replica, a rejected candidate is gone, and a slow value that is
  // stored is an accept.
  ghost predicate CandidateSound(f: nat, c: Candidate) {
    && c.voted <= Replicas(NumReplicas(f))
    && c.acceptVotes + c.rejectVotes == |c.voted|
    && c.rejectVotes < SuperQuorum(f)
    && (c.slowValueReceived ==> c.slowAccepted)
  }

  ghost predicate PoolSound(f: nat, r: Replica) {
    forall key :: key in r.pool ==> CandidateSound(f, r.pool[key])
  }

  // A candidate may be committed: its bet has passed, its request is here, and the decision is to
  // accept it, by votes or by the leader's value.
  predicate MayCommit(f: nat, r: Replica, key: Key)
    requires key in r.pool
  {
    var c := r.pool[key];
    && key.bet < r.lockTime && c.request.Some?
    && (c.acceptVotes >= 4 * f + 1 || (c.slowValueReceived && c.slowAccepted))
  }

  // Exactly the longest prefix of the pool that may be committed is.
  lemma CommittedMeaning(f: nat, r: Replica)
    requires PoolSound(f, r)
    ensures forall k :: k in Committable(f, r) <==>
              k in r.pool && forall j :: j in r.pool && !Earlier(k, j) ==> MayCommit(f, r, j)
    ensures forall k :: IsFirst(Commit(f, r).0, k) ==> !MayCommit(f, r, k)
    ensures forall k, j :: k in Committable(f, r) && j in r.pool - Committable(f, r) ==> k.bet <= j.bet
    ensures forall k :: k in Committable(f, r) ==> IsDone(Commit(f, r).0, k) && k.Id() !in Commit(f, r).0.bets
  {
    forall k | k in r.pool ensures Ready(f, r, k) <==> MayCommit(f, r, k) {
      assert CandidateSound(f, r.pool[k]);
    }
    CommittableIsLongestPrefix(f, r);
  }

  // The assertions of the commit loop: the decision of a candidate that is ready is to accept,
  // on the fast and on the slow path.
  lemma ReadyIsAccepted(f: nat, r: Replica, key: Key)
    requires PoolSound(f, r) && key in r.pool && Ready(f, r, key)
    ensures var c := r.pool[key];
            && (c.acceptVotes >= SuperQuorum(f) || (c.slowValueReceived && c.slowAccepted))
            && c.rejectVotes < SuperQuorum(f)
            && (c.acceptVotes >= SuperQuorum(f) && c.slowValueReceived ==> c.slowAccepted)
  {
    assert CandidateSound(f, r.pool[key]);
  }

  // No candidate gets a superquorum of both votes.
  lemma VotedSound(f: nat, c: Candidate, sender: nat, accept: bool)
    requires CandidateSound(f, c) && sender < NumReplicas(f) && sender !in c.voted
    ensures var d := Voted(c, sender, accept);
            && d.acceptVotes + d.rejectVotes == |d.voted|
            && d.voted <= Replicas(NumReplicas(f))
            && !(d.acceptVotes >= SuperQuorum(f) && d.rejectVotes >= SuperQuorum(f))
  {
    SubsetSize(c.voted + {sender}, Replicas(NumReplicas(f)));
  }

  lemma RequestKeepsPool(f: nat, r: Replica, key: Key, request: string, now: nat)
    requires PoolSound(f, r)
    ensures PoolSound(f, OnRequest(r, key, request, now).0)
  {
  }

  lemma VotedKeepsPool(f: nat, r: Replica, sender: nat, key: Key, accept: bool)
    requires PoolSound(f, r) && sender < NumReplicas(f) && Counts(r, sender, key)
    ensures var c := Voted(CandidateAt(r, key), sender, accept);
            c.acceptVotes >= SuperQuorum(f) || c.rejectVotes < SuperQuorum(f) ==>
              && PoolSound(f, r.(pool := r.pool[key := c]))
              && PoolSound(f, CommitIfFirst(f, r.(pool := r.pool[key := c]), key).0)
              && PoolSound(f, r.(pool := r.pool[key := c.(slowPathInitiated := true)]))
  {
    var c := Voted(CandidateAt(r, key), sender, accept);
    assert CandidateSound(f, CandidateAt(r, key));
    VotedSound(f, CandidateAt(r, key), sender, accept);
    if c.acceptVotes >= SuperQuorum(f) || c.rejectVotes < SuperQuorum(f) {
      PoolUpdated(f, r, key, c);
      PoolUpdated(f, r, key, c.(slowPathInitiated := true));
    }
  }

  lemma VoteKeepsPool(f: nat, r: Replica, sender: nat, key: Key, accept: bool)
    requires PoolSound(f, r) && sender < NumReplicas(f)
    ensures PoolSound(f, OnVote(f, r, sender, key, accept).0)
  {
    if Counts(r, sender, key) {
      VotedKeepsPool(f, r, sender, key, accept);
    }
  }

  lemma PoolUpdated(f: nat, r: Replica, key: Key, c: Candidate)
    requires PoolSound(f, r) && CandidateSound(f, c)
    ensures PoolSound(f, r.(pool := r.pool[key := c]))
    ensures PoolSound(f, CommitIfFirst(f, r.(pool := r.pool[key := c]), key).0)
  {
  }

  lemma SlowProposalKeepsPool(f: nat, r: Replica, sender: nat, key: Key, accept: bool)
    requires PoolSound(f, r)
    ensures PoolSound(f, OnSlowProposal(f, r, sender, key, accept).0)
  {
    assert key in r.pool ==> CandidateSound(f, r.pool[key]);
  }

  lemma SlowValueKeepsPool(f: nat, r: Replica, key: Key, accept: bool)
    requires PoolSound(f, r)
    ensures PoolSound(f, OnSlowValue(f, r, key, accept).0)
  {
    assert key in r.pool ==> CandidateSound(f, r.pool[key]);
  }

  // The committed candidates are a prefix of the pool, all ready, and the next one is not.
  lemma CommittableIsLongestPrefix(f: nat, r: Replica)
    ensures Committable(f, r) <= r.pool.Keys
    ensures forall k :: k in Committable(f, r) ==> Ready(f, r, k)
    ensures forall j, k :: k in Committable(f, r) && j in r.pool && Earlier(j, k) ==> j in Committable(f, r)
    ensures forall k :: k in r.pool - Committable(f, r) && IsFirst(Commit(f, r).0, k) ==> !Ready(f, r, k)
  {
    var keys := Committable(f, r);
    forall k | k in r.pool - keys && IsFirst(Commit(f, r).0, k) ensures !Ready(f, r, k) {
      if Ready(f, r, k) {
        forall j | j in r.pool && !Earlier(k, j) ensures Ready(f, r, j) {
          assert j == k || j in keys;
        }
        assert Reached(f, r, k);
      }
    }
  }
}
