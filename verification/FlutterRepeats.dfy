// Whether a Flutter replica commits a request only once.  A client may raise its bet, and the
// replica then drops the candidate with the current bet; but a bet that is rejected before its
// request has come is counted as the current one, and then the wrong candidate is dropped.

module FlutterRepeats {
  import opened Options
  import opened Quorums
  import opened FlutterState
  import opened FlutterAgreement
  import opened FlutterBlindReject

  // The replica has the request of this bet.
  ghost predicate Held(r: Replica, key: Key) {
    key in r.pool && r.pool[key].request.Some?
  }

  // Every request that a replica holds has its current bet, and is not committed yet.
  ghost predicate OneBet(r: Replica) {
    forall k :: Held(r, k) ==> !IsDone(r, k) && k.Id() in r.bets && r.bets[k.Id()] == k.bet
  }

  // It rejects a bet of a request that it holds under another one.
  ghost predicate Disowns(r: Replica, step: (Replica, seq<Out>)) {
    && step.1 != [] && step.1[0].Rejected?
    && exists k :: Held(r, k) && k != step.1[0].key && k.Id() == step.1[0].key.Id()
  }

  // Only requests are committed that were not, and each under one bet.
  ghost predicate CommitsNew(r: Replica, step: (Replica, seq<Out>)) {
    && r.done <= step.0.done
    && (step.1 != [] && step.1[0].Committed? ==>
          && (forall k :: k in step.1[0].keys ==> k.Id() !in r.done && k.Id() in step.0.done)
          && (forall k, l :: k in step.1[0].keys && l in step.1[0].keys && k.Id() == l.Id() ==> k == l))
  }

  ghost predicate StaysOne(r: Replica, step: (Replica, seq<Out>)) {
    OneBet(step.0) && CommitsNew(r, step)
  }

  // ----- One step

  lemma RequestStaysOne(r: Replica, key: Key, request: string, now: nat)
    requires OneBet(r)
    ensures StaysOne(r, OnRequest(r, key, request, now))
  {
    var v := OnRequest(r, key, request, now).0;
    forall k | Held(v, k) ensures !IsDone(v, k) && k.Id() in v.bets && v.bets[k.Id()] == k.bet {
      assert k == key || Held(r, k);
    }
  }

  lemma CommitStaysOne(f: nat, r: Replica)
    requires OneBet(r)
    ensures StaysOne(r, Commit(f, r))
  {
    var keys, v := Committable(f, r), Commit(f, r).0;
    CommittableIsLongestPrefix(f, r);
    forall k | k in keys ensures Held(r, k) {
      assert Ready(f, r, k);
    }
    forall k | Held(v, k) ensures !IsDone(v, k) && k.Id() in v.bets && v.bets[k.Id()] == k.bet {
      assert Held(r, k) && forall l :: l in keys ==> l.Id() != k.Id();
    }
  }

  lemma CommitIfFirstStaysOne(f: nat, r: Replica, key: Key)
    requires OneBet(r)
    ensures StaysOne(r, CommitIfFirst(f, r, key))
  {
    CommitStaysOne(f, r);
  }

  // Storing a candidate with the request that was there.
  lemma PutStaysOne(r: Replica, key: Key, c: Candidate)
    requires OneBet(r) && c.request == CandidateAt(r, key).request
    ensures OneBet(r.(pool := r.pool[key := c]))
  {
    var v := r.(pool := r.pool[key := c]);
    forall k | Held(v, k) ensures !IsDone(v, k) && k.Id() in v.bets && v.bets[k.Id()] == k.bet {
      assert Held(r, k);
    }
  }

  lemma RejectStaysOne(r: Replica, after: Replica, key: Key)
    requires OneBet(r) && after == r.(pool := after.pool)
    requires forall k :: Held(after, k) ==> Held(r, k)
    requires !Disowns(r, Reject(after, key))
    ensures StaysOne(r, Reject(after, key))
  {
    var v := Reject(after, key).0;
    forall k | Held(v, k) ensures !IsDone(v, k) && k.Id() in v.bets && v.bets[k.Id()] == k.bet {
      assert Held(r, k) && k.Id() != key.Id();
    }
  }

  lemma VoteStaysOne(f: nat, r: Replica, sender: nat, key: Key, accept: bool)
    requires OneBet(r) && !Disowns(r, OnVote(f, r, sender, key, accept))
    ensures StaysOne(r, OnVote(f, r, sender, key, accept))
  {
    if Counts(r, sender, key) {
      var c := Voted(CandidateAt(r, key), sender, accept);
      var after := r.(pool := r.pool[key := c]);
      PutStaysOne(r, key, c);
      PutStaysOne(r, key, c.(slowPathInitiated := true));
      if c.acceptVotes >= SuperQuorum(f) {
        CommitIfFirstStaysOne(f, after, key);
      } else if c.rejectVotes >= SuperQuorum(f) {
        RejectStaysOne(r, after, key);
      }
    }
  }

  lemma SlowProposalStaysOne(f: nat, r: Replica, sender: nat, key: Key, accept: bool)
    requires OneBet(r)
    ensures StaysOne(r, OnSlowProposal(f, r, sender, key, accept))
  {
    var c := CandidateAt(r, key).(slowProposals := CandidateAt(r, key).slowProposals[sender := accept]);
    PutStaysOne(r, key, c);
    PutStaysOne(r, key, c.(slowValueSent := true));
  }

  lemma SlowValueStaysOne(f: nat, r: Replica, key: Key, accept: bool)
    requires OneBet(r) && !Disowns(r, OnSlowValue(f, r, key, accept))
    ensures StaysOne(r, OnSlowValue(f, r, key, accept))
  {
    if key in r.pool && accept {
      var c := r.pool[key].(slowAccepted := true, slowValueReceived := true);
      PutStaysOne(r, key, c);
      CommitIfFirstStaysOne(f, r.(pool := r.pool[key := c]), key);
    } else if key in r.pool {
      RejectStaysOne(r, r, key);
    }
  }

  lemma LockTimeStaysOne(f: nat, r: Replica, lockTime: nat)
    requires OneBet(r)
    ensures StaysOne(r, OnLockTime(f, r, lockTime))
  {
    var v := r.(lockTime := lockTime);
    assert forall k :: Held(v, k) ==> Held(r, k);
    CommitStaysOne(f, v);
  }

  // ----- All runs

  // The replica that an event happens at, and what it does.
  function At(x: Setting, ev: Event): nat {
    if ev.SlowProposalArrives? then x.leader else ev.i
  }

  ghost function StepOf(x: Setting, w: World, ev: Event): (Replica, seq<Out>)
    requires Enabled(x, w, ev)
  {
    var r := w.replicas[At(x, ev)];
    match ev
    case RequestArrives(_, key, request, now) => OnRequest(r, key, request, now)
    case VoteArrives(_, s, key, accept) => OnVote(x.f, r, s, key, accept)
    case SlowProposalArrives(s, key, accept) => OnSlowProposal(x.f, r, s, key, accept)
    case SlowValueArrives(_, key, accept) => OnSlowValue(x.f, r, key, accept)
    case ClockArrives(_, lockTime) => OnLockTime(x.f, r, lockTime)
  }

  lemma NextRecords(x: Setting, w: World, ev: Event)
    requires Enabled(x, w, ev)
    ensures var i, step, v := At(x, ev), StepOf(x, w, ev), Next(x, w, ev);
            && v.replicas == w.replicas[i := step.0]
            && v.decided == if step.1 == [] then w.decided
                            else match step.1[0]
                                 case Committed(keys) => w.decided + DecidedBy(i, keys)
                                 case Rejected(key) => w.decided + {(i, key, false)}
                                 case _ => w.decided
  {
  }

  // A run in which no replica rejects a bet of a request that it holds under another one.
  ghost predicate CalmRun(x: Setting, events: seq<Event>, w: World) {
    if events == [] then w == Start(x)
    else
      var n := |events| - 1;
      exists v ::
        && CalmRun(x, events[..n], v) && Enabled(x, v, events[n]) && w == Next(x, v, events[n])
        && !Disowns(v.replicas[At(x, events[n])], StepOf(x, v, events[n]))
  }

  // No two bets of one request are committed at one replica.
  ghost predicate OnceAt(w: World, p: (nat, Key, bool), q: (nat, Key, bool)) {
    p.0 == q.0 && p.1.Id() == q.1.Id() && p.2 && q.2 ==> p == q
  }

  ghost predicate Once(w: World) {
    && (forall i :: i in w.replicas ==> OneBet(w.replicas[i]))
    && (forall p :: p in w.decided && p.2 ==> p.0 in w.replicas && p.1.Id() in w.replicas[p.0].done)
    && (forall p, q :: p in w.decided && q in w.decided ==> OnceAt(w, p, q))
  }

  lemma StepStaysOne(x: Setting, w: World, ev: Event)
    requires Enabled(x, w, ev) && OneBet(w.replicas[At(x, ev)])
    requires !Disowns(w.replicas[At(x, ev)], StepOf(x, w, ev))
    ensures StaysOne(w.replicas[At(x, ev)], StepOf(x, w, ev))
  {
    var r := w.replicas[At(x, ev)];
    match ev
    case RequestArrives(_, key, request, now) => RequestStaysOne(r, key, request, now);
    case VoteArrives(_, s, key, accept) => VoteStaysOne(x.f, r, s, key, accept);
    case SlowProposalArrives(s, key, accept) => SlowProposalStaysOne(x.f, r, s, key, accept);
    case SlowValueArrives(_, key, accept) => SlowValueStaysOne(x.f, r, key, accept);
    case ClockArrives(_, lockTime) => LockTimeStaysOne(x.f, r, lockTime);
  }

  lemma StepOnce(x: Setting, w: World, ev: Event)
    requires Once(w) && Enabled(x, w, ev) && !Disowns(w.replicas[At(x, ev)], StepOf(x, w, ev))
    ensures Once(Next(x, w, ev))
  {
    var i, step, v := At(x, ev), StepOf(x, w, ev), Next(x, w, ev);
    StepStaysOne(x, w, ev);
    NextRecords(x, w, ev);
    forall p, q | p in v.decided && q in v.decided ensures OnceAt(v, p, q) {
      if p in w.decided && q in w.decided {
        assert OnceAt(w, p, q);
      }
    }
  }

  // What a replica commits in such a run, it commits under one bet only.
  lemma {:induction false} CommitsOnce(x: Setting, events: seq<Event>, w: World)
    requires CalmRun(x, events, w)
    ensures Once(w)
  {
    if events != [] {
      var n := |events| - 1;
      var v :|
        && CalmRun(x, events[..n], v) && Enabled(x, v, events[n]) && w == Next(x, v, events[n])
        && !Disowns(v.replicas[At(x, events[n])], StepOf(x, v, events[n]));
      CommitsOnce(x, events[..n], v);
      StepOnce(x, v, events[n]);
    }
  }

  // In every run, no correct replica commits a request under two bets.
  ghost predicate AlwaysOnce(x: Setting) {
    forall events: seq<Event>, w: World, i: nat, k: Key, l: Key ::
      Run(x, events, w) && (i, k, true) in w.decided && (i, l, true) in w.decided && k.Id() == l.Id() ==> k == l
  }

  // ----- One replica alone

  // It never proposes: its own vote is a superquorum.
  lemma NothingProposed(x: Setting, w: World, ev: Event)
    requires x.f == 0 && Enabled(x, w, ev)
    ensures var outs := StepOf(x, w, ev).1; outs == [] || !outs[0].SlowProposal?
  {
  }

  lemma NextProposes(x: Setting, w: World, ev: Event)
    requires Enabled(x, w, ev)
    requires var outs := StepOf(x, w, ev).1; outs == [] || !outs[0].SlowProposal?
    ensures Next(x, w, ev).slows == w.slows
  {
  }

  lemma {:induction false} NoSlowPath(x: Setting, events: seq<Event>, w: World)
    requires x.f == 0 && Run(x, events, w)
    ensures w.slows == {}
  {
    if events != [] {
      var n := |events| - 1;
      var v :| Run(x, events[..n], v) && Enabled(x, v, events[n]) && w == Next(x, v, events[n]);
      NoSlowPath(x, events[..n], v);
      NothingProposed(x, v, events[n]);
      NextProposes(x, v, events[n]);
    }
  }

  // So nobody can have sent a slow value.
  lemma NoValue(x: Setting, key: Key, accept: bool)
    requires x.Valid() && x.f == 0
    ensures !ValueBacked(x, {}, key, accept)
  {
    forall senders: set<nat> | |senders| >= x.f + 1 ensures !AllMayPropose(x, {}, senders, key, accept) {
      var s :| s in senders;
      assert !MayPropose(x, {}, s, key, accept);
    }
  }

  // And it rejects only the current bet, on its own vote.
  lemma OwnVote(x: Setting, w: World, i: nat, s: nat, key: Key, accept: bool)
    requires x.Valid() && x.f == 0 && Inv(x, w) && i in w.replicas && MayVote(x, w.cast, s, key, accept)
    ensures Past(w.replicas[i], key)
  {
    assert x.faulty == {} && i == 0 && s == 0;
  }

  lemma CurrentBetRejected(f: nat, r: Replica, s: nat, key: Key, accept: bool)
    requires OneBet(r) && Past(r, key)
    ensures !Disowns(r, OnVote(f, r, s, key, accept))
  {
    if Counts(r, s, key) {
      assert r.bets[key.Id()] == key.bet;
    }
  }

  lemma AloneCalm(x: Setting, w: World, ev: Event)
    requires x.Valid() && x.f == 0 && Inv(x, w) && w.slows == {} && Enabled(x, w, ev)
    requires OneBet(w.replicas[At(x, ev)])
    ensures !Disowns(w.replicas[At(x, ev)], StepOf(x, w, ev))
  {
    match ev
    case VoteArrives(i, s, key, accept) =>
      OwnVote(x, w, i, s, key, accept);
      CurrentBetRejected(x.f, w.replicas[i], s, key, accept);
    case SlowValueArrives(_, key, accept) => NoValue(x, key, accept);
    case _ =>
  }

  lemma {:induction false} AloneCalmRun(x: Setting, events: seq<Event>, w: World)
    requires x.Valid() && x.f == 0 && Run(x, events, w)
    ensures CalmRun(x, events, w)
  {
    if events != [] {
      var n := |events| - 1;
      var v :| Run(x, events[..n], v) && Enabled(x, v, events[n]) && w == Next(x, v, events[n]);
      AloneCalmRun(x, events[..n], v);
      CommitsOnce(x, events[..n], v);
      RunKeepsInv(x, events[..n], v);
      NoSlowPath(x, events[..n], v);
      AloneCalm(x, v, events[n]);
    }
  }

  // ----- A request committed twice

  // The client's bets: the first is accepted, the second comes too late, the last is accepted.
  const FIRST := Key(10, 1, 1)
  const LATE := Key(20, 1, 1)
  const LAST := Key(30, 1, 1)

  // A replica that has the request with this bet only.
  function Alone(key: Key): Replica {
    Replica(map[key := ASKED], map[(1, 1) := key.bet], {}, 0)
  }

  // Only replica j has changed, and it has cast this vote.
  ghost predicate CastBy(w: World, v: World, j: nat, key: Key, accept: bool) {
    && j in w.replicas && v == With(w, j, Alone(key)).(cast := w.cast[(j, key) := accept])
  }

  lemma TakeBet(x: Setting, events: seq<Event>, w: World, j: nat, key: Key, accept: bool)
    returns (more: seq<Event>, v: World)
    requires Run(x, events, w) && j in w.replicas && key.Id() == (1, 1)
    requires w.replicas[j] == Fresh || exists b: nat :: b < key.bet && w.replicas[j] == Alone(Key(b, 1, 1))
    ensures Run(x, more, v) && CastBy(w, v, j, key, accept)
  {
    var r, now := w.replicas[j], if accept then key.bet else key.bet + 1;
    if r != Fresh {
      var b: nat :| b < key.bet && r == Alone(Key(b, 1, 1));
      assert r.pool - {Key(b, 1, 1)} == map[];
      assert r.bets[(1, 1) := key.bet] == map[(1, 1) := key.bet];
    }
    assert OnRequest(r, key, "q", now) == (Alone(key), [Vote(key, accept)]);
    v := With(w, j, Alone(key)).(cast := w.cast[(j, key) := accept]);
    more := Take(x, events, w, RequestArrives(j, key, "q", now), v);
  }

  ghost predicate MayVoteSo(x: Setting, w: World, j: nat) {
    MayVote(x, w.cast, j, FIRST, true) && MayVote(x, w.cast, j, LATE, false) && MayVote(x, w.cast, j, LAST, true)
  }

  lemma CastThree(x: Setting, w: World, a: World, b: World, c: World, j: nat)
    requires CastBy(w, a, j, FIRST, true) && CastBy(a, b, j, LATE, false) && CastBy(b, c, j, LAST, true)
    requires j < NumReplicas(x.f)
    ensures Besides(w, c, {j}) && MayVoteSo(x, c, j)
  {
  }

  lemma VotesSo(x: Setting, events: seq<Event>, w: World, j: nat) returns (more: seq<Event>, v: World)
    requires Run(x, events, w) && j in w.replicas && w.replicas[j] == Fresh && j < NumReplicas(x.f)
    ensures Run(x, more, v) && Besides(w, v, {j}) && MayVoteSo(x, v, j)
  {
    var a, b;
    more, a := TakeBet(x, events, w, j, FIRST, true);
    more, b := TakeBet(x, more, a, j, LATE, false);
    more, v := TakeBet(x, more, b, j, LAST, true);
    CastThree(x, w, a, b, v, j);
  }

  // These replicas get the request with all three bets.
  lemma {:induction false} AllVoteSo(x: Setting, events: seq<Event>, w: World, s: set<nat>)
    returns (more: seq<Event>, v: World)
    requires Run(x, events, w) && s <= w.replicas.Keys && s <= Replicas(NumReplicas(x.f))
    requires forall j :: j in s ==> w.replicas[j] == Fresh
    ensures Run(x, more, v) && Besides(w, v, s) && forall j :: j in s ==> MayVoteSo(x, v, j)
    decreases s
  {
    if s == {} {
      return events, w;
    }
    var j :| j in s;
    var u;
    more, u := AllVoteSo(x, events, w, s - {j});
    assert j in w.replicas.Keys - (s - {j});
    more, v := VotesSo(x, more, u, j);
    BesidesMore(w, u, v, s, j);
    forall k | k in s ensures MayVoteSo(x, v, k) {
      assert k == j || MayVoteSo(x, u, k);
    }
  }

  // ----- What one replica hears

  ghost predicate Unvoted(c: Candidate) {
    c.voted == {} && c.acceptVotes == c.rejectVotes == 0
  }

  // The candidate after equal votes of s.
  function Heard(c: Candidate, s: set<nat>, accept: bool): Candidate {
    c.(voted := s, acceptVotes := if accept then |s| else 0, rejectVotes := if accept then 0 else |s|)
  }

  function Pooled(r: Replica, key: Key, c: Candidate): Replica {
    r.(pool := r.pool[key := c])
  }

  // The replica with the votes of s on the candidate that it has, or has not yet.
  function Hearing(r: Replica, key: Key, s: set<nat>, accept: bool): Replica {
    if s == {} then r else Pooled(r, key, Heard(CandidateAt(r, key), s, accept))
  }

  ghost predicate Listens(r: Replica, key: Key) {
    !IsDone(r, key) && !IsStale(r, key) && Unvoted(CandidateAt(r, key))
  }

  lemma VoteHeard(f: nat, r: Replica, key: Key, s: set<nat>, j: nat, accept: bool)
    requires Listens(r, key) && j !in s
    ensures OnVote(f, Hearing(r, key, s, accept), j, key, accept) ==
            OnTally(f, r, key, Heard(CandidateAt(r, key), s + {j}, accept))
    ensures |s| < 4 * f ==> CountedBy(f, Hearing(r, key, s, accept), j, key, accept) == {}
  {
    HeardNext(r, key, s, j, accept);
    TallyForgets(f, Hearing(r, key, s, accept), r, key, Heard(CandidateAt(r, key), s + {j}, accept));
  }

  lemma HeardNext(r: Replica, key: Key, s: set<nat>, j: nat, accept: bool)
    requires Listens(r, key) && j !in s
    ensures var v := Hearing(r, key, s, accept);
            && Counts(v, j, key) && Voted(CandidateAt(v, key), j, accept) == Heard(CandidateAt(r, key), s + {j}, accept)
            && v == r.(pool := v.pool)
            && forall k :: k != key ==> (k in v.pool <==> k in r.pool) && (k in v.pool ==> v.pool[k] == r.pool[k])
  {
  }

  // What was in the pool for the key does not matter.
  lemma TallyForgets(f: nat, v: Replica, r: Replica, key: Key, c: Candidate)
    requires v == r.(pool := v.pool)
    requires forall k :: k != key ==> (k in v.pool <==> k in r.pool) && (k in v.pool ==> v.pool[k] == r.pool[k])
    ensures OnTally(f, v, key, c) == OnTally(f, r, key, c)
  {
    assert v.pool[key := c] == r.pool[key := c];
    assert v.pool[key := c.(slowPathInitiated := true)] == r.pool[key := c.(slowPathInitiated := true)];
  }

  lemma HeardOnly(f: nat, r: Replica, key: Key, s: set<nat>, accept: bool)
    requires Listens(r, key) && 0 < |s| <= 4 * f
    ensures OnTally(f, r, key, Heard(CandidateAt(r, key), s, accept)) == (Hearing(r, key, s, accept), [])
  {
  }

  lemma {:induction false} HearsSome(
    x: Setting, events: seq<Event>, w: World, i: nat, key: Key, s: set<nat>, accept: bool)
    returns (more: seq<Event>)
    requires Run(x, events, w) && i in w.replicas && Listens(w.replicas[i], key)
    requires (forall j :: j in s ==> MayVote(x, w.cast, j, key, accept)) && |s| <= 4 * x.f
    ensures Run(x, more, With(w, i, Hearing(w.replicas[i], key, s, accept)))
    decreases s
  {
    var r := w.replicas[i];
    if s == {} {
      assert w.replicas[i := r] == w.replicas;
      return events;
    }
    var j :| j in s;
    more := HearsSome(x, events, w, i, key, s - {j}, accept);
    assert s - {j} + {j} == s;
    var before, after := Hearing(r, key, s - {j}, accept), Hearing(r, key, s, accept);
    VoteHeard(x.f, r, key, s - {j}, j, accept);
    HeardOnly(x.f, r, key, s, accept);
    assert w.fast + {} == w.fast;
    WithTwice(w, i, before, after);
    more := Take(x, more, With(w, i, before), VoteArrives(i, j, key, accept), With(w, i, after));
  }

  // Nothing has changed but the state of replica i, and what it has decided.
  ghost predicate Turns(w: World, v: World, i: nat, r: Replica) {
    i in w.replicas && v.replicas == w.replicas[i := r] && v.cast == w.cast && w.decided <= v.decided
  }

  lemma VoteTurns(x: Setting, w: World, i: nat, j: nat, key: Key, accept: bool)
    requires Enabled(x, w, VoteArrives(i, j, key, accept))
    ensures Turns(w, Next(x, w, VoteArrives(i, j, key, accept)), i, OnVote(x.f, w.replicas[i], j, key, accept).0)
  {
  }

  lemma LastVote(x: Setting, events: seq<Event>, w: World, i: nat, key: Key, s: set<nat>, j: nat, accept: bool)
    returns (more: seq<Event>, v: World)
    requires i in w.replicas && Listens(w.replicas[i], key) && j !in s && MayVote(x, w.cast, j, key, accept)
    requires Run(x, events, With(w, i, Hearing(w.replicas[i], key, s, accept)))
    ensures Run(x, more, v)
    ensures var r := w.replicas[i];
            Turns(w, v, i, OnTally(x.f, r, key, Heard(CandidateAt(r, key), s + {j}, accept)).0)
  {
    var u, ev := With(w, i, Hearing(w.replicas[i], key, s, accept)), VoteArrives(i, j, key, accept);
    VoteHeard(x.f, w.replicas[i], key, s, j, accept);
    VoteTurns(x, u, i, j, key, accept);
    v := Next(x, u, ev);
    more := Take(x, events, u, ev, v);
  }

  // With a superquorum of equal votes.
  lemma HearsSuperquorum(x: Setting, events: seq<Event>, w: World, i: nat, key: Key, s: set<nat>, accept: bool)
    returns (more: seq<Event>, v: World)
    requires Run(x, events, w) && i in w.replicas && Listens(w.replicas[i], key)
    requires (forall j :: j in s ==> MayVote(x, w.cast, j, key, accept)) && |s| == SuperQuorum(x.f)
    ensures Run(x, more, v)
    ensures Turns(w, v, i, OnTally(x.f, w.replicas[i], key, Heard(CandidateAt(w.replicas[i], key), s, accept)).0)
  {
    var j :| j in s;
    more := HearsSome(x, events, w, i, key, s - {j}, accept);
    more, v := LastVote(x, more, w, i, key, s - {j}, j, accept);
    assert s - {j} + {j} == s;
  }

  // As long as its lock time is 0, it commits nothing.
  lemma NothingYet(f: nat, r: Replica, key: Key)
    requires r.lockTime == 0
    ensures CommitIfFirst(f, r, key).0 == r
  {
    assert Committable(f, r) == {} by {
      CommittableIsLongestPrefix(f, r);
    }
    assert r.pool - {} == r.pool && r.bets - IdsOf({}) == r.bets && r.done + IdsOf({}) == r.done;
  }

  // ----- The run

  // The replica has both bets, and 4f + 1 accepts for each.
  function BothHeard(s: set<nat>): Replica {
    var c := Heard(ASKED, s, true);
    Replica(map[FIRST := c, LAST := c], map[(1, 1) := 30], {}, 0)
  }

  // Votes of others are not changed by what replica i casts.
  lemma StillVoteSo(x: Setting, w: World, v: World, i: nat, key: Key, accept: bool, s: set<nat>)
    requires i !in s && v.cast == w.cast[(i, key) := accept] && forall j :: j in s ==> MayVoteSo(x, w, j)
    ensures forall j :: j in s ==> MayVoteSo(x, v, j)
  {
  }

  lemma FirstTally(f: nat, s: set<nat>)
    requires |s| == SuperQuorum(f)
    ensures OnTally(f, Alone(FIRST), FIRST, Heard(ASKED, s, true)).0 ==
            Pooled(Alone(FIRST), FIRST, Heard(ASKED, s, true))
  {
    NothingYet(f, Pooled(Alone(FIRST), FIRST, Heard(ASKED, s, true)), FIRST);
  }

  // It hears of the first bet.
  lemma FirstHeard(x: Setting, events: seq<Event>, w: World, i: nat, s: set<nat>)
    returns (more: seq<Event>, v: World)
    requires Run(x, events, w) && i in w.replicas && i !in s && w.replicas[i] == Fresh
    requires (forall j :: j in s ==> MayVoteSo(x, w, j)) && |s| == SuperQuorum(x.f)
    ensures Run(x, more, v) && forall j :: j in s ==> MayVoteSo(x, v, j)
    ensures i in v.replicas && v.replicas[i] == Pooled(Alone(FIRST), FIRST, Heard(ASKED, s, true))
  {
    var u;
    more, u := TakeBet(x, events, w, i, FIRST, true);
    StillVoteSo(x, w, u, i, FIRST, true, s);
    more, v := HearsSuperquorum(x, more, u, i, FIRST, s, true);
    FirstTally(x.f, s);
  }

  // It hears that the second one is rejected before it gets it, and thinks that its bet is 11.
  lemma LateRejected(x: Setting, events: seq<Event>, w: World, i: nat, s: set<nat>)
    returns (more: seq<Event>, v: World)
    requires Run(x, events, w) && i in w.replicas
    requires w.replicas[i] == Pooled(Alone(FIRST), FIRST, Heard(ASKED, s, true))
    requires (forall j :: j in s ==> MayVoteSo(x, w, j)) && |s| == SuperQuorum(x.f)
    ensures Run(x, more, v) && v.cast == w.cast && i in v.replicas
    ensures v.replicas[i] == Replica(map[FIRST := Heard(ASKED, s, true)], map[(1, 1) := 11], {}, 0)
  {
    more, v := HearsSuperquorum(x, events, w, i, LATE, s, false);
    var r := w.replicas[i];
    assert r.pool[LATE := Heard(Blank, s, false)] - {LATE} == map[FIRST := Heard(ASKED, s, true)];
    assert r.bets[(1, 1) := 11] == map[(1, 1) := 11];
  }

  // So it keeps the first one when it gets the last.
  function BothHeld(s: set<nat>): Replica {
    Replica(map[FIRST := Heard(ASKED, s, true), LAST := ASKED], map[(1, 1) := 30], {}, 0)
  }

  lemma LastArrives(s: set<nat>)
    ensures OnRequest(Replica(map[FIRST := Heard(ASKED, s, true)], map[(1, 1) := 11], {}, 0), LAST, "q", 30) ==
            (BothHeld(s), [Vote(LAST, true)])
  {
    var c := Heard(ASKED, s, true);
    var bets: map<(nat, nat), nat> := map[(1, 1) := 11];
    assert LAST.Id() == (1, 1) && bets[(1, 1) := 30] == map[(1, 1) := 30];
    assert map[FIRST := c] - {Key(11, 1, 1)} == map[FIRST := c];
    assert map[FIRST := c][LAST := ASKED] == BothHeld(s).pool;
  }

  lemma LastTally(f: nat, s: set<nat>)
    requires |s| == SuperQuorum(f)
    ensures OnTally(f, BothHeld(s), LAST, Heard(ASKED, s, true)).0 == BothHeard(s)
  {
    var after := Pooled(BothHeld(s), LAST, Heard(ASKED, s, true));
    assert after.pool == BothHeard(s).pool;
    NothingYet(f, after, LAST);
  }

  lemma LastHeard(x: Setting, events: seq<Event>, w: World, i: nat, s: set<nat>)
    returns (more: seq<Event>, v: World)
    requires Run(x, events, w) && i in w.replicas && i !in s
    requires w.replicas[i] == Replica(map[FIRST := Heard(ASKED, s, true)], map[(1, 1) := 11], {}, 0)
    requires (forall j :: j in s ==> MayVoteSo(x, w, j)) && |s| == SuperQuorum(x.f)
    ensures Run(x, more, v) && i in v.replicas && v.replicas[i] == BothHeard(s)
  {
    LastArrives(s);
    LastTally(x.f, s);
    var u := With(w, i, BothHeld(s)).(cast := w.cast[(i, LAST) := true]);
    more := Take(x, events, w, RequestArrives(i, LAST, "q", 30), u);
    more, v := HearsSuperquorum(x, more, u, i, LAST, s, true);
  }

  // When its clock has passed both, it commits both.
  lemma BothCommitted(f: nat, s: set<nat>)
    requires |s| == SuperQuorum(f)
    ensures OnLockTime(f, BothHeard(s), 31).1 == [Committed({FIRST, LAST})]
  {
    var r := BothHeard(s).(lockTime := 31);
    assert r.pool.Keys == {FIRST, LAST} && Ready(f, r, FIRST) && Ready(f, r, LAST);
    assert Reached(f, r, FIRST) && Reached(f, r, LAST);
    assert Committable(f, r) == {FIRST, LAST};
  }

  lemma CommitsTwice(x: Setting, events: seq<Event>, w: World, i: nat, s: set<nat>)
    returns (more: seq<Event>, v: World)
    requires Run(x, events, w) && i in w.replicas && w.replicas[i] == BothHeard(s) && |s| == SuperQuorum(x.f)
    ensures Run(x, more, v) && (i, FIRST, true) in v.decided && (i, LAST, true) in v.decided
  {
    BothCommitted(x.f, s);
    v := Next(x, w, ClockArrives(i, 31));
    NextRecords(x, w, ClockArrives(i, 31));
    more := Take(x, events, w, ClockArrives(i, 31), v);
    assert (i, FIRST, true) in DecidedBy(i, {FIRST, LAST}) && (i, LAST, true) in DecidedBy(i, {FIRST, LAST});
  }

  // With more than one replica, whoever is faulty, any correct replica can commit a request twice.
  lemma CanCommitTwice(x: Setting, i: nat) returns (events: seq<Event>, w: World)
    requires x.Valid() && x.f >= 1 && i in Replicas(NumReplicas(x.f)) - x.faulty
    ensures Run(x, events, w) && (i, FIRST, true) in w.decided && (i, LAST, true) in w.decided
  {
    var all := Replicas(NumReplicas(x.f));
    SubsetSize({i}, all);
    var s := SomeOf(all - {i}, SuperQuorum(x.f));
    events, w := AllVoteSo(x, [], Start(x), s - x.faulty);
    assert i in Start(x).replicas.Keys - (s - x.faulty);
    forall j | j in s ensures MayVoteSo(x, w, j) {
      assert j in x.faulty || j in s - x.faulty;
    }
    events, w := FirstHeard(x, events, w, i, s);
    events, w := LateRejected(x, events, w, i, s);
    events, w := LastHeard(x, events, w, i, s);
    events, w := CommitsTwice(x, events, w, i, s);
  }

  lemma CommitsOnceIff(x: Setting)
    requires x.Valid()
    ensures AlwaysOnce(x) <==> x.f == 0
  {
    if x.f == 0 {
      forall events: seq<Event>, w: World, i: nat, k: Key, l: Key |
        Run(x, events, w) && (i, k, true) in w.decided && (i, l, true) in w.decided && k.Id() == l.Id()
        ensures k == l
      {
        AloneCalmRun(x, events, w);
        CommitsOnce(x, events, w);
        assert OnceAt(w, (i, k, true), (i, l, true));
      }
    } else {
      var events, w := CanCommitTwice(x, x.leader);
    }
  }
}
