// What Flutter's times mean over whole runs: a replica accepts a bet exactly if the request came by
// then, and commits one only after its lock time has passed it.

module FlutterTiming {
  import opened Options
  import opened Quorums
  import opened FlutterState
  import opened FlutterAgreement

  // The replica's vote is the answer to a request that it got, in time or late.
  ghost predicate VoteAnswers(events: seq<Event>, i: nat, key: Key, accept: bool) {
    exists request: string, now: nat ::
      RequestArrives(i, key, request, now) in events && (accept <==> now <= key.bet)
  }

  // The replica's clock has been past the bet.
  ghost predicate HasPassed(events: seq<Event>, i: nat, bet: nat) {
    exists t: nat :: t > bet && ClockArrives(i, t) in events
  }

  ghost predicate Timely(events: seq<Event>, w: World) {
    && (forall p :: p in w.cast ==> VoteAnswers(events, p.0, p.1, w.cast[p]))
    && (forall i :: i in w.replicas ==>
          w.replicas[i].lockTime == 0 || ClockArrives(i, w.replicas[i].lockTime) in events)
    && (forall p :: p in w.decided && p.2 ==> HasPassed(events, p.0, p.1.bet))
  }

  // A step that leaves the lock time, and commits only what lies below it.
  ghost predicate OnTime(step: (Replica, seq<Out>), lockTime: nat) {
    && step.0.lockTime == lockTime
    && (step.1 != [] && step.1[0].Committed? ==> forall k :: k in step.1[0].keys ==> k.bet < lockTime)
  }

  lemma CommitOnTime(f: nat, r: Replica)
    ensures OnTime(Commit(f, r), r.lockTime)
  {
    CommittableIsLongestPrefix(f, r);
  }

  lemma CommitIfFirstOnTime(f: nat, r: Replica, key: Key)
    ensures OnTime(CommitIfFirst(f, r, key), r.lockTime)
  {
    CommitOnTime(f, r);
  }

  lemma VoteOnTime(f: nat, r: Replica, sender: nat, key: Key, accept: bool)
    ensures OnTime(OnVote(f, r, sender, key, accept), r.lockTime)
    ensures var outs := OnVote(f, r, sender, key, accept).1; outs == [] || !outs[0].Vote?
  {
    CommitIfFirstOnTime(f, r.(pool := r.pool[key := Voted(CandidateAt(r, key), sender, accept)]), key);
  }

  lemma SlowValueOnTime(f: nat, r: Replica, key: Key, accept: bool)
    ensures OnTime(OnSlowValue(f, r, key, accept), r.lockTime)
    ensures var outs := OnSlowValue(f, r, key, accept).1; outs == [] || !outs[0].Vote?
  {
    if key in r.pool && accept {
      var c := r.pool[key].(slowAccepted := true, slowValueReceived := true);
      CommitIfFirstOnTime(f, r.(pool := r.pool[key := c]), key);
    }
  }

  lemma LockTimeOnTime(f: nat, r: Replica, lockTime: nat)
    ensures OnTime(OnLockTime(f, r, lockTime), lockTime)
    ensures var outs := OnLockTime(f, r, lockTime).1; outs == [] || !outs[0].Vote?
  {
    CommitOnTime(f, r.(lockTime := lockTime));
  }

  // What was timely stays so when there are more events.
  lemma StillTimely(events: seq<Event>, ev: Event, w: World)
    requires Timely(events, w)
    ensures Timely(events + [ev], w)
  {
    forall p | p in w.cast ensures VoteAnswers(events + [ev], p.0, p.1, w.cast[p]) {
      var request: string, now: nat :|
        RequestArrives(p.0, p.1, request, now) in events && (w.cast[p] <==> now <= p.1.bet);
      assert RequestArrives(p.0, p.1, request, now) in events + [ev];
    }
    forall p | p in w.decided && p.2 ensures HasPassed(events + [ev], p.0, p.1.bet) {
      var t: nat :| t > p.1.bet && ClockArrives(p.0, t) in events;
      assert ClockArrives(p.0, t) in events + [ev];
    }
  }

  // Recording such a step keeps a world timely.
  lemma RecordTimely(x: Setting, events: seq<Event>, w: World, i: nat, step: (Replica, seq<Out>), lockTime: nat)
    requires Timely(events, w) && i in w.replicas && OnTime(step, lockTime)
    requires lockTime == 0 || ClockArrives(i, lockTime) in events
    requires step.1 != [] && step.1[0].Vote? ==> VoteAnswers(events, i, step.1[0].key, step.1[0].accept)
    ensures Timely(events, Record(x, w, i, step))
  {
    var v := Record(x, w, i, step);
    forall p | p in v.decided && p.2 ensures HasPassed(events, p.0, p.1.bet) {
      if p !in w.decided {
        assert ClockArrives(i, lockTime) in events;
      }
    }
  }

  lemma StepTimely(x: Setting, events: seq<Event>, w: World, ev: Event)
    requires Timely(events, w) && Enabled(x, w, ev) && x.leader in w.replicas
    ensures Timely(events + [ev], Next(x, w, ev))
  {
    StillTimely(events, ev, w);
    var more := events + [ev];
    match ev
    case RequestArrives(i, key, request, now) =>
      assert ev in more;
      RecordTimely(x, more, w, i, OnRequest(w.replicas[i], key, request, now), w.replicas[i].lockTime);
    case VoteArrives(i, s, key, accept) =>
      VoteOnTime(x.f, w.replicas[i], s, key, accept);
      RecordTimely(x, more, w.(fast := w.fast + CountedBy(x.f, w.replicas[i], s, key, accept)), i,
        OnVote(x.f, w.replicas[i], s, key, accept), w.replicas[i].lockTime);
    case SlowProposalArrives(s, key, accept) =>
      RecordTimely(x, more, w, x.leader,
        OnSlowProposal(x.f, w.replicas[x.leader], s, key, accept), w.replicas[x.leader].lockTime);
    case SlowValueArrives(i, key, accept) =>
      SlowValueOnTime(x.f, w.replicas[i], key, accept);
      RecordTimely(x, more, w, i, OnSlowValue(x.f, w.replicas[i], key, accept), w.replicas[i].lockTime);
    case ClockArrives(i, lockTime) =>
      assert ev in more;
      LockTimeOnTime(x.f, w.replicas[i], lockTime);
      RecordTimely(x, more, w, i, OnLockTime(x.f, w.replicas[i], lockTime), lockTime);
  }

  // In every run, every vote of a correct replica says whether the request came by the bet, and a
  // correct replica commits only bets that its lock time has passed.
  lemma {:induction false} RunTimely(x: Setting, events: seq<Event>, w: World)
    requires x.Valid() && Run(x, events, w)
    ensures Timely(events, w)
  {
    if events != [] {
      var n := |events| - 1;
      var v :| Run(x, events[..n], v) && Enabled(x, v, events[n]) && w == Next(x, v, events[n]);
      RunTimely(x, events[..n], v);
      RunKeepsInv(x, events[..n], v);
      StepTimely(x, events[..n], v, events[n]);
      assert events[..n] + [events[n]] == events;
    }
  }

  lemma VotesInTime(x: Setting, events: seq<Event>, w: World, i: nat, key: Key)
    requires x.Valid() && Run(x, events, w) && (i, key) in w.cast
    ensures exists request: string, now: nat ::
              RequestArrives(i, key, request, now) in events && (w.cast[(i, key)] <==> now <= key.bet)
  {
    RunTimely(x, events, w);
    assert VoteAnswers(events, i, key, w.cast[(i, key)]);
  }

  lemma CommitsInTime(x: Setting, events: seq<Event>, w: World, i: nat, key: Key)
    requires x.Valid() && Run(x, events, w) && (i, key, true) in w.decided
    ensures exists t: nat :: t > key.bet && ClockArrives(i, t) in events
  {
    RunTimely(x, events, w);
    assert HasPassed(events, i, key.bet);
  }
}
