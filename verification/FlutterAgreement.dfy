// Flutter's votes as a system (processes/flutter/flutter_replica.cc): 5f + 1 replicas of which at
// most f are faulty, with a correct leader.  Faulty replicas send any vote and any slow proposal
// at any time; messages arrive in any order, any number of times, or never.

module FlutterAgreement {
  import opened Options
  import opened Quorums
  import opened FlutterState

  datatype Setting = Setting(f: nat, faulty: set<nat>, leader: nat) {
    ghost predicate Valid() {
      && faulty <= Replicas(NumReplicas(f)) && |faulty| <= f
      && leader in Replicas(NumReplicas(f)) - faulty
    }
  }

  // The correct replicas, and what they have sent, counted and decided so far.
  //   cast     the votes of correct replicas
  //   slows    the slow proposals of correct replicas
  //   values   the slow values of the leader
  //   fast     the decisions for which some correct replica has counted a superquorum of votes
  //   decided  which replica committed (true) or rejected (false) what
  //   blind    what the leader has rejected without having seen the request
  datatype World = World(
    replicas: map<nat, Replica>, cast: map<(nat, Key), bool>, slows: set<(nat, Key, bool)>,
    values: set<(Key, bool)>, fast: set<(Key, bool)>, decided: set<(nat, Key, bool)>, blind: set<Key>)

  datatype Event =
    | RequestArrives(i: nat, key: Key, request: string, now: nat)
    | VoteArrives(i: nat, sender: nat, key: Key, accept: bool)
    | SlowProposalArrives(sender: nat, key: Key, accept: bool)
    | SlowValueArrives(i: nat, key: Key, accept: bool)
    | ClockArrives(i: nat, lockTime: nat)

  ghost function Start(x: Setting): World {
    World(map i | i in Replicas(NumReplicas(x.f)) - x.faulty :: Fresh, map[], {}, {}, {}, {}, {})
  }

  // A vote is authentic: a correct sender has cast it.
  ghost predicate MayVote(x: Setting, cast: map<(nat, Key), bool>, s: nat, key: Key, accept: bool) {
    s < NumReplicas(x.f) && (s in x.faulty || ((s, key) in cast && cast[(s, key)] == accept))
  }

  ghost predicate MayPropose(x: Setting, slows: set<(nat, Key, bool)>, s: nat, key: Key, accept: bool) {
    s < NumReplicas(x.f) && (s in x.faulty || (s, key, accept) in slows)
  }

  ghost predicate Enabled(x: Setting, w: World, ev: Event) {
    match ev
    case RequestArrives(i, _, _, _) => i in w.replicas
    case VoteArrives(i, s, key, accept) => i in w.replicas && MayVote(x, w.cast, s, key, accept)
    case SlowProposalArrives(s, key, accept) => x.leader in w.replicas && MayPropose(x, w.slows, s, key, accept)
    case SlowValueArrives(i, key, accept) => i in w.replicas && (key, accept) in w.values
    case ClockArrives(i, _) => i in w.replicas
  }

  // The client of the request has reached this bet at the replica.
  predicate Seen(r: Replica, key: Key) {
    key.Id() in r.bets && r.bets[key.Id()] >= key.bet
  }

  ghost function DecidedBy(i: nat, keys: set<Key>): set<(nat, Key, bool)> {
    set k | k in keys :: (i, k, true)
  }

  // The new state of replica i and what it sent.
  ghost function Record(x: Setting, w: World, i: nat, step: (Replica, seq<Out>)): World
    requires i in w.replicas
  {
    var v := w.(replicas := w.replicas[i := step.0]);
    if step.1 == [] then v
    else
      match step.1[0]
      case Vote(key, accept) => v.(cast := w.cast[(i, key) := accept])
      case SlowProposal(key, accept) => v.(slows := w.slows + {(i, key, accept)})
      case SlowValue(key, accept) => v.(values := w.values + {(key, accept)})
      case Committed(keys) => v.(decided := w.decided + DecidedBy(i, keys))
      case Rejected(key) =>
        v.(decided := w.decided + {(i, key, false)},
           blind := w.blind + if i == x.leader && !Seen(w.replicas[i], key) then {key} else {})
  }

  // What replica r counts when the vote arrives.
  ghost function CountedBy(f: nat, r: Replica, s: nat, key: Key, accept: bool): set<(Key, bool)> {
    var c := Voted(CandidateAt(r, key), s, accept);
    if !Counts(r, s, key) then {}
    else (if c.acceptVotes >= SuperQuorum(f) then {(key, true)} else {})
         + (if c.rejectVotes >= SuperQuorum(f) then {(key, false)} else {})
  }

  ghost function Next(x: Setting, w: World, ev: Event): World
    requires Enabled(x, w, ev)
  {
    match ev
    case RequestArrives(i, key, request, now) => Record(x, w, i, OnRequest(w.replicas[i], key, request, now))
    case VoteArrives(i, s, key, accept) =>
      Record(x, w.(fast := w.fast + CountedBy(x.f, w.replicas[i], s, key, accept)), i,
             OnVote(x.f, w.replicas[i], s, key, accept))
    case SlowProposalArrives(s, key, accept) =>
      Record(x, w, x.leader, OnSlowProposal(x.f, w.replicas[x.leader], s, key, accept))
    case SlowValueArrives(i, key, accept) => Record(x, w, i, OnSlowValue(x.f, w.replicas[i], key, accept))
    case ClockArrives(i, lockTime) => Record(x, w, i, OnLockTime(x.f, w.replicas[i], lockTime))
  }

  // The events from the start are possible one after the other, and lead to w.
  ghost predicate Run(x: Setting, events: seq<Event>, w: World) {
    if events == [] then w == Start(x)
    else
      var n := |events| - 1;
      exists v :: Run(x, events[..n], v) && Enabled(x, v, events[n]) && w == Next(x, v, events[n])
  }

  // ----- Evidence

  ghost predicate AllMayVote(x: Setting, cast: map<(nat, Key), bool>, voters: set<nat>, key: Key, accept: bool) {
    voters <= Replicas(NumReplicas(x.f)) && forall s :: s in voters ==> MayVote(x, cast, s, key, accept)
  }

  ghost predicate Split(x: Setting, cast: map<(nat, Key), bool>, key: Key, yes: set<nat>, no: set<nat>) {
    yes !! no && AllMayVote(x, cast, yes, key, true) && AllMayVote(x, cast, no, key, false)
  }

  ghost predicate TalliedBy(
    x: Setting, cast: map<(nat, Key), bool>, key: Key, c: Candidate, yes: set<nat>, no: set<nat>) {
    Split(x, cast, key, yes, no) && yes + no == c.voted && |yes| == c.acceptVotes && |no| == c.rejectVotes
  }

  ghost predicate Tallied(x: Setting, cast: map<(nat, Key), bool>, key: Key, c: Candidate) {
    exists yes, no :: TalliedBy(x, cast, key, c, yes, no)
  }

  ghost predicate FastBacked(x: Setting, cast: map<(nat, Key), bool>, key: Key, accept: bool) {
    exists voters :: AllMayVote(x, cast, voters, key, accept) && |voters| >= SuperQuorum(x.f)
  }

  ghost predicate SlowBacked(x: Setting, cast: map<(nat, Key), bool>, key: Key, accept: bool) {
    exists yes, no ::
      Split(x, cast, key, yes, no) && |yes| + |no| == SuperQuorum(x.f) && (accept <==> |yes| > |no|)
  }

  ghost predicate AllMayPropose(x: Setting, slows: set<(nat, Key, bool)>, senders: set<nat>, key: Key, accept: bool) {
    forall s :: s in senders ==> MayPropose(x, slows, s, key, accept)
  }

  ghost predicate ValueBacked(x: Setting, slows: set<(nat, Key, bool)>, key: Key, accept: bool) {
    exists senders :: |senders| >= x.f + 1 && AllMayPropose(x, slows, senders, key, accept)
  }

  // ----- The quorum arguments

  // A superquorum for each decision would share a correct replica.
  lemma FastExclusive(x: Setting, cast: map<(nat, Key), bool>, key: Key)
    requires x.Valid() && FastBacked(x, cast, key, true)
    ensures !FastBacked(x, cast, key, false)
  {
    var yes :| AllMayVote(x, cast, yes, key, true) && |yes| >= SuperQuorum(x.f);
    forall no | AllMayVote(x, cast, no, key, false) ensures |no| < SuperQuorum(x.f) {
      OpposedAreFew(x, cast, key, yes, true, no);
    }
  }

  // Against a superquorum at most 2f replicas can seem to vote.
  lemma OpposedAreFew(
    x: Setting, cast: map<(nat, Key), bool>, key: Key, voters: set<nat>, accept: bool, others: set<nat>)
    requires x.Valid() && AllMayVote(x, cast, voters, key, accept) && |voters| >= SuperQuorum(x.f)
    requires AllMayVote(x, cast, others, key, !accept)
    ensures |others| <= 2 * x.f
  {
    var all := Replicas(NumReplicas(x.f));
    SplitSize(others, voters);
    SubsetSize(voters, all);
    SubsetSize(others - voters, all - voters);
    forall s | s in others * voters ensures s in x.faulty {
      assert MayVote(x, cast, s, key, accept) && MayVote(x, cast, s, key, !accept);
    }
    SubsetSize(others * voters, x.faulty);
  }

  // If some replica counts a superquorum, the majority that any correct replica proposes on the
  // slow path is the same decision.
  lemma FastDecidesSlow(x: Setting, cast: map<(nat, Key), bool>, key: Key, accept: bool, proposed: bool)
    requires x.Valid() && FastBacked(x, cast, key, accept) && SlowBacked(x, cast, key, proposed)
    ensures proposed == accept
  {
    var voters :| AllMayVote(x, cast, voters, key, accept) && |voters| >= SuperQuorum(x.f);
    var yes, no :|
      Split(x, cast, key, yes, no) && |yes| + |no| == SuperQuorum(x.f) && (proposed <==> |yes| > |no|);
    OpposedAreFew(x, cast, key, voters, accept, if accept then no else yes);
  }

  // ----- The invariant

  // What a pooled candidate at a correct replica rests on.
  ghost predicate Backed(x: Setting, w: World, key: Key, c: Candidate) {
    && CandidateSound(x.f, c)
    && Tallied(x, w.cast, key, c)
    && (c.acceptVotes >= SuperQuorum(x.f) ==> (key, true) in w.fast)
    && (c.slowValueReceived ==> (key, true) in w.values)
    && (forall s :: s in c.slowProposals ==> MayPropose(x, w.slows, s, key, c.slowProposals[s]))
  }

  // The replica will not vote on the key again.
  predicate Past(r: Replica, key: Key) {
    IsDone(r, key) || Seen(r, key)
  }

  // The leader will not send a slow value for the key again.
  predicate Closed(r: Replica, key: Key) {
    IsDone(r, key) || IsStale(r, key) || (key in r.pool && r.pool[key].slowValueSent)
  }

  ghost predicate PoolBacked(x: Setting, w: World, r: Replica) {
    forall key :: key in r.pool ==> Backed(x, w, key, r.pool[key])
  }

  ghost predicate Inv(x: Setting, w: World) {
    && w.replicas.Keys == Replicas(NumReplicas(x.f)) - x.faulty
    && (forall i :: i in w.replicas ==> PoolBacked(x, w, w.replicas[i]))
    && (forall p :: p in w.cast ==> p.0 in w.replicas && Past(w.replicas[p.0], p.1))
    && (forall p :: p in w.slows ==> p.0 in w.replicas && SlowBacked(x, w.cast, p.1, p.2))
    && (forall p :: p in w.values ==> ValueBacked(x, w.slows, p.0, p.1))
    && (forall p :: p in w.fast ==> FastBacked(x, w.cast, p.0, p.1))
    && (forall p :: p in w.decided ==> (p.1, p.2) in w.fast + w.values)
    && LeaderOnce(x, w)
  }

  // One slow value per key, except for keys that the leader has rejected blindly.
  ghost predicate LeaderOnce(x: Setting, w: World) {
    && (forall p :: p in w.values && p.0 !in w.blind ==> x.leader in w.replicas && Closed(w.replicas[x.leader], p.0))
    && (forall p, q :: p in w.values && q in w.values && p.0 == q.0 && p.0 !in w.blind ==> p.1 == q.1)
  }

  // What has been sent stays sent.
  ghost predicate Grows(w: World, v: World) {
    && (forall p :: p in w.cast ==> p in v.cast && v.cast[p] == w.cast[p])
    && w.slows <= v.slows && w.values <= v.values && w.fast <= v.fast && w.blind <= v.blind
  }

  lemma AllMayVoteGrows(x: Setting, w: World, v: World, voters: set<nat>, key: Key, accept: bool)
    requires Grows(w, v) && AllMayVote(x, w.cast, voters, key, accept)
    ensures AllMayVote(x, v.cast, voters, key, accept)
  {
    forall s | s in voters ensures MayVote(x, v.cast, s, key, accept) {
      assert MayVote(x, w.cast, s, key, accept);
    }
  }

  lemma SplitGrows(x: Setting, w: World, v: World, key: Key, yes: set<nat>, no: set<nat>)
    requires Grows(w, v) && Split(x, w.cast, key, yes, no)
    ensures Split(x, v.cast, key, yes, no)
  {
    AllMayVoteGrows(x, w, v, yes, key, true);
    AllMayVoteGrows(x, w, v, no, key, false);
  }

  lemma TalliedGrows(x: Setting, w: World, v: World, key: Key, c: Candidate)
    requires Grows(w, v) && Tallied(x, w.cast, key, c)
    ensures Tallied(x, v.cast, key, c)
  {
    var yes, no :| TalliedBy(x, w.cast, key, c, yes, no);
    SplitGrows(x, w, v, key, yes, no);
    assert TalliedBy(x, v.cast, key, c, yes, no);
  }

  lemma BackedGrows(x: Setting, w: World, v: World, key: Key, c: Candidate)
    requires Grows(w, v) && Backed(x, w, key, c)
    ensures Backed(x, v, key, c)
  {
    TalliedGrows(x, w, v, key, c);
    forall s | s in c.slowProposals ensures MayPropose(x, v.slows, s, key, c.slowProposals[s]) {
      assert MayPropose(x, w.slows, s, key, c.slowProposals[s]);
    }
  }

  lemma FastGrows(x: Setting, w: World, v: World, key: Key, accept: bool)
    requires Grows(w, v) && FastBacked(x, w.cast, key, accept)
    ensures FastBacked(x, v.cast, key, accept)
  {
    var voters :| AllMayVote(x, w.cast, voters, key, accept) && |voters| >= SuperQuorum(x.f);
    AllMayVoteGrows(x, w, v, voters, key, accept);
  }

  lemma SlowGrows(x: Setting, w: World, v: World, key: Key, accept: bool)
    requires Grows(w, v) && SlowBacked(x, w.cast, key, accept)
    ensures SlowBacked(x, v.cast, key, accept)
  {
    var yes, no :|
      Split(x, w.cast, key, yes, no) && |yes| + |no| == SuperQuorum(x.f) && (accept <==> |yes| > |no|);
    SplitGrows(x, w, v, key, yes, no);
  }

  lemma ValueGrows(x: Setting, w: World, v: World, key: Key, accept: bool)
    requires Grows(w, v) && ValueBacked(x, w.slows, key, accept)
    ensures ValueBacked(x, v.slows, key, accept)
  {
    var senders :| |senders| >= x.f + 1 && AllMayPropose(x, w.slows, senders, key, accept);
    forall s | s in senders ensures MayPropose(x, v.slows, s, key, accept) {
      assert MayPropose(x, w.slows, s, key, accept);
    }
    assert AllMayPropose(x, v.slows, senders, key, accept);
  }

  // ----- What one replica's step has to show

  // At every key the replica moves forward; a key that was closed stays closed unless it is
  // rejected blindly.
  ghost predicate Advances(r: Replica, step: (Replica, seq<Out>), key: Key) {
    && (Past(r, key) ==> Past(step.0, key))
    && (Closed(r, key) ==> Closed(step.0, key) || (step.1 == [Rejected(key)] && !Seen(r, key)))
  }

  // What it sends or decides is justified.
  ghost predicate Justified(x: Setting, w: World, i: nat, step: (Replica, seq<Out>))
    requires i in w.replicas
  {
    step.1 == [] ||
    (|step.1| == 1 &&
     match step.1[0]
     case Vote(key, accept) => (i, key) !in w.cast && Past(step.0, key)
     case SlowProposal(key, accept) => SlowBacked(x, w.cast, key, accept)
     case SlowValue(key, accept) =>
       i == x.leader && ValueBacked(x, w.slows, key, accept) && !Closed(w.replicas[i], key) && Closed(step.0, key)
     case Committed(keys) => forall k :: k in keys ==> (k, true) in w.fast + w.values
     case Rejected(key) => (key, false) in w.fast + w.values)
  }

  lemma RecordGrows(x: Setting, w: World, i: nat, step: (Replica, seq<Out>))
    requires i in w.replicas && Justified(x, w, i, step)
    ensures Grows(w, Record(x, w, i, step))
  {
  }

  ghost predicate GoodStep(x: Setting, w: World, i: nat, step: (Replica, seq<Out>)) {
    && i in w.replicas
    && Justified(x, w, i, step)
    && (forall key :: Advances(w.replicas[i], step, key))
    && PoolBacked(x, Record(x, w, i, step), step.0)
  }

  lemma KeepsPools(x: Setting, w: World, i: nat, step: (Replica, seq<Out>))
    requires Inv(x, w) && GoodStep(x, w, i, step)
    ensures var v := Record(x, w, i, step);
            forall j :: j in v.replicas ==> PoolBacked(x, v, v.replicas[j])
  {
    var v := Record(x, w, i, step);
    RecordGrows(x, w, i, step);
    forall j | j in v.replicas ensures PoolBacked(x, v, v.replicas[j]) {
      if j != i {
        assert PoolBacked(x, w, w.replicas[j]);
        forall key | key in w.replicas[j].pool ensures Backed(x, v, key, w.replicas[j].pool[key]) {
          BackedGrows(x, w, v, key, w.replicas[j].pool[key]);
        }
      }
    }
  }

  lemma KeepsCast(x: Setting, w: World, i: nat, step: (Replica, seq<Out>))
    requires Inv(x, w) && GoodStep(x, w, i, step)
    ensures var v := Record(x, w, i, step);
            forall p :: p in v.cast ==> p.0 in v.replicas && Past(v.replicas[p.0], p.1)
  {
    var v := Record(x, w, i, step);
    forall p | p in v.cast ensures p.0 in v.replicas && Past(v.replicas[p.0], p.1) {
      assert Advances(w.replicas[i], step, p.1);
    }
  }

  lemma KeepsEvidence(x: Setting, w: World, i: nat, step: (Replica, seq<Out>))
    requires Inv(x, w) && GoodStep(x, w, i, step)
    ensures var v := Record(x, w, i, step);
            && (forall p :: p in v.slows ==> p.0 in v.replicas && SlowBacked(x, v.cast, p.1, p.2))
            && (forall p :: p in v.values ==> ValueBacked(x, v.slows, p.0, p.1))
            && (forall p :: p in v.fast ==> FastBacked(x, v.cast, p.0, p.1))
            && (forall p :: p in v.decided ==> (p.1, p.2) in v.fast + v.values)
  {
    var v := Record(x, w, i, step);
    RecordGrows(x, w, i, step);
    forall p | p in v.slows ensures p.0 in v.replicas && SlowBacked(x, v.cast, p.1, p.2) {
      SlowGrows(x, w, v, p.1, p.2);
    }
    forall p | p in v.values ensures ValueBacked(x, v.slows, p.0, p.1) {
      ValueGrows(x, w, v, p.0, p.1);
    }
    forall p | p in v.fast ensures FastBacked(x, v.cast, p.0, p.1) {
      FastGrows(x, w, v, p.0, p.1);
    }
  }

  lemma KeepsClosed(x: Setting, w: World, i: nat, step: (Replica, seq<Out>), p: (Key, bool))
    requires x.leader in w.replicas && LeaderOnce(x, w) && i in w.replicas && Justified(x, w, i, step)
    requires Advances(w.replicas[i], step, p.0)
    requires p in Record(x, w, i, step).values && p.0 !in Record(x, w, i, step).blind
    ensures Closed(Record(x, w, i, step).replicas[x.leader], p.0)
    ensures p !in w.values ==> !Closed(w.replicas[x.leader], p.0) && step.1 == [SlowValue(p.0, p.1)]
  {
  }

  lemma KeepsLeaderOnce(x: Setting, w: World, i: nat, step: (Replica, seq<Out>))
    requires x.leader in w.replicas && LeaderOnce(x, w) && i in w.replicas && Justified(x, w, i, step)
    requires forall key :: Advances(w.replicas[i], step, key)
    ensures LeaderOnce(x, Record(x, w, i, step))
  {
    var v := Record(x, w, i, step);
    forall p | p in v.values && p.0 !in v.blind
      ensures x.leader in v.replicas && Closed(v.replicas[x.leader], p.0)
      ensures p !in w.values ==> !Closed(w.replicas[x.leader], p.0) && step.1 == [SlowValue(p.0, p.1)]
    {
      assert Advances(w.replicas[i], step, p.0);
      KeepsClosed(x, w, i, step, p);
    }
  }

  lemma RecordKeeps(x: Setting, w: World, i: nat, step: (Replica, seq<Out>))
    requires x.Valid() && Inv(x, w) && GoodStep(x, w, i, step)
    ensures Inv(x, Record(x, w, i, step))
  {
    KeepsPools(x, w, i, step);
    KeepsCast(x, w, i, step);
    KeepsEvidence(x, w, i, step);
    KeepsLeaderOnce(x, w, i, step);
  }

  // ----- Steps are good

  lemma BlankBacked(x: Setting, w: World, key: Key)
    ensures Backed(x, w, key, Blank)
  {
    assert TalliedBy(x, w.cast, key, Blank, {}, {});
  }

  lemma CandidateAtBacked(x: Setting, w: World, r: Replica, key: Key)
    requires PoolBacked(x, w, r)
    ensures Backed(x, w, key, CandidateAt(r, key))
  {
    BlankBacked(x, w, key);
  }

  lemma TalliedByYes(
    x: Setting, cast: map<(nat, Key), bool>, key: Key, c: Candidate, s: nat, yes: set<nat>, no: set<nat>)
    requires TalliedBy(x, cast, key, c, yes, no) && MayVote(x, cast, s, key, true) && s !in c.voted
    ensures TalliedBy(x, cast, key, Voted(c, s, true), yes + {s}, no)
  {
    AllMayVoteMore(x, cast, yes, key, true, s);
    UnionMore(yes, no, c.voted, s);
  }

  lemma TalliedByNo(
    x: Setting, cast: map<(nat, Key), bool>, key: Key, c: Candidate, s: nat, yes: set<nat>, no: set<nat>)
    requires TalliedBy(x, cast, key, c, yes, no) && MayVote(x, cast, s, key, false) && s !in c.voted
    ensures TalliedBy(x, cast, key, Voted(c, s, false), yes, no + {s})
  {
    AllMayVoteMore(x, cast, no, key, false, s);
    UnionMore(no, yes, c.voted, s);
    assert yes + (no + {s}) == no + {s} + yes;
  }

  lemma UnionMore(a: set<nat>, b: set<nat>, all: set<nat>, s: nat)
    requires a + b == all && a !! b && s !in all
    ensures a + {s} + b == all + {s} && a + {s} !! b && |a + {s}| == |a| + 1
  {
  }

  lemma AllMayVoteMore(x: Setting, cast: map<(nat, Key), bool>, voters: set<nat>, key: Key, accept: bool, s: nat)
    requires AllMayVote(x, cast, voters, key, accept) && MayVote(x, cast, s, key, accept)
    ensures AllMayVote(x, cast, voters + {s}, key, accept)
  {
  }

  lemma TalliedMore(x: Setting, cast: map<(nat, Key), bool>, key: Key, c: Candidate, s: nat, accept: bool)
    requires Tallied(x, cast, key, c) && MayVote(x, cast, s, key, accept) && s !in c.voted
    ensures Tallied(x, cast, key, Voted(c, s, accept))
  {
    var yes, no :| TalliedBy(x, cast, key, c, yes, no);
    if accept {
      TalliedByYes(x, cast, key, c, s, yes, no);
    } else {
      TalliedByNo(x, cast, key, c, s, yes, no);
    }
  }

  lemma TallyBacksFast(x: Setting, cast: map<(nat, Key), bool>, key: Key, c: Candidate, accept: bool)
    requires Tallied(x, cast, key, c)
    requires (if accept then c.acceptVotes else c.rejectVotes) >= SuperQuorum(x.f)
    ensures FastBacked(x, cast, key, accept)
  {
    var yes, no :| TalliedBy(x, cast, key, c, yes, no);
    assert AllMayVote(x, cast, if accept then yes else no, key, accept);
  }

  lemma TallyBacksSlow(x: Setting, cast: map<(nat, Key), bool>, key: Key, c: Candidate)
    requires Tallied(x, cast, key, c) && c.acceptVotes + c.rejectVotes == SuperQuorum(x.f)
    ensures SlowBacked(x, cast, key, c.acceptVotes > c.rejectVotes)
  {
    var yes, no :| TalliedBy(x, cast, key, c, yes, no);
  }

  // Committing is justified, and moves every key forward.
  lemma CommitJustified(x: Setting, w: World, r: Replica)
    requires PoolBacked(x, w, r)
    ensures forall k :: k in Committable(x.f, r) ==> (k, true) in w.fast + w.values
  {
    CommittableIsLongestPrefix(x.f, r);
    forall k | k in Committable(x.f, r) ensures (k, true) in w.fast + w.values {
      assert Backed(x, w, k, r.pool[k]);
      assert Ready(x.f, r, k);
    }
  }

  lemma CommitAdvances(f: nat, r: Replica, key: Key)
    ensures Past(r, key) ==> Past(Commit(f, r).0, key)
    ensures Closed(r, key) ==> Closed(Commit(f, r).0, key)
  {
    var keys := Committable(f, r);
    if key in keys {
      assert key.Id() in IdsOf(keys);
    }
  }

  // Storing a candidate that still counts as answered moves every key forward.
  lemma StoreAdvances(r: Replica, key: Key, c: Candidate, k: Key)
    requires CandidateAt(r, key).slowValueSent ==> c.slowValueSent
    ensures var after := r.(pool := r.pool[key := c]);
            (Past(r, k) ==> Past(after, k)) && (Closed(r, k) ==> Closed(after, k))
  {
  }

  lemma RejectAdvances(r: Replica, key: Key, k: Key)
    ensures Advances(r, Reject(r, key), k)
  {
  }

  lemma PoolStored(x: Setting, w: World, r: Replica, key: Key, c: Candidate)
    requires PoolBacked(x, w, r) && Backed(x, w, key, c)
    ensures PoolBacked(x, w, r.(pool := r.pool[key := c]))
  {
  }

  // Storing a candidate, and committing if it comes first, is a good step.
  lemma StoreOrCommitGood(x: Setting, w: World, i: nat, key: Key, c: Candidate)
    requires i in w.replicas && PoolBacked(x, w, w.replicas[i]) && Backed(x, w, key, c)
    requires CandidateAt(w.replicas[i], key).slowValueSent ==> c.slowValueSent
    ensures var after := w.replicas[i].(pool := w.replicas[i].pool[key := c]);
            GoodStep(x, w, i, (after, [])) && GoodStep(x, w, i, CommitIfFirst(x.f, after, key))
  {
    var r := w.replicas[i];
    var after := r.(pool := r.pool[key := c]);
    PoolStored(x, w, r, key, c);
    forall k ensures Advances(r, (after, []), k) {
      StoreAdvances(r, key, c, k);
    }
    CommitJustified(x, w, after);
    forall k ensures Advances(r, CommitIfFirst(x.f, after, key), k) {
      StoreAdvances(r, key, c, k);
      CommitAdvances(x.f, after, k);
    }
    SamePools(x, w, i, (after, []));
    SamePools(x, w, i, CommitIfFirst(x.f, after, key));
  }

  // The pool stays backed in the world that the step leads to.
  lemma SamePools(x: Setting, w: World, i: nat, step: (Replica, seq<Out>))
    requires i in w.replicas && Justified(x, w, i, step) && PoolBacked(x, w, step.0)
    ensures PoolBacked(x, Record(x, w, i, step), step.0)
  {
    var v := Record(x, w, i, step);
    RecordGrows(x, w, i, step);
    forall key | key in step.0.pool ensures Backed(x, v, key, step.0.pool[key]) {
      BackedGrows(x, w, v, key, step.0.pool[key]);
    }
  }

  lemma RequestAdvances(r: Replica, key: Key, request: string, now: nat, k: Key)
    ensures Advances(r, OnRequest(r, key, request, now), k)
  {
  }

  lemma RequestPool(x: Setting, w: World, r: Replica, key: Key, request: string, now: nat)
    requires PoolBacked(x, w, r)
    ensures PoolBacked(x, w, OnRequest(r, key, request, now).0)
  {
    CandidateAtBacked(x, w, r, key);
    BlankBacked(x, w, key);
    RequestBacked(x, w, key, CandidateAt(r, key), request);
    RequestBacked(x, w, key, Blank, request);
  }

  lemma RequestBacked(x: Setting, w: World, key: Key, c: Candidate, request: string)
    requires Backed(x, w, key, c)
    ensures Backed(x, w, key, c.(request := Some(request)))
  {
    var yes, no :| TalliedBy(x, w.cast, key, c, yes, no);
    assert TalliedBy(x, w.cast, key, c.(request := Some(request)), yes, no);
  }

  lemma RequestGood(x: Setting, w: World, i: nat, key: Key, request: string, now: nat)
    requires Inv(x, w) && i in w.replicas
    ensures GoodStep(x, w, i, OnRequest(w.replicas[i], key, request, now))
  {
    var r := w.replicas[i];
    var step := OnRequest(r, key, request, now);
    assert PoolBacked(x, w, r);
    RequestPool(x, w, r, key, request, now);
    forall k ensures Advances(r, step, k) {
      RequestAdvances(r, key, request, now, k);
    }
    if (i, key) in w.cast {
      assert Past(r, key);
    }
    SamePools(x, w, i, step);
  }

  lemma FastMore(x: Setting, w: World, more: set<(Key, bool)>)
    requires Inv(x, w) && forall p :: p in more ==> FastBacked(x, w.cast, p.0, p.1)
    ensures Inv(x, w.(fast := w.fast + more))
  {
    var v := w.(fast := w.fast + more);
    forall j | j in w.replicas ensures PoolBacked(x, v, w.replicas[j]) {
      assert PoolBacked(x, w, w.replicas[j]);
      forall k | k in w.replicas[j].pool ensures Backed(x, v, k, w.replicas[j].pool[k]) {
        BackedGrows(x, w, v, k, w.replicas[j].pool[k]);
      }
    }
  }

  lemma CountedBacked(x: Setting, w: World, r: Replica, s: nat, key: Key, accept: bool)
    requires PoolBacked(x, w, r) && MayVote(x, w.cast, s, key, accept)
    ensures forall p :: p in CountedBy(x.f, r, s, key, accept) ==> FastBacked(x, w.cast, p.0, p.1)
  {
    if Counts(r, s, key) {
      CandidateAtBacked(x, w, r, key);
      TalliedMore(x, w.cast, key, CandidateAt(r, key), s, accept);
      var c := Voted(CandidateAt(r, key), s, accept);
      forall p | p in CountedBy(x.f, r, s, key, accept) ensures FastBacked(x, w.cast, p.0, p.1) {
        TallyBacksFast(x, w.cast, key, c, p.1);
      }
    }
  }

  lemma CountedInv(x: Setting, w: World, i: nat, s: nat, key: Key, accept: bool)
    requires Inv(x, w) && i in w.replicas && MayVote(x, w.cast, s, key, accept)
    ensures Inv(x, w.(fast := w.fast + CountedBy(x.f, w.replicas[i], s, key, accept)))
  {
    assert PoolBacked(x, w, w.replicas[i]);
    CountedBacked(x, w, w.replicas[i], s, key, accept);
    FastMore(x, w, CountedBy(x.f, w.replicas[i], s, key, accept));
  }

  // The candidate after the vote, when it stays in the pool.
  lemma VotedBacked(x: Setting, w: World, r: Replica, s: nat, key: Key, accept: bool)
    requires PoolBacked(x, w, r) && MayVote(x, w.cast, s, key, accept) && Counts(r, s, key)
    requires CountedBy(x.f, r, s, key, accept) <= w.fast
    ensures var c := Voted(CandidateAt(r, key), s, accept);
            && Tallied(x, w.cast, key, c)
            && (c.rejectVotes < SuperQuorum(x.f) || c.acceptVotes >= SuperQuorum(x.f) ==>
                  Backed(x, w, key, c) && Backed(x, w, key, c.(slowPathInitiated := true)))
  {
    var c := Voted(CandidateAt(r, key), s, accept);
    CandidateAtBacked(x, w, r, key);
    TalliedMore(x, w.cast, key, CandidateAt(r, key), s, accept);
    VotedSound(x.f, CandidateAt(r, key), s, accept);
    var yes, no :| TalliedBy(x, w.cast, key, c, yes, no);
    assert TalliedBy(x, w.cast, key, c.(slowPathInitiated := true), yes, no);
  }

  lemma VoteGood(x: Setting, w: World, i: nat, s: nat, key: Key, accept: bool)
    requires Inv(x, w) && i in w.replicas && MayVote(x, w.cast, s, key, accept)
    requires CountedBy(x.f, w.replicas[i], s, key, accept) <= w.fast
    ensures GoodStep(x, w, i, OnVote(x.f, w.replicas[i], s, key, accept))
  {
    var r := w.replicas[i];
    var step := OnVote(x.f, r, s, key, accept);
    assert PoolBacked(x, w, r);
    if !Counts(r, s, key) {
      SamePools(x, w, i, step);
      return;
    }
    var c := Voted(CandidateAt(r, key), s, accept);
    VotedBacked(x, w, r, s, key, accept);
    if c.acceptVotes >= SuperQuorum(x.f) {
      StoreOrCommitGood(x, w, i, key, c);
    } else if c.rejectVotes >= SuperQuorum(x.f) {
      RejectGood(x, w, i, r.(pool := r.pool[key := c]), key, c);
    } else if c.acceptVotes + c.rejectVotes == SuperQuorum(x.f) && !c.slowPathInitiated {
      TallyBacksSlow(x, w.cast, key, c);
      StoreOrCommitGood(x, w, i, key, c.(slowPathInitiated := true));
      ProposeGood(x, w, i, step);
    } else {
      StoreOrCommitGood(x, w, i, key, c);
    }
  }

  // Sending a justified slow proposal along does not change what a step keeps.
  lemma ProposeGood(x: Setting, w: World, i: nat, step: (Replica, seq<Out>))
    requires GoodStep(x, w, i, (step.0, []))
    requires |step.1| == 1 && step.1[0].SlowProposal? && Justified(x, w, i, step)
    ensures GoodStep(x, w, i, step)
  {
    var plain := (step.0, []);
    var v, u := Record(x, w, i, step), Record(x, w, i, plain);
    forall key ensures Advances(w.replicas[i], step, key) {
      assert Advances(w.replicas[i], plain, key);
    }
    assert PoolBacked(x, u, step.0);
    forall key | key in step.0.pool ensures Backed(x, v, key, step.0.pool[key]) {
      BackedGrows(x, u, v, key, step.0.pool[key]);
    }
  }

  lemma RejectGood(x: Setting, w: World, i: nat, after: Replica, key: Key, c: Candidate)
    requires i in w.replicas && PoolBacked(x, w, w.replicas[i]) && (key, false) in w.fast + w.values
    requires after == w.replicas[i].(pool := w.replicas[i].pool[key := c])
    ensures GoodStep(x, w, i, Reject(after, key))
  {
    var r := w.replicas[i];
    var step := Reject(after, key);
    assert step.0.pool == r.pool - {key};
    assert step == Reject(r, key);
    forall k ensures Advances(r, step, k) {
      RejectAdvances(r, key, k);
    }
    SamePools(x, w, i, step);
  }

  // The leader's candidate after a slow proposal.
  function Proposed(c: Candidate, s: nat, accept: bool): Candidate {
    c.(slowProposals := c.slowProposals[s := accept])
  }

  lemma ProposedBacked(x: Setting, w: World, key: Key, c: Candidate, s: nat, accept: bool)
    requires Backed(x, w, key, c) && MayPropose(x, w.slows, s, key, accept)
    ensures Backed(x, w, key, Proposed(c, s, accept))
    ensures Backed(x, w, key, Proposed(c, s, accept).(slowValueSent := true))
  {
    var d := Proposed(c, s, accept);
    var yes, no :| TalliedBy(x, w.cast, key, c, yes, no);
    assert TalliedBy(x, w.cast, key, d, yes, no);
    assert TalliedBy(x, w.cast, key, d.(slowValueSent := true), yes, no);
  }

  lemma SupportBacksValue(x: Setting, w: World, key: Key, c: Candidate, accept: bool)
    requires Backed(x, w, key, c) && |Supporters(c, accept)| >= x.f + 1
    ensures ValueBacked(x, w.slows, key, accept)
  {
    assert AllMayPropose(x, w.slows, Supporters(c, accept), key, accept);
  }

  // Storing the candidate, and sending the value that it supports if there is one.
  lemma AnswerGood(x: Setting, w: World, key: Key, c: Candidate, outs: seq<Out>)
    requires x.leader in w.replicas && PoolBacked(x, w, w.replicas[x.leader]) && Backed(x, w, key, c)
    requires !Closed(w.replicas[x.leader], key)
    requires outs == [] || (|outs| == 1 && outs[0].SlowValue? && outs[0].key == key && c.slowValueSent
                            && ValueBacked(x, w.slows, key, outs[0].accept))
    ensures GoodStep(x, w, x.leader, (w.replicas[x.leader].(pool := w.replicas[x.leader].pool[key := c]), outs))
  {
    var r := w.replicas[x.leader];
    var step := (r.(pool := r.pool[key := c]), outs);
    PoolStored(x, w, r, key, c);
    forall k ensures Advances(r, step, k) {
      StoreAdvances(r, key, c, k);
    }
    SamePools(x, w, x.leader, step);
  }

  lemma SlowProposalGood(x: Setting, w: World, s: nat, key: Key, accept: bool)
    requires x.Valid() && Inv(x, w) && MayPropose(x, w.slows, s, key, accept)
    ensures GoodStep(x, w, x.leader, OnSlowProposal(x.f, w.replicas[x.leader], s, key, accept))
  {
    var r := w.replicas[x.leader];
    assert PoolBacked(x, w, r);
    if IsDone(r, key) || IsStale(r, key) || CandidateAt(r, key).slowValueSent {
      SamePools(x, w, x.leader, (r, []));
      return;
    }
    var c := Proposed(CandidateAt(r, key), s, accept);
    CandidateAtBacked(x, w, r, key);
    ProposedBacked(x, w, key, CandidateAt(r, key), s, accept);
    if |Supporters(c, true)| >= x.f + 1 {
      SupportBacksValue(x, w, key, c, true);
      AnswerGood(x, w, key, c.(slowValueSent := true), [SlowValue(key, true)]);
    } else if |Supporters(c, false)| >= x.f + 1 {
      SupportBacksValue(x, w, key, c, false);
      AnswerGood(x, w, key, c.(slowValueSent := true), [SlowValue(key, false)]);
    } else {
      AnswerGood(x, w, key, c, []);
    }
  }

  lemma SlowValueGood(x: Setting, w: World, i: nat, key: Key, accept: bool)
    requires Inv(x, w) && i in w.replicas && (key, accept) in w.values
    ensures GoodStep(x, w, i, OnSlowValue(x.f, w.replicas[i], key, accept))
  {
    var r := w.replicas[i];
    assert PoolBacked(x, w, r);
    if key !in r.pool {
      SamePools(x, w, i, (r, []));
    } else if !accept {
      assert r.pool == r.pool[key := r.pool[key]];
      RejectGood(x, w, i, r, key, r.pool[key]);
    } else {
      var c := r.pool[key].(slowAccepted := true, slowValueReceived := true);
      assert Backed(x, w, key, r.pool[key]);
      var yes, no :| TalliedBy(x, w.cast, key, r.pool[key], yes, no);
      assert TalliedBy(x, w.cast, key, c, yes, no);
      StoreOrCommitGood(x, w, i, key, c);
    }
  }

  lemma ClockGood(x: Setting, w: World, i: nat, lockTime: nat)
    requires Inv(x, w) && i in w.replicas
    ensures GoodStep(x, w, i, OnLockTime(x.f, w.replicas[i], lockTime))
  {
    var r := w.replicas[i];
    var after := r.(lockTime := lockTime);
    var step := OnLockTime(x.f, r, lockTime);
    assert PoolBacked(x, w, r);
    CommitJustified(x, w, after);
    forall k ensures Advances(r, step, k) {
      CommitAdvances(x.f, after, k);
    }
    SamePools(x, w, i, step);
  }

  // ----- Main results

  lemma StepKeepsInv(x: Setting, w: World, ev: Event)
    requires x.Valid() && Inv(x, w) && Enabled(x, w, ev)
    ensures Inv(x, Next(x, w, ev))
  {
    match ev
    case RequestArrives(i, key, request, now) =>
      RequestGood(x, w, i, key, request, now);
      RecordKeeps(x, w, i, OnRequest(w.replicas[i], key, request, now));
    case VoteArrives(i, s, key, accept) =>
      CountedInv(x, w, i, s, key, accept);
      var v := w.(fast := w.fast + CountedBy(x.f, w.replicas[i], s, key, accept));
      VoteGood(x, v, i, s, key, accept);
      RecordKeeps(x, v, i, OnVote(x.f, w.replicas[i], s, key, accept));
    case SlowProposalArrives(s, key, accept) =>
      SlowProposalGood(x, w, s, key, accept);
      RecordKeeps(x, w, x.leader, OnSlowProposal(x.f, w.replicas[x.leader], s, key, accept));
    case SlowValueArrives(i, key, accept) =>
      SlowValueGood(x, w, i, key, accept);
      RecordKeeps(x, w, i, OnSlowValue(x.f, w.replicas[i], key, accept));
    case ClockArrives(i, lockTime) =>
      ClockGood(x, w, i, lockTime);
      RecordKeeps(x, w, i, OnLockTime(x.f, w.replicas[i], lockTime));
  }

  lemma {:induction false} RunKeepsInv(x: Setting, events: seq<Event>, w: World)
    requires x.Valid() && Run(x, events, w)
    ensures Inv(x, w)
  {
    if events != [] {
      var n := |events| - 1;
      var v :| Run(x, events[..n], v) && Enabled(x, v, events[n]) && w == Next(x, v, events[n]);
      RunKeepsInv(x, events[..n], v);
      StepKeepsInv(x, v, events[n]);
    }
  }

  // If the leader sends a slow value, it is the decision of any superquorum.
  lemma FastDecidesValue(x: Setting, w: World, key: Key, accept: bool, sent: bool)
    requires x.Valid() && Inv(x, w) && (key, accept) in w.fast && (key, sent) in w.values
    ensures sent == accept
  {
    var senders :| |senders| >= x.f + 1 && AllMayPropose(x, w.slows, senders, key, sent);
    SplitSize(senders, x.faulty);
    assert senders - x.faulty != {};
    var s :| s in senders - x.faulty;
    assert MayPropose(x, w.slows, s, key, sent);
    FastDecidesSlow(x, w.cast, key, accept, sent);
  }

  // Once any correct replica has counted a superquorum of accepts (or of rejects) for a bet, no
  // correct replica ever counts one of the opposite, and the leader never sends the opposite.
  lemma FastAgreement(x: Setting, events: seq<Event>, w: World, key: Key, accept: bool)
    requires x.Valid() && Run(x, events, w) && (key, accept) in w.fast
    ensures (key, !accept) !in w.fast
    ensures (key, !accept) !in w.values
    ensures forall p :: p in w.decided && p.1 == key ==> p.2 == accept
  {
    RunKeepsInv(x, events, w);
    if (key, !accept) in w.fast {
      assert FastBacked(x, w.cast, key, true) && FastBacked(x, w.cast, key, false);
      FastExclusive(x, w.cast, key);
    }
    if (key, !accept) in w.values {
      FastDecidesValue(x, w, key, accept, !accept);
    }
  }

  // No two correct replicas decide differently on a bet, unless the leader has rejected it
  // without having seen the request.
  lemma DecisionsAgree(x: Setting, events: seq<Event>, w: World, i: nat, j: nat, key: Key, a: bool, b: bool)
    requires x.Valid() && Run(x, events, w)
    requires (i, key, a) in w.decided && (j, key, b) in w.decided
    ensures a == b || (key in w.blind && (key, true) in w.values && (key, false) in w.values)
  {
    RunKeepsInv(x, events, w);
    if (key, a) in w.fast {
      FastAgreement(x, events, w, key, a);
    } else if (key, b) in w.fast {
      FastAgreement(x, events, w, key, b);
    }
  }

  // Nothing sent is taken back; in particular a correct replica's vote on a bet never changes.
  lemma SentStaysSent(x: Setting, w: World, ev: Event)
    requires x.Valid() && Inv(x, w) && Enabled(x, w, ev)
    ensures Grows(w, Next(x, w, ev))
  {
    match ev
    case RequestArrives(i, key, request, now) =>
      RequestGood(x, w, i, key, request, now);
      RecordGrows(x, w, i, OnRequest(w.replicas[i], key, request, now));
    case VoteArrives(i, s, key, accept) =>
      CountedInv(x, w, i, s, key, accept);
      var v := w.(fast := w.fast + CountedBy(x.f, w.replicas[i], s, key, accept));
      VoteGood(x, v, i, s, key, accept);
      RecordGrows(x, v, i, OnVote(x.f, w.replicas[i], s, key, accept));
    case SlowProposalArrives(s, key, accept) =>
      SlowProposalGood(x, w, s, key, accept);
      RecordGrows(x, w, x.leader, OnSlowProposal(x.f, w.replicas[x.leader], s, key, accept));
    case SlowValueArrives(i, key, accept) =>
      SlowValueGood(x, w, i, key, accept);
      RecordGrows(x, w, i, OnSlowValue(x.f, w.replicas[i], key, accept));
    case ClockArrives(i, lockTime) =>
      ClockGood(x, w, i, lockTime);
      RecordGrows(x, w, i, OnLockTime(x.f, w.replicas[i], lockTime));
  }
}
