// Why FlutterAgreement.DecisionsAgree has an exception: a leader that rejects on the slow path
// before it has seen the request forgets that it has decided, and can decide again the other way.
// This happens in every system of more than one replica, even if none is faulty.

module FlutterBlindReject {
  import opened Options
  import opened Quorums
  import opened FlutterState
  import opened FlutterAgreement

  const BET := Key(10, 1, 1)

  const ASKED: Candidate := Blank.(request := Some("q"))

  // A replica that has the request and these votes on it.
  function Holding(c: Candidate, lockTime: nat): Replica {
    Replica(map[BET := c], map[(1, 1) := 10], {}, lockTime)
  }

  // Who accepts, whose votes are heard by those who propose to reject and to accept, and who they
  // are.
  datatype Cast = Cast(yes: set<nat>, first: set<nat>, second: set<nat>, deny: set<nat>, allow: set<nat>)

  // The leader accepts, but only the second group hears of it.
  ghost predicate Casts(x: Setting, c: Cast) {
    var all := Replicas(NumReplicas(x.f));
    && x.leader in c.yes
    && c.first <= all - {x.leader} && MajorityOf(x.f, c.first, c.yes, false)
    && c.second <= all && MajorityOf(x.f, c.second, c.yes, true)
    && c.deny !! c.allow && c.deny + c.allow <= all - x.faulty - {x.leader}
    && |c.deny| == |c.allow| == x.f + 1
  }

  // A superquorum of votes that decide nothing on the fast path.
  ghost predicate MajorityOf(f: nat, s: set<nat>, yes: set<nat>, accept: bool) {
    && |s| == SuperQuorum(f)
    && |s * yes| < SuperQuorum(f) && |s - yes| < SuperQuorum(f)
    && (|s * yes| > |s - yes| <==> accept)
  }

  // The candidate after the votes of s.
  function Tally(yes: set<nat>, s: set<nat>): Candidate {
    ASKED.(voted := s, acceptVotes := |s * yes|, rejectVotes := |s - yes|)
  }

  function Counted(yes: set<nat>, s: set<nat>): Candidate {
    Tally(yes, s).(slowPathInitiated := true)
  }

  // ----- The roles

  lemma {:induction false} SomeOf(s: set<nat>, n: nat) returns (t: set<nat>)
    requires n <= |s|
    ensures t <= s && |t| == n
  {
    if n == 0 {
      t := {};
    } else {
      var i :| i in s;
      t := SomeOf(s - {i}, n - 1);
      t := t + {i};
    }
  }

  // With 2f of the others accepting, 4f + 1 of the others have a majority for rejecting, and with
  // the leader's vote 4f + 1 have one for accepting.
  lemma CastVotes(x: Setting) returns (yes: set<nat>, first: set<nat>, second: set<nat>)
    requires x.Valid() && x.f >= 1
    ensures x.leader in yes
    ensures first <= Replicas(NumReplicas(x.f)) - {x.leader} && MajorityOf(x.f, first, yes, false)
    ensures second <= Replicas(NumReplicas(x.f)) && MajorityOf(x.f, second, yes, true)
  {
    var others := Replicas(NumReplicas(x.f)) - {x.leader};
    var y := SomeOf(others, 2 * x.f);
    SubsetSize(y, others);
    var n := SomeOf(others - y, 2 * x.f + 1);
    var m := SomeOf(n, 2 * x.f);
    yes, first, second := y + {x.leader}, y + n, y + {x.leader} + m;
    assert first * yes == y && first - yes == n;
    assert second * yes == yes && second - yes == m;
  }

  lemma CastAll(x: Setting) returns (c: Cast)
    requires x.Valid() && x.f >= 1
    ensures Casts(x, c)
  {
    var yes, first, second := CastVotes(x);
    var all := Replicas(NumReplicas(x.f));
    SplitSize(all, x.faulty);
    SplitSize(all - x.faulty, {x.leader});
    var deny := SomeOf(all - x.faulty - {x.leader}, x.f + 1);
    SubsetSize(deny, all - x.faulty - {x.leader});
    var allow := SomeOf(all - x.faulty - {x.leader} - deny, x.f + 1);
    c := Cast(yes, first, second, deny, allow);
  }

  // ----- One event after the other

  // One event, and the world it leads to.
  lemma Take(x: Setting, events: seq<Event>, w: World, ev: Event, v: World) returns (more: seq<Event>)
    requires Run(x, events, w) && Enabled(x, w, ev) && Next(x, w, ev) == v
    ensures Run(x, more, v)
  {
    more := events + [ev];
    assert more[..|events|] == events;
  }

  // The world with replica i in this state.
  function With(w: World, i: nat, r: Replica): World {
    w.(replicas := w.replicas[i := r])
  }

  lemma WithTwice(w: World, i: nat, r: Replica, v: Replica)
    ensures With(With(w, i, r), i, v) == With(w, i, v)
  {
    assert w.replicas[i := r][i := v] == w.replicas[i := v];
  }

  // Nothing has changed but the state of these replicas and what they have cast or proposed.
  ghost predicate Besides(w: World, v: World, s: set<nat>) {
    && v.replicas.Keys == w.replicas.Keys
    && (forall i :: i in w.replicas.Keys - s ==> v.replicas[i] == w.replicas[i])
    && (forall p :: p in w.cast && p.0 !in s ==> p in v.cast && v.cast[p] == w.cast[p])
    && w.slows <= v.slows && v.values == w.values && v.decided == w.decided
  }

  lemma BesidesMore(u: World, v: World, w: World, s: set<nat>, i: nat)
    requires Besides(u, v, s - {i}) && Besides(v, w, {i}) && i in s
    ensures Besides(u, w, s)
  {
    forall k | k in u.replicas.Keys - s ensures w.replicas[k] == u.replicas[k] {
      assert k in u.replicas.Keys - (s - {i}) && k in v.replicas.Keys - {i};
    }
  }

  // What a replica casts when it gets the request in time, or late.
  lemma TakeRequest(x: Setting, events: seq<Event>, w: World, i: nat, accept: bool) returns (more: seq<Event>)
    requires Run(x, events, w) && i in w.replicas
    requires w.replicas[i] == Fresh || w.replicas[i] == Replica(map[], map[(1, 1) := 1], {}, 0)
    ensures Run(x, more, With(w, i, Holding(ASKED, 0)).(cast := w.cast[(i, BET) := accept]))
  {
    var now := if accept then 0 else 11;
    var r := w.replicas[i];
    assert r.pool - {Key(1, 1, 1)} == map[];
    assert r.bets[(1, 1) := 10] == map[(1, 1) := 10];
    assert OnRequest(r, BET, "q", now) == (Holding(ASKED, 0), [Vote(BET, accept)]);
    var v := With(w, i, Holding(ASKED, 0)).(cast := w.cast[(i, BET) := accept]);
    more := Take(x, events, w, RequestArrives(i, BET, "q", now), v);
  }

  // Replica i has the request, and has cast its vote on it.
  predicate Asked(w: World, i: nat, yes: set<nat>) {
    && i in w.replicas && w.replicas[i] == Holding(ASKED, 0)
    && (i, BET) in w.cast && (w.cast[(i, BET)] <==> i in yes)
  }

  // The request reaches these replicas.
  lemma {:induction false} RequestsArrive(x: Setting, events: seq<Event>, w: World, s: set<nat>, yes: set<nat>)
    returns (more: seq<Event>, v: World)
    requires Run(x, events, w) && s <= w.replicas.Keys && forall i :: i in s ==> w.replicas[i] == Fresh
    ensures Run(x, more, v) && Besides(w, v, s) && v.slows == w.slows
    ensures forall i :: i in s ==> Asked(v, i, yes)
    decreases s
  {
    if s == {} {
      return events, w;
    }
    var i :| i in s;
    var u;
    more, u := RequestsArrive(x, events, w, s - {i}, yes);
    assert i in w.replicas.Keys - (s - {i});
    more := TakeRequest(x, more, u, i, i in yes);
    v := With(u, i, Holding(ASKED, 0)).(cast := u.cast[(i, BET) := i in yes]);
    BesidesMore(w, u, v, s, i);
    forall k | k in s ensures Asked(v, k, yes) {
      assert k == i || Asked(u, k, yes);
    }
  }

  // ----- Votes

  lemma TallyMore(yes: set<nat>, s: set<nat>, j: nat)
    requires j !in s
    ensures Voted(Tally(yes, s), j, j in yes) == Tally(yes, s + {j})
  {
    if j in yes {
      assert (s + {j}) * yes == s * yes + {j} && (s + {j}) - yes == s - yes;
    } else {
      assert (s + {j}) * yes == s * yes && (s + {j}) - yes == (s - yes) + {j};
    }
  }

  // A vote that does not complete anything is counted; the last one makes the replica propose.
  lemma VoteNext(x: Setting, w: World, i: nat, yes: set<nat>, s: set<nat>, j: nat)
    requires i in w.replicas && w.replicas[i] == Holding(Tally(yes, s), 0) && MayVote(x, w.cast, j, BET, j in yes)
    requires j !in s && |s| <= 4 * x.f
    requires |s| == 4 * x.f ==> |(s + {j}) * yes| < SuperQuorum(x.f) && |(s + {j}) - yes| < SuperQuorum(x.f)
    ensures var t := s + {j};
            Next(x, w, VoteArrives(i, j, BET, j in yes)) ==
            if |s| < 4 * x.f then With(w, i, Holding(Tally(yes, t), 0))
            else With(w, i, Holding(Counted(yes, t), 0)).(slows := w.slows + {(i, BET, |t * yes| > |t - yes|)})
  {
    TallyMore(yes, s, j);
    SplitSize(s + {j}, yes);
    var r := w.replicas[i];
    var c := Tally(yes, s + {j});
    assert CandidateAt(r, BET) == Tally(yes, s);
    assert CountedBy(x.f, r, j, BET, j in yes) == {};
    assert w.fast + {} == w.fast;
    assert r.pool[BET := c] == map[BET := c];
    assert r.pool[BET := Counted(yes, s + {j})] == map[BET := Counted(yes, s + {j})];
  }

  ghost predicate MayAllVote(x: Setting, w: World, yes: set<nat>, s: set<nat>) {
    forall j :: j in s ==> MayVote(x, w.cast, j, BET, j in yes)
  }

  lemma TakeVote(x: Setting, events: seq<Event>, w: World, i: nat, yes: set<nat>, s: set<nat>, j: nat)
    returns (more: seq<Event>)
    requires i in w.replicas && Run(x, events, With(w, i, Holding(Tally(yes, s), 0)))
    requires MayVote(x, w.cast, j, BET, j in yes) && j !in s && |s| < 4 * x.f
    ensures Run(x, more, With(w, i, Holding(Tally(yes, s + {j}), 0)))
  {
    var before, after := With(w, i, Holding(Tally(yes, s), 0)), With(w, i, Holding(Tally(yes, s + {j}), 0));
    TallyMore(yes, s, j);
    VoteNext(x, before, i, yes, s, j);
    WithTwice(w, i, Holding(Tally(yes, s), 0), Holding(Tally(yes, s + {j}), 0));
    more := Take(x, events, before, VoteArrives(i, j, BET, j in yes), after);
  }

  lemma TakeLastVote(
    x: Setting, events: seq<Event>, w: World, i: nat, yes: set<nat>, s: set<nat>, j: nat, accept: bool)
    returns (more: seq<Event>)
    requires i in w.replicas && Run(x, events, With(w, i, Holding(Tally(yes, s), 0)))
    requires MayVote(x, w.cast, j, BET, j in yes) && j !in s && MajorityOf(x.f, s + {j}, yes, accept)
    ensures Run(x, more, With(w, i, Holding(Counted(yes, s + {j}), 0)).(slows := w.slows + {(i, BET, accept)}))
  {
    var before := With(w, i, Holding(Tally(yes, s), 0));
    var after := With(w, i, Holding(Counted(yes, s + {j}), 0)).(slows := w.slows + {(i, BET, accept)});
    VoteNext(x, before, i, yes, s, j);
    WithTwice(w, i, Holding(Tally(yes, s), 0), Holding(Counted(yes, s + {j}), 0));
    more := Take(x, events, before, VoteArrives(i, j, BET, j in yes), after);
  }

  // Replica i hears the votes of s.
  lemma {:induction false} Hears(x: Setting, events: seq<Event>, w: World, i: nat, yes: set<nat>, s: set<nat>)
    returns (more: seq<Event>)
    requires Run(x, events, w) && i in w.replicas && w.replicas[i] == Holding(ASKED, 0)
    requires MayAllVote(x, w, yes, s) && |s| <= 4 * x.f
    ensures Run(x, more, With(w, i, Holding(Tally(yes, s), 0)))
    decreases s
  {
    if s == {} {
      assert Tally(yes, s) == ASKED;
      assert w.replicas[i := Holding(ASKED, 0)] == w.replicas;
      more := events;
    } else {
      var j :| j in s;
      more := Hears(x, events, w, i, yes, s - {j});
      assert s - {j} + {j} == s;
      more := TakeVote(x, more, w, i, yes, s - {j}, j);
    }
  }

  // With a superquorum of votes it proposes what the majority is for.
  lemma HearsAll(x: Setting, events: seq<Event>, w: World, i: nat, yes: set<nat>, s: set<nat>, accept: bool)
    returns (more: seq<Event>)
    requires Run(x, events, w) && i in w.replicas && w.replicas[i] == Holding(ASKED, 0)
    requires MayAllVote(x, w, yes, s) && MajorityOf(x.f, s, yes, accept)
    ensures Run(x, more, With(w, i, Holding(Counted(yes, s), 0)).(slows := w.slows + {(i, BET, accept)}))
  {
    var j :| j in s;
    more := Hears(x, events, w, i, yes, s - {j});
    assert s - {j} + {j} == s;
    more := TakeLastVote(x, more, w, i, yes, s - {j}, j, accept);
  }

  // Replica i has proposed on the votes of s.
  predicate Proposing(w: World, i: nat, yes: set<nat>, s: set<nat>, accept: bool) {
    i in w.replicas && w.replicas[i] == Holding(Counted(yes, s), 0) && (i, BET, accept) in w.slows
  }

  // All replicas of a group hear the same votes.
  lemma {:induction false} Propose(
    x: Setting, events: seq<Event>, w: World, group: set<nat>, yes: set<nat>, s: set<nat>, accept: bool)
    returns (more: seq<Event>, v: World)
    requires Run(x, events, w) && group <= w.replicas.Keys
    requires forall i :: i in group ==> w.replicas[i] == Holding(ASKED, 0)
    requires MayAllVote(x, w, yes, s) && MajorityOf(x.f, s, yes, accept)
    ensures Run(x, more, v) && Besides(w, v, group) && v.cast == w.cast
    ensures forall i :: i in group ==> Proposing(v, i, yes, s, accept)
    decreases group
  {
    if group == {} {
      return events, w;
    }
    var i :| i in group;
    var u;
    more, u := Propose(x, events, w, group - {i}, yes, s, accept);
    assert i in w.replicas.Keys - (group - {i});
    more := HearsAll(x, more, u, i, yes, s, accept);
    v := With(u, i, Holding(Counted(yes, s), 0)).(slows := u.slows + {(i, BET, accept)});
    BesidesMore(w, u, v, group, i);
    forall k | k in group ensures Proposing(v, k, yes, s, accept) {
      assert k == i || Proposing(u, k, yes, s, accept);
    }
  }

  // ----- The leader

  // The leader has at most a candidate for the bet, with slow proposals of s, all for the same, and
  // no higher bet of the client.
  ghost predicate Waits(r: Replica, s: set<nat>, accept: bool) {
    var c := CandidateAt(r, BET);
    && r.pool.Keys <= {BET} && r.done == {} && ((1, 1) in r.bets ==> r.bets[(1, 1)] <= 10)
    && c.slowProposals.Keys == s && (forall j :: j in s ==> c.slowProposals[j] == accept)
    && !c.slowValueSent
  }

  lemma HearsMore(f: nat, r: Replica, s: set<nat>, j: nat, accept: bool)
    requires Waits(r, s, accept) && j !in s && |s| <= f
    ensures var (v, outs) := OnSlowProposal(f, r, j, BET, accept);
            && v.pool.Keys == {BET} && v == r.(pool := v.pool)
            && (if |s| < f then outs == [] && Waits(v, s + {j}, accept) else outs == [SlowValue(BET, accept)])
  {
    var before := CandidateAt(r, BET);
    var c := before.(slowProposals := before.slowProposals[j := accept]);
    assert Supporters(c, accept) == s + {j} && Supporters(c, !accept) == {};
  }

  // Nothing has changed but the leader and what it has sent.
  ghost predicate OnlyLeader(x: Setting, w: World, v: World) {
    && v.replicas.Keys == w.replicas.Keys
    && (forall i :: i in w.replicas && i != x.leader ==> v.replicas[i] == w.replicas[i])
    && v.cast == w.cast && v.slows == w.slows && v.decided == w.decided
  }

  lemma LeaderRecorded(x: Setting, w: World, step: (Replica, seq<Out>), accept: bool)
    requires x.leader in w.replicas && (step.1 == [] || step.1 == [SlowValue(BET, accept)])
    ensures var v := Record(x, w, x.leader, step);
            && OnlyLeader(x, w, v) && v.replicas[x.leader] == step.0
            && v.values == if step.1 == [] then w.values else w.values + {(BET, accept)}
  {
  }

  lemma TakeProposal(x: Setting, events: seq<Event>, w: World, s: set<nat>, j: nat, accept: bool)
    returns (more: seq<Event>, v: World)
    requires Run(x, events, w) && x.leader in w.replicas && Waits(w.replicas[x.leader], s, accept)
    requires MayPropose(x, w.slows, j, BET, accept) && j !in s && |s| <= x.f
    ensures Run(x, more, v) && OnlyLeader(x, w, v)
    ensures var r := v.replicas[x.leader];
            && r.pool.Keys == {BET} && r == w.replicas[x.leader].(pool := r.pool)
            && (|s| < x.f ==> Waits(r, s + {j}, accept))
    ensures v.values == if |s| < x.f then w.values else w.values + {(BET, accept)}
  {
    HearsMore(x.f, w.replicas[x.leader], s, j, accept);
    var step := OnSlowProposal(x.f, w.replicas[x.leader], j, BET, accept);
    LeaderRecorded(x, w, step, accept);
    v := Record(x, w, x.leader, step);
    more := Take(x, events, w, SlowProposalArrives(j, BET, accept), v);
  }

  // Up to f slow proposals are only stored.
  lemma {:induction false} LeaderHears(x: Setting, events: seq<Event>, w: World, s: set<nat>, accept: bool)
    returns (more: seq<Event>, v: World)
    requires Run(x, events, w) && x.leader in w.replicas && Waits(w.replicas[x.leader], {}, accept)
    requires (forall j :: j in s ==> MayPropose(x, w.slows, j, BET, accept)) && |s| <= x.f
    ensures Run(x, more, v) && OnlyLeader(x, w, v) && v.values == w.values
    ensures Waits(v.replicas[x.leader], s, accept)
    ensures v.replicas[x.leader] == w.replicas[x.leader].(pool := v.replicas[x.leader].pool)
    decreases s
  {
    more, v := events, w;
    if s != {} {
      var j :| j in s;
      more, v := LeaderHears(x, events, w, s - {j}, accept);
      assert s - {j} + {j} == s;
      more, v := TakeProposal(x, more, v, s - {j}, j, accept);
    }
  }

  // With f + 1 it sends the value.
  lemma LeaderDecides(x: Setting, events: seq<Event>, w: World, s: set<nat>, accept: bool)
    returns (more: seq<Event>, v: World)
    requires Run(x, events, w) && x.leader in w.replicas && Waits(w.replicas[x.leader], {}, accept)
    requires (forall j :: j in s ==> MayPropose(x, w.slows, j, BET, accept)) && |s| == x.f + 1
    ensures Run(x, more, v) && OnlyLeader(x, w, v) && v.values == w.values + {(BET, accept)}
    ensures v.replicas[x.leader].pool.Keys == {BET}
    ensures v.replicas[x.leader] == w.replicas[x.leader].(pool := v.replicas[x.leader].pool)
  {
    var j :| j in s;
    more, v := LeaderHears(x, events, w, s - {j}, accept);
    more, v := TakeProposal(x, more, v, s - {j}, j, accept);
  }

  // It rejects on its own value, and forgets that it has decided.
  lemma Forgets(x: Setting, events: seq<Event>, w: World) returns (more: seq<Event>, v: World)
    requires Run(x, events, w) && x.leader in w.replicas && (BET, false) in w.values
    requires var r := w.replicas[x.leader];
             r.pool.Keys == {BET} && r == Fresh.(pool := r.pool)
    ensures Run(x, more, v)
    ensures v.replicas == w.replicas[x.leader := Replica(map[], map[(1, 1) := 1], {}, 0)]
    ensures v.cast == w.cast && v.slows == w.slows && v.values == w.values
  {
    var r := w.replicas[x.leader];
    assert r.pool - {BET} == map[];
    v := Next(x, w, SlowValueArrives(x.leader, BET, false));
    more := Take(x, events, w, SlowValueArrives(x.leader, BET, false), v);
  }

  // ----- The decisions

  lemma Rejects(x: Setting, events: seq<Event>, w: World, i: nat, c: Candidate) returns (more: seq<Event>, v: World)
    requires Run(x, events, w) && i in w.replicas && (BET, false) in w.values && w.replicas[i] == Holding(c, 0)
    ensures Run(x, more, v) && v.values == w.values && (i, BET, false) in v.decided
    ensures forall j :: j in w.replicas && j != i ==> j in v.replicas && v.replicas[j] == w.replicas[j]
  {
    v := Next(x, w, SlowValueArrives(i, BET, false));
    more := Take(x, events, w, SlowValueArrives(i, BET, false), v);
  }

  // A replica commits, once its lock time has passed the bet.
  lemma NotReady(f: nat, yes: set<nat>, s: set<nat>)
    requires |s * yes| < SuperQuorum(f) && |s - yes| < SuperQuorum(f)
    ensures OnLockTime(f, Holding(Counted(yes, s), 0), 11) == (Holding(Counted(yes, s), 11), [Committed({})])
  {
    var r := Holding(Counted(yes, s), 11);
    assert BET in r.pool && !Ready(f, r, BET);
    assert Committable(f, r) == {};
    assert r.pool - {} == r.pool && r.bets - IdsOf({}) == r.bets && r.done + IdsOf({}) == r.done;
  }

  lemma ReadyNow(f: nat, c: Candidate)
    requires c.request.Some?
    ensures OnSlowValue(f, Holding(c, 11), BET, true).1 == [Committed({BET})]
  {
    var r := Holding(c, 11);
    var after := r.(pool := r.pool[BET := c.(slowAccepted := true, slowValueReceived := true)]);
    assert after.pool == map[BET := c.(slowAccepted := true, slowValueReceived := true)];
    assert IsFirst(after, BET) && Ready(f, after, BET);
    assert Reached(f, after, BET);
    assert Committable(f, after) == {BET};
  }

  lemma ClockPasses(x: Setting, events: seq<Event>, w: World, i: nat, yes: set<nat>, s: set<nat>)
    returns (more: seq<Event>, v: World)
    requires Run(x, events, w) && i in w.replicas && w.replicas[i] == Holding(Counted(yes, s), 0)
    requires |s * yes| < SuperQuorum(x.f) && |s - yes| < SuperQuorum(x.f)
    ensures Run(x, more, v) && v.values == w.values && v.decided == w.decided
    ensures i in v.replicas && v.replicas[i] == Holding(Counted(yes, s), 11)
  {
    NotReady(x.f, yes, s);
    v := Next(x, w, ClockArrives(i, 11));
    more := Take(x, events, w, ClockArrives(i, 11), v);
    assert DecidedBy(i, {}) == {};
  }

  lemma Commits(x: Setting, events: seq<Event>, w: World, i: nat, c: Candidate) returns (more: seq<Event>, v: World)
    requires Run(x, events, w) && i in w.replicas && (BET, true) in w.values
    requires w.replicas[i] == Holding(c, 11) && c.request.Some?
    ensures Run(x, more, v) && w.decided <= v.decided && (i, BET, true) in v.decided
  {
    ReadyNow(x.f, c);
    v := Next(x, w, SlowValueArrives(i, BET, true));
    more := Take(x, events, w, SlowValueArrives(i, BET, true), v);
    assert (i, BET, true) in DecidedBy(i, {BET});
  }

  // ----- The run

  // All but the leader get the request.
  lemma AllButLeader(x: Setting, yes: set<nat>) returns (events: seq<Event>, w: World)
    requires x.Valid()
    ensures Run(x, events, w) && w.replicas.Keys == Replicas(NumReplicas(x.f)) - x.faulty
    ensures w.replicas[x.leader] == Fresh
    ensures forall i :: i in w.replicas.Keys - {x.leader} ==> w.replicas[i] == Holding(ASKED, 0)
    ensures MayAllVote(x, w, yes, Replicas(NumReplicas(x.f)) - {x.leader})
  {
    var all := Replicas(NumReplicas(x.f));
    events, w := RequestsArrive(x, [], Start(x), all - x.faulty - {x.leader}, yes);
    forall j | j in all - {x.leader} ensures MayVote(x, w.cast, j, BET, j in yes) {
      assert j in x.faulty || Asked(w, j, yes);
    }
    forall i | i in w.replicas.Keys - {x.leader} ensures w.replicas[i] == Holding(ASKED, 0) {
      assert Asked(w, i, yes);
    }
  }

  // The leader decides to reject what a group proposes to reject, and forgets it.
  lemma LeaderRejects(x: Setting, events: seq<Event>, w: World, group: set<nat>) returns (more: seq<Event>, v: World)
    requires Run(x, events, w) && x.leader in w.replicas && w.replicas[x.leader] == Fresh
    requires (forall j :: j in group ==> MayPropose(x, w.slows, j, BET, false)) && |group| == x.f + 1
    ensures Run(x, more, v) && v.replicas.Keys == w.replicas.Keys
    ensures v.replicas[x.leader] == Replica(map[], map[(1, 1) := 1], {}, 0)
    ensures forall i :: i in w.replicas && i != x.leader ==> v.replicas[i] == w.replicas[i]
    ensures v.cast == w.cast && v.values == w.values + {(BET, false)}
  {
    more, v := LeaderDecides(x, events, w, group, false);
    more, v := Forgets(x, more, v);
  }

  // What the first half of the run leaves.
  ghost predicate Halfway(x: Setting, c: Cast, w: World) {
    && w.replicas.Keys == Replicas(NumReplicas(x.f)) - x.faulty
    && x.leader in w.replicas && w.replicas[x.leader] == Replica(map[], map[(1, 1) := 1], {}, 0)
    && (forall i :: i in c.deny ==> i in w.replicas && w.replicas[i] == Holding(Counted(c.yes, c.first), 0))
    && (forall i :: i in c.allow ==> i in w.replicas && w.replicas[i] == Holding(ASKED, 0))
    && (BET, false) in w.values
    && MayAllVote(x, w, c.yes, Replicas(NumReplicas(x.f)) - {x.leader})
  }

  // The first group proposes to reject.
  lemma FirstGroup(x: Setting, c: Cast) returns (events: seq<Event>, w: World)
    requires x.Valid() && Casts(x, c)
    ensures Run(x, events, w) && w.replicas.Keys == Replicas(NumReplicas(x.f)) - x.faulty
    ensures w.replicas[x.leader] == Fresh
    ensures forall i :: i in c.deny ==> Proposing(w, i, c.yes, c.first, false)
    ensures forall i :: i in c.allow ==> w.replicas[i] == Holding(ASKED, 0)
    ensures MayAllVote(x, w, c.yes, Replicas(NumReplicas(x.f)) - {x.leader})
  {
    var v;
    events, v := AllButLeader(x, c.yes);
    assert c.deny <= c.deny + c.allow && c.allow <= c.deny + c.allow;
    events, w := Propose(x, events, v, c.deny, c.yes, c.first, false);
    assert forall i :: i in c.allow + {x.leader} ==> i in v.replicas.Keys - c.deny;
  }

  // The leader decides so, and forgets it.
  lemma FirstHalf(x: Setting, c: Cast) returns (events: seq<Event>, w: World)
    requires x.Valid() && Casts(x, c)
    ensures Run(x, events, w) && Halfway(x, c, w)
  {
    var v;
    events, v := FirstGroup(x, c);
    forall i | i in c.deny
      ensures MayPropose(x, v.slows, i, BET, false) && v.replicas[i] == Holding(Counted(c.yes, c.first), 0)
    {
      assert Proposing(v, i, c.yes, c.first, false);
    }
    events, w := LeaderRejects(x, events, v, c.deny);
    assert x.leader !in c.deny + c.allow;
  }

  // The leader gets the request and accepts.
  lemma LeaderAsked(x: Setting, c: Cast, events: seq<Event>, w: World) returns (more: seq<Event>, v: World)
    requires x.Valid() && Casts(x, c) && Run(x, events, w) && Halfway(x, c, w)
    ensures Run(x, more, v) && v.values == w.values && MayAllVote(x, v, c.yes, c.second)
    ensures c.allow + c.deny + {x.leader} <= v.replicas.Keys
    ensures forall i :: i in c.deny ==> v.replicas[i] == Holding(Counted(c.yes, c.first), 0)
    ensures forall i :: i in c.allow + {x.leader} ==> v.replicas[i] == Holding(ASKED, 0)
  {
    more := TakeRequest(x, events, w, x.leader, true);
    v := With(w, x.leader, Holding(ASKED, 0)).(cast := w.cast[(x.leader, BET) := true]);
    assert x.leader !in c.deny + c.allow;
    forall j | j in c.second ensures MayVote(x, v.cast, j, BET, j in c.yes) {
      assert j == x.leader || MayVote(x, w.cast, j, BET, j in c.yes);
    }
  }

  // The second group hears that, and proposes to accept.
  lemma SecondGroup(x: Setting, c: Cast, events: seq<Event>, w: World) returns (more: seq<Event>, v: World)
    requires x.Valid() && Casts(x, c) && Run(x, events, w) && Halfway(x, c, w)
    ensures Run(x, more, v) && v.values == w.values
    ensures x.leader in v.replicas && v.replicas[x.leader] == Holding(ASKED, 0)
    ensures forall i :: i in c.deny ==> i in v.replicas && v.replicas[i] == Holding(Counted(c.yes, c.first), 0)
    ensures forall i :: i in c.allow ==> Proposing(v, i, c.yes, c.second, true)
  {
    var u;
    more, u := LeaderAsked(x, c, events, w);
    assert forall i :: i in c.deny + {x.leader} ==> i in u.replicas.Keys - c.allow;
    more, v := Propose(x, more, u, c.allow, c.yes, c.second, true);
  }

  // And so does the leader decide.
  lemma LeaderAccepts(x: Setting, events: seq<Event>, w: World, group: set<nat>) returns (more: seq<Event>, v: World)
    requires Run(x, events, w) && x.leader in w.replicas && w.replicas[x.leader] == Holding(ASKED, 0)
    requires (forall j :: j in group ==> MayPropose(x, w.slows, j, BET, true)) && |group| == x.f + 1
    ensures Run(x, more, v) && v.replicas.Keys == w.replicas.Keys && v.values == w.values + {(BET, true)}
    ensures forall i :: i in w.replicas && i != x.leader ==> v.replicas[i] == w.replicas[i]
  {
    more, v := LeaderDecides(x, events, w, group, true);
  }

  lemma BothHalves(x: Setting, c: Cast) returns (events: seq<Event>, w: World)
    requires x.Valid() && Casts(x, c)
    ensures Run(x, events, w) && (BET, false) in w.values && (BET, true) in w.values
    ensures forall i :: i in c.deny ==> i in w.replicas && w.replicas[i] == Holding(Counted(c.yes, c.first), 0)
    ensures forall i :: i in c.allow ==> i in w.replicas && w.replicas[i] == Holding(Counted(c.yes, c.second), 0)
  {
    events, w := FirstHalf(x, c);
    var v;
    events, v := SecondGroup(x, c, events, w);
    forall i | i in c.allow ensures MayPropose(x, v.slows, i, BET, true) {
      assert Proposing(v, i, c.yes, c.second, true);
    }
    events, w := LeaderAccepts(x, events, v, c.allow);
    assert x.leader !in c.deny + c.allow;
  }

  // With more than one replica, whoever is faulty and whoever leads, two correct replicas can decide
  // differently.
  lemma DecisionsCanDiffer(x: Setting) returns (events: seq<Event>, w: World, i: nat, j: nat)
    requires x.Valid() && x.f >= 1
    ensures Run(x, events, w) && i in w.replicas && j in w.replicas
    ensures (i, BET, false) in w.decided && (j, BET, true) in w.decided
  {
    var c := CastAll(x);
    i :| i in c.deny;
    j :| j in c.allow;
    events, w := BothHalves(x, c);
    events, w := Rejects(x, events, w, i, Counted(c.yes, c.first));
    events, w := ClockPasses(x, events, w, j, c.yes, c.second);
    events, w := Commits(x, events, w, j, Counted(c.yes, c.second));
    RunKeepsInv(x, events, w);
    assert i in c.deny + c.allow && j in c.deny + c.allow;
  }

  // In every run correct replicas decide alike on every bet.
  ghost predicate AlwaysAgree(x: Setting) {
    forall events: seq<Event>, w: World, i: nat, j: nat, key: Key, a: bool, b: bool ::
      Run(x, events, w) && (i, key, a) in w.decided && (j, key, b) in w.decided ==> a == b
  }

  // A value that the only replica has sent is the vote that it has cast.
  lemma AloneValue(x: Setting, w: World, key: Key, accept: bool)
    requires x.Valid() && x.f == 0 && Inv(x, w) && (key, accept) in w.values
    ensures (0, key) in w.cast && w.cast[(0, key)] == accept
  {
    assert ValueBacked(x, w.slows, key, accept);
    var senders :| |senders| >= x.f + 1 && AllMayPropose(x, w.slows, senders, key, accept);
    var s :| s in senders;
    assert MayPropose(x, w.slows, s, key, accept) && x.faulty == {};
    assert SlowBacked(x, w.cast, key, accept);
    var yes, no :| Split(x, w.cast, key, yes, no) && |yes| + |no| == SuperQuorum(x.f) && (accept <==> |yes| > |no|);
    var voters := if accept then yes else no;
    var v :| v in voters;
    assert MayVote(x, w.cast, v, key, accept);
  }

  lemma DecisionsAgreeIff(x: Setting)
    requires x.Valid()
    ensures AlwaysAgree(x) <==> x.f == 0
  {
    if x.f == 0 {
      forall events: seq<Event>, w: World, i: nat, j: nat, key: Key, a: bool, b: bool |
        Run(x, events, w) && (i, key, a) in w.decided && (j, key, b) in w.decided
        ensures a == b
      {
        RunKeepsInv(x, events, w);
        DecisionsAgree(x, events, w, i, j, key, a, b);
        if a != b {
          AloneValue(x, w, key, a);
          AloneValue(x, w, key, b);
        }
      }
    } else {
      var events, w, i, j := DecisionsCanDiffer(x);
    }
  }
}
