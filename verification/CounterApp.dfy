// The counter application (lib/apps/counter.cc): executes requests speculatively and keeps
// enough of its past to commit, roll back and restore a snapshot.

module CounterApp {
  import opened Digests

  // Whether the replica can parse a request (lib/log.cc:41).
  predicate Parses(q: Request) {
    !q.Garbage?
  }

  // INCREMENT is the default operation, so an empty request increments too.
  function Apply(v: int, q: Request): int {
    match q
    case Decrement => v - 1
    case Garbage(_) => v
    case _ => v + 1
  }

  // The counter after executing a whole history from the start.
  function Exec(d: Digest): int {
    if d.Genesis? then 0 else Apply(Exec(d.prev), d.request)
  }

  // Whether a request moves the counter up, or down.
  ghost predicate Moves(q: Request, up: bool) {
    if up then q.Increment? || q.Empty? else q.Decrement?
  }

  // The positions of a history whose request moves the counter that way.
  ghost function Positions(d: Digest, up: bool): set<nat> {
    set s: nat | 1 <= s <= Height(d) && Upto(d, s).Link? && Moves(Upto(d, s).request, up)
  }

  lemma {:induction false} PositionsNext(d: Digest, up: bool)
    requires d.Link?
    ensures |Positions(d, up)| == |Positions(d.prev, up)| + if Moves(d.request, up) then 1 else 0
  {
    var s, before := Height(d), Positions(d.prev, up);
    forall t: nat | 1 <= t < s ensures t in Positions(d, up) <==> t in before {
      assert Upto(d, t) == Upto(d.prev, t);
    }
    assert s !in before;
    if Moves(d.request, up) {
      assert Positions(d, up) == before + {s};
    } else {
      assert Positions(d, up) == before;
    }
  }

  // The counter is the difference of their numbers; a request that does not parse counts for
  // nothing.
  lemma {:induction false} ExecMeaning(d: Digest)
    ensures Exec(d) == |Positions(d, true)| - |Positions(d, false)|
  {
    if d.Link? {
      ExecMeaning(d.prev);
      PositionsNext(d, true);
      PositionsNext(d, false);
    }
  }

  // The snapshot string "idx,value".
  datatype Snapshot = Snapshot(idx: nat, value: int)

  datatype CounterState = CounterState(counter: int, values: map<nat, int>, committedValue: int, committedIdx: nat)

  ghost predicate Recorded(s: CounterState, d: Digest, k: nat) {
    s.committedIdx <= k <= Height(d) && k in s.values && s.values[k] == Exec(Upto(d, k))
  }

  // The state belongs to this history: it can answer for the last position, and for every
  // position after the committed one.
  ghost predicate Tracks(s: CounterState, d: Digest) {
    && s.counter == Exec(d)
    && s.committedIdx <= Height(d)
    && s.committedValue == Exec(Upto(d, s.committedIdx))
    && (forall k :: s.committedIdx < k <= Height(d) ==> k in s.values)
    && (forall k :: k in s.values ==> Recorded(s, d, k))
  }

  ghost predicate IsLeastFrom(m: map<nat, int>, idx: nat, k: nat) {
    k in m && k >= idx && forall j :: j in m && j >= idx ==> k <= j
  }

  ghost predicate IsGreatest(m: map<nat, int>, k: nat) {
    k in m && forall j :: j in m ==> j <= k
  }

  lemma {:induction false} LeastFromExists(m: map<nat, int>, idx: nat, w: nat)
    requires w in m && w >= idx
    ensures exists k :: IsLeastFrom(m, idx, k)
    decreases w
  {
    if !IsLeastFrom(m, idx, w) {
      var j :| j in m && j >= idx && j < w;
      LeastFromExists(m, idx, j);
    }
  }

  lemma {:induction false} GreatestExists(m: map<nat, int>)
    requires m != map[]
    ensures exists k :: IsGreatest(m, k)
    decreases |m|
  {
    var w :| w in m;
    var rest := m - {w};
    if rest == map[] {
      assert m.Keys == rest.Keys + {w};
      assert IsGreatest(m, w);
    } else {
      GreatestExists(rest);
      var k :| IsGreatest(rest, k);
      assert IsGreatest(m, if k < w then w else k);
    }
  }

  function Below(m: map<nat, int>, idx: nat): map<nat, int> {
    map j | j in m && j < idx :: m[j]
  }

  // Cutting the values off below idx leaves those of the shorter history.
  lemma CutTracks(s: CounterState, d: Digest, idx: nat, p: Digest)
    requires Tracks(s, d) && s.committedIdx < idx <= Height(d) + 1 && p == Upto(d, idx - 1)
    ensures var m := Below(s.values, idx);
            && s.committedValue == Exec(Upto(p, s.committedIdx))
            && (m == map[] ==> s.committedIdx == idx - 1)
            && (m != map[] ==> IsGreatest(m, idx - 1) && m[idx - 1] == Exec(p))
    ensures forall k :: k in Below(s.values, idx) ==> s.values[k] == Exec(Upto(p, k))
  {
    var m := Below(s.values, idx);
    forall k | k in m ensures m[k] == Exec(Upto(p, k)) {
      UptoUpto(d, idx - 1, k);
    }
    UptoUpto(d, idx - 1, s.committedIdx);
    if s.committedIdx < idx - 1 {
      assert idx - 1 in m;
    } else if m != map[] {
      var k :| k in m;
    }
  }

  class Counter {
    var counter: int
    var values: map<nat, int>
    var committedValue: int
    var committedIdx: nat

    constructor ()
      ensures Tracks(State(), Genesis)
      ensures committedIdx == 0
    {
      counter, values, committedValue, committedIdx := 0, map[], 0, 0;
    }

    ghost function State(): CounterState
      reads this
    {
      CounterState(counter, values, committedValue, committedIdx)
    }

    // Executing the next request of a history moves on to the longer history.
    method Execute(q: Request, idx: nat, ghost d: Digest, ghost id: RequestId) returns (response: int)
      requires Parses(q) && Tracks(State(), d) && idx == Height(d) + 1
      modifies this
      ensures Tracks(State(), Next(d, id, q)) && committedIdx == old(committedIdx)
      ensures response == Exec(Next(d, id, q))
    {
      if q.Decrement? {
        counter := counter - 1;
      } else {
        counter := counter + 1;
      }
      values := values[idx := counter];
      response := counter;
      forall s: nat | s <= Height(d) ensures Upto(Next(d, id, q), s) == Upto(d, s) {
        UptoNext(d, id, q, s);
      }
    }

    // Committing forgets everything before the committed position.
    method Commit(idx: nat, ghost d: Digest)
      requires Tracks(State(), d) && committedIdx < idx <= Height(d)
      modifies this
      ensures Tracks(State(), d) && committedIdx == idx
    {
      LeastFromExists(values, idx, idx);
      var k :| k in values && k >= idx && forall j :: j in values && j >= idx ==> k <= j;
      committedIdx := k;
      committedValue := values[k];
      values := map j | j in values && j >= k :: values[j];
    }

    // Aborting returns to the history as it was before position idx.
    method Abort(idx: nat, ghost d: Digest)
      requires Tracks(State(), d) && committedIdx < idx <= Height(d) + 1
      modifies this
      ensures Tracks(State(), Upto(d, idx - 1)) && committedIdx == old(committedIdx)
    {
      CutTracks(State(), d, idx, Upto(d, idx - 1));
      values := Below(values, idx);
      if values == map[] {
        counter := committedValue;
      } else {
        GreatestExists(values);
        var k :| k in values && forall j :: j in values ==> j <= k;
        counter := values[k];
      }
    }

    // Restoring a snapshot of a history leads to that history.
    method ApplySnapshot(snap: Snapshot, idx: nat, ghost d: Digest)
      requires snap.idx == idx == Height(d) && snap.value == Exec(d)
      modifies this
      ensures Tracks(State(), d) && committedIdx == idx
    {
      committedIdx := snap.idx;
      committedValue := snap.value;
      counter := committedValue;
      values := map[];
    }

    // A snapshot is of the last executed position.
    method TakeSnapshot(ghost d: Digest) returns (snap: Snapshot)
      requires Tracks(State(), d)
      ensures snap == Snapshot(Height(d), Exec(d))
    {
      assert Height(d) > committedIdx ==> Height(d) in values;
      if values == map[] {
        snap := Snapshot(committedIdx, committedValue);
      } else {
        GreatestExists(values);
        var k :| k in values && forall j :: j in values ==> j <= k;
        snap := Snapshot(k, values[k]);
      }
    }
  }
}
