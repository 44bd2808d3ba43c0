// The wait-die lock of lib/rrr/misc/alock.cpp and alock.hpp: a queue of read and write requests
// in which a request only waits if it has a smaller priority value than everything it waits for.
// Callbacks are an event log.

module WaitDie {

  datatype LockType = Read | Write

  datatype Request = Request(id: nat, priority: int, kind: LockType, granted: bool)

  datatype Status = Free | WLocked | RLocked

  datatype Callback = Yes(id: nat) | No(id: nat)

  predicate Conflicts(a: LockType, b: LockType) {
    a.Write? || b.Write?
  }

  // The first write from position i on, or the end.
  function FirstWrite(reqs: seq<Request>, i: nat): (k: nat)
    requires i <= |reqs|
    ensures i <= k <= |reqs|
    ensures forall j :: i <= j < k ==> reqs[j].kind.Read?
    ensures k < |reqs| ==> reqs[k].kind.Write?
    decreases |reqs| - i
  {
    if i == |reqs| || reqs[i].kind.Write? then i else FirstWrite(reqs, i + 1)
  }

  // The length of the maximal compatible prefix: a write in front on its own, or all reads before
  // the first write.
  function FrontLength(reqs: seq<Request>): (n: nat)
    ensures n <= |reqs|
  {
    if reqs == [] then 0 else if reqs[0].kind.Write? then 1 else FirstWrite(reqs, 0)
  }

  // The requests granted are those below position g.
  ghost predicate GrantedBelow(reqs: seq<Request>, g: nat) {
    forall i :: 0 <= i < |reqs| ==> (reqs[i].granted <==> i < g)
  }

  // Exactly the maximal compatible prefix is granted.
  ghost predicate GrantedPrefix(reqs: seq<Request>) {
    GrantedBelow(reqs, FrontLength(reqs))
  }

  // If request j waits and conflicts with the earlier request i, it has the smaller priority
  // value.
  predicate Ordered(reqs: seq<Request>, i: nat, j: nat)
    requires i < j < |reqs|
  {
    !reqs[j].granted && Conflicts(reqs[i].kind, reqs[j].kind) ==> reqs[j].priority < reqs[i].priority
  }

  // Every waiter has a smaller priority value than each earlier request it conflicts with.
  ghost predicate PriorityOrder(reqs: seq<Request>) {
    forall i, j :: 0 <= i < j < |reqs| ==> Ordered(reqs, i, j)
  }

  function StatusOf(reqs: seq<Request>): Status {
    if reqs == [] then Free else if reqs[0].kind.Write? then WLocked else RLocked
  }

  function Count(reqs: seq<Request>, kind: LockType): nat {
    if reqs == [] then 0
    else Count(reqs[..|reqs| - 1], kind) + if reqs[|reqs| - 1].kind == kind then 1 else 0
  }

  // The number of reads that hold the lock.
  function Readers(reqs: seq<Request>): nat {
    if StatusOf(reqs) == RLocked then FrontLength(reqs) else 0
  }

  predicate Differ(reqs: seq<Request>, i: nat, j: nat)
    requires i < |reqs| && j < |reqs|
  {
    reqs[i].id != reqs[j].id
  }

  ghost predicate DistinctIds(reqs: seq<Request>, nextId: nat) {
    && (forall i :: 0 <= i < |reqs| ==> reqs[i].id < nextId)
    && forall i, j :: 0 <= i < j < |reqs| ==> Differ(reqs, i, j)
  }

  predicate DifferInLog(log: seq<Callback>, k: nat, l: nat)
    requires k < |log| && l < |log|
  {
    log[k].id != log[l].id
  }

  // A granted request has been told yes; a waiting one has not been called back.
  predicate Answered(log: seq<Callback>, r: Request) {
    if r.granted then Yes(r.id) in log else Yes(r.id) !in log && No(r.id) !in log
  }

  // No request is called back twice.
  ghost predicate CalledOnce(log: seq<Callback>, reqs: seq<Request>, nextId: nat) {
    && (forall k :: 0 <= k < |log| ==> log[k].id < nextId)
    && (forall k, l :: 0 <= k < l < |log| ==> DifferInLog(log, k, l))
    && (forall i {:trigger Answered(log, reqs[i])} :: 0 <= i < |reqs| ==> Answered(log, reqs[i]))
  }

  ghost predicate QueueOk(reqs: seq<Request>, nextId: nat, log: seq<Callback>) {
    && GrantedPrefix(reqs) && PriorityOrder(reqs) && DistinctIds(reqs, nextId) && CalledOnce(log, reqs, nextId)
  }

  // ----- Deadlock freedom

  // On some lock, owner a waits behind a conflicting request of owner b.
  ghost predicate WaitsOn(reqs: seq<Request>, owners: map<nat, nat>, a: nat, b: nat) {
    exists i, j ::
      && 0 <= i < j < |reqs| && !reqs[j].granted && Conflicts(reqs[i].kind, reqs[j].kind)
      && reqs[j].id in owners && owners[reqs[j].id] == a
      && reqs[i].id in owners && owners[reqs[i].id] == b
  }

  ghost predicate WaitsFor(locks: seq<seq<Request>>, owners: seq<map<nat, nat>>, a: nat, b: nat)
    requires |locks| == |owners|
  {
    exists l :: 0 <= l < |locks| && WaitsOn(locks[l], owners[l], a, b)
  }

  // Every owner uses one priority on all locks.
  ghost predicate OnePriority(reqs: seq<Request>, owners: map<nat, nat>, priorities: map<nat, int>) {
    forall i :: 0 <= i < |reqs| && reqs[i].id in owners ==>
      owners[reqs[i].id] in priorities && reqs[i].priority == priorities[owners[reqs[i].id]]
  }

  lemma WaitsUpwardOn(reqs: seq<Request>, owners: map<nat, nat>, priorities: map<nat, int>, a: nat, b: nat)
    requires WaitsOn(reqs, owners, a, b) && PriorityOrder(reqs) && OnePriority(reqs, owners, priorities)
    ensures a in priorities && b in priorities && priorities[a] < priorities[b]
  {
    var i, j :|
      && 0 <= i < j < |reqs| && !reqs[j].granted && Conflicts(reqs[i].kind, reqs[j].kind)
      && reqs[j].id in owners && owners[reqs[j].id] == a
      && reqs[i].id in owners && owners[reqs[i].id] == b;
    assert Ordered(reqs, i, j);
  }

  // Waiting goes from smaller to larger priority values, across any number of locks.
  lemma WaitsUpward(locks: seq<seq<Request>>, owners: seq<map<nat, nat>>, priorities: map<nat, int>, a: nat, b: nat)
    requires |locks| == |owners| && WaitsFor(locks, owners, a, b)
    requires forall l :: 0 <= l < |locks| ==> PriorityOrder(locks[l]) && OnePriority(locks[l], owners[l], priorities)
    ensures a in priorities && b in priorities && priorities[a] < priorities[b]
  {
    var l :| 0 <= l < |locks| && WaitsOn(locks[l], owners[l], a, b);
    assert OnePriority(locks[l], owners[l], priorities) && PriorityOrder(locks[l]);
    WaitsUpwardOn(locks[l], owners[l], priorities, a, b);
  }

  // So no chain of waiting owners comes back to where it started.
  lemma {:induction false} NoDeadlock(
    locks: seq<seq<Request>>, owners: seq<map<nat, nat>>, priorities: map<nat, int>, chain: seq<nat>)
    requires |locks| == |owners| && |chain| >= 2
    requires forall l :: 0 <= l < |locks| ==> PriorityOrder(locks[l]) && OnePriority(locks[l], owners[l], priorities)
    requires forall k :: 0 <= k < |chain| - 1 ==> WaitsFor(locks, owners, chain[k], chain[k + 1])
    ensures chain[0] != chain[|chain| - 1]
    ensures chain[0] in priorities && chain[|chain| - 1] in priorities
    ensures priorities[chain[0]] < priorities[chain[|chain| - 1]]
  {
    var n := |chain| - 1;
    WaitsUpward(locks, owners, priorities, chain[n - 1], chain[n]);
    if n > 1 {
      NoDeadlock(locks, owners, priorities, chain[..n]);
    }
  }

  // Among owners that only wait for each other, one does not wait: the one with the largest value.
  lemma SomeoneProceeds(
    locks: seq<seq<Request>>, owners: seq<map<nat, nat>>, priorities: map<nat, int>, group: set<nat>)
    returns (free: nat)
    requires |locks| == |owners| && group != {} && group <= priorities.Keys
    requires forall l :: 0 <= l < |locks| ==> PriorityOrder(locks[l]) && OnePriority(locks[l], owners[l], priorities)
    ensures free in group && forall b :: b in group ==> !WaitsFor(locks, owners, free, b)
  {
    free := Greatest(priorities, group);
    forall b | b in group ensures !WaitsFor(locks, owners, free, b) {
      if WaitsFor(locks, owners, free, b) {
        WaitsUpward(locks, owners, priorities, free, b);
      }
    }
  }

  lemma {:induction false} Greatest(priorities: map<nat, int>, group: set<nat>) returns (g: nat)
    requires group != {} && group <= priorities.Keys
    ensures g in group && forall b :: b in group ==> priorities[b] <= priorities[g]
    decreases |group|
  {
    g :| g in group;
    if group != {g} {
      var h := Greatest(priorities, group - {g});
      g := if priorities[g] < priorities[h] then h else g;
    }
  }

  // ----- Removing and granting

  function Remove(reqs: seq<Request>, p: nat): seq<Request>
    requires p < |reqs|
  {
    reqs[..p] + reqs[p + 1..]
  }

  // Requests lo to hi are granted too.
  function Grant(reqs: seq<Request>, lo: nat, hi: nat): (r: seq<Request>)
    ensures |r| == |reqs|
    ensures forall k :: 0 <= k < |reqs| ==> r[k] == if lo <= k < hi then reqs[k].(granted := true) else reqs[k]
  {
    seq(|reqs|, k requires 0 <= k < |reqs| => if lo <= k < hi then reqs[k].(granted := true) else reqs[k])
  }

  function Yeses(reqs: seq<Request>, lo: nat, hi: nat): (log: seq<Callback>)
    requires lo <= hi <= |reqs|
    ensures |log| == hi - lo
    ensures forall k :: 0 <= k < hi - lo ==> log[k] == Yes(reqs[lo + k].id)
  {
    seq(hi - lo, k requires 0 <= k < hi - lo => Yes(reqs[lo + k].id))
  }

  lemma FirstWriteIs(reqs: seq<Request>, k: nat)
    requires k <= |reqs| && (k < |reqs| ==> reqs[k].kind.Write?)
    requires forall j :: 0 <= j < k ==> reqs[j].kind.Read?
    ensures FirstWrite(reqs, 0) == k
  {
  }

  lemma KindsDecideFront(a: seq<Request>, b: seq<Request>)
    requires |a| == |b| && forall i :: 0 <= i < |a| ==> a[i].kind == b[i].kind
    ensures FrontLength(a) == FrontLength(b) && StatusOf(a) == StatusOf(b)
  {
    FirstWriteIs(b, FirstWrite(a, 0));
  }

  // What is left of a queue without request p, before anything new is granted.
  ghost predicate Leftover(rest: seq<Request>, g: nat, nextId: nat, log: seq<Callback>) {
    && GrantedBelow(rest, g) && g <= FrontLength(rest)
    && PriorityOrder(rest) && DistinctIds(rest, nextId) && CalledOnce(log, rest, nextId)
  }

  lemma RemoveAt(reqs: seq<Request>, p: nat)
    requires p < |reqs|
    ensures var rest := Remove(reqs, p);
            forall i :: 0 <= i < |rest| ==> rest[i] == reqs[if i < p then i else i + 1]
  {
  }

  lemma RemoveFront(reqs: seq<Request>, p: nat)
    requires GrantedPrefix(reqs) && p < |reqs|
    ensures var m := FrontLength(reqs);
            var g := if p < m then m - 1 else m;
            GrantedBelow(Remove(reqs, p), g) && g <= FrontLength(Remove(reqs, p))
  {
    var rest, m := Remove(reqs, p), FrontLength(reqs);
    var g := if p < m then m - 1 else m;
    RemoveAt(reqs, p);
    if rest != [] && reqs[0].kind.Read? {
      assert forall i :: 0 <= i < g ==> rest[i].kind.Read?;
    }
  }

  lemma RemoveKeepsOrder(reqs: seq<Request>, p: nat, nextId: nat)
    requires PriorityOrder(reqs) && DistinctIds(reqs, nextId) && p < |reqs|
    ensures PriorityOrder(Remove(reqs, p)) && DistinctIds(Remove(reqs, p), nextId)
  {
    var rest := Remove(reqs, p);
    RemoveAt(reqs, p);
    forall i, j | 0 <= i < j < |rest| ensures Ordered(rest, i, j) && Differ(rest, i, j) {
      var k, l := if i < p then i else i + 1, if j < p then j else j + 1;
      assert Ordered(reqs, k, l) && Differ(reqs, k, l);
    }
  }

  lemma RemoveKeepsCalls(log: seq<Callback>, reqs: seq<Request>, p: nat, nextId: nat)
    requires CalledOnce(log, reqs, nextId) && p < |reqs|
    ensures CalledOnce(log, Remove(reqs, p), nextId)
  {
    var rest := Remove(reqs, p);
    RemoveAt(reqs, p);
    forall i | 0 <= i < |rest| ensures Answered(log, rest[i]) {
      assert Answered(log, reqs[if i < p then i else i + 1]);
    }
  }

  lemma RemoveLeaves(reqs: seq<Request>, p: nat, nextId: nat, log: seq<Callback>)
    requires QueueOk(reqs, nextId, log) && p < |reqs|
    ensures var m := FrontLength(reqs);
            Leftover(Remove(reqs, p), if p < m then m - 1 else m, nextId, log)
  {
    RemoveFront(reqs, p);
    RemoveKeepsOrder(reqs, p, nextId);
    RemoveKeepsCalls(log, reqs, p, nextId);
  }

  // Granting up to the end of the compatible prefix makes the queue right again.
  lemma GrantSettles(rest: seq<Request>, g: nat, nextId: nat, log: seq<Callback>)
    requires Leftover(rest, g, nextId, log)
    ensures var m := FrontLength(rest);
            var reqs := Grant(rest, g, m);
            && FrontLength(reqs) == m && StatusOf(reqs) == StatusOf(rest)
            && QueueOk(reqs, nextId, log + Yeses(rest, g, m))
  {
    var m := FrontLength(rest);
    var reqs := Grant(rest, g, m);
    KindsDecideFront(rest, reqs);
    GrantCallsOnce(rest, g, m, nextId, log);
    forall i, j | 0 <= i < j < |reqs| ensures Ordered(reqs, i, j) && Differ(reqs, i, j) {
      assert Ordered(rest, i, j) && Differ(rest, i, j);
    }
  }

  lemma GrantCallsOnce(rest: seq<Request>, g: nat, m: nat, nextId: nat, log: seq<Callback>)
    requires GrantedBelow(rest, g) && g <= m <= |rest| && DistinctIds(rest, nextId) && CalledOnce(log, rest, nextId)
    ensures CalledOnce(log + Yeses(rest, g, m), Grant(rest, g, m), nextId)
  {
    var more := log + Yeses(rest, g, m);
    forall k, l | 0 <= k < l < |more| ensures DifferInLog(more, k, l) {
      if l < |log| {
        assert DifferInLog(log, k, l);
      } else if k < |log| {
        assert Answered(log, rest[g + l - |log|]);
        assert log[k] in log;
      } else {
        assert Differ(rest, g + k - |log|, g + l - |log|);
      }
    }
    var reqs := Grant(rest, g, m);
    forall i | 0 <= i < |reqs| ensures Answered(more, reqs[i]) {
      assert Answered(log, rest[i]);
      if g <= i < m {
        assert more[|log| + i - g] == Yes(reqs[i].id);
      } else if i >= m {
        forall k | 0 <= k < m - g ensures Yeses(rest, g, m)[k].id != rest[i].id {
          assert Differ(rest, g + k, i);
        }
      }
    }
  }

  // ----- Counting

  lemma {:induction false} CountNone(reqs: seq<Request>)
    ensures Count(reqs, Write) == 0 <==> forall i :: 0 <= i < |reqs| ==> reqs[i].kind.Read?
  {
    if reqs != [] {
      CountNone(reqs[..|reqs| - 1]);
    }
  }

  lemma {:induction false} CountRemove(reqs: seq<Request>, p: nat, kind: LockType)
    requires p < |reqs|
    ensures Count(reqs, kind) == Count(Remove(reqs, p), kind) + if reqs[p].kind == kind then 1 else 0
  {
    var n := |reqs| - 1;
    if p < n {
      CountRemove(reqs[..n], p, kind);
      assert Remove(reqs, p)[..n - 1] == Remove(reqs[..n], p);
    } else {
      assert Remove(reqs, p) == reqs[..n];
    }
  }

  lemma {:induction false} CountGrant(reqs: seq<Request>, lo: nat, hi: nat, kind: LockType)
    ensures Count(Grant(reqs, lo, hi), kind) == Count(reqs, kind)
  {
    if reqs != [] {
      var n := |reqs| - 1;
      CountGrant(reqs[..n], lo, hi, kind);
      assert Grant(reqs, lo, hi)[..n] == Grant(reqs[..n], lo, hi);
    }
  }

  lemma CountAppend(reqs: seq<Request>, r: Request, kind: LockType)
    ensures Count(reqs + [r], kind) == Count(reqs, kind) + if r.kind == kind then 1 else 0
  {
    assert (reqs + [r])[..|reqs|] == reqs;
  }

  // ----- Adding a request

  // Nothing in the queue conflicts with a request of this type.
  ghost predicate Compatible(reqs: seq<Request>, kind: LockType) {
    forall i :: 0 <= i < |reqs| ==> !Conflicts(reqs[i].kind, kind)
  }

  // It may wait: it is more urgent than everything it conflicts with.
  ghost predicate MayWait(reqs: seq<Request>, kind: LockType, priority: int) {
    forall i :: 0 <= i < |reqs| && Conflicts(reqs[i].kind, kind) ==> priority < reqs[i].priority
  }

  lemma AppendOk(reqs: seq<Request>, nextId: nat, log: seq<Callback>, kind: LockType, priority: int)
    requires QueueOk(reqs, nextId, log)
    requires Compatible(reqs, kind) || MayWait(reqs, kind, priority)
    ensures var granted := Compatible(reqs, kind);
            QueueOk(reqs + [Request(nextId, priority, kind, granted)], nextId + 1,
                    if granted then log + [Yes(nextId)] else log)
  {
    var r := Request(nextId, priority, kind, Compatible(reqs, kind));
    var more := reqs + [r];
    AppendFront(reqs, r);
    AppendCalls(reqs, nextId, log, r);
    forall i, j | 0 <= i < j < |more| ensures Ordered(more, i, j) && Differ(more, i, j) {
      if j < |reqs| {
        assert Ordered(reqs, i, j) && Differ(reqs, i, j);
      }
    }
  }

  // What the append does to the compatible prefix, the status and the number of readers.
  lemma AppendFront(reqs: seq<Request>, r: Request)
    ensures var more := reqs + [r];
            && FrontLength(more) == (if Compatible(reqs, r.kind) then |more| else FrontLength(reqs))
            && (Compatible(reqs, r.kind) ==> FrontLength(reqs) == |reqs|)
            && StatusOf(more) == (if reqs != [] then StatusOf(reqs) else if r.kind.Read? then RLocked else WLocked)
  {
    var more := reqs + [r];
    if reqs == [] {
      assert more[0] == r;
    } else if reqs[0].kind.Read? {
      var k := FirstWrite(reqs, 0);
      if k < |reqs| {
        FirstWriteIs(more, k);
        assert Conflicts(reqs[k].kind, r.kind);
      } else {
        assert Conflicts(reqs[0].kind, r.kind) <==> r.kind.Write?;
        FirstWriteIs(more, if r.kind.Read? then |more| else |reqs|);
      }
    } else {
      assert Conflicts(reqs[0].kind, r.kind);
    }
  }

  lemma AppendCalls(reqs: seq<Request>, nextId: nat, log: seq<Callback>, r: Request)
    requires DistinctIds(reqs, nextId) && CalledOnce(log, reqs, nextId) && r.id == nextId
    ensures CalledOnce(if r.granted then log + [Yes(nextId)] else log, reqs + [r], nextId + 1)
  {
    assert Yes(nextId) !in log && No(nextId) !in log;
    var after, more := if r.granted then log + [Yes(nextId)] else log, reqs + [r];
    forall k, l | 0 <= k < l < |after| ensures DifferInLog(after, k, l) {
      if l < |log| {
        assert DifferInLog(log, k, l);
      }
    }
    forall i | 0 <= i < |more| ensures Answered(after, more[i]) {
      if i < |reqs| {
        assert Answered(log, reqs[i]);
      }
    }
  }

  ghost predicate LockOk(
    reqs: seq<Request>, status: Status, nRlock: int, nR: int, nW: int, nextId: nat, log: seq<Callback>) {
    && QueueOk(reqs, nextId, log)
    && status == StatusOf(reqs) && nRlock == Readers(reqs)
    && nR == Count(reqs, Read) && nW == Count(reqs, Write)
  }

  lemma AppendNumbers(reqs: seq<Request>, r: Request)
    requires r.granted <==> Compatible(reqs, r.kind)
    ensures var more := reqs + [r];
            && StatusOf(more) == (if r.granted then (if r.kind.Write? then WLocked else RLocked) else StatusOf(reqs))
            && Readers(more) == (if r.granted && r.kind.Read? then Readers(reqs) + 1 else Readers(reqs))
            && Count(more, Read) == (if r.kind.Read? then Count(reqs, Read) + 1 else Count(reqs, Read))
            && Count(more, Write) == (if r.kind.Write? then Count(reqs, Write) + 1 else Count(reqs, Write))
  {
    AppendFront(reqs, r);
    CountAppend(reqs, r, Read);
    CountAppend(reqs, r, Write);
    if reqs != [] {
      assert Compatible(reqs, r.kind) ==> !Conflicts(reqs[0].kind, r.kind);
    }
  }

  lemma EnterOk(
    reqs: seq<Request>, status: Status, nRlock: int, nR: int, nW: int, nextId: nat, log: seq<Callback>,
    kind: LockType, priority: int)
    requires LockOk(reqs, status, nRlock, nR, nW, nextId, log) && Compatible(reqs, kind)
    ensures nRlock != 0 ==> status == RLocked
    ensures var more := reqs + [Request(nextId, priority, kind, true)];
            if kind.Read? then LockOk(more, RLocked, nRlock + 1, nR + 1, nW, nextId + 1, log + [Yes(nextId)])
            else LockOk(more, WLocked, nRlock, nR, nW + 1, nextId + 1, log + [Yes(nextId)])
  {
    AppendOk(reqs, nextId, log, kind, priority);
    AppendNumbers(reqs, Request(nextId, priority, kind, true));
  }

  lemma EnqueueOk(
    reqs: seq<Request>, status: Status, nRlock: int, nR: int, nW: int, nextId: nat, log: seq<Callback>,
    kind: LockType, priority: int)
    requires LockOk(reqs, status, nRlock, nR, nW, nextId, log)
    requires !Compatible(reqs, kind) && MayWait(reqs, kind, priority)
    ensures var more := reqs + [Request(nextId, priority, kind, false)];
            LockOk(more, status, nRlock, if kind.Read? then nR + 1 else nR, if kind.Write? then nW + 1 else nW,
                   nextId + 1, log)
  {
    AppendOk(reqs, nextId, log, kind, priority);
    AppendNumbers(reqs, Request(nextId, priority, kind, false));
  }

  lemma RefuseOk(reqs: seq<Request>, nextId: nat, log: seq<Callback>)
    requires QueueOk(reqs, nextId, log)
    ensures QueueOk(reqs, nextId + 1, log + [No(nextId)])
  {
    var more := log + [No(nextId)];
    forall k, l | 0 <= k < l < |more| ensures DifferInLog(more, k, l) {
      if l < |log| {
        assert DifferInLog(log, k, l);
      }
    }
    forall i | 0 <= i < |reqs| ensures Answered(more, reqs[i]) {
      assert Answered(log, reqs[i]);
    }
  }

  lemma GrantLast(reqs: seq<Request>, r: Request)
    ensures Grant(reqs + [r], |reqs|, |reqs| + 1) == reqs + [r.(granted := true)]
  {
  }

  // A write in the queue is more urgent than everything before it.
  lemma WriteIsMostUrgent(reqs: seq<Request>, w: nat)
    requires GrantedPrefix(reqs) && PriorityOrder(reqs) && w < |reqs| && reqs[w].kind.Write?
    ensures forall i :: 0 <= i < w ==> reqs[w].priority < reqs[i].priority
  {
    forall i | 0 <= i < w ensures reqs[w].priority < reqs[i].priority {
      assert Ordered(reqs, i, w);
    }
  }

  // ----- Removing a request

  // How many are granted once request p is gone, before anything new is granted.
  function StillGranted(reqs: seq<Request>, p: nat): (g: nat)
    requires p < |reqs|
  {
    if p < FrontLength(reqs) then FrontLength(reqs) - 1 else FrontLength(reqs)
  }

  // The queue without request p, with the compatible prefix granted.
  function Settled(reqs: seq<Request>, p: nat): seq<Request>
    requires p < |reqs|
  {
    Grant(Remove(reqs, p), StillGranted(reqs, p), FrontLength(Remove(reqs, p)))
  }

  // The callbacks that this makes: yes to those newly granted, then no to p if it was waiting.
  function CallsOf(reqs: seq<Request>, p: nat): seq<Callback>
    requires p < |reqs| && StillGranted(reqs, p) <= FrontLength(Remove(reqs, p))
  {
    Yeses(Remove(reqs, p), StillGranted(reqs, p), FrontLength(Remove(reqs, p)))
    + if reqs[p].granted then [] else [No(reqs[p].id)]
  }

  // The first k requests are granted together exactly when no two of them conflict.
  lemma FrontMeaning(reqs: seq<Request>, k: nat)
    requires k <= |reqs|
    ensures k <= FrontLength(reqs) <==>
            forall i, j :: 0 <= i < j < k ==> !Conflicts(reqs[i].kind, reqs[j].kind)
  {
    var n := FrontLength(reqs);
    if n < k {
      assert Conflicts(reqs[0].kind, reqs[n].kind);
    }
  }

  // Where request k is once request p is gone.
  ghost function Moved(p: nat, k: nat): nat {
    if k <= p then k else k - 1
  }

  // Request k is granted by the removal of request p.
  ghost predicate NewlyGranted(reqs: seq<Request>, p: nat, k: nat)
    requires p < |reqs|
  {
    k < |reqs| && k != p && !reqs[k].granted && Settled(reqs, p)[Moved(p, k)].granted
  }

  // Every other request stays as it is, or is granted as well.
  lemma SettledMeaning(reqs: seq<Request>, p: nat, nextId: nat, log: seq<Callback>, k: nat)
    requires QueueOk(reqs, nextId, log) && p < |reqs| && k < |reqs| && k != p
    ensures |Settled(reqs, p)| == |reqs| - 1
    ensures Settled(reqs, p)[Moved(p, k)] == reqs[k].(granted := Moved(p, k) < FrontLength(Remove(reqs, p)))
    ensures reqs[k].granted <==> Moved(p, k) < StillGranted(reqs, p)
    ensures StillGranted(reqs, p) <= FrontLength(Remove(reqs, p))
  {
    RemoveLeaves(reqs, p, nextId, log);
    RemoveAt(reqs, p);
    assert Remove(reqs, p)[Moved(p, k)] == reqs[k];
  }

  lemma YesesMeaning(reqs: seq<Request>, lo: nat, hi: nat, id: nat)
    requires lo <= hi <= |reqs|
    ensures Yes(id) in Yeses(reqs, lo, hi) <==> exists i :: lo <= i < hi && reqs[i].id == id
    ensures No(id) !in Yeses(reqs, lo, hi)
  {
    if i :| lo <= i < hi && reqs[i].id == id {
      assert Yeses(reqs, lo, hi)[i - lo] == Yes(id);
    }
  }

  // The callbacks are a yes to each request that is newly granted, and at the end a no to the one
  // withdrawn, if it was waiting.
  lemma {:induction false} CallsMeaning(reqs: seq<Request>, p: nat, nextId: nat, log: seq<Callback>, id: nat)
    requires QueueOk(reqs, nextId, log) && p < |reqs|
    ensures StillGranted(reqs, p) <= FrontLength(Remove(reqs, p))
    ensures Yes(id) in CallsOf(reqs, p) <==> exists k: nat :: NewlyGranted(reqs, p, k) && reqs[k].id == id
    ensures No(id) in CallsOf(reqs, p) <==> id == reqs[p].id && !reqs[p].granted
    ensures !reqs[p].granted ==> CallsOf(reqs, p) != [] && CallsOf(reqs, p)[|CallsOf(reqs, p)| - 1] == No(reqs[p].id)
  {
    var rest, g, m := Remove(reqs, p), StillGranted(reqs, p), FrontLength(Remove(reqs, p));
    RemoveLeaves(reqs, p, nextId, log);
    RemoveAt(reqs, p);
    YesesMeaning(rest, g, m, id);
    if i :| g <= i < m && rest[i].id == id {
      var k := if i < p then i else i + 1;
      SettledMeaning(reqs, p, nextId, log, k);
      assert NewlyGranted(reqs, p, k) && reqs[k].id == id;
    }
    if k: nat :| NewlyGranted(reqs, p, k) && reqs[k].id == id {
      SettledMeaning(reqs, p, nextId, log, k);
      assert g <= Moved(p, k) < m && rest[Moved(p, k)].id == id;
    }
  }

  lemma SettledOk(reqs: seq<Request>, p: nat, nextId: nat, log: seq<Callback>)
    requires QueueOk(reqs, nextId, log) && p < |reqs|
    ensures StillGranted(reqs, p) <= FrontLength(Remove(reqs, p))
    ensures QueueOk(Settled(reqs, p), nextId, log + CallsOf(reqs, p))
  {
    var rest, g, m := Remove(reqs, p), StillGranted(reqs, p), FrontLength(Remove(reqs, p));
    RemoveLeaves(reqs, p, nextId, log);
    GrantSettles(rest, g, nextId, log);
    if reqs[p].granted {
      assert CallsOf(reqs, p) == Yeses(rest, g, m);
    } else {
      NotAmong(reqs, p);
      assert Answered(log, reqs[p]);
      SayNo(log + Yeses(rest, g, m), Settled(reqs, p), nextId, reqs[p].id, log, rest, g, m);
      assert log + CallsOf(reqs, p) == log + Yeses(rest, g, m) + [No(reqs[p].id)];
    }
  }

  lemma NotAmong(reqs: seq<Request>, p: nat)
    requires p < |reqs| && forall i, j :: 0 <= i < j < |reqs| ==> Differ(reqs, i, j)
    ensures forall i :: 0 <= i < |reqs| - 1 ==> Remove(reqs, p)[i].id != reqs[p].id
  {
    RemoveAt(reqs, p);
    forall i | 0 <= i < |reqs| - 1 ensures Remove(reqs, p)[i].id != reqs[p].id {
      assert if i < p then Differ(reqs, i, p) else Differ(reqs, p, i + 1);
    }
  }

  lemma SayNo(
    more: seq<Callback>, reqs: seq<Request>, nextId: nat, id: nat,
    log: seq<Callback>, rest: seq<Request>, g: nat, m: nat)
    requires CalledOnce(more, reqs, nextId) && id < nextId
    requires g <= m <= |rest| && more == log + Yeses(rest, g, m) && reqs == Grant(rest, g, m)
    requires Yes(id) !in log && No(id) !in log
    requires forall i :: 0 <= i < |rest| ==> rest[i].id != id
    ensures CalledOnce(more + [No(id)], reqs, nextId)
  {
    var after := more + [No(id)];
    forall k, l | 0 <= k < l < |after| ensures DifferInLog(after, k, l) {
      if l < |more| {
        assert DifferInLog(more, k, l);
      } else if k < |log| {
        assert more[k] in log;
      }
    }
    forall i | 0 <= i < |reqs| ensures Answered(after, reqs[i]) {
      assert Answered(more, reqs[i]);
    }
  }

  // Removing a request that others do not depend on changes nothing for them.
  lemma FrontUnchanged(reqs: seq<Request>, p: nat)
    requires FrontLength(reqs) <= p < |reqs|
    requires p == FrontLength(reqs) ==> reqs[0].kind.Write?
    ensures FrontLength(Remove(reqs, p)) == FrontLength(reqs)
  {
    RemoveAt(reqs, p);
    if reqs[0].kind.Read? {
      FirstWriteIs(Remove(reqs, p), FrontLength(reqs));
    }
  }

  // Removing the first write behind the readers lets the reads behind it in.
  lemma FrontGrows(reqs: seq<Request>, p: nat)
    requires p < |reqs| && p == FrontLength(reqs) && reqs[0].kind.Read?
    ensures p > 0 && FrontLength(Remove(reqs, p)) == FirstWrite(Remove(reqs, p), p)
  {
    RemoveAt(reqs, p);
    FirstWriteIs(Remove(reqs, p), FirstWrite(Remove(reqs, p), p));
  }

  // Removing one of several readers leaves the others.
  lemma FrontShrinks(reqs: seq<Request>, p: nat)
    requires p < FrontLength(reqs) && reqs[0].kind.Read?
    ensures var rest := Remove(reqs, p);
            if FrontLength(reqs) > 1 then FrontLength(rest) == FrontLength(reqs) - 1 && rest[0].kind.Read?
            else rest == [] || rest[0].kind.Write?
  {
    var rest := Remove(reqs, p);
    RemoveAt(reqs, p);
    if FrontLength(reqs) > 1 {
      FirstWriteIs(rest, FrontLength(reqs) - 1);
    }
  }

  // The numbers after the removal.
  lemma SettledNumbers(reqs: seq<Request>, p: nat, kind: LockType)
    requires p < |reqs|
    ensures var after := Settled(reqs, p);
            && StatusOf(after) == StatusOf(Remove(reqs, p))
            && Readers(after) == Readers(Remove(reqs, p))
            && Count(after, kind) == Count(reqs, kind) - if reqs[p].kind == kind then 1 else 0
  {
    var rest := Remove(reqs, p);
    KindsDecideFront(rest, Settled(reqs, p));
    CountRemove(reqs, p, kind);
    CountGrant(rest, StillGranted(reqs, p), FrontLength(rest), kind);
  }

  lemma SettledLockOk(
    reqs: seq<Request>, p: nat, status: Status, nRlock: int, nR: int, nW: int, nextId: nat, log: seq<Callback>)
    requires LockOk(reqs, status, nRlock, nR, nW, nextId, log) && p < |reqs|
    ensures StillGranted(reqs, p) <= FrontLength(Remove(reqs, p))
    ensures var rest := Remove(reqs, p);
            LockOk(Settled(reqs, p), StatusOf(rest), Readers(rest),
                   if reqs[p].kind.Read? then nR - 1 else nR, if reqs[p].kind.Write? then nW - 1 else nW,
                   nextId, log + CallsOf(reqs, p))
  {
    SettledOk(reqs, p, nextId, log);
    SettledNumbers(reqs, p, Read);
    SettledNumbers(reqs, p, Write);
  }

  // What the three kinds of removal come to.
  lemma WaitingGone(reqs: seq<Request>, p: nat)
    requires GrantedPrefix(reqs) && p < |reqs| && !reqs[p].granted
    ensures var rest := Remove(reqs, p);
            && StatusOf(rest) == StatusOf(reqs) && StillGranted(reqs, p) == FrontLength(reqs)
            && if reqs[p].kind.Write? && forall i :: 0 <= i < p ==> reqs[i].kind.Read? then
                 && StatusOf(reqs) == RLocked && FrontLength(reqs) == p
                 && FrontLength(rest) == FirstWrite(rest, p) && Readers(rest) == Readers(reqs) + FirstWrite(rest, p) - p
               else FrontLength(rest) == FrontLength(reqs) && Readers(rest) == Readers(reqs)
  {
    RemoveAt(reqs, p);
    if reqs[p].kind.Write? && forall i :: 0 <= i < p ==> reqs[i].kind.Read? {
      FirstWriteIs(reqs, p);
      FrontGrows(reqs, p);
    } else {
      FrontUnchanged(reqs, p);
    }
  }

  lemma ReaderGone(reqs: seq<Request>, p: nat)
    requires GrantedPrefix(reqs) && p < |reqs| && reqs[p].granted && reqs[p].kind.Read?
    ensures var rest := Remove(reqs, p);
            && StatusOf(reqs) == RLocked && StillGranted(reqs, p) == Readers(reqs) - 1
            && if Readers(reqs) > 1 then
                 FrontLength(rest) == Readers(rest) == Readers(reqs) - 1 && StatusOf(rest) == RLocked
               else p == 0 && Readers(rest) == 0 && (rest == [] || (rest[0].kind.Write? && FrontLength(rest) == 1))
  {
    FrontShrinks(reqs, p);
  }

  lemma WriterGone(reqs: seq<Request>, p: nat)
    requires GrantedPrefix(reqs) && p < |reqs| && reqs[p].granted && reqs[p].kind.Write?
    ensures p == 0 && StillGranted(reqs, p) == 0 && Readers(reqs) == 0
  {
  }

  lemma GrantNone(reqs: seq<Request>, g: nat)
    requires g <= |reqs|
    ensures Grant(reqs, g, g) == reqs && Yeses(reqs, g, g) == []
  {
  }

  class WaitDieALock {
    var requests: seq<Request>
    var status: Status
    var nRlock: int
    var nRInQueue: int
    var nWInQueue: int
    var nextId: nat
    var done: bool
    // The callbacks made so far.
    var log: seq<Callback>

    constructor ()
      ensures Valid() && requests == [] && log == [] && nextId == 1 && !done
    {
      requests, status, nRlock, nRInQueue, nWInQueue := [], Free, 0, 0, 0;
      nextId, done, log := 1, false, [];
    }

    ghost predicate Valid()
      reads this
    {
      LockOk(requests, status, nRlock, nRInQueue, nWInQueue, nextId, log)
    }

    // Whether a write waits: it has to be more urgent than all requests in the queue.
    method WriteWaits(priority: int) returns (wait: bool)
      requires QueueOk(requests, nextId, log)
      ensures wait <==> MayWait(requests, Write, priority)
    {
      var r := |requests|;
      while r > 0
        invariant 0 <= r <= |requests|
        invariant forall i :: r <= i < |requests| ==> priority < requests[i].priority
      {
        r := r - 1;
        if priority >= requests[r].priority {
          assert Conflicts(requests[r].kind, Write);
          return false;
        }
        if requests[r].kind.Write? {
          WriteIsMostUrgent(requests, r);
          break;
        }
      }
      return true;
    }

    // Whether a read waits: it has to be more urgent than the last write.
    method ReadWaits(priority: int) returns (wait: bool)
      requires QueueOk(requests, nextId, log) && !Compatible(requests, Read)
      ensures wait <==> MayWait(requests, Read, priority)
    {
      var r := |requests|;
      while r > 0
        invariant 0 <= r <= |requests|
        invariant forall i :: r <= i < |requests| ==> requests[i].kind.Read?
      {
        r := r - 1;
        if requests[r].kind.Write? {
          WriteIsMostUrgent(requests, r);
          assert Conflicts(requests[r].kind, Read);
          return priority < requests[r].priority;
        }
      }
      // The source verifies that this is never reached.
      assert false;
      wait := false;
    }

    // A request that conflicts with the queue waits or dies.
    method WaitOrDie(kind: LockType, priority: int) returns (wait: bool)
      requires QueueOk(requests, nextId, log) && !Compatible(requests, kind)
      ensures wait <==> MayWait(requests, kind, priority)
    {
      match kind
      case Write => wait := WriteWaits(priority);
      case Read => wait := ReadWaits(priority);
    }

    method Lock(kind: LockType, priority: int) returns (id: nat)
      requires Valid()
      modifies this
      ensures Valid() && id == old(nextId) && nextId == id + 1 && done == old(done)
      ensures done ==> requests == old(requests) && log == old(log) + [No(id)]
      ensures !done && Compatible(old(requests), kind) ==>
                requests == old(requests) + [Request(id, priority, kind, true)] && log == old(log) + [Yes(id)]
      ensures !done && !Compatible(old(requests), kind) && MayWait(old(requests), kind, priority) ==>
                requests == old(requests) + [Request(id, priority, kind, false)] && log == old(log)
      ensures !done && !Compatible(old(requests), kind) && !MayWait(old(requests), kind, priority) ==>
                requests == old(requests) && log == old(log) + [No(id)]
    {
      id := nextId;
      if done {
        Refuse();
        return;
      }
      CountNone(requests);
      if status == Free || (status == RLocked && kind.Read? && nWInQueue == 0) {
        Enter(kind, priority);
      } else {
        var wait := WaitOrDie(kind, priority);
        if wait {
          Enqueue(kind, priority);
        } else {
          Refuse();
        }
      }
    }

    // The three outcomes of a request: refused, granted, waiting.
    method Refuse()
      requires Valid()
      modifies this`nextId, this`log
      ensures Valid() && nextId == old(nextId) + 1 && log == old(log) + [No(old(nextId))]
    {
      RefuseOk(requests, nextId, log);
      log := log + [No(nextId)];
      nextId := nextId + 1;
    }

    method Enter(kind: LockType, priority: int)
      requires Valid() && Compatible(requests, kind)
      modifies this
      ensures Valid() && nextId == old(nextId) + 1 && done == old(done)
      ensures requests == old(requests) + [Request(old(nextId), priority, kind, true)]
      ensures log == old(log) + [Yes(old(nextId))]
    {
      EnterOk(requests, status, nRlock, nRInQueue, nWInQueue, nextId, log, kind, priority);
      GrantLast(requests, Request(nextId, priority, kind, false));
      requests := requests + [Request(nextId, priority, kind, false)];
      nextId := nextId + 1;
      match kind
      case Read =>
        nRInQueue := nRInQueue + 1;
        ReadAcquire(|requests| - 1);
      case Write =>
        nWInQueue := nWInQueue + 1;
        WriteAcquire(|requests| - 1);
    }

    method Enqueue(kind: LockType, priority: int)
      requires Valid() && !Compatible(requests, kind) && MayWait(requests, kind, priority)
      modifies this
      ensures Valid() && nextId == old(nextId) + 1 && done == old(done)
      ensures requests == old(requests) + [Request(old(nextId), priority, kind, false)] && log == old(log)
    {
      EnqueueOk(requests, status, nRlock, nRInQueue, nWInQueue, nextId, log, kind, priority);
      requests := requests + [Request(nextId, priority, kind, false)];
      nextId := nextId + 1;
      if kind.Read? {
        nRInQueue := nRInQueue + 1;
      } else {
        nWInQueue := nWInQueue + 1;
      }
    }

    method WriteAcquire(i: nat)
      requires i < |requests| && requests[i].kind.Write? && !requests[i].granted
      modifies this`requests, this`status, this`log
      ensures requests == Grant(old(requests), i, i + 1) && status == WLocked
      ensures log == old(log) + [Yes(requests[i].id)]
    {
      status := WLocked;
      requests := requests[i := requests[i].(granted := true)];
      log := log + [Yes(requests[i].id)];
      assert requests == Grant(old(requests), i, i + 1);
    }

    method ReadAcquire(i: nat)
      requires i < |requests| && requests[i].kind.Read? && !requests[i].granted
      modifies this`requests, this`status, this`nRlock, this`log
      ensures requests == Grant(old(requests), i, i + 1) && nRlock == old(nRlock) + 1
      ensures status == if old(nRlock) == 0 then RLocked else old(status)
      ensures log == old(log) + [Yes(requests[i].id)]
    {
      if nRlock == 0 {
        status := RLocked;
      }
      nRlock := nRlock + 1;
      requests := requests[i := requests[i].(granted := true)];
      log := log + [Yes(requests[i].id)];
      assert requests == Grant(old(requests), i, i + 1);
    }

    // Grants the waiting reads from position i up to the next write.
    method ReadAcquireFrom(i: nat)
      requires i <= |requests| && forall k :: i <= k < |requests| ==> !requests[k].granted
      modifies this`requests, this`status, this`nRlock, this`log
      ensures var hi := FirstWrite(old(requests), i);
              && requests == Grant(old(requests), i, hi)
              && log == old(log) + Yeses(old(requests), i, hi)
              && nRlock == old(nRlock) + hi - i
              && status == if hi > i && old(nRlock) == 0 then RLocked else old(status)
    {
      var hi := i;
      while hi < |requests| && requests[hi].kind.Read?
        invariant i <= hi <= |requests| && FirstWrite(requests, hi) == FirstWrite(requests, i)
      {
        hi := hi + 1;
      }
      if hi == i {
        assert requests == Grant(old(requests), i, hi);
        assert log == old(log) + Yeses(old(requests), i, hi);
        return;
      }
      if nRlock == 0 {
        status := RLocked;
      }
      nRlock := nRlock + hi - i;
      SetGranted(i, hi);
      CallBack(i, hi);
      assert Yeses(requests, i, hi) == Yeses(old(requests), i, hi);
    }

    method SetGranted(i: nat, hi: nat)
      requires i <= hi <= |requests|
      modifies this`requests
      ensures requests == Grant(old(requests), i, hi)
    {
      assert requests == Grant(old(requests), i, i);
      for k := i to hi
        invariant requests == Grant(old(requests), i, k)
      {
        requests := requests[k := requests[k].(granted := true)];
        assert requests == Grant(old(requests), i, k + 1);
      }
    }

    method CallBack(i: nat, hi: nat)
      requires i <= hi <= |requests|
      modifies this`log
      ensures log == old(log) + Yeses(requests, i, hi)
    {
      for k := i to hi
        invariant log == old(log) + Yeses(requests, i, k)
      {
        log := log + [Yes(requests[k].id)];
        assert Yeses(requests, i, k + 1) == Yeses(requests, i, k) + [Yes(requests[k].id)];
      }
    }

    // Unlocks or withdraws the request (at, in the queue); what that lets in is granted.
    method Abort(id: nat) returns (ghost at: nat)
      requires Valid()
      modifies this
      ensures Valid() && nextId == old(nextId) && done == old(done)
      ensures at <= |old(requests)| && (done ==> at == |old(requests)|)
      ensures at == |old(requests)| ==> requests == old(requests) && log == old(log)
      ensures at == |old(requests)| && !done ==> forall i :: 0 <= i < |requests| ==> requests[i].id != id
      ensures at < |old(requests)| ==>
                && old(requests)[at].id == id
                && StillGranted(old(requests), at) <= FrontLength(Remove(old(requests), at))
                && requests == Settled(old(requests), at)
                && log == old(log) + CallsOf(old(requests), at)
    {
      at := |requests|;
      if done {
        return;
      }
      var p, nWBeforeThis := Find(id);
      at := p;
      if p == |requests| {
        return;
      }
      SettledLockOk(requests, p, status, nRlock, nRInQueue, nWInQueue, nextId, log);
      if !requests[p].granted {
        AbortWaiting(p, nWBeforeThis);
      } else if requests[p].kind.Read? {
        UnlockRead(p);
      } else {
        UnlockWrite(p);
      }
    }

    method Find(id: nat) returns (p: nat, writesBefore: nat)
      ensures p <= |requests|
      ensures forall i :: 0 <= i < p ==> requests[i].id != id
      ensures p < |requests| ==> requests[p].id == id
      ensures writesBefore == 0 <==> forall i :: 0 <= i < p ==> requests[i].kind.Read?
    {
      p, writesBefore := 0, 0;
      while p < |requests|
        invariant p <= |requests|
        invariant forall i :: 0 <= i < p ==> requests[i].id != id
        invariant writesBefore == 0 <==> forall i :: 0 <= i < p ==> requests[i].kind.Read?
      {
        if requests[p].id == id {
          return;
        } else if requests[p].kind.Write? {
          writesBefore := writesBefore + 1;
        }
        p := p + 1;
      }
    }

    method AbortWaiting(p: nat, writesBefore: nat)
      requires p < |requests| && !requests[p].granted
      requires writesBefore == 0 <==> forall i :: 0 <= i < p ==> requests[i].kind.Read?
      requires GrantedPrefix(requests) && status == StatusOf(requests) && nRlock == Readers(requests)
      requires StillGranted(requests, p) <= FrontLength(Remove(requests, p))
      modifies this`requests, this`status, this`nRlock, this`nRInQueue, this`nWInQueue, this`log
      ensures requests == Settled(old(requests), p) && log == old(log) + CallsOf(old(requests), p)
      ensures status == StatusOf(Remove(old(requests), p)) && nRlock == Readers(Remove(old(requests), p))
      ensures nRInQueue == if old(requests)[p].kind.Read? then old(nRInQueue) - 1 else old(nRInQueue)
      ensures nWInQueue == if old(requests)[p].kind.Write? then old(nWInQueue) - 1 else old(nWInQueue)
    {
      WaitingGone(requests, p);
      GrantNone(Remove(requests, p), StillGranted(requests, p));
      var aborted := requests[p];
      requests := requests[..p] + requests[p + 1..];
      if aborted.kind.Read? {
        nRInQueue := nRInQueue - 1;
      } else {
        nWInQueue := nWInQueue - 1;
        if writesBefore == 0 {
          assert status == RLocked;
          ReadAcquireFrom(p);
        }
      }
      log := log + [No(aborted.id)];
    }

    method UnlockRead(p: nat)
      requires p < |requests| && requests[p].granted && requests[p].kind.Read?
      requires GrantedPrefix(requests) && status == StatusOf(requests) && nRlock == Readers(requests)
      requires StillGranted(requests, p) <= FrontLength(Remove(requests, p))
      modifies this`requests, this`status, this`nRlock, this`nRInQueue, this`nWInQueue, this`log
      ensures requests == Settled(old(requests), p) && log == old(log) + CallsOf(old(requests), p)
      ensures status == StatusOf(Remove(old(requests), p)) && nRlock == Readers(Remove(old(requests), p))
      ensures nRInQueue == old(nRInQueue) - 1 && nWInQueue == old(nWInQueue)
    {
      ReaderGone(requests, p);
      GrantNone(Remove(requests, p), StillGranted(requests, p));
      nRInQueue := nRInQueue - 1;
      nRlock := nRlock - 1;
      requests := requests[..p] + requests[p + 1..];
      if nRlock == 0 {
        if p == |requests| {
          status := Free;
          assert |requests| == 0;
        } else {
          WriteAcquire(p);
        }
      }
    }

    method UnlockWrite(p: nat)
      requires p < |requests| && requests[p].granted && requests[p].kind.Write?
      requires GrantedPrefix(requests) && status == StatusOf(requests) && nRlock == Readers(requests)
      requires StillGranted(requests, p) <= FrontLength(Remove(requests, p))
      modifies this`requests, this`status, this`nRlock, this`nRInQueue, this`nWInQueue, this`log
      ensures requests == Settled(old(requests), p) && log == old(log) + CallsOf(old(requests), p)
      ensures status == StatusOf(Remove(old(requests), p)) && nRlock == Readers(Remove(old(requests), p))
      ensures nRInQueue == old(nRInQueue) && nWInQueue == old(nWInQueue) - 1
    {
      WriterGone(requests, p);
      GrantNone(Remove(requests, p), 0);
      nWInQueue := nWInQueue - 1;
      requests := requests[..p] + requests[p + 1..];
      if p == |requests| {
        status := Free;
        assert |requests| == 0;
      } else if requests[p].kind.Write? {
        WriteAcquire(p);
      } else {
        ReadAcquireFrom(p);
        assert status == RLocked;
      }
    }
  }
}
