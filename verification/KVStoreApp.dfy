// The key-value application (lib/apps/kv_store.cc): live data, committed data, and the requests
// that lie between them.

module KVStoreApp {
  import opened Options
  import opened KVSnapshots

  datatype OpKind = Get | Set | Delete

  // The digest of a printed snapshot, an injective hash.
  datatype TextDigest = ShaText(text: string)

  // An executed request with its position.
  datatype Op = Op(idx: nat, key: string, value: string, kind: OpKind)

  datatype Response = Response(ok: bool, value: string)

  type Data = map<string, string>

  function ApplyOp(m: Data, op: Op): Data {
    match op.kind
    case Get => m
    case Set => m[op.key := op.value]
    case Delete => m - {op.key}
  }

  function RunOps(m: Data, ops: seq<Op>): Data {
    if ops == [] then m else ApplyOp(RunOps(m, ops[..|ops| - 1]), ops[|ops| - 1])
  }

  predicate Earlier(ops: seq<Op>, i: nat, j: nat)
    requires i < |ops| && j < |ops|
  {
    ops[i].idx < ops[j].idx
  }

  predicate Ascending(ops: seq<Op>) {
    forall i, j :: 0 <= i < j < |ops| ==> Earlier(ops, i, j)
  }

  // The requests below a position.
  function Below(ops: seq<Op>, idx: nat): seq<Op> {
    if ops == [] then []
    else
      var front, last := Below(ops[..|ops| - 1], idx), ops[|ops| - 1];
      if last.idx < idx then front + [last] else front
  }

  lemma {:induction false} RunConcat(m: Data, a: seq<Op>, b: seq<Op>)
    ensures RunOps(m, a + b) == RunOps(RunOps(m, a), b)
  {
    if b == [] {
      assert a + b == a;
    } else {
      var n := |b| - 1;
      RunConcat(m, a, b[..n]);
      assert (a + b)[..|a + b| - 1] == a + b[..n];
    }
  }

  lemma {:induction false} BelowIsPrefix(ops: seq<Op>, idx: nat, k: nat)
    requires k <= |ops|
    requires forall i :: 0 <= i < k ==> ops[i].idx < idx
    requires forall i :: k <= i < |ops| ==> ops[i].idx >= idx
    ensures Below(ops, idx) == ops[..k]
  {
    if ops != [] {
      var n := |ops| - 1;
      if k == |ops| {
        BelowIsPrefix(ops[..n], idx, n);
        assert ops[..n][..n] + [ops[n]] == ops[..k];
      } else {
        BelowIsPrefix(ops[..n], idx, k);
        assert ops[..n][..k] == ops[..k];
      }
    }
  }

  // The state belongs to a history: what was committed, then what is pending, from the initial
  // data on.
  ghost predicate Follows(
    initial: Data, past: seq<Op>, requests: seq<Op>, data: Data, committedData: Data, committedIdx: nat) {
    && Ascending(past + requests)
    && (forall i :: 0 <= i < |past| ==> past[i].idx <= committedIdx)
    && (forall i :: 0 <= i < |requests| ==> requests[i].idx > committedIdx)
    && committedData == RunOps(initial, past)
    && data == RunOps(committedData, requests)
  }

  class KVStore {
    var requests: seq<Op>
    var data: Data
    var committedData: Data
    var dataIdx: nat
    var committedIdx: nat
    // Where the history starts, and what of it has been committed.
    ghost var initial: Data
    ghost var past: seq<Op>

    constructor (keys: set<string>)
      ensures Valid() && History() == [] && committedIdx == dataIdx == 0 && initial == map k | k in keys :: ""
    {
      requests, data, committedData := [], map k | k in keys :: "", map k | k in keys :: "";
      dataIdx, committedIdx := 0, 0;
      initial, past := map k | k in keys :: "", [];
    }

    // All requests executed so far, without those aborted.
    ghost function History(): seq<Op>
      reads this
    {
      past + requests
    }

    ghost predicate Valid()
      reads this
    {
      Follows(initial, past, requests, data, committedData, committedIdx)
    }

    // A request that does not parse or has no known type gives the empty response (None) and
    // leaves no trace.
    method Execute(parsed: Option<(OpKind, string, string)>, executeIdx: nat) returns (response: Option<Response>)
      requires Valid() && executeIdx > dataIdx && executeIdx > committedIdx
      requires forall i :: 0 <= i < |requests| ==> requests[i].idx < executeIdx
      modifies this
      ensures Valid() && initial == old(initial) && past == old(past) && committedIdx == old(committedIdx)
      ensures old(Labelled()) || parsed.Some? ==> Labelled()
      ensures parsed.None? ==> response == None && History() == old(History()) && dataIdx == old(dataIdx)
      ensures parsed.Some? ==>
                var op := Op(executeIdx, parsed.value.1, parsed.value.2, parsed.value.0);
                && History() == old(History()) + [op] && dataIdx == executeIdx
                && response == Some(match op.kind
                                    case Get =>
                                      var found := op.key in old(data);
                                      Response(found, if found then old(data)[op.key] else "")
                                    case Set => Response(true, "")
                                    case Delete => Response(op.key in old(data), ""))
    {
      if parsed.None? {
        return None;
      }
      var (kind, key, value) := parsed.value;
      match kind {
        case Get =>
          response := Some(if key in data then Response(true, data[key]) else Response(false, ""));
        case Set =>
          data := data[key := value];
          response := Some(Response(true, ""));
        case Delete =>
          response := Some(Response(key in data, ""));
          data := data - {key};
      }
      dataIdx := executeIdx;
      var op := Op(executeIdx, key, value, kind);
      AppendAscends(past + requests, op);
      assert (requests + [op])[..|requests|] == requests;
      assert past + (requests + [op]) == past + requests + [op];
      requests := requests + [op];
    }

    // Moves the committed position; the history stays.
    method Commit(idx: nat)
      requires Valid() && idx >= committedIdx
      modifies this
      ensures Valid() && History() == old(History()) && committedIdx == idx && data == old(data)
      ensures initial == old(initial) && dataIdx == old(dataIdx)
      ensures old(Labelled()) && idx <= dataIdx ==> Labelled()
    {
      var i, done := CopyCommitted(idx);
      SplitFollows(initial, past, requests, data, committedData, committedIdx, idx, i);
      committedData := done;
      committedIdx := idx;
      past := past + requests[..i];
      requests := requests[i..];
    }

    // The loop of commit: the committed data with the requests up to idx.
    method CopyCommitted(idx: nat) returns (i: nat, copied: Data)
      ensures i <= |requests| && copied == RunOps(committedData, requests[..i])
      ensures forall j :: 0 <= j < i ==> requests[j].idx <= idx
      ensures i < |requests| ==> requests[i].idx > idx
    {
      i, copied := 0, committedData;
      while i < |requests| && requests[i].idx <= idx
        invariant i <= |requests| && copied == RunOps(committedData, requests[..i])
        invariant forall j :: 0 <= j < i ==> requests[j].idx <= idx
      {
        assert requests[..i + 1][..i] == requests[..i];
        copied := ApplyOp(copied, requests[i]);
        i := i + 1;
      }
    }

    // Drops the requests from a position on and rebuilds the data from the committed data;
    // false if the position is committed already.
    method Abort(abortIdx: nat) returns (ok: bool)
      requires Valid()
      modifies this
      ensures ok <==> abortIdx > committedIdx
      ensures Valid() && initial == old(initial) && past == old(past) && committedIdx == old(committedIdx)
      ensures History() == if ok then Below(old(History()), abortIdx) else old(History())
      ensures dataIdx == if History() == old(History()) then old(dataIdx) else committedIdx
    {
      if abortIdx <= committedIdx {
        return false;
      }
      if requests == [] || abortIdx > requests[|requests| - 1].idx {
        AllBelow(past, requests, committedIdx, abortIdx);
        return true;
      }
      var rebuilt := committedData;
      dataIdx := committedIdx;
      var i := 0;
      while i < |requests| && requests[i].idx < abortIdx
        invariant i <= |requests| && rebuilt == RunOps(committedData, requests[..i])
        invariant forall j :: 0 <= j < i ==> requests[j].idx < abortIdx
      {
        assert requests[..i + 1][..i] == requests[..i];
        rebuilt := ApplyOp(rebuilt, requests[i]);
        i := i + 1;
      }
      CutFollows(initial, past, requests, data, committedData, committedIdx, abortIdx, i);
      data := rebuilt;
      requests := requests[..i];
      return true;
    }

    // Prints the committed data with the pending requests on top (in one of the orders in which
    // an unordered map may be iterated) and labels it with dataIdx.
    method TakeSnapshot(order: seq<string>) returns (text: string, seqNo: nat)
      requires Valid() && IsOrder(data, order)
      ensures text == Print(data, order) && data == RunOps(initial, History()) && seqNo == dataIdx
    {
      var snapshotData := committedData;
      for i := 0 to |requests|
        invariant snapshotData == RunOps(committedData, requests[..i])
      {
        assert requests[..i + 1][..i] == requests[..i];
        snapshotData := ApplyOp(snapshotData, requests[i]);
      }
      assert requests[..|requests|] == requests;
      RunConcat(initial, past, requests);
      text := PrintData(snapshotData, order);
      seqNo := dataIdx;
    }

    method PrintData(m: Data, order: seq<string>) returns (text: string)
      requires forall k :: k in order ==> k in m
      ensures text == Print(m, order)
    {
      text := "";
      for i := 0 to |order|
        invariant text + Print(m, order[i..]) == Print(m, order)
      {
        text := text + order[i] + ":" + m[order[i]] + ",";
        assert order[i..][1..] == order[i + 1..];
      }
    }

    // Restores a snapshot, unless it does not have the digest it should have.  The pending requests
    // stay: the state belongs to a history again only if there are none.
    method ApplySnapshot(text: string, digest: TextDigest, idx: nat) returns (ok: bool)
      requires Valid()
      modifies this
      ensures ok <==> digest == ShaText(text)
      ensures requests == old(requests)
      ensures !ok ==> Valid() && History() == old(History())
      ensures !ok ==> dataIdx == old(dataIdx) && committedIdx == old(committedIdx)
      ensures ok ==> committedIdx == dataIdx == idx
      ensures ok ==> data == committedData == initial == ParseFrom(map[], text) && past == []
      ensures ok && requests == [] ==> Valid() && History() == []
    {
      if ShaText(text) != digest {
        return false;
      }
      var newData := Parse(text);
      data := newData;
      dataIdx := idx;
      committedData := data;
      committedIdx := idx;
      initial, past := newData, [];
      ok := true;
    }

    // The label of the next snapshot is the last position executed.
    ghost predicate Labelled()
      reads this
    {
      dataIdx == if requests == [] then committedIdx else requests[|requests| - 1].idx
    }

    // What an abort does to the next snapshot: it prints the history that is left, but if the abort
    // dropped something, its label is the last position executed exactly when nothing is pending.  A
    // receiver then executes the pending requests once more, which leaves the data as it is, so
    // that only its responses and positions are wrong.
    method SnapshotAfterAbort(abortIdx: nat, order: seq<string>) returns (text: string, seqNo: nat)
      requires Valid() && Labelled() && abortIdx > committedIdx
      requires IsOrder(RunOps(initial, Below(History(), abortIdx)), order)
      modifies this
      ensures Valid() && History() == Below(old(History()), abortIdx) && initial == old(initial)
      ensures text == Print(RunOps(initial, History()), order) && seqNo == dataIdx
      ensures Labelled() <==> History() == old(History()) || requests == []
      ensures RunOps(RunOps(initial, History()), requests) == RunOps(initial, History())
    {
      ghost var before := requests;
      var ok := Abort(abortIdx);
      assert (past + requests)[|past|..] == requests;
      assert (past + before)[|past|..] == before;
      assert requests != [] ==> requests[|requests| - 1].idx > committedIdx;
      RunConcat(initial, past, requests);
      RunAgain(RunOps(initial, past), requests);
      text, seqNo := TakeSnapshot(order);
    }
  }

  lemma SplitFollows(
    initial: Data, past: seq<Op>, requests: seq<Op>, data: Data, committedData: Data,
    committedIdx: nat, idx: nat, i: nat)
    requires Follows(initial, past, requests, data, committedData, committedIdx) && committedIdx <= idx
    requires i <= |requests| && forall j :: 0 <= j < i ==> requests[j].idx <= idx
    requires i < |requests| ==> requests[i].idx > idx
    ensures past + requests[..i] + requests[i..] == past + requests
    ensures Follows(initial, past + requests[..i], requests[i..], data, RunOps(committedData, requests[..i]), idx)
  {
    RunConcat(initial, past, requests[..i]);
    RunSplit(committedData, requests, i);
    ConcatSplit(past, requests, i);
    RestAbove(past, requests, idx, i);
    FirstWithin(past, requests, idx, i);
  }

  lemma RunSplit(m: Data, ops: seq<Op>, i: nat)
    requires i <= |ops|
    ensures RunOps(RunOps(m, ops[..i]), ops[i..]) == RunOps(m, ops)
  {
    RunConcat(m, ops[..i], ops[i..]);
    assert ops[..i] + ops[i..] == ops;
  }

  lemma ConcatSplit(a: seq<Op>, b: seq<Op>, i: nat)
    requires i <= |b|
    ensures a + b[..i] + b[i..] == a + b
  {
  }

  lemma FirstWithin(past: seq<Op>, requests: seq<Op>, idx: nat, i: nat)
    requires i <= |requests| && forall j :: 0 <= j < i ==> requests[j].idx <= idx
    requires forall j :: 0 <= j < |past| ==> past[j].idx <= idx
    ensures forall j :: 0 <= j < |past| + i ==> (past + requests[..i])[j].idx <= idx
  {
  }

  lemma RestAbove(past: seq<Op>, requests: seq<Op>, idx: nat, i: nat)
    requires Ascending(past + requests) && i <= |requests| && (i < |requests| ==> requests[i].idx > idx)
    ensures forall j :: 0 <= j < |requests| - i ==> requests[i..][j].idx > idx
  {
    RequestsAscend(past, requests);
    forall j | 0 <= j < |requests| - i ensures requests[i..][j].idx > idx {
      assert j > 0 ==> Earlier(requests, i, i + j);
    }
  }

  lemma RequestsAscend(past: seq<Op>, requests: seq<Op>)
    requires Ascending(past + requests)
    ensures Ascending(requests)
  {
    forall i, j | 0 <= i < j < |requests| ensures Earlier(requests, i, j) {
      assert Earlier(past + requests, |past| + i, |past| + j);
    }
  }

  lemma AppendAscends(ops: seq<Op>, op: Op)
    requires Ascending(ops) && forall i :: 0 <= i < |ops| ==> ops[i].idx < op.idx
    ensures Ascending(ops + [op])
  {
    forall i, j | 0 <= i < j < |ops| + 1 ensures Earlier(ops + [op], i, j) {
      assert j < |ops| ==> Earlier(ops, i, j);
    }
  }

  lemma AllBelow(past: seq<Op>, requests: seq<Op>, committedIdx: nat, abortIdx: nat)
    requires Ascending(past + requests) && committedIdx < abortIdx
    requires forall i :: 0 <= i < |past| ==> past[i].idx <= committedIdx
    requires requests == [] || abortIdx > requests[|requests| - 1].idx
    ensures Below(past + requests, abortIdx) == past + requests
  {
    var all := past + requests;
    forall i | 0 <= i < |all| ensures all[i].idx < abortIdx {
      assert |past| <= i < |all| - 1 ==> Earlier(all, i, |all| - 1);
    }
    BelowIsPrefix(all, abortIdx, |all|);
    assert all[..|all|] == all;
  }

  lemma CutFollows(
    initial: Data, past: seq<Op>, requests: seq<Op>, data: Data, committedData: Data,
    committedIdx: nat, idx: nat, i: nat)
    requires Follows(initial, past, requests, data, committedData, committedIdx) && committedIdx < idx
    requires i < |requests| && requests[i].idx >= idx && forall j :: 0 <= j < i ==> requests[j].idx < idx
    ensures past + requests[..i] == Below(past + requests, idx) && |Below(past + requests, idx)| < |past + requests|
    ensures Follows(initial, past, requests[..i], RunOps(committedData, requests[..i]), committedData, committedIdx)
  {
    var all, k := past + requests, |past| + i;
    assert all[..k] == past + requests[..i];
    forall j | k <= j < |all| ensures all[j].idx >= idx {
      assert j > k ==> Earlier(all, k, j);
    }
    BelowIsPrefix(all, idx, k);
    forall j, l | 0 <= j < l < k ensures Earlier(all[..k], j, l) {
      assert Earlier(all, j, l);
    }
  }

  // ----- Pending requests and snapshots

  ghost predicate HarmlessFor(m: Data, ops: seq<Op>) {
    RunOps(m, ops) == m
  }

  // The last write to a key decides.
  lemma {:induction false} LastWriteDecides(m: Data, ops: seq<Op>, k: nat)
    requires k < |ops| && !ops[k].kind.Get?
    requires forall j :: k < j < |ops| ==> ops[j].kind.Get? || ops[j].key != ops[k].key
    ensures if ops[k].kind.Set? then ops[k].key in RunOps(m, ops) && RunOps(m, ops)[ops[k].key] == ops[k].value
            else ops[k].key !in RunOps(m, ops)
  {
    var n := |ops| - 1;
    if k < n {
      LastWriteDecides(m, ops[..n], k);
    }
  }

  lemma {:induction false} ReadsChangeNothing(m: Data, ops: seq<Op>)
    requires forall i :: 0 <= i < |ops| ==> ops[i].kind.Get?
    ensures RunOps(m, ops) == m
  {
    if ops != [] {
      ReadsChangeNothing(m, ops[..|ops| - 1]);
    }
  }

  lemma {:induction false} LastWriteExists(ops: seq<Op>) returns (k: nat)
    requires exists i :: 0 <= i < |ops| && !ops[i].kind.Get?
    ensures k < |ops| && !ops[k].kind.Get? && forall j :: k < j < |ops| ==> ops[j].kind.Get?
  {
    k := |ops| - 1;
    while ops[k].kind.Get?
      decreases k
      invariant 0 <= k < |ops| && forall j :: k < j < |ops| ==> ops[j].kind.Get?
      invariant exists i :: 0 <= i <= k && !ops[i].kind.Get?
    {
      k := k - 1;
    }
  }

  // Requests left pending when a snapshot is restored do no harm, whatever the snapshot is,
  // exactly when none of them is a write.
  lemma PendingHarmlessIff(ops: seq<Op>)
    ensures (forall m: Data :: HarmlessFor(m, ops)) <==> forall i :: 0 <= i < |ops| ==> ops[i].kind.Get?
  {
    if forall i :: 0 <= i < |ops| ==> ops[i].kind.Get? {
      forall m: Data ensures HarmlessFor(m, ops) {
        ReadsChangeNothing(m, ops);
      }
    } else {
      var k := LastWriteExists(ops);
      var m: Data := if ops[k].kind.Set? then map[] else map[ops[k].key := ""];
      LastWriteDecides(m, ops, k);
      assert !HarmlessFor(m, ops);
    }
  }

  // ----- What a wrong label does

  // What the last write to a key leaves: nothing if there is none, else the value, or its absence.
  function LastWrite(ops: seq<Op>, key: string): Option<Option<string>> {
    if ops == [] then None
    else
      var last := ops[|ops| - 1];
      if last.key != key || last.kind.Get? then LastWrite(ops[..|ops| - 1], key)
      else Some(if last.kind.Set? then Some(last.value) else None)
  }

  function At(m: Data, key: string): Option<string> {
    if key in m then Some(m[key]) else None
  }

  lemma {:induction false} RunAt(m: Data, ops: seq<Op>, key: string)
    ensures At(RunOps(m, ops), key) == match LastWrite(ops, key) case None => At(m, key) case Some(v) => v
  {
    if ops != [] {
      RunAt(m, ops[..|ops| - 1], key);
    }
  }

  // Executing the same requests once more changes nothing.
  lemma RunAgain(m: Data, ops: seq<Op>)
    ensures RunOps(RunOps(m, ops), ops) == RunOps(m, ops)
  {
    var once, twice := RunOps(m, ops), RunOps(RunOps(m, ops), ops);
    forall key ensures At(twice, key) == At(once, key) {
      RunAt(m, ops, key);
      RunAt(once, ops, key);
    }
    forall key ensures key in twice <==> key in once {
      assert At(twice, key) == At(once, key);
    }
    forall key | key in once ensures twice[key] == once[key] {
      assert At(twice, key) == At(once, key);
    }
  }
}
