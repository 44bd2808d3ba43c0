// The round of RoundSteps with what the normal path adds to it: the committed checkpoint and the
// latest certificate of every correct replica, and the acknowledgements sent to clients.
//
// The moves follow processCert, processCommit and processSnapshotReply of
// processes/replica/replica.cc with addCert, setCheckpoint and applySnapshotModifyLog of lib/log.cc:
// a certificate is stored if it is the highest so far, and alignment drops it.

module RoundCerts {
  import opened Options
  import opened Digests
  import opened Quorums
  import opened ClientRecords
  import opened RoundSteps
  import opened RoundSafety
  import opened RoundTightness

  datatype World = World(
    st: State, committed: map<nat, Digest>, certs: map<nat, Digest>, acks: set<(nat, Digest)>)

  const Outset := World(Start, map[], map[], {})

  // A replica joins with a committed checkpoint from before the round, and possibly still with a
  // certificate from before.
  datatype Move =
    | Join(r: nat, log: Digest, checkpoint: Digest, cert: Option<Digest>)
    | Plain(s: Step)
    | Advance(r: nat, c: Digest)
    | Certify(r: nat, c: Digest)
    | Realign(r: nat, c: Digest, log: Digest)

  // What the signatures on a certificate show.
  predicate HasReplies(x: Setting, st: State, c: Digest) {
    QuorumReplied(x, st, c) || Certified(x, st, c)
  }

  // addCert: the certificate is for an own entry or, if the entry is committed, for a request
  // that the committed client record has.
  ghost predicate Accepts(log: Digest, committed: Digest, c: Digest) {
    && c.Link?
    && if Height(c) <= Height(committed) then c.id in Ids(committed) else Extends(log, c)
  }

  ghost predicate Allowed(x: Setting, w: World, m: Move) {
    match m
    case Join(r, log, ck, _) =>
      Enabled(x, w.st, Enter(r, log)) && Extends(x.base, ck)
    case Plain(s) =>
      (s.Append? || s.Reply? || s.Commit?) && Enabled(x, w.st, s)
    case Advance(r, c) =>
      && r in w.st.logs && r in w.committed
      && Checkpointed(x, w.st, c) && Extends(w.st.logs[r], c) && Height(c) > Height(w.committed[r])
    case Certify(r, c) =>
      || r in x.byz
      || (HasReplies(x, w.st, c) && r in w.st.logs && r in w.committed && Accepts(w.st.logs[r], w.committed[r], c))
    case Realign(r, c, log) =>
      Enabled(x, w.st, Align(r, c, log)) && r in w.committed && Height(c) > Height(w.committed[r])
  }

  // The certificates after c was added at replica r.
  function Stored(w: World, r: nat, c: Digest): map<nat, Digest> {
    if r in w.committed && Height(c) > Height(w.committed[r]) && (r in w.certs ==> Height(c) > Height(w.certs[r]))
    then w.certs[r := c]
    else w.certs
  }

  function Moved(w: World, m: Move): World {
    match m
    case Join(r, log, ck, cert) =>
      World(After(w.st, Enter(r, log)), w.committed[r := ck],
            if cert.Some? then w.certs[r := cert.value] else w.certs, w.acks)
    case Plain(s) => w.(st := After(w.st, s))
    case Advance(r, c) => w.(committed := w.committed[r := c])
    case Certify(r, c) => w.(certs := Stored(w, r, c), acks := w.acks + {(r, c)})
    case Realign(r, c, log) =>
      World(After(w.st, Align(r, c, log)), w.committed[r := c], w.certs - {r}, w.acks)
  }

  function WorldOf(moves: seq<Move>): World {
    if moves == [] then Outset else Moved(WorldOf(moves[..|moves| - 1]), moves[|moves| - 1])
  }

  // All moves are allowed; without `aligning` none of them is an alignment, so that logs only grow.
  ghost predicate Lawful(x: Setting, moves: seq<Move>, aligning: bool) {
    moves != [] ==>
      && Lawful(x, moves[..|moves| - 1], aligning)
      && Allowed(x, WorldOf(moves[..|moves| - 1]), moves[|moves| - 1])
      && (moves[|moves| - 1].Realign? ==> aligning)
  }

  ghost predicate Arises(x: Setting, w: World, aligning: bool) {
    exists moves :: Lawful(x, moves, aligning) && WorldOf(moves) == w
  }

  lemma OutsetArises(x: Setting, aligning: bool)
    ensures Arises(x, Outset, aligning)
  {
    assert Lawful(x, [], aligning) && WorldOf([]) == Outset;
  }

  lemma MoveArises(x: Setting, w: World, m: Move, aligning: bool)
    requires Arises(x, w, aligning) && Allowed(x, w, m) && (m.Realign? ==> aligning)
    ensures Arises(x, Moved(w, m), aligning)
  {
    var moves :| Lawful(x, moves, aligning) && WorldOf(moves) == w;
    assert (moves + [m])[..|moves|] == moves;
    assert Lawful(x, moves + [m], aligning) && WorldOf(moves + [m]) == Moved(w, m);
  }

  // ----- What holds in every world

  // Replica r still accounts for d: its committed checkpoint or its latest certificate is at
  // least as high.
  predicate Remembers(w: World, r: nat, d: Digest) {
    || (r in w.committed && Height(w.committed[r]) >= Height(d))
    || (r in w.certs && Height(w.certs[r]) >= Height(d))
  }

  ghost predicate Sane(x: Setting, w: World) {
    && Reachable(x, w.st)
    && w.committed.Keys == w.st.logs.Keys
    && w.st.logs.Keys <= x.Correct()
    && ((x.check.NoCheck? ==> x.byz == {}) ==> forall r :: r in w.committed ==> Committed(x, w.st, w.committed[r]))
    && (forall p :: p in w.acks ==> p.0 in x.byz || (p.0 in w.st.logs && HasReplies(x, w.st, p.1)))
  }

  ghost predicate AllRemember(w: World) {
    forall p :: p in w.acks && p.0 in w.st.logs ==> Remembers(w, p.0, p.1)
  }

  lemma RepliesStay(x: Setting, st: State, s: Step, d: Digest)
    ensures HasReplies(x, st, d) ==> HasReplies(x, After(st, s), d)
    ensures Committed(x, st, d) ==> Committed(x, After(st, s), d)
  {
    SubsetSize(Repliers(st, d), Repliers(After(st, s), d));
    SubsetSize(Committers(st, d), Committers(After(st, s), d));
  }

  lemma StepSane(x: Setting, w: World, s: Step)
    requires Sane(x, w) && Enabled(x, w.st, s)
    ensures Reachable(x, After(w.st, s))
    ensures forall d :: HasReplies(x, w.st, d) ==> HasReplies(x, After(w.st, s), d)
    ensures forall d :: Committed(x, w.st, d) ==> Committed(x, After(w.st, s), d)
  {
    StepReachable(x, w.st, s);
    forall d ensures HasReplies(x, w.st, d) ==> HasReplies(x, After(w.st, s), d) {
      RepliesStay(x, w.st, s, d);
    }
    forall d ensures Committed(x, w.st, d) ==> Committed(x, After(w.st, s), d) {
      RepliesStay(x, w.st, s, d);
    }
  }

  lemma MoveSane(x: Setting, w: World, m: Move)
    requires Sane(x, w) && Allowed(x, w, m)
    ensures Sane(x, Moved(w, m))
  {
    match m
    case Join(r, log, ck, cert) => StepSane(x, w, Enter(r, log));
    case Plain(s) => StepSane(x, w, s);
    case Advance(r, c) =>
    case Certify(r, c) =>
    case Realign(r, c, log) => StepSane(x, w, Align(r, c, log));
  }

  lemma MoveRemembers(x: Setting, w: World, m: Move)
    requires Sane(x, w) && AllRemember(w) && Allowed(x, w, m) && !m.Realign?
    ensures AllRemember(Moved(w, m))
  {
  }

  lemma {:induction false} RunSane(x: Setting, moves: seq<Move>, aligning: bool)
    requires Lawful(x, moves, aligning)
    ensures Sane(x, WorldOf(moves))
    ensures !aligning ==> AllRemember(WorldOf(moves))
  {
    if moves == [] {
      StartReachable(x);
    } else {
      var n := |moves| - 1;
      RunSane(x, moves[..n], aligning);
      MoveSane(x, WorldOf(moves[..n]), moves[n]);
      if !aligning {
        MoveRemembers(x, WorldOf(moves[..n]), moves[n]);
      }
    }
  }

  // A round whose logs only grow does not depend on how snapshot replies are checked.
  lemma {:induction false} LawfulAnyCheck(x: Setting, moves: seq<Move>, check: Check)
    requires Lawful(x, moves, false)
    ensures Lawful(x.(check := check), moves, false)
  {
    if moves != [] {
      var n := |moves| - 1;
      LawfulAnyCheck(x, moves[..n], check);
      AllowedAnyCheck(x, WorldOf(moves[..n]), moves[n], check);
    }
  }

  lemma AllowedAnyCheck(x: Setting, w: World, m: Move, check: Check)
    requires Allowed(x, w, m) && !m.Realign?
    ensures Allowed(x.(check := check), w, m)
  {
    var y := x.(check := check);
    assert y.Correct() == x.Correct();
  }

  lemma ArisesAnyCheck(x: Setting, w: World, check: Check)
    requires Arises(x, w, false)
    ensures Arises(x.(check := check), w, false)
  {
    var moves :| Lawful(x, moves, false) && WorldOf(moves) == w;
    LawfulAnyCheck(x, moves, check);
  }

  // In every world what is acknowledged was replied by enough replicas; and if logs only grow, a
  // correct replica that acknowledged a certificate still accounts for it.
  lemma AcksRemembered(x: Setting, w: World, aligning: bool)
    requires Arises(x, w, aligning)
    ensures Sane(x, w)
    ensures !aligning ==> AllRemember(w)
  {
    var moves :| Lawful(x, moves, aligning) && WorldOf(moves) == w;
    RunSane(x, moves, aligning);
  }
}
