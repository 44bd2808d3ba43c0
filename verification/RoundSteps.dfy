// One round of the protocol as a step system: speculative appends, replies, commit messages
// and re-alignment to the checkpoint in a snapshot reply, with at most f arbitrary replicas.
//
// The steps over-approximate processClientRequest, processReply, processCommit and
// processSnapshotReply of processes/replica/replica.cc: a correct replica may append anything,
// may reply for any prefix of its log, and sends a COMMIT only for a digest it holds a superquorum
// certificate for (or for the digest the round started from).  It re-aligns to the committed
// checkpoint of a correct replica, or to what a faulty one makes it believe; how much that can be
// depends on what it checks of the reply.  The source checks nothing (`NoCheck`): verifyCheckpoint
// returns true at once (replica.cc:2248-2256).

module RoundSteps {
  import opened Digests
  import opened Quorums

  // What a replica checks of the checkpoint in a snapshot reply: nothing; that it comes with f + 1
  // COMMITs for its digest; or that they are for its digest and its client record, which is what
  // CommitCollector matches (lib/checkpoint_collector.cc:102-107).
  datatype Check = NoCheck | DigestCheck | FullCheck

  // Who is faulty, the digest the previous round ended with, and how replies are checked.
  datatype Setting = Setting(cfg: Config, byz: set<nat>, base: Digest, check: Check) {
    predicate Ok() {
      byz <= Replicas(cfg.NumReplicas()) && |byz| <= cfg.f
    }

    // Nobody makes a correct replica believe in a checkpoint that is not one.
    predicate Guarded() {
      Ok() && (check.FullCheck? || byz == {})
    }

    function Correct(): set<nat> {
      Replicas(cfg.NumReplicas()) - byz
    }
  }

  // `logs` holds the history of every correct replica that has entered the round, `replies` and
  // `commits` every REPLY and COMMIT of the round that anyone has sent.
  datatype State = State(logs: map<nat, Digest>, replies: set<(nat, Digest)>, commits: set<(nat, Digest)>)

  const Start := State(map[], {}, {})

  function Repliers(st: State, d: Digest): set<nat> {
    set p | p in st.replies && p.1 == d :: p.0
  }

  function Committers(st: State, d: Digest): set<nat> {
    set p | p in st.commits && p.1 == d :: p.0
  }

  // A superquorum of matching replies: the certificate of ReplyCollector, and what a client
  // needs to commit on the fast path.
  predicate Certified(x: Setting, st: State, d: Digest) {
    |Repliers(st, d)| >= x.cfg.SuperQuorum()
  }

  // A quorum of matching replies: the certificate a client sends on the normal path.
  predicate QuorumReplied(x: Setting, st: State, d: Digest) {
    |Repliers(st, d)| >= x.cfg.Quorum()
  }

  // f + 1 matching COMMIT messages: what CommitCollector turns into a checkpoint.
  predicate Checkpointed(x: Setting, st: State, d: Digest) {
    |Committers(st, d)| >= x.cfg.f + 1
  }

  // Everything that clients or replicas act on.
  predicate Decided(x: Setting, st: State, d: Digest) {
    Certified(x, st, d) || QuorumReplied(x, st, d) || Checkpointed(x, st, d)
  }

  // Where a correct replica's committed checkpoint comes from: f + 1 replicas committed it in this
  // round, or it is from before the round.
  predicate Committed(x: Setting, st: State, c: Digest) {
    Checkpointed(x, st, c) || Extends(x.base, c)
  }

  datatype Step =
    | Enter(r: nat, log: Digest)
    | Append(r: nat, id: RequestId, request: Request)
    | Reply(r: nat, d: Digest)
    | Commit(r: nat, d: Digest)
    | Align(r: nat, checkpoint: Digest, log: Digest)

  // A faulty replica can send c as its checkpoint, with a client record of its choice.
  predicate Forgeable(x: Setting, st: State, c: Digest) {
    x.byz != {} && (x.check.NoCheck? || (x.check.DigestCheck? && Committed(x, st, c)))
  }

  predicate Enabled(x: Setting, st: State, s: Step) {
    match s
    case Enter(r, log) =>
      r in x.Correct() && r !in st.logs && Extends(log, x.base)
    case Append(r, _, _) =>
      r in st.logs
    case Reply(r, d) =>
      r in x.byz || (r in st.logs && Extends(st.logs[r], d))
    case Commit(r, d) =>
      r in x.byz || (r in st.logs && (d == x.base || (Certified(x, st, d) && (r, d) in st.replies)))
    case Align(r, c, log) =>
      && r in st.logs
      && Extends(log, c)
      && (Forgeable(x, st, c) || (Committed(x, st, c) && (Extends(st.logs[r], c) ==> log == st.logs[r])))
  }

  function After(st: State, s: Step): State {
    match s
    case Enter(r, log) => st.(logs := st.logs[r := log])
    case Append(r, id, q) =>
      if r in st.logs then st.(logs := st.logs[r := Next(st.logs[r], id, q)]) else st
    case Reply(r, d) => st.(replies := st.replies + {(r, d)})
    case Commit(r, d) => st.(commits := st.commits + {(r, d)})
    case Align(r, _, log) => st.(logs := st.logs[r := log])
  }

  // The state after a sequence of steps, and whether each of them was enabled.
  function Run(steps: seq<Step>): State {
    if steps == [] then Start else After(Run(steps[..|steps| - 1]), steps[|steps| - 1])
  }

  predicate Legal(x: Setting, steps: seq<Step>) {
    steps != [] ==>
      && Legal(x, steps[..|steps| - 1])
      && Enabled(x, Run(steps[..|steps| - 1]), steps[|steps| - 1])
  }
}
