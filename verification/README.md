# DOM-BFT: the replicated log, its repair, and the protocols beside it

This project models the core of the DOM-BFT replica and of its neighbours in the same repository,
and proves what they keep over all inputs and all runs.

DOM-BFT runs `n = 3f + 2e + 1` replicas. A client commits on the fast path when a superquorum
`3f + e + 1` replies the same log digest, or on the normal path through a certificate of
`2f + 2e + 1` matching replies. When logs diverge, a *repair* reduces the start messages of a
quorum to one log suffix, and every replica rewrites its log to it. Between repairs a replica whose
log disagrees with a committed checkpoint *aligns*: it moves to the checkpoint and reapplies its own
last requests. The central questions are whether what was committed survives, and whether the
replicas converge.

The answers, in the order of the modules:

- **A round is safe** (`RoundSafety`, `RoundTightness`, `RoundHistory`, `RoundForgery`) if the
  checkpoints in snapshot replies are verified, which the code does not do: then in every run with
  at most `f` arbitrary replicas, all certificates lie on one digest chain; with more, some run
  breaks this. At most `e` correct replicas are off a certified chain at any one time, and that
  bound is reached. If they are not verified, one faulty replica is enough to break all of this.
- **A repair keeps what was committed, exactly when** (`RepairSelection` to
  `RepairSurvivalLimits`). Again with verified snapshot replies, what a superquorum replied is in
  every suffix that the round can decide, and in the history of every correct replica after the
  repair, if the log that the chosen certificate came with agrees with it; with `e >= f` so is what
  a quorum replied. What a quorum acknowledged is kept, on the same condition, if logs only grow and
  `f <= e + 1`. These conditions are shown to be exact. The decided digests do not depend on the
  order of the start messages.
- **Logs are histories** (`Logs`, `CounterApp`, `KVStoreApp`). The truncated deque, the two
  checkpoints and the application always hold one append-only history.
- **Replicas converge** (`RepairApply`, `RepairConvergence`, `StateTransfer`, `Realignment`).
  Applying the same suffix, or the reply of a correct sender, leads to the same history, client
  record and application state. Alignment keeps own requests in order and without repeats, and is
  a step that the round model allows.
- **Collectors** (`ReplyCollection`, `CertCollection`) form certificates exactly when the stored
  replies have a quorum, and a conflict proof exactly when no completion could.
- **Flutter** (`FlutterState` to `FlutterRepeats`): once a correct replica has counted
  `4f + 1` equal votes, no correct replica counts the opposite and the leader never sends it. A
  replica accepts a bet exactly if the request came by then, and commits it only after its lock time
  has passed it (`FlutterTiming`).
- **The wait-die lock** (`WaitDie`) grants exactly the maximal compatible prefix of its queue,
  calls every request back at most once, and cannot deadlock across locks.

## Where the code does not do what it is meant to

Each of these is a result with a concrete input, an exact condition, or both.

- `RoundForgery.ForgedRun`, `RoundSafeIff`, `CheckSufficesIff`: nothing checks the checkpoint in a
  snapshot reply: `verifyCheckpoint` returns true at once, and a reply that was not asked for is
  taken all the same. In every configuration with `f >= 1`, one faulty replica can make all correct
  ones give up what they replied, and two incompatible digests are certified. This needs no false
  digest: with a false client record the replicas drop their own entries as duplicates
  (`StateTransfer.SendBack`, `Realignment.NothingReappliedIff`). So checking that `f + 1` replicas
  committed the digest would not be enough. A round is safe if and only if at most `f` replicas are
  faulty and, unless none is, digest and client record are both checked; over all rounds of a
  configuration, if and only if both are checked or `f = 0`.
- `RepairForgery.FastCommitKeptIff`, `OneChainIffEnoughSpares`, `NormalCommitKeptIff`,
  `RepairSurvivalLimits.FastCommitSurvivesIff`, `RoundForgery.EverFewIff`: the same check is
  necessary, and with the conditions below sufficient, for each of these results.
- `RepairBranches.BorrowedIsBroken`, `RepairForgery.FastCommitKeptIff`: nor is it checked that a
  certificate in a start message is for an entry of the log that it comes with, or from this
  round; the entries up to it are copied from that log all the same. In every configuration with
  more than one replica, a fast commit is then lost. Every suffix keeps every fast commit exactly
  when snapshot replies are checked or `f = 0`, and: all certificates are of the round and for
  entries of their own logs; or all are of the round, those of correct replicas are for entries of
  their own logs, and `f = 0`; or there is only one replica. The decided order is one chain in all
  runs if, besides, `e >= f`, and only then (`RepairForgery.OneChainIffEnoughSpares`). For one given
  proposal the conditions are `RepairDurability.OrderKeepsIff` and `RepairGuarantees.OneChainIff`.
- `RepairSurvival.StartAfterRepair`: correct replicas can send such certificates: `abort` does not
  clear the certificate, and the next start message carries it; it is for none of its entries
  exactly when the suffix did not lead back to its entry and no checkpoint covers it.
- `RepairForgery.NormalCommitKeptIff`: what a quorum acknowledged is kept in all rounds whose logs
  only grow exactly when `f <= e + 1`, because a checkpoint in a start message is not verified; and
  in all rounds with alignments exactly when `f <= e` and snapshot replies are checked or `f = 0`,
  because an alignment drops the certificate.
- `RoundForgery.EverFewIff`: over a whole run, at most `e` correct replicas ever hold a history that
  conflicts with a certified one exactly when `e = 0` and, unless `f = 0`, snapshot replies are
  checked. `RoundSafety.FewOffChain` is about the logs they hold at one time.
- `RepairOrder.ExitIndependentIff`: whether the source exits for lack of matching checkpoints
  depends on the order of the start messages, unless enough logs hold each of the highest
  checkpoints, or none.
- `Realignment.ThresholdWraps`, `AlignedAsIntendedIff`: the position above which own entries are
  reapplied is a difference of unsigned 32-bit numbers. The result is the intended one exactly when
  it does not wrap, or the checkpoint has all own requests that the wrapped position leaves out.
- `Realignment.NothingLostIff`: alignment loses own requests unless the checkpoint has all of those
  at or below that position.
- `RepairApply.ClaimedDigestRightIff`: the suffix digest is computed from the optional request
  field, so it is the digest that replicas reach exactly when all requests are included in full.
- `RepairConvergence.RetryKeepsIff`, `LoseWhileWaiting`, `RetryCompletesIff`: an attempt to apply a
  suffix that finds requests missing has already dropped the own entries. On the retry, an own
  request is in the target or queued again exactly when it was not dropped or is in the suffix.
- `RepairSurvival.DecidedAppliableIff`: a decided suffix can be applied without repeating a request
  exactly when its checkpoint has none of its requests; the source only logs that case.
- `FlutterBlindReject.DecisionsAgreeIff`, `DecisionsCanDiffer`: a leader that rejects a bet before
  it has seen the request forgets that it has decided. Correct replicas decide alike in all runs
  exactly when there is only one replica; with more, whoever leads and even if nobody is faulty,
  they can decide differently.
- `FlutterRepeats.CommitsOnceIff`, `CanCommitTwice`: a replica that rejects a bet before it has the
  request counts up the bet that it does hold, and does not drop that one when the client raises its
  bet again. Every request is committed under one bet only, in all runs, exactly when there is only
  one replica; with more, even if nobody is faulty, any correct replica can commit a request twice.
  In runs where no replica rejects a bet of a request that it holds under another one, none does
  (`FlutterRepeats.CommitsOnce`).
- `FlutterClocks.LockTimeReachedIff`: of the clocks that the code waits for, `4f + 1` are certain to
  have reached the lock time exactly when all `5f + 1` are known.
- `KVStoreApp.PendingHarmlessIff`, `KVStoreApp.KVStore.SnapshotAfterAbort`,
  `KVSnapshots.SnapshotRoundTripIff`: restoring a snapshot keeps stale pending writes; a snapshot
  taken after an abort that dropped something is labelled rightly exactly when nothing is pending,
  and a receiver then executes the pending requests once more, which leaves the data as it is;
  the snapshot text can be read back exactly when no key or value has a delimiter in it.

## Assumptions

The code does not enforce these; they are preconditions or choices of the model.

- Digests are injective: a digest is the term of what was hashed, so it stands for a history.
  Request digests and snapshot digests likewise. Messages are authenticated values.
- The logs in start messages are contiguous and chained, from distinct replicas, with requests that
  parse and do not repeat (`WellFormed`, `SoundLogs`). Nothing is assumed of their certificates
  unless a theorem says so (`HolderAgrees`, `OneBranch`, `CertsInLogs`, `FromRound`).
  `GetLogSuffixFromProposal` itself needs none of this.
- The theorems about a round say how snapshot replies are checked (`Setting.check`). Where they
  require `Guarded`, digest and client record are checked against `f + 1` COMMITs, or no replica is
  faulty. The code checks nothing (`NoCheck`).
- The application snapshot in a reply is of the history that it is sent with (`ReplySound`).
- All correct replicas apply the same proposal of a round (the agreement on it is PBFT's part).
- A request is not sent with two bodies under one id where a theorem says "full requests"
  or `NoEquivocation`.
- Sequence numbers stay below 2^32; where subtraction wraps, it is modelled.
- `abort` is given a position above the committed checkpoint and at most the next one where a
  contract says that the log stays valid; the other cases are in the contract too.
- Client sequence numbers start at 1. `std::map` iterates in key order; the iteration order of an
  unordered map is a parameter.

## Modules

| module | follows |
|---|---|
| `Options`, `Digests`, `Quorums`, `Grouping` | the digest chain, replica counts, counting by key |
| `ClientRecords` | `lib/client_record.cc` |
| `RoundSteps`, `RoundSafety` | the steps of one round of `processes/replica/replica.cc`, and their invariant |
| `RoundTightness`, `RoundHistory` | runs that reach the bounds of `RoundSafety`, what one more faulty replica can do, and what was held in the course of a run |
| `RoundForgery` | what forged snapshot replies do to a round, and exactly when it is safe |
| `RoundCerts` | the same round with committed checkpoints, certificates and their acknowledgements |
| `RepairSelection`, `RepairDurability`, `RepairGuarantees`, `RepairBranches`, `RepairOrder`, `RepairRequests` | `getLogSuffixFromProposal` and what it guarantees |
| `RepairNormal`, `RepairNormalLimits` | what a repair keeps of the normal path |
| `RepairForgery`, `RepairSurvivalLimits` | what forged snapshot replies do to a repair, and exactly when it keeps what was committed |
| `CounterApp`, `KVStoreApp`, `KVSnapshots` | `lib/apps` |
| `Logs`, `Realignment`, `StateTransfer` | `lib/log.cc` and the snapshot handlers of the replica |
| `RepairBodies`, `RepairApply`, `RepairConvergence`, `RepairSurvival` | `getAbortedEntries`, `applySuffix`, and the whole repair |
| `ReplyCollection`, `CertCollection` | `lib/checkpoint_collector.cc`, `lib/cert_collector.cc` |
| `FlutterState`, `FlutterClocks`, `FlutterReplicas`, `FlutterAgreement`, `FlutterTiming`, `FlutterBlindReject`, `FlutterRepeats` | `processes/flutter` |
| `WaitDie` | `lib/rrr/misc/alock.cpp` |

`dafny verify dfyconfig.toml` checks the whole project.

## Model

| member | source | states |
|---|---|---|
| `RoundSafety.RoundIsSafe` | processes/replica/replica.cc:1380-1425 | in every run of a round with verified snapshot replies, any two digests that a superquorum replied, a quorum replied, or f + 1 replicas committed are prefixes of one another |
| `RoundSafety.FewOffChain` | processes/replica/replica.cc:1641-1662 | with verified snapshot replies, at most e correct replicas are off the chain of a certified digest, at most f off one that a quorum replied |
| `RoundForgery.RoundSafeIff` | processes/replica/replica.cc:576-596 | all that is decided in every reachable state of a round is compatible if and only if at most f replicas are faulty and, unless none is, snapshot replies are checked in digest and client record |
| `RoundForgery.ForgedRun` | processes/replica/replica.cc:2248-2256 | with any faulty replica and less than that check, a run in which it makes all correct replicas give up a certified digest and an incompatible one is certified too |
| `RoundForgery.CheckSufficesIff` | lib/config/config_manager.cc:35-45 | all rounds of a configuration with at most f faulty replicas are safe if and only if replies are checked in full or f is 0 |
| `RoundTightness.FewOffChainTight` | processes/replica/replica.cc:1641-1662 | whoever is faulty, some run certifies a given digest while exactly e correct replicas are off its chain, and in some run a quorum replies it while exactly f are |
| `RoundForgery.EverFewIff` | processes/replica/replica.cc:1641-1662 | in all runs at most e correct replicas have ever held a history that conflicts with a certified digest, if and only if e is 0 and replies are checked in full or f is 0 |
| `RoundSafety.OpposedRepliersFew` | lib/checkpoint_collector.cc:49-61 | in a state with the round invariant, a digest that a certificate opposes was replied by too few replicas to be certified |
| `RoundSafety.RunKeeps` | processes/replica/replica.cc:1225-1333 | with verified snapshot replies, every run of appends, replies, commits and alignments keeps the round invariant |
| `RoundCerts.AcksRemembered` | processes/replica/replica.cc:1187-1223 | in every run with certificates, acknowledged digests have enough replies; and if logs only grow, an acknowledging replica still has the certificate, a higher one, or a checkpoint there |
| `RepairSelection.ChooseCheckpoint` | lib/repair_utils.cc:60-76 | the loop picks the last of the start messages with the highest checkpoint |
| `RepairSelection.CountMatches` | lib/repair_utils.cc:78-106 | the loop counts exactly the other logs that show the checkpoint's digest at its position |
| `RepairSelection.ChooseCert` | lib/repair_utils.cc:116-138 | the loop finds the highest certificate above the checkpoint, the first among equals |
| `RepairSelection.ScanMatching` | lib/repair_utils.cc:158-180 | the loop leaves the last entry in scan order at which a digest reaches the threshold |
| `RepairSelection.GetValidClientRequests` | lib/repair_utils.cc:13-41 | the loops collect the requests whose (id, body) reaches f + 1, with the entry that came last |
| `RepairRequests.LastBackedTaken` | lib/repair_utils.cc:13-41 | of the entries of a request with which some body has been seen f + 1 times, the last is taken |
| `RepairSelection.GetLogSuffixFromProposal` | lib/repair_utils.cc:43-246 | for any proposal the decided suffix, with the checkpoint and the sender of the last start message with the highest checkpoint; None where the source exits |
| `RepairSelection.CheckpointSender` | lib/repair_utils.cc:60-76 | the checkpoint of a decided suffix is the one that the replica named in it has sent, and the highest of all |
| `RepairSelection.DecidedIffShown` | lib/repair_utils.cc:78-110 | a suffix is decided if and only if the logs of f + e + 1 messages from other replicas show the highest checkpoint |
| `RepairDurability.ScanFindsLongest` | lib/repair_utils.cc:158-194 | with a quorum of chained logs, the digests that reach f + e + 1 form one chain and the scan ends at its longest |
| `RepairDurability.OrderKeepsIff` | lib/repair_utils.cc:140-194 | a history that at most f + e start messages stray from is kept by the decided order if and only if the log of the chosen certificate agrees with it up to that certificate |
| `RepairDurability.FewStraysKept` | lib/repair_utils.cc:60-194 | the chosen checkpoint is on its chain; the suffix keeps it if that log agrees with it or the checkpoint has it all, and only then if that log goes as far as the certificate |
| `RepairGuarantees.FastCommitSurvivesRepair` | lib/repair_utils.cc:60-194 | what a superquorum replied in a run of the round with verified snapshot replies is kept by the suffix of every proposal of that round under the same condition on the certificate's log, whatever certificates the messages carry |
| `RepairGuarantees.QuorumReplySurvivesRepair` | lib/repair_utils.cc:140-194 | with e >= f the same holds for what a quorum replied |
| `RepairGuarantees.RoundProposalKeeps` | lib/repair_utils.cc:116-156 | the condition holds if snapshot replies are verified and all certificates were collected in the round and are for entries of their own logs |
| `RepairForgery.FastCommitKeptIff` | processes/replica/replica.cc:2092-2139 | every proposal of every round keeps every fast commit if and only if snapshot replies are checked in full or f is 0, and certificates are all of the round and for entries of their own logs, or f is 0 and those of correct replicas are, or there is one replica |
| `RepairBranches.BorrowedIsBroken` | lib/repair_utils.cc:140-156 | with more than one replica, a certificate sent with another log loses what all correct replicas replied |
| `RepairNormal.NormalCommitSurvivesRepair` | processes/client/client.cc:655-660 | in every round whose logs only grow, a certificate that a quorum acknowledged is kept, if f <= e + 1 or the chosen checkpoint is on its chain, and the chosen certificate's log agrees with it |
| `RepairForgery.NormalCommitKeptIff` | processes/replica/replica.cc:2248-2256 | with certificates for entries of their own logs: kept in all rounds whose logs only grow if and only if f <= e + 1, and in all rounds with alignments if and only if f <= e and snapshot replies are checked in full or f is 0 |
| `RepairGuarantees.OneChainIff` | lib/repair_utils.cc:140-194 | the ordered entries are one history from the checkpoint on, if and only if the log of the chosen certificate agrees with the entries decided above it |
| `RepairGuarantees.CertSupportedWhenEnoughSpares` | lib/config/config_manager.cc:41-44 | with e >= f and verified snapshot replies, at most f + e logs stray from a certificate that was collected in the round |
| `RepairOrder.OrderIndependent` | lib/repair_utils.cc:43-246 | two listings of the same start messages decide the same checkpoint digest, the same requests in the same order and the same history, if no client equivocates and logs with the highest certificate agree up to it |
| `RepairOrder.RoundCopiesAgree` | lib/repair_utils.cc:116-156 | they do agree in every proposal of a round with verified snapshot replies whose certificates are all of it and for entries of their own logs |
| `RepairOrder.OwnCertsAgree` | lib/repair_utils.cc:116-156 | and in any proposal whose certificates are for entries of their own logs, if those of one height are for one digest |
| `RepairOrder.DigestIndependent` | lib/repair_utils.cc:233-243 | with full requests both compute the same suffix digest, the one of that history |
| `RepairOrder.DecidesIff` | lib/repair_utils.cc:78-114 | the source goes on past the checkpoint test exactly when more than f + e logs hold the chosen checkpoint |
| `RepairOrder.ExitIndependentIff` | lib/repair_utils.cc:60-114 | all listings agree on that if and only if the highest checkpoints are all held by enough logs, or none is |
| `RepairForgery.OneChainIffEnoughSpares` | lib/repair_utils.cc:140-194 | in all runs of all rounds the ordered entries form one chain if and only if e >= f, certificates are for entries of their own logs, and snapshot replies are checked in full or f is 0, with the exact condition for weaker certificates |
| `RepairBranches.RepairAfterCommit` | lib/repair_utils.cc:60-114 | in every configuration with more than one replica some round certifies a digest and a quorum of its logs then decides a suffix |
| `RepairRequests.BackedRequestIncluded` | lib/repair_utils.cc:196-218 | a request with the same body in f + 1 logs past the checkpoint is in the suffix |
| `RepairRequests.BackedRequestOnce` | lib/repair_utils.cc:196-218 | and it is there exactly once, if the decided order is one chain and no log repeats a request |
| `RepairRequests.SuffixEntriesBacked` | lib/repair_utils.cc:158-218 | every suffix entry that was not copied from the certificate's log is in a correct replica's log, at that position or, if added at the end, at some position |
| `RepairRequests.CopiedEntriesBacked` | lib/repair_utils.cc:140-156 | a copied entry is in the certificate's log; if the certificate is of the round and for an entry of it, a correct replica replied a digest that contains the copied entry |
| `RepairRequests.SuffixRepeatsNothing` | lib/repair_utils.cc:196-218 | no request is in the suffix twice, if the decided order is one chain and no log repeats one |
| `RepairRequests.RemainingAscending` | lib/repair_utils.cc:196-218 | the requests after the decided order are in ascending order of client and sequence number |
| `ClientRecords.ClientSequence.Update` | lib/client_record.cc:7-19 | the loop turns the old sequence into the one with the new number inserted |
| `ClientRecords.SequenceRefinesSet` | lib/client_record.cc:5-21 | update, contains and size are insertion, membership and cardinality of a set of positive numbers |
| `ClientRecords.SequenceCanonical` | lib/client_record.cc:45-48 | equal sets have equal representations |
| `ClientRecords.NumMissingMeaning` | lib/client_record.cc:23-43 | numMissing is the size of the reference minus the own set, plus the reference's gaps above the own last number |
| `ClientRecords.CountMissing` | lib/client_record.cc:124-137 | the loop over clients computes the count that RecordMissingMeaning explains, in whatever order |
| `ClientRecords.RecordMissingMeaning` | lib/client_record.cc:119-137 | the count over all clients is the number of requests that only the reference has, plus its gaps above the own last number of each client that both know |
| `ClientRecords.HistoryMissingMeaning` | lib/client_record.cc:119-137 | for the records of two histories: the number of requests in the one and not in the other, plus those gaps |
| `ClientRecords.GapMeaning` | lib/client_record.cc:119-137 | a gap is an id in neither history, above everything the own one has of its client and below something that the reference has |
| `ClientRecords.NothingMissing` | lib/client_record.cc:119-137 | the sum is 0 if the own record has everything in the reference |
| `ClientRecords.RecordIgnoresOrder` | lib/client_record.cc:67-71 | histories with the same requests in any order have equal records |
| `CounterApp.Counter.Execute` | lib/apps/counter.cc:9-37 | the state that belongs to a history becomes the one that belongs to the longer history |
| `CounterApp.Counter.Commit` | lib/apps/counter.cc:39-51 | the state still belongs to the history, from the new committed position on |
| `CounterApp.Counter.Abort` | lib/apps/counter.cc:53-64 | the state belongs to the history cut before the position |
| `CounterApp.Counter.ApplySnapshot` | lib/apps/counter.cc:66-84 | the state belongs to the snapshot's history |
| `CounterApp.Counter.TakeSnapshot` | lib/apps/counter.cc:86-105 | the snapshot is of the last position and its value |
| `CounterApp.ExecMeaning` | lib/apps/counter.cc:9-37 | the value of a history is the number of its increments less the number of its decrements; what does not parse counts for nothing |
| `Logs.Log.AddEntry` | lib/log.cc:19-57 | appends exactly one entry to the history and executes it; refuses duplicates; leaves an entry behind if the request does not parse |
| `Logs.Log.Abort` | lib/log.cc:100-122 | the history is cut before the position; past the end only nextSeq moves; refused at or below the committed checkpoint; the certificate stays and still stands exactly if its entry does |
| `Logs.Log.SetCheckpoint` | lib/log.cc:125-151 | the history does not change; the checkpoints advance; deque, application and checkpoints still hold it |
| `Logs.Log.GetDigest` | lib/log.cc:269-284 | the digest of the history at the position, or None where the source throws |
| `Logs.Log.GetEntry` | lib/log.cc:286-295 | the entry of the history at the position, or None where the source throws |
| `Logs.Log.AddCert` | lib/log.cc:59-97 | accepts exactly certificates for own entries, or for committed requests; what is held is the higher one of the old and an accepted one above the committed position, and nothing changes otherwise |
| `StateTransfer.CertifyOnLog` | lib/log.cc:59-97 | a certificate for the history that arrives at a log: the log then holds the certificate that the round stores for that replica |
| `Logs.Log.ToProto` | lib/log.cc:303-322 | the start message is chained, its head is the history, every entry shows its position, and its certificate is for one of its entries exactly if the log's certificate stands |
| `Logs.ProtosShow` | lib/log.cc:303-322 | every entry shows its position of the history, with its digest and the hash of its request, and the request itself exactly if asked for |
| `Logs.Log.ResetToSnapshot` | lib/log.cc:154-223 | done exactly if replaying the reply's entries on its base reaches the checkpoint digest; then that is the history and the record is the checkpoint's |
| `Logs.Log.ApplySnapshotModifyLog` | lib/log.cc:226-257 | whatever client record comes with the reply, the history becomes the checkpoint with the own entries above the threshold reapplied that this record does not have; with the checkpoint's own record the log is in sync again |
| `Logs.Log.SnapshotFor` | processes/replica/replica.cc:1502-1552 | the reply has the committed checkpoint, the snapshot if the request is too far back, and the entries between |
| `Logs.StoredBelow` | lib/log.cc:113-118 | the deque of the cut history is a prefix of the deque |
| `Logs.StoredAbove` | lib/log.cc:140-145 | the deque after truncation is a suffix of the deque |
| `Realignment.RealignedRequests` | lib/log.cc:226-257 | the result extends the checkpoint, repeats no request, and has exactly the requests of the checkpoint and those reapplied |
| `Realignment.RealignedOrder` | lib/log.cc:247-251 | what follows the checkpoint is a subsequence of the own entries |
| `Realignment.AlignedUnchanged` | lib/log.cc:247-251 | reapplying leaves the history of a log that has the checkpoint's digest already as it was |
| `Realignment.NothingReappliedIff` | lib/log.cc:207-251 | nothing is reapplied if and only if the record in the reply, true or not, has all those requests |
| `Realignment.NothingMissingThreshold` | lib/log.cc:230-241 | then the threshold is the checkpoint itself |
| `Realignment.ThresholdMeaning` | lib/log.cc:230-241 | the position above which own entries are reapplied, in terms of the requests of the two histories |
| `Realignment.NothingLostIff` | lib/log.cc:237-241 | no own request is lost if and only if the checkpoint has all that are not reapplied |
| `Realignment.ReapplySameIff` | lib/log.cc:237-251 | reapplying from a higher position gives the same history if and only if the checkpoint has the own requests in between |
| `Realignment.AlignedAsIntendedIff` | lib/log.cc:231-251 | so the aligned history is the intended one if and only if the subtraction does not wrap, or the checkpoint has all that the wrapped position leaves out |
| `Realignment.ThresholdWraps` | lib/log.cc:231-241 | a checkpoint of one request, two of them counted missing: the only own request is lost |
| `StateTransfer.ReplyReaches` | processes/replica/replica.cc:1502-1552 | the reply of a sender leads any receiver with an agreeing committed prefix to the sender's committed history, with or without snapshot |
| `StateTransfer.Reset` | processes/replica/replica.cc:1592-1640 | during a repair: never a mismatch; last position, digest, record and application value are the sender's |
| `StateTransfer.Realign` | processes/replica/replica.cc:1641-1692 | between repairs: the sender's committed history, then own requests in order, nothing twice; the same history if already there; the certificate is dropped |
| `StateTransfer.RealignIsRoundStep` | processes/replica/replica.cc:1641-1662 | aligning to the committed checkpoint of a correct replica is an alignment step of the round model |
| `StateTransfer.Misled` | processes/replica/replica.cc:1641-1662 | and so is applying any reply that a faulty replica can forge |
| `StateTransfer.SendBack` | lib/log.cc:207-251 | a forged reply with a checkpoint on the receiver's own chain and a record that has all its requests cuts its log back to that checkpoint |
| `StateTransfer.AcceptedIsRoundMove` | lib/log.cc:59-97 | the log accepts exactly the certificates that the round model lets a correct replica acknowledge |
| `RepairApply.ApplySuffix` | lib/repair_utils.cc:276-407 | the history becomes the suffix's target if and only if every request that the log does not share with the suffix is sent or at hand as it was hashed, and otherwise what the log shares; which requests are asked for |
| `RepairBodies.GatherBodies` | lib/repair_utils.cc:342-360 | the loop collects the full requests and lists what is missing |
| `RepairBodies.MissingMeaning` | lib/repair_utils.cc:354-359 | a request is asked for only if its entry came without it and it is not at hand |
| `RepairBodies.ResultIff` | lib/repair_utils.cc:335-391 | with distinct ids, the attempt waits if and only if some entry came without its request and it is nowhere at hand; else it applies the suffix if and only if every request, the one sent or else the last one at hand, is the one hashed; else it clashes |
| `RepairSurvival.RepairWithCommitted` | lib/repair_utils.cc:276-407 | on a log: the suffix is applied if and only if the requests from the common prefix on fit, and then what a client committed in the round is in the history of the log |
| `RepairApply.ClaimedDigestRightIff` | lib/repair_utils.cc:233-243 | the suffix digest is the one applying it reaches if and only if every request field is the request hashed |
| `RepairConvergence.Converge` | lib/repair_utils.cc:276-407 | two replicas that apply a suffix end with the same history, record, application value and entries; each applies it exactly as its requests allow |
| `RepairConvergence.ApplyWithRetry` | processes/replica/replica.cc:1723-1764 | a retry with the right requests at hand applies the suffix, and ends where the first attempt would have |
| `RepairConvergence.FetchCheckpoint` | processes/replica/replica.cc:2679-2685 | the snapshot reply of the replica that the suffix names leads to the suffix's checkpoint |
| `RepairConvergence.RetryCompletesIff` | processes/replica/replica.cc:1723-1764 | the requests asked for are enough for the retry if and only if none of the others was only in the entries dropped |
| `RepairConvergence.GetAbortedEntries` | lib/repair_utils.cc:248-274 | the loops list the own requests from the effective start that the suffix drops |
| `RepairConvergence.AbortedExactly` | lib/repair_utils.cc:248-274 | the list is in order and has exactly those |
| `RepairConvergence.RequestsConserved` | processes/replica/replica.cc:2600-2612 | an own request is in the repaired history or on the list; in both only if the checkpoint has it |
| `RepairConvergence.RetryKeepsIff` | processes/replica/replica.cc:2683-2700 | after an attempt with requests missing cut the log at s, an own request is in the target or on the next list if and only if it was at or below s or is in the suffix |
| `RepairConvergence.WaitAndList` | processes/replica/replica.cc:2692-2697 | an attempt on a log and the next listing: when it waits, the log and the list keep exactly those own requests |
| `RepairConvergence.LoseWhileWaiting` | processes/replica/replica.cc:2683-2700 | a run on a log in which an accepted request ends in neither the log, the target nor the list |
| `RepairSurvival.DecidedAppliableIff` | lib/repair_utils.cc:220-231 | a decided suffix can be applied without repeats if and only if its checkpoint has none of its requests |
| `RepairSurvival.CommittedOnTarget` | lib/repair_utils.cc:287-299 | with verified snapshot replies, every checkpoint committed in or before the round lies on the suffix's chain, if the chosen certificate's log agrees with it, so every replica that has one can apply the suffix |
| `RepairSurvival.FastCommitSurvives` | lib/repair_utils.cc:276-407 | with verified snapshot replies, what a superquorum replied is in the history of every correct replica after the repair, also of one with a checkpoint from before the round, if the chosen certificate's log agrees with it |
| `RepairSurvival.QuorumReplySurvives` | lib/repair_utils.cc:276-407 | with e >= f, so is what a quorum replied |
| `RepairSurvivalLimits.FastCommitSurvivesIff` | processes/replica/replica.cc:2248-2256 | with certificates for entries of their own logs: in every round every correct replica, whatever checkpoint it was sent, has every fast commit in its history after the repair if and only if snapshot replies are checked in full or f is 0 |
| `RepairSurvival.StartAfterRepair` | lib/log.cc:100-122 | the start message after a repair carries the old certificate; it is for one of its entries if and only if the suffix led back to that entry or a checkpoint covers it |
| `ReplyCollection.ReplyCollector.AddAndCheckReply` | lib/checkpoint_collector.cc:9-87 | a certificate forms exactly on a counted call with a superquorum that includes the own reply, and has the replies that agree with it; a conflict proof exactly when no superquorum can form any more |
| `ReplyCollection.CertMeaning` | lib/checkpoint_collector.cc:49-61 | the certificate has exactly the stored replies with the digest, round and position of the own one, a superquorum of them |
| `ReplyCollection.HopelessIff` | lib/checkpoint_collector.cc:64-70 | the comparison of counts says exactly that no replies of the missing replicas can make a superquorum |
| `ReplyCollection.CertExcludesProof` | lib/checkpoint_collector.cc:51-84 | the two exclude each other |
| `CertCollection.CertCollector.InsertReply` | lib/cert_collector.cc:25-102 | after any reply: the round shown, the largest number of stored replies of that round that say the same, and a certificate exactly when a quorum does |
| `CertCollection.CertCollector.AdvanceRound` | lib/cert_collector.cc:35-49 | the round never falls, and rises only to one that f + 1 stored replies name |
| `CertCollection.CertCollector.NumReceived` | lib/cert_collector.cc:115-124 | the number of replicas whose stored reply is of the round |
| `CertCollection.RoundNamedByCorrect` | lib/cert_collector.cc:35-49 | the round is only raised to one that a correct replica named |
| `CertCollection.CertMostlyCorrect` | lib/cert_collector.cc:65-82 | all but f of a certificate's replicas are correct |
| `FlutterReplicas.CommitSeq` | processes/flutter/flutter_replica.h:45-63 | the merging loop commits exactly the new sequence number and keeps the representation canonical |
| `FlutterReplicas.TrackerCanonical` | processes/flutter/flutter_replica.h:31-65 | equal sets of committed numbers have equal representations |
| `FlutterReplicas.FlutterReplica.InitializeCandidate` | processes/flutter/flutter_replica.cc:347-420 | the handler computes OnRequest |
| `FlutterReplicas.FlutterReplica.ProcessRBCProposal` | processes/flutter/flutter_replica.cc:513-613 | the handler computes OnVote |
| `FlutterReplicas.FlutterReplica.CheckCandidatesForCommit` | processes/flutter/flutter_replica.cc:644-731 | the loop commits exactly the committable prefix, all of it with a passed bet, a request and a decision to accept, and the first candidate left lacks one of these; its assertions hold |
| `FlutterReplicas.FlutterReplica.ProcessRBCSlowProposal` | processes/flutter/flutter_replica.cc:751-835 | the handler computes OnSlowProposal at the leader and nothing elsewhere |
| `FlutterReplicas.FlutterReplica.ProcessRBCSlowValue` | processes/flutter/flutter_replica.cc:852-899 | the handler computes OnSlowValue for values from the leader and nothing else |
| `FlutterReplicas.FlutterReplica.ProcessFlutterTime` | processes/flutter/flutter_replica.cc:452-490 | the lock time becomes the order statistic of the clocks, and commits follow if it advances |
| `FlutterState.CommittableIsLongestPrefix` | processes/flutter/flutter_replica.cc:644-731 | what is committed is ready, is a prefix of the pool, and the next candidate is not ready |
| `FlutterState.CommittedMeaning` | processes/flutter/flutter_replica.cc:644-731 | committed are exactly the candidates all of whose predecessors, and they, have their request, a passed bet and 4f + 1 accepts or an accepting slow value; nothing with a lower bet stays behind |
| `FlutterTiming.VotesInTime` | processes/flutter/flutter_replica.cc:359-420 | in every run, a correct replica's vote is the answer to a request that reached it, accepting if and only if it came by the bet |
| `FlutterTiming.CommitsInTime` | processes/flutter/flutter_replica.cc:644-660 | in every run, a correct replica commits only bets that a lock time of its own has passed |
| `FlutterState.ReadyIsAccepted` | processes/flutter/flutter_replica.cc:687-692 | the two assertions of the commit loop cannot fail |
| `FlutterState.VoteKeepsPool` | processes/flutter/flutter_replica.cc:551-596 | votes equal distinct voters, and no candidate with 4f + 1 rejects stays in the pool |
| `FlutterClocks.ChooseLockTime` | processes/flutter/flutter_replica.cc:463-490 | at most f known clocks are behind the lock time, and at least f + 1 have not passed it |
| `FlutterClocks.LockTimeReachedIff` | processes/flutter/flutter_replica.cc:465-480 | with m clocks known, 4f + 1 <= m <= 5f + 1, every possible lock time has been reached by 4f + 1 of them if and only if m is 5f + 1 |
| `FlutterAgreement.FastExclusive` | processes/flutter/flutter_replica.cc:571-596 | there cannot be a superquorum of accepts and one of rejects |
| `FlutterAgreement.FastDecidesSlow` | processes/flutter/flutter_replica.cc:599-612 | against a superquorum, the majority of any 4f + 1 votes is the same decision |
| `FlutterAgreement.RunKeepsInv` | processes/flutter/flutter_replica.cc:347-899 | the invariant holds in every run: votes cast once, tallies and slow values backed by evidence |
| `FlutterAgreement.SentStaysSent` | processes/flutter/flutter_replica.cc:359-373 | a correct replica's vote on a bet, once cast, never changes |
| `FlutterAgreement.FastAgreement` | processes/flutter/flutter_replica.cc:796-834 | once a correct replica counts a superquorum, nobody counts, sends or decides the opposite |
| `FlutterAgreement.DecisionsAgree` | processes/flutter/flutter_replica.cc:852-899 | in any run, correct replicas that decide differently do so only if the leader rejected blindly and sent both values |
| `FlutterBlindReject.DecisionsAgreeIff` | processes/flutter/flutter_replica.cc:796-899 | for every correct leader and faulty set: correct replicas decide alike in all runs if and only if f is 0 |
| `FlutterBlindReject.DecisionsCanDiffer` | processes/flutter/flutter_replica.cc:882-898 | for every f >= 1, correct leader and faulty set, a run in which two correct replicas decide differently |
| `FlutterRepeats.CommitsOnce` | processes/flutter/flutter_replica.cc:359-375 | in every run in which no replica rejects a bet of a request that it holds under another one, no request is committed under two bets at one replica |
| `FlutterRepeats.CommitsOnceIff` | processes/flutter/flutter_replica.cc:571-590 | for every faulty set and correct leader: no request is committed under two bets at a correct replica in any run if and only if f is 0 |
| `FlutterRepeats.CanCommitTwice` | processes/flutter/flutter_replica.cc:359-375 | for every f >= 1, faulty set and correct replica, a run on the fast path in which it commits a request under two bets |
| `FlutterRepeats.RequestStaysOne` | processes/flutter/flutter_replica.cc:347-420 | whatever request arrives, every request held has its current bet and is not committed, if that was so before |
| `WaitDie.WaitDieALock.Lock` | lib/rrr/misc/alock.cpp:20-59 | granted exactly if nothing in the queue conflicts; waits exactly if more urgent than all it conflicts with; otherwise refused |
| `WaitDie.WaitDieALock.WaitOrDie` | lib/rrr/misc/alock.cpp:61-93 | the reverse scans decide exactly that, and the unreachable branches are not reached |
| `WaitDie.WaitDieALock.Abort` | lib/rrr/misc/alock.cpp:95-166 | the request is gone, the new maximal compatible prefix is granted and told, a waiter is told no |
| `WaitDie.CallsMeaning` | lib/rrr/misc/alock.cpp:95-166 | the callbacks of a removal: a yes to exactly the waiters it lets in, and last a no to the request withdrawn, if it waited |
| `WaitDie.SettledMeaning` | lib/rrr/misc/alock.cpp:95-166 | every other request keeps its place and is granted if it was, or if the new front reaches it |
| `WaitDie.FrontMeaning` | lib/rrr/misc/alock.hpp:192-246 | the first k requests are in the front that is granted if and only if no two of them conflict |
| `WaitDie.WaitDieALock.ReadAcquireFrom` | lib/rrr/misc/alock.hpp:165-190 | grants and calls back the reads up to the next write |
| `WaitDie.SettledOk` | lib/rrr/misc/alock.hpp:192-246 | after a removal: granted is the maximal compatible prefix, waiters are ordered by priority, nobody is called back twice |
| `WaitDie.AppendOk` | lib/rrr/misc/alock.hpp:192-246 | the same after a request is added |
| `WaitDie.NoDeadlock` | lib/rrr/misc/alock.cpp:61-93 | with one priority per owner, no chain of waiting owners closes, across any number of locks |
| `WaitDie.SomeoneProceeds` | lib/rrr/misc/alock.cpp:61-93 | in every group of owners one waits for none of the others |
| `KVStoreApp.KVStore.Execute` | lib/apps/kv_store.cc:22-71 | appends the request to the history; the response is read off the data before it |
| `KVStoreApp.KVStore.Commit` | lib/apps/kv_store.cc:73-105 | the history and the data do not change, the committed position moves |
| `KVStoreApp.KVStore.Abort` | lib/apps/kv_store.cc:107-145 | the history is cut below the position and the data rebuilt; refused at or below the committed one |
| `KVStoreApp.KVStore.TakeSnapshot` | lib/apps/kv_store.cc:196-248 | the printed map is the live data, which is the whole history executed |
| `KVStoreApp.KVStore.ApplySnapshot` | lib/apps/kv_store.cc:147-194 | refused exactly if the text does not have the given digest; otherwise the data is the parsed map, and the state belongs to a history if no request was pending |
| `KVStoreApp.PendingHarmlessIff` | lib/apps/kv_store.cc:182-186 | pending requests do no harm to any snapshot if and only if none is a write |
| `KVStoreApp.KVStore.SnapshotAfterAbort` | lib/apps/kv_store.cc:126-128 | an abort and the next snapshot: it prints the history that is left; its label is the last position executed if and only if the abort dropped nothing or nothing is pending; executing the pending requests on it once more changes nothing |
| `KVSnapshots.SnapshotRoundTripIff` | lib/apps/kv_store.cc:167-237 | printing and parsing gives the map back, for every iteration order, if and only if no key or value has a delimiter |
| `KVSnapshots.Parse` | lib/apps/kv_store.cc:170-178 | the loop computes the map that ParseFrom defines |

## Left out

- Transport, threads, timers, queues, protobuf and signatures: messages are authenticated values.
- PBFT prepares, commits and view changes: the agreement of correct replicas on one proposal is an
  assumption.
- CommitCollector and the handlers around the collectors: f + 1 matching commits are the guard of
  the alignment step in RoundSteps; the counting loop is the one of ReplyCollector again.
- Round numbers across several rounds: RoundSteps is about one round, from the digest that the
  previous one ended with.
- Deadlines of queued requests, and the queue of requests received during a repair, which is a
  parameter (`available`).
- The digest of a client record: records are compared by value.
- The exit of Counter on a request that it cannot parse.
- 32-bit overflow of the counter value.
- Flutter: the order of commits across different bets, lock times that go back, and uniqueness of
  slow values for a key that the leader rejected blindly beyond what DecisionsAgree says.
- The destructor of the wait-die lock, callbacks that re-enter the lock, and the wound-die and
  timeout locks.
- The snapshot thread of the key-value store: a snapshot is taken at once.
- Logs.Log.ResetToSnapshot: the log is verified with Counter, which never refuses a snapshot; the
  refusal of a wrong digest is in KVStoreApp.KVStore.ApplySnapshot, which is verified on its own.
- Logs.Log.ApplySnapshotModifyLog: a reply whose application snapshot is not the one of its digest.
- RepairApply.ApplySuffix: asks that the suffix repeat no request of its checkpoint; the source only
  logs that case. RepairSurvival.DecidedAppliableIff says when it arises.
- RepairDurability.FewStraysKept: the second direction asks that the certificate's log have no gap
  below its certificate; below a gap, requests added at the end can happen to be the ones missing.
  RepairDurability.OrderKeepsIff has no such condition.
- FlutterAgreement.DecisionsAgree: about one run it says only when decisions can differ; that they
  do in some run is DecisionsCanDiffer.
