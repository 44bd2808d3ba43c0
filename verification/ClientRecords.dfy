// Client records: which requests of each client a log contains (lib/client_record.cc).
//
// `Sequence` and `Record` are the values that the source copies around in checkpoints and
// messages; the classes `ClientSequence` and `ClientRecord` are the objects updated in place.

module ClientRecords {
  import opened Digests
  import opened Quorums

  // The highest sequence number seen and those below it that were skipped.
  datatype Sequence = Sequence(lastSeq: nat, missed: set<nat>) {
    // Holds of every sequence built by updates from the initial one.
    predicate Valid() {
      forall m :: m in missed ==> 1 <= m < lastSeq
    }

    predicate Contains(s: nat) {
      s <= lastSeq && s !in missed
    }

    function Update(s: nat): Sequence {
      if lastSeq < s then Sequence(s, missed + Between(lastSeq, s))
      else Sequence(lastSeq, missed - {s})
    }

    // Whether an update with s is not a duplicate.
    predicate IsNew(s: nat) {
      lastSeq < s || s in missed
    }

    function Size(): int {
      lastSeq - |missed|
    }

    function NumMissing(ref: Sequence): nat {
      var mine := set m | m in missed - ref.missed && m <= ref.lastSeq;
      |mine| + if lastSeq < ref.lastSeq then ref.lastSeq - lastSeq else 0
    }

    // The set of positive sequence numbers that the representation stands for.
    ghost function Members(): set<nat> {
      set s: nat | 1 <= s <= lastSeq && s !in missed
    }
  }

  const NoSequence := Sequence(0, {})

  predicate Inside(lo: nat, hi: nat, i: nat) {
    lo < i < hi
  }

  // The numbers strictly between lo and hi.
  function Between(lo: nat, hi: nat): set<nat> {
    set i: nat | lo < i < hi && Inside(lo, hi, i)
  }

  lemma {:induction false} BetweenSize(lo: nat, hi: nat)
    requires lo < hi
    ensures |Between(lo, hi)| == hi - lo - 1
  {
    if hi == lo + 1 {
      assert Between(lo, hi) == {};
    } else {
      BetweenSize(lo, hi - 1);
      assert Between(lo, hi) == Between(lo, hi - 1) + {hi - 1};
    }
  }

  // update, contains and size are set insertion, membership and cardinality.
  lemma SequenceRefinesSet(q: Sequence, s: nat)
    requires q.Valid() && s >= 1
    ensures q.Update(s).Valid()
    ensures q.Update(s).Members() == q.Members() + {s}
    ensures q.IsNew(s) <==> s !in q.Members()
    ensures q.Contains(s) <==> s in q.Members()
    ensures q.Size() == |q.Members()|
  {
    SizeCountsMembers(q);
    UpdateInserts(q, s);
  }

  lemma SizeCountsMembers(q: Sequence)
    requires q.Valid()
    ensures q.Size() == |q.Members()|
  {
    BetweenSize(0, q.lastSeq + 1);
    assert q.Members() == Between(0, q.lastSeq + 1) - q.missed;
    SubsetSize(q.missed, Between(0, q.lastSeq + 1));
  }

  lemma UpdateInserts(q: Sequence, s: nat)
    requires q.Valid() && s >= 1
    ensures q.Update(s).Members() == q.Members() + {s}
  {
    forall m: nat ensures m in q.Update(s).Members() <==> m in q.Members() || m == s {
    }
  }

  // The representation is canonical.
  lemma SequenceCanonical(a: Sequence, b: Sequence)
    requires a.Valid() && b.Valid() && a.Members() == b.Members()
    ensures a == b
  {
    assert a.lastSeq > 0 ==> a.lastSeq in a.Members();
    assert b.lastSeq > 0 ==> b.lastSeq in b.Members();
    forall m: nat ensures m in a.missed <==> m in b.missed {
      assert m in a.missed <==> 1 <= m < a.lastSeq && m !in a.Members();
      assert m in b.missed <==> 1 <= m < b.lastSeq && m !in b.Members();
    }
    assert a.missed == b.missed;
  }

  // What numMissing counts: the reference's members that are missing here, and also the
  // reference's own gaps above everything seen here.
  lemma NumMissingMeaning(own: Sequence, ref: Sequence)
    requires own.Valid() && ref.Valid()
    ensures own.NumMissing(ref) ==
            |ref.Members() - own.Members()| + |set m | m in ref.missed && m > own.lastSeq|
  {
    var mine := set m | m in own.missed - ref.missed && m <= ref.lastSeq;
    var gaps := set m | m in ref.missed && m > own.lastSeq;
    var lost := ref.Members() - own.Members();
    if own.lastSeq < ref.lastSeq {
      var above := Between(own.lastSeq, ref.lastSeq + 1);
      BetweenSize(own.lastSeq, ref.lastSeq + 1);
      assert lost == mine + (above - gaps);
      SubsetSize(gaps, above);
      assert mine !! (above - gaps);
    } else {
      assert lost == mine;
      assert gaps == {};
    }
  }

  lemma NumMissingZero(own: Sequence, ref: Sequence)
    requires own.Valid() && ref.Valid() && ref.Members() <= own.Members()
    ensures own.NumMissing(ref) == 0
  {
    NumMissingMeaning(own, ref);
    assert ref.lastSeq > 0 ==> ref.lastSeq in ref.Members();
    assert ref.Members() - own.Members() == {};
    assert (set m | m in ref.missed && m > own.lastSeq) == {};
  }

  // The object that update mutates.
  class ClientSequence {
    var lastSeq: nat
    var missedSeqs: set<nat>

    constructor ()
      ensures Value() == NoSequence
    {
      lastSeq := 0;
      missedSeqs := {};
    }

    ghost function Value(): Sequence
      reads this
    {
      Sequence(lastSeq, missedSeqs)
    }

    method Update(newSeq: nat) returns (isNew: bool)
      modifies this
      ensures Value() == old(Value()).Update(newSeq)
      ensures isNew == old(Value()).IsNew(newSeq)
    {
      if lastSeq < newSeq {
        for i := lastSeq + 1 to newSeq
          invariant lastSeq == old(lastSeq)
          invariant missedSeqs == old(missedSeqs) + Between(lastSeq, i)
        {
          missedSeqs := missedSeqs + {i};
        }
        lastSeq := newSeq;
      } else if newSeq in missedSeqs {
        missedSeqs := missedSeqs - {newSeq};
      } else {
        return false;
      }
      return true;
    }
  }

  // One sequence per client.
  datatype Record = Record(sequences: map<nat, Sequence>) {
    predicate Valid() {
      forall c :: c in sequences ==> sequences[c].Valid()
    }

    function At(c: nat): Sequence {
      if c in sequences then sequences[c] else NoSequence
    }

    predicate Contains(id: RequestId) {
      id.clientId in sequences && sequences[id.clientId].Contains(id.clientSeq)
    }

    // The record after an update; a new client gets an entry even if its request is a duplicate.
    function Update(id: RequestId): Record {
      Record(sequences[id.clientId := At(id.clientId).Update(id.clientSeq)])
    }

    predicate IsNew(id: RequestId) {
      At(id.clientId).IsNew(id.clientSeq)
    }

    ghost predicate Has(id: RequestId) {
      id.clientSeq in At(id.clientId).Members()
    }

    // What one client of the reference adds to the number of missing requests.
    function MissingOf(ref: Record, c: nat): int
      requires c in ref.sequences
    {
      if c in sequences then sequences[c].NumMissing(ref.sequences[c]) else ref.sequences[c].Size()
    }

    ghost function SumMissing(ref: Record, clients: set<nat>): int
      requires clients <= ref.sequences.Keys
    {
      if clients == {} then 0
      else
        var c :| c in clients;
        MissingOf(ref, c) + SumMissing(ref, clients - {c})
    }

    ghost function NumMissing(ref: Record): int {
      SumMissing(ref, ref.sequences.Keys)
    }
  }

  const NoRecord := Record(map[])

  lemma RecordUpdated(r: Record, id: RequestId)
    requires r.Valid() && id.clientSeq >= 1
    ensures r.Update(id).Valid()
    ensures forall i: RequestId :: r.Update(id).Has(i) <==> r.Has(i) || i == id
    ensures r.IsNew(id) <==> !r.Has(id)
    ensures r.Contains(id) <==> r.Has(id)
  {
    SequenceRefinesSet(r.At(id.clientId), id.clientSeq);
  }

  lemma {:induction false} SumMissingPick(own: Record, ref: Record, clients: set<nat>, c: nat)
    requires clients <= ref.sequences.Keys && c in clients
    ensures own.SumMissing(ref, clients) == own.MissingOf(ref, c) + own.SumMissing(ref, clients - {c})
    decreases |clients|
  {
    var b :| b in clients && own.SumMissing(ref, clients) == own.MissingOf(ref, b) + own.SumMissing(ref, clients - {b});
    if b != c {
      SumMissingPick(own, ref, clients - {b}, c);
      SumMissingPick(own, ref, clients - {c}, b);
      assert clients - {b} - {c} == clients - {c} - {b};
    }
  }

  lemma {:induction false} SumMissingZero(own: Record, ref: Record, clients: set<nat>)
    requires own.Valid() && ref.Valid() && clients <= ref.sequences.Keys
    requires forall i: RequestId :: ref.Has(i) ==> own.Has(i)
    ensures own.SumMissing(ref, clients) == 0
    decreases |clients|
  {
    if clients != {} {
      var c :| c in clients;
      SumMissingPick(own, ref, clients, c);
      SumMissingZero(own, ref, clients - {c});
      forall s | s in ref.sequences[c].Members() ensures s in own.At(c).Members() {
        assert ref.Has(RequestId(c, s));
      }
      if c in own.sequences {
        NumMissingZero(own.sequences[c], ref.sequences[c]);
      } else {
        assert ref.sequences[c].Members() == {};
        SequenceRefinesSet(ref.sequences[c], 1);
      }
    }
  }

  // A replica that already has everything in the reference counts nothing as missing.
  lemma NothingMissing(own: Record, ref: Record)
    requires own.Valid() && ref.Valid()
    requires forall i: RequestId :: ref.Has(i) ==> own.Has(i)
    ensures own.NumMissing(ref) == 0
  {
    SumMissingZero(own, ref, ref.sequences.Keys);
  }

  // ----- What the count over all clients means

  // The requests that a record stands for.
  ghost function IdsIn(r: Record): set<RequestId> {
    set c, s | c in r.sequences && s in r.sequences[c].Members() :: RequestId(c, s)
  }

  // The reference's gaps above everything that the own record has of a client, if it has anything.
  ghost function GapIds(own: Record, ref: Record): set<RequestId> {
    set c, s | c in ref.sequences && s in ref.sequences[c].missed
               && c in own.sequences && s > own.sequences[c].lastSeq :: RequestId(c, s)
  }

  // Of these requests, those of some clients.
  ghost function OfClients(ids: set<RequestId>, clients: set<nat>): set<RequestId> {
    set id | id in ids && id.clientId in clients
  }

  lemma {:induction false} TaggedSize(c: nat, s: set<nat>)
    ensures |set i | i in s :: RequestId(c, i)| == |s|
    decreases |s|
  {
    if s != {} {
      var i :| i in s;
      TaggedSize(c, s - {i});
      assert (set j | j in s :: RequestId(c, j)) == (set j | j in s - {i} :: RequestId(c, j)) + {RequestId(c, i)};
    }
  }

  lemma OneClient(ids: set<RequestId>, c: nat, s: set<nat>)
    requires forall id :: id in ids && id.clientId == c <==> id.clientId == c && id.clientSeq in s
    ensures |OfClients(ids, {c})| == |s|
  {
    TaggedSize(c, s);
    assert OfClients(ids, {c}) == set i | i in s :: RequestId(c, i);
  }

  lemma OfClientsSplit(ids: set<RequestId>, clients: set<nat>, c: nat)
    requires c in clients
    ensures |OfClients(ids, clients)| == |OfClients(ids, clients - {c})| + |OfClients(ids, {c})|
  {
    assert OfClients(ids, clients) == OfClients(ids, clients - {c}) + OfClients(ids, {c});
  }

  // What one client adds: its requests that are missing here, and its gaps above.
  lemma MissingOfMeaning(own: Record, ref: Record, c: nat)
    requires own.Valid() && ref.Valid() && c in ref.sequences
    ensures own.MissingOf(ref, c) ==
            |OfClients(IdsIn(ref) - IdsIn(own), {c})| + |OfClients(GapIds(own, ref), {c})|
  {
    var theirs, mine := ref.sequences[c], own.At(c);
    OneClient(IdsIn(ref) - IdsIn(own), c, theirs.Members() - mine.Members());
    if c in own.sequences {
      NumMissingMeaning(mine, theirs);
      OneClient(GapIds(own, ref), c, set m | m in theirs.missed && m > mine.lastSeq);
    } else {
      SizeCountsMembers(theirs);
      assert theirs.Members() - mine.Members() == theirs.Members();
      OneClient(GapIds(own, ref), c, {});
    }
  }

  lemma {:induction false} SumMissingMeaning(own: Record, ref: Record, clients: set<nat>)
    requires own.Valid() && ref.Valid() && clients <= ref.sequences.Keys
    ensures own.SumMissing(ref, clients) ==
            |OfClients(IdsIn(ref) - IdsIn(own), clients)| + |OfClients(GapIds(own, ref), clients)|
    decreases |clients|
  {
    if clients == {} {
      assert OfClients(IdsIn(ref) - IdsIn(own), clients) == {} && OfClients(GapIds(own, ref), clients) == {};
    } else {
      var c :| c in clients;
      SumMissingPick(own, ref, clients, c);
      SumMissingMeaning(own, ref, clients - {c});
      MissingOfMeaning(own, ref, c);
      OfClientsSplit(IdsIn(ref) - IdsIn(own), clients, c);
      OfClientsSplit(GapIds(own, ref), clients, c);
    }
  }

  // The count is the number of requests that the reference has and the own record does not, plus
  // the gaps.
  lemma RecordMissingMeaning(own: Record, ref: Record)
    requires own.Valid() && ref.Valid()
    ensures own.NumMissing(ref) == |IdsIn(ref) - IdsIn(own)| + |GapIds(own, ref)|
  {
    var clients := ref.sequences.Keys;
    SumMissingMeaning(own, ref, clients);
    assert OfClients(IdsIn(ref) - IdsIn(own), clients) == IdsIn(ref) - IdsIn(own);
    assert OfClients(GapIds(own, ref), clients) == GapIds(own, ref);
  }

  class ClientRecord {
    var sequences: map<nat, Sequence>

    constructor ()
      ensures Value() == NoRecord
    {
      sequences := map[];
    }

    ghost function Value(): Record
      reads this
    {
      Record(sequences)
    }

    method Update(id: RequestId) returns (isNew: bool)
      modifies this
      ensures Value() == old(Value()).Update(id)
      ensures isNew == old(Value()).IsNew(id)
    {
      var s := if id.clientId in sequences then sequences[id.clientId] else NoSequence;
      isNew := s.IsNew(id.clientSeq);
      sequences := sequences[id.clientId := s.Update(id.clientSeq)];
    }

    method NumMissing(ref: Record) returns (total: int)
      ensures total == Value().NumMissing(ref)
    {
      total := CountMissing(Record(sequences), ref);
    }
  }

  method CountMissing(own: Record, ref: Record) returns (total: int)
    ensures total == own.NumMissing(ref)
  {
    total := 0;
    var rest := ref.sequences.Keys;
    while rest != {}
      invariant rest <= ref.sequences.Keys
      invariant total + own.SumMissing(ref, rest) == own.NumMissing(ref)
      decreases |rest|
    {
      var c :| c in rest;
      SumMissingPick(own, ref, rest, c);
      total := total + own.MissingOf(ref, c);
      rest := rest - {c};
    }
  }

  // ----- Records of histories

  // The record that results from updating with every request of a history, oldest first.
  function RecordOf(d: Digest): Record {
    if d.Genesis? then NoRecord else RecordOf(d.prev).Update(d.id)
  }

  ghost function Ids(d: Digest): set<RequestId> {
    if d.Genesis? then {} else Ids(d.prev) + {d.id}
  }

  // Client sequence numbers start at 1.
  predicate PositiveIds(d: Digest) {
    d.Link? ==> d.id.clientSeq >= 1 && PositiveIds(d.prev)
  }

  ghost predicate NoRepeats(d: Digest) {
    d.Link? ==> d.id !in Ids(d.prev) && NoRepeats(d.prev)
  }

  lemma {:induction false} DistinctUpto(d: Digest, s: nat)
    requires s <= Height(d)
    ensures PositiveIds(d) ==> PositiveIds(Upto(d, s))
    ensures NoRepeats(d) ==> NoRepeats(Upto(d, s))
  {
    if s < Height(d) {
      DistinctUpto(d.prev, s);
    }
  }

  lemma {:induction false} IdInIds(d: Digest, s: nat)
    requires 1 <= s <= Height(d)
    ensures Upto(d, s).Link? && Upto(d, s).id in Ids(d)
  {
    if s < Height(d) {
      IdInIds(d.prev, s);
    }
  }

  lemma {:induction false} NoRepeatsBelow(d: Digest, s: nat, t: nat)
    requires NoRepeats(d) && 1 <= s < t <= Height(d)
    ensures Upto(d, s).Link? && Upto(d, t).Link? && Upto(d, s).id != Upto(d, t).id
  {
    if t < Height(d) {
      NoRepeatsBelow(d.prev, s, t);
    } else {
      IdInIds(d.prev, s);
    }
  }

  lemma {:induction false} RecordOfHistory(d: Digest)
    requires PositiveIds(d)
    ensures RecordOf(d).Valid()
    ensures forall i: RequestId :: RecordOf(d).Has(i) <==> i in Ids(d)
  {
    if d.Link? {
      RecordOfHistory(d.prev);
      RecordUpdated(RecordOf(d.prev), d.id);
    }
  }

  // A request that the history d lacks below its own last one of the client, and that lies above
  // the last one of the client in `own`, which has some.
  ghost predicate IsGap(own: Digest, d: Digest, id: RequestId) {
    && id.clientSeq >= 1 && id !in Ids(d)
    && (exists t: nat :: t > id.clientSeq && RequestId(id.clientId, t) in Ids(d))
    && (exists t: nat :: RequestId(id.clientId, t) in Ids(own))
    && (forall t: nat :: t >= id.clientSeq ==> RequestId(id.clientId, t) !in Ids(own))
  }

  lemma {:induction false} ClientsOfHistory(d: Digest, c: nat)
    requires PositiveIds(d)
    ensures c in RecordOf(d).sequences <==> exists t: nat :: RequestId(c, t) in Ids(d)
  {
    if d.Link? {
      ClientsOfHistory(d.prev, c);
      assert d.id == RequestId(d.id.clientId, d.id.clientSeq);
    }
  }

  lemma LastIsMember(q: Sequence)
    requires q.Valid()
    ensures q.lastSeq >= 1 ==> q.lastSeq in q.Members()
    ensures forall m: nat :: m in q.Members() ==> m <= q.lastSeq
    ensures forall m: nat :: m in q.missed <==> 1 <= m < q.lastSeq && m !in q.Members()
  {
  }

  // What is counted between the records of two histories.
  lemma HistoryMissingMeaning(own: Digest, d: Digest)
    requires PositiveIds(own) && PositiveIds(d)
    ensures RecordOf(own).NumMissing(RecordOf(d)) ==
            |Ids(d) - Ids(own)| + |GapIds(RecordOf(own), RecordOf(d))|
  {
    RecordOfHistory(own);
    RecordOfHistory(d);
    RecordMissingMeaning(RecordOf(own), RecordOf(d));
    HistoryIds(own);
    HistoryIds(d);
  }

  lemma HistoryIds(d: Digest)
    requires PositiveIds(d)
    ensures IdsIn(RecordOf(d)) == Ids(d)
  {
    RecordOfHistory(d);
    forall id: RequestId ensures id in IdsIn(RecordOf(d)) <==> id in Ids(d) {
      assert id in IdsIn(RecordOf(d)) <==> RecordOf(d).Has(id);
    }
  }

  lemma GapMeaning(own: Digest, d: Digest, id: RequestId)
    requires PositiveIds(own) && PositiveIds(d)
    ensures id in GapIds(RecordOf(own), RecordOf(d)) <==> IsGap(own, d, id)
  {
    var c := id.clientId;
    RecordOfHistory(own);
    RecordOfHistory(d);
    ClientsOfHistory(own, c);
    ClientsOfHistory(d, c);
    LastIsMember(RecordOf(own).At(c));
    LastIsMember(RecordOf(d).At(c));
    forall t: nat ensures t in RecordOf(own).At(c).Members() <==> RequestId(c, t) in Ids(own) {
      assert RecordOf(own).Has(RequestId(c, t)) <==> RequestId(c, t) in Ids(own);
    }
    forall t: nat ensures t in RecordOf(d).At(c).Members() <==> RequestId(c, t) in Ids(d) {
      assert RecordOf(d).Has(RequestId(c, t)) <==> RequestId(c, t) in Ids(d);
    }
  }

  lemma {:induction false} RecordClients(d: Digest)
    requires PositiveIds(d)
    ensures forall c :: c in RecordOf(d).sequences <==> exists i :: i in Ids(d) && i.clientId == c
  {
    if d.Link? {
      RecordClients(d.prev);
      forall c ensures c in RecordOf(d).sequences <==> exists i :: i in Ids(d) && i.clientId == c {
        if c == d.id.clientId {
          assert d.id in Ids(d);
        } else if exists i :: i in Ids(d) && i.clientId == c {
          var i :| i in Ids(d) && i.clientId == c;
          assert i in Ids(d.prev);
        }
      }
    }
  }

  // Two histories with the same requests, in whatever order, have == records.
  lemma RecordIgnoresOrder(a: Digest, b: Digest)
    requires PositiveIds(a) && PositiveIds(b) && Ids(a) == Ids(b)
    ensures RecordOf(a) == RecordOf(b)
  {
    RecordOfHistory(a);
    RecordOfHistory(b);
    RecordClients(a);
    RecordClients(b);
    var ra, rb := RecordOf(a), RecordOf(b);
    forall c | c in ra.sequences ensures c in rb.sequences && ra.sequences[c] == rb.sequences[c] {
      assert exists i :: i in Ids(b) && i.clientId == c;
      forall s: nat ensures s in ra.At(c).Members() <==> s in rb.At(c).Members() {
        assert ra.Has(RequestId(c, s)) <==> rb.Has(RequestId(c, s));
      }
      SequenceCanonical(ra.sequences[c], rb.sequences[c]);
    }
    forall c | c in rb.sequences ensures c in ra.sequences {
      assert exists i :: i in Ids(a) && i.clientId == c;
    }
    assert ra.sequences == rb.sequences;
  }
}
