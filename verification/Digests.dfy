// The digest chain of lib/log_entry.cc.
//
// A log entry's digest hashes its sequence number, client id, client sequence number, the
// previous digest and the request (lib/log_entry.cc:26-37).  The hash is modelled as an
// injective function: a digest is the constructor term of what was hashed, so a digest
// determines the whole history that produced it, and "two digests lie on one chain" becomes
// "one history is a prefix of the other".

module Digests {

  // A request, up to what the replica's parser makes of its bytes.  `Empty` is the empty byte
  // string, which is also what protobuf returns for a request field that is absent.
  datatype Request = Empty | Increment | Decrement | Garbage(raw: string)

  // A request digest (lib/log_entry.cc:50-53), again an injective hash.
  datatype RequestDigest = Sha(request: Request)

  datatype RequestId = RequestId(clientId: nat, clientSeq: nat)

  datatype Digest =
    | Genesis
    | Link(prev: Digest, seqNo: nat, id: RequestId, request: Request)

  // Positions in a history are natural numbers.
  function Max(a: nat, b: nat): nat {
    if a < b then b else a
  }

  function Min(a: nat, b: nat): nat {
    if a < b then a else b
  }

  // Number of entries hashed into a digest.
  function Height(d: Digest): nat {
    if d.Genesis? then 0 else Height(d.prev) + 1
  }

  // The digest after one more entry at the next sequence number.
  function Next(d: Digest, id: RequestId, request: Request): Digest {
    Link(d, Height(d) + 1, id, request)
  }

  // Every entry was hashed with its own position as sequence number.
  predicate Numbered(d: Digest) {
    d.Link? ==> d.seqNo == Height(d.prev) + 1 && Numbered(d.prev)
  }

  // The digest as it was after the first s entries.
  function Upto(d: Digest, s: nat): (p: Digest)
    requires s <= Height(d)
    ensures Height(p) == s
    ensures s == Height(d) ==> p == d
  {
    if s == Height(d) then d else Upto(d.prev, s)
  }

  predicate Extends(d: Digest, p: Digest) {
    Height(p) <= Height(d) && Upto(d, Height(p)) == p
  }

  predicate Compatible(a: Digest, b: Digest) {
    Extends(a, b) || Extends(b, a)
  }

  lemma {:induction false} UptoUpto(d: Digest, s: nat, t: nat)
    requires t <= s <= Height(d)
    ensures Upto(Upto(d, s), t) == Upto(d, t)
  {
    if s < Height(d) {
      UptoUpto(d.prev, s, t);
    }
  }

  lemma ExtendsTransitive(a: Digest, b: Digest, c: Digest)
    requires Extends(a, b) && Extends(b, c)
    ensures Extends(a, c)
  {
    UptoUpto(a, Height(b), Height(c));
  }

  lemma UptoExtended(d: Digest, s: nat)
    requires s <= Height(d)
    ensures Extends(d, Upto(d, s))
  {
  }

  // Two prefixes of one history are prefixes of one another.
  lemma PrefixesCompatible(d: Digest, a: Digest, b: Digest)
    requires Extends(d, a) && Extends(d, b)
    ensures Compatible(a, b)
    ensures Height(a) <= Height(b) ==> Extends(b, a)
  {
    if Height(a) <= Height(b) {
      UptoUpto(d, Height(b), Height(a));
    } else {
      UptoUpto(d, Height(a), Height(b));
    }
  }

  lemma {:induction false} NumberedUpto(d: Digest, s: nat)
    requires Numbered(d) && s <= Height(d)
    ensures Numbered(Upto(d, s))
  {
    if s < Height(d) {
      NumberedUpto(d.prev, s);
    }
  }

  lemma UptoNext(d: Digest, id: RequestId, request: Request, s: nat)
    requires s <= Height(d)
    ensures Upto(Next(d, id, request), s) == Upto(d, s)
  {
  }
}
