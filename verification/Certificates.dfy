/** Vertices, their content hashes and quorum certificates (dag::signing, dag::cert). */
module Certificates {
  import opened Validators
  import opened Signatures
  import opened Bitmaps

  // What is signed and hashed: every field of a vertex except its hash.
  datatype Body = Body(round: nat, author: Id, parents: seq<Hash>, blobs: seq<nat>)

  // A content hash is a constructor applied to the hashed body, so hashing is
  // injective and never gives the zero hash; `Raw` is any other 32 bytes.
  datatype Hash = Zero | Raw(bytes: nat) | OfBody(body: Body)

  datatype Vertex = Vertex(round: nat, author: Id, parents: seq<Hash>, blobs: seq<nat>, hash: Hash)

  function SigningBytes(v: Vertex): Body {
    Body(v.round, v.author, v.parents, v.blobs)
  }

  function ContentHash(v: Vertex): Hash {
    OfBody(SigningBytes(v))
  }

  function SealHash(v: Vertex): Vertex {
    v.(hash := ContentHash(v))
  }

  // Domain separation tags.
  const VERTEX_PROPOSAL: nat := 0
  const VERTEX_CERT: nat := 1

  type VSig = Sig<Body>

  datatype AggSig = AggSig(sig: Aggregate<Body>, bitmap: seq<bv8>)
  datatype CertifiedVertex = CertifiedVertex(vertex: Vertex, certificate: AggSig)

  datatype CertError = HashMismatch | InsufficientSigners | BadIndex | Bls
  datatype CertResult<+T> = Ok(value: T) | Err(error: CertError)

  function KeysAt(set_: ValidatorSet, indices: seq<nat>): (r: seq<Id>)
    requires forall i :: i in indices ==> i < |set_|
    ensures |r| == |indices|
  {
    seq(|indices|, j requires 0 <= j < |indices| => assert indices[j] in indices; set_[indices[j]])
  }

  function VerifyCertifiedVertex(cv: CertifiedVertex, set_: ValidatorSet): CertResult<()> {
    if cv.vertex.hash != ContentHash(cv.vertex) then Err(HashMismatch)
    else if |cv.certificate.bitmap| != ByteCount(|set_|) then Err(BadIndex)
    else
      var indices := Indices(cv.certificate.bitmap, |set_|);
      if |indices| < QuorumThreshold(|set_|) then Err(InsufficientSigners)
      else
        assert forall i :: i in indices ==> i in Members(indices);
        if VerifyAggregate(KeysAt(set_, indices), VERTEX_CERT, SigningBytes(cv.vertex), cv.certificate.sig)
        then Ok(())
        else Err(Bls)
  }

  type Contributor = (nat, VSig)

  function ContributorSigs(cs: seq<Contributor>): (r: seq<VSig>)
    ensures |r| == |cs|
  {
    seq(|cs|, j requires 0 <= j < |cs| => cs[j].1)
  }

  function SetAll(n: nat, cs: seq<Contributor>): (r: seq<bv8>)
    requires forall j :: 0 <= j < |cs| ==> cs[j].0 < n
    ensures |r| == ByteCount(n)
  {
    if cs == [] then Zeros(n)
    else SetBit(SetAll(n, cs[..|cs| - 1]), cs[|cs| - 1].0)
  }

  // The certificate that `AssembleCert` builds, as a value.
  function Assembled(vertex: Vertex, set_: ValidatorSet, cs: seq<Contributor>): CertResult<CertifiedVertex> {
    if |cs| < QuorumThreshold(|set_|) then Err(InsufficientSigners)
    else if exists j :: 0 <= j < |cs| && cs[j].0 >= |set_| then Err(BadIndex)
    else match AggregateSigs(ContributorSigs(cs))
      case None => Err(Bls)
      case Some(agg) => Ok(CertifiedVertex(vertex, AggSig(agg, SetAll(|set_|, cs))))
  }

  method AssembleCert(vertex: Vertex, set_: ValidatorSet, cs: seq<Contributor>)
    returns (r: CertResult<CertifiedVertex>)
    ensures r == Assembled(vertex, set_, cs)
    ensures r.Ok? ==> Bits(r.value.certificate.bitmap, |set_|) == set j | 0 <= j < |cs| :: cs[j].0
  {
    if |cs| < QuorumThreshold(|set_|) {
      return Err(InsufficientSigners);
    }
    var sigs: seq<VSig> := [];
    var bm := new Bitmap(|set_|);
    for k := 0 to |cs|
      invariant bm.Valid() && bm.bits == |set_|
      invariant forall j :: 0 <= j < k ==> cs[j].0 < |set_|
      invariant sigs == ContributorSigs(cs[..k])
      invariant bm.bytes == SetAll(|set_|, cs[..k])
    {
      if cs[k].0 >= |set_| {
        return Err(BadIndex);
      }
      sigs := sigs + [cs[k].1];
      assert cs[..k + 1][..k] == cs[..k];
      var _ := bm.Set(cs[k].0);
    }
    assert cs[..|cs|] == cs;
    SetAllBits(|set_|, cs);
    match AggregateSigs(sigs) {
      case None => return Err(Bls);
      case Some(agg) => return Ok(CertifiedVertex(vertex, AggSig(agg, bm.bytes)));
    }
  }

  lemma {:induction false} SetAllBits(n: nat, cs: seq<Contributor>)
    requires forall j :: 0 <= j < |cs| ==> cs[j].0 < n
    ensures Bits(SetAll(n, cs), n) == set j | 0 <= j < |cs| :: cs[j].0
  {
    if cs == [] {
      ZerosEmpty(n);
    } else {
      var front := cs[..|cs| - 1];
      SetAllBits(n, front);
      SetBitSets(SetAll(n, front), n, cs[|cs| - 1].0);
      assert (set j | 0 <= j < |cs| :: cs[j].0) == (set j | 0 <= j < |front| :: front[j].0) + {cs[|cs| - 1].0};
    }
  }

  ghost predicate GoodContributors(vertex: Vertex, set_: ValidatorSet, cs: seq<Contributor>) {
    && (forall j :: 0 <= j < |cs| ==>
         cs[j].0 < |set_| && cs[j].1 == Signed(set_[cs[j].0], VERTEX_CERT, SigningBytes(vertex)))
    && (forall i, j :: 0 <= i < j < |cs| ==> cs[i].0 != cs[j].0)
  }

  function Slots(cs: seq<Contributor>): (r: seq<nat>)
    ensures |r| == |cs|
  {
    seq(|cs|, j requires 0 <= j < |cs| => cs[j].0)
  }

  // Mapping two listings of the same positions to keys lists the same keys.
  lemma SamePositionsSameKeys(set_: ValidatorSet, a: seq<nat>, b: seq<nat>)
    requires forall i :: i in a ==> i < |set_|
    requires forall i :: i in b ==> i in a
    ensures forall x :: x in KeysAt(set_, b) ==> x in KeysAt(set_, a)
  {
    forall x | x in KeysAt(set_, b) ensures x in KeysAt(set_, a) {
      var k :| 0 <= k < |b| && KeysAt(set_, b)[k] == x;
      assert b[k] in b;
      var j :| 0 <= j < |a| && a[j] == b[k];
      assert KeysAt(set_, a)[j] == x;
    }
  }

  lemma AssembledIndices(set_: ValidatorSet, cs: seq<Contributor>)
    requires forall j :: 0 <= j < |cs| ==> cs[j].0 < |set_|
    requires Distinct(Slots(cs))
    ensures |Indices(SetAll(|set_|, cs), |set_|)| == |cs|
    ensures forall i :: i in Slots(cs) <==> i in Indices(SetAll(|set_|, cs), |set_|)
  {
    var bytes, slots := SetAll(|set_|, cs), Slots(cs);
    var indices := Indices(bytes, |set_|);
    SetAllBits(|set_|, cs);
    forall j | 0 <= j < |cs| ensures cs[j].0 in slots { assert slots[j] == cs[j].0; }
    assert Members(slots) == Members(indices);
    assert forall i :: i in slots <==> i in Members(slots);
    assert forall i :: i in indices <==> i in Members(indices);
    DistinctSize(slots);
    DistinctSize(indices);
  }

  /** Whatever the order the partials were collected in, a certificate assembled
      from a quorum of verified partials of distinct validators passes its own check. */
  lemma AssembledVerifies(vertex: Vertex, set_: ValidatorSet, cs: seq<Contributor>)
    requires Distinct(set_) && vertex.hash == ContentHash(vertex)
    requires GoodContributors(vertex, set_, cs) && |cs| >= QuorumThreshold(|set_|)
    ensures Assembled(vertex, set_, cs).Ok?
    ensures VerifyCertifiedVertex(Assembled(vertex, set_, cs).value, set_).Ok?
  {
    var slots, indices := Slots(cs), Indices(SetAll(|set_|, cs), |set_|);
    assert Distinct(slots);
    AssembledIndices(set_, cs);
    SamePositionsSameKeys(set_, slots, indices);
    SamePositionsSameKeys(set_, indices, slots);
    KeysDistinct(set_, slots);
    KeysDistinct(set_, indices);
    var voters, keys, msg := KeysAt(set_, slots), KeysAt(set_, indices), SigningBytes(vertex);
    assert Members(voters) == Members(keys);
    SameSignersSameAggregate(voters, keys, VERTEX_CERT, msg);
    assert ContributorSigs(cs) == SignAll(voters, VERTEX_CERT, msg);
  }

  lemma KeysDistinct(set_: ValidatorSet, indices: seq<nat>)
    requires Distinct(set_) && Distinct(indices)
    requires forall i :: i in indices ==> i < |set_|
    ensures Distinct(KeysAt(set_, indices))
    ensures Members(KeysAt(set_, indices)) <= Members(set_)
  {
    assert forall j :: 0 <= j < |indices| ==> indices[j] in indices;
  }

  /** What acceptance means: the content hash is right, and a quorum of distinct
      validators signed exactly this body; the aggregate holds nothing else. */
  lemma VerifiedMeans(cv: CertifiedVertex, set_: ValidatorSet) returns (quorum: set<Id>)
    requires Distinct(set_) && VerifyCertifiedVertex(cv, set_).Ok?
    ensures cv.vertex.hash == ContentHash(cv.vertex)
    ensures quorum <= Members(set_) && |quorum| >= QuorumThreshold(|set_|)
    ensures forall s ::
              s in cv.certificate.sig.parts
              <==> s.Signed? && s.signer in quorum && s == Signed(s.signer, VERTEX_CERT, SigningBytes(cv.vertex))
  {
    var indices := Indices(cv.certificate.bitmap, |set_|);
    assert forall i :: i in indices ==> i in Members(indices);
    var keys := KeysAt(set_, indices);
    KeysDistinct(set_, indices);
    DistinctSize(keys);
    quorum := Members(keys);
    AggregateParts(keys, VERTEX_CERT, SigningBytes(cv.vertex), cv.certificate.sig);
  }
}
