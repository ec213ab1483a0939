/** The check of a data-availability response (da::challenge). */
module Availability {
  import opened Fields
  import opened ReedSolomon
  import opened Merkle

  datatype Challenge = Challenge(blob: nat, indices: seq<nat>)
  datatype Response<T> = Response(blob: nat, shards: seq<Shard<T>>)
  datatype Verdict = Accepted | Mismatch | BadCommitment

  function IndicesOf<T>(shards: seq<Shard<T>>): seq<nat> {
    seq(|shards|, i requires 0 <= i < |shards| => shards[i].index)
  }

  // The response answers the challenge. Sorting two lists and comparing them
  // is comparing them as multisets.
  predicate Answers<T>(c: Challenge, r: Response<T>) {
    r.blob == c.blob && multiset(IndicesOf(r.shards)) == multiset(c.indices)
  }

  function Least(a: nat, b: nat): nat { if a < b then a else b }

  // The commitment is to the shards of a payload of the recorded size.
  ghost predicate Commits<T(!new)>(C: Codec<T>, cfg: Config, size: nat, expected: Digest<T>, shards: seq<seq<T>>,
                                   payload: seq<T>) {
    && ValidConfig(C, cfg) && Codeword(C, cfg, shards) && Carries(C, cfg, shards, payload)
    && |payload| == Least(size, PaddedLen(cfg)) && expected == Commitment(shards)
  }

  // The response shows k different shards of committed data and nothing else.
  ghost predicate Proves<T(!new)>(C: Codec<T>, cfg: Config, size: nat, expected: Digest<T>, present: seq<Shard<T>>) {
    && |IndexSet(present)| >= cfg.k
    && exists shards, payload :: Commits(C, cfg, size, expected, shards, payload) && Genuine(shards, present)
  }

  // What the decoder returns on genuine shards of a payload of that size.
  lemma DecodesTo<T(!new)>(C: Codec<T>, cfg: Config, size: nat, expected: Digest<T>, present: seq<Shard<T>>,
                           decoded: seq<T>,
                           shards: seq<seq<T>>, payload: seq<T>, slots: seq<Slot<T>>, repaired: seq<seq<T>>)
    requires GoodCodec(C) && Commits(C, cfg, size, expected, shards, payload) && Genuine(shards, present)
    requires Slots(cfg, slots) && Holds(slots, present) && Repairs(C, cfg, slots, repaired)
    requires decoded == Truncate(Concat(repaired[..cfg.k]), size)
    ensures decoded == payload
  {
    AnyKOfN(C, cfg, payload, shards, present, slots, repaired);
    ConcatLength(repaired[..cfg.k], cfg.size);
  }

  lemma DecodedSize<T(!new)>(C: Codec<T>, cfg: Config, size: nat, decoded: seq<T>, slots: seq<Slot<T>>,
                             repaired: seq<seq<T>>)
    requires ValidConfig(C, cfg) && Repairs(C, cfg, slots, repaired)
    requires decoded == Truncate(Concat(repaired[..cfg.k]), size)
    ensures |decoded| == Least(size, PaddedLen(cfg))
  {
    ConcatLength(repaired[..cfg.k], cfg.size);
  }

  lemma GenuineWellFormed<T(!new)>(C: Codec<T>, cfg: Config, shards: seq<seq<T>>, present: seq<Shard<T>>)
    requires Codeword(C, cfg, shards) && Genuine(shards, present)
    ensures AllWellFormed(cfg, present)
  {
  }

  /** With fewer than k shards a matching response is accepted unchecked; with k or
      more it is accepted exactly when it shows k different shards of the committed
      data of the recorded size, and nothing else. */
  method VerifyResponse<T(==, !new)>(C: Codec<T>, cfg: Config, c: Challenge, r: Response<T>,
                                     expected: Digest<T>, size: nat)
    returns (v: Verdict)
    requires GoodCodec(C)
    ensures v == Mismatch <==> !Answers(c, r)
    ensures v == Accepted <==> Answers(c, r) && (|r.shards| < cfg.k || Proves(C, cfg, size, expected, r.shards))
  {
    hide Carries, GoodCodec, Holds, Genuine, Commits, OnPolynomial;
    if r.blob != c.blob || multiset(IndicesOf(r.shards)) != multiset(c.indices) {
      return Mismatch;
    }
    if |r.shards| < cfg.k {
      return Accepted;
    }
    var present := r.shards;
    var decoded := DecodeShards(C, present, cfg, size);
    if decoded.Err? {
      NotProved(C, cfg, size, expected, present);
      return BadCommitment;
    }
    ghost var slots, repaired :| Slots(cfg, slots) && Holds(slots, present) && Repairs(C, cfg, slots, repaired)
      && decoded.value == Truncate(Concat(repaired[..cfg.k]), size);
    DecodedSize(C, cfg, size, decoded.value, slots, repaired);
    var encoded := EncodeShards(C, decoded.value, cfg);
    CodewordSize(C, cfg, encoded.value);
    VerdictExact(C, cfg, size, expected, present, decoded.value, encoded.value, slots, repaired);
    var recomputed := RsMerkleCommitment(encoded.value);
    if recomputed != expected {
      return BadCommitment;
    }
    var same := SameShards(encoded.value, present);
    return if same then Accepted else BadCommitment;
  }

  // Every shard of the response is the recomputed one of its index.
  method SameShards<T(==)>(full: seq<seq<T>>, present: seq<Shard<T>>) returns (ok: bool)
    requires forall j :: 0 <= j < |present| ==> present[j].index < |full|
    ensures ok <==> Genuine(full, present)
  {
    for i := 0 to |present|
      invariant forall j :: 0 <= j < i ==> present[j].data == full[present[j].index]
    {
      if full[present[i].index] != present[i].data {
        return false;
      }
    }
    return true;
  }

  lemma CodewordSize<T(!new)>(C: Codec<T>, cfg: Config, shards: seq<seq<T>>)
    requires Codeword(C, cfg, shards) && ValidConfig(C, cfg)
    ensures |shards| == cfg.n > 0
  {
  }

  // What cannot be decoded proves nothing.
  lemma NotProved<T(!new)>(C: Codec<T>, cfg: Config, size: nat, expected: Digest<T>, present: seq<Shard<T>>)
    requires !(ValidConfig(C, cfg) && AllWellFormed(cfg, present) && |IndexSet(present)| >= cfg.k)
    ensures !Proves(C, cfg, size, expected, present)
  {
    forall shards, payload | Commits(C, cfg, size, expected, shards, payload) && Genuine(shards, present)
      ensures |IndexSet(present)| < cfg.k
    {
      GenuineWellFormed(C, cfg, shards, present);
    }
  }

  // The recomputed shards are the committed ones if any are.
  lemma VerdictExact<T(!new)>(C: Codec<T>, cfg: Config, size: nat, expected: Digest<T>, present: seq<Shard<T>>,
                              decoded: seq<T>, encoded: seq<seq<T>>, slots: seq<Slot<T>>, repaired: seq<seq<T>>)
    requires GoodCodec(C) && ValidConfig(C, cfg) && |IndexSet(present)| >= cfg.k
    requires Slots(cfg, slots) && Holds(slots, present) && Repairs(C, cfg, slots, repaired)
    requires decoded == Truncate(Concat(repaired[..cfg.k]), size) && |decoded| == Least(size, PaddedLen(cfg))
    requires Codeword(C, cfg, encoded) && Carries(C, cfg, encoded, decoded) && |encoded| > 0
    ensures Proves(C, cfg, size, expected, present) <==> Commitment(encoded) == expected && Genuine(encoded, present)
  {
    hide Codeword, Carries, GoodCodec, Repairs, Holds, Genuine;
    forall shards, payload | Commits(C, cfg, size, expected, shards, payload) && Genuine(shards, present)
      ensures shards == encoded
    {
      DecodesTo(C, cfg, size, expected, present, decoded, shards, payload, slots, repaired);
      EncodingUnique(C, cfg, decoded, shards, encoded);
    }
    if Commitment(encoded) == expected && Genuine(encoded, present) {
      assert Commits(C, cfg, size, expected, encoded, decoded);
    }
  }

  /** An accepted response with at least k shards carries exactly the committed
      shards: those of the one list of n shards with that commitment. */
  lemma AcceptedAreCommitted<T(!new)>(C: Codec<T>, cfg: Config, size: nat, expected: Digest<T>, present: seq<Shard<T>>,
                                      all: seq<seq<T>>)
    requires Proves(C, cfg, size, expected, present)
    requires |all| == cfg.n > 0 && Commitment(all) == expected
    ensures Genuine(all, present)
  {
    var shards, payload :| Commits(C, cfg, size, expected, shards, payload) && Genuine(shards, present);
    CommitmentInjective(shards, all);
  }

  /** An honest response of at least k different shards of an encoded payload is
      always accepted. */
  lemma HonestIsProof<T(!new)>(C: Codec<T>, cfg: Config, payload: seq<T>, shards: seq<seq<T>>, present: seq<Shard<T>>)
    requires ValidConfig(C, cfg) && Codeword(C, cfg, shards) && Carries(C, cfg, shards, payload)
    requires Genuine(shards, present) && |IndexSet(present)| >= cfg.k
    ensures |shards| > 0 && Proves(C, cfg, |payload|, Commitment(shards), present)
  {
    assert Commits(C, cfg, |payload|, Commitment(shards), shards, payload);
  }
}
