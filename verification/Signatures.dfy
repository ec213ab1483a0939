/** Ideal signatures: a signature is a term naming its signer, domain tag and
    message, an aggregate is the multiset of the signatures it was built from.
    Unforgeability is a premise of the network models, which restrict what an
    adversary may deliver to terms that honest signers have produced. */
module Signatures {
  import opened Validators

  datatype Sig<M(==)> = Signed(signer: Id, domain: nat, msg: M) | Junk(bytes: nat)

  datatype Aggregate<M(==)> = Aggregate(parts: multiset<Sig<M>>)

  predicate Verify<M(==)>(pk: Id, domain: nat, msg: M, sig: Sig<M>) {
    sig == Signed(pk, domain, msg)
  }

  // Aggregation refuses an empty list and bytes that are no signature.
  function AggregateSigs<M(==)>(sigs: seq<Sig<M>>): Option<Aggregate<M>> {
    if sigs == [] || exists i :: 0 <= i < |sigs| && sigs[i].Junk? then None
    else Some(Aggregate(multiset(sigs)))
  }

  function SignAll<M(==)>(pks: seq<Id>, domain: nat, msg: M): (r: seq<Sig<M>>)
    ensures |r| == |pks|
  {
    seq(|pks|, i requires 0 <= i < |pks| => Signed(pks[i], domain, msg))
  }

  // Same-message aggregate verification against a list of public keys.
  predicate VerifyAggregate<M(==)>(pks: seq<Id>, domain: nat, msg: M, agg: Aggregate<M>) {
    pks != [] && agg.parts == multiset(SignAll(pks, domain, msg))
  }

  /** A verifying aggregate holds every listed key's signature, and nothing else. */
  lemma AggregateParts<M(!new)>(pks: seq<Id>, domain: nat, msg: M, agg: Aggregate<M>)
    requires VerifyAggregate(pks, domain, msg, agg)
    ensures forall s :: s in agg.parts <==> exists i :: 0 <= i < |pks| && s == Signed(pks[i], domain, msg)
  {
    var all := SignAll(pks, domain, msg);
    assert forall s :: s in agg.parts <==> s in all;
    forall i | 0 <= i < |pks| ensures Signed(pks[i], domain, msg) in all {
      assert all[i] == Signed(pks[i], domain, msg);
    }
  }

  /** Signatures by the same signers over one message aggregate equally in any
      order: only which keys occur, each once, decides. */
  lemma {:induction false} SameSignersSameAggregate<M(!new)>(a: seq<Id>, b: seq<Id>, domain: nat, msg: M)
    requires Distinct(a) && Distinct(b) && Members(a) == Members(b)
    ensures multiset(SignAll(a, domain, msg)) == multiset(SignAll(b, domain, msg))
  {
    OneEach(a, domain, msg);
    OneEach(b, domain, msg);
    var x, y := multiset(SignAll(a, domain, msg)), multiset(SignAll(b, domain, msg));
    assert forall i :: i in a <==> i in Members(a);
    assert forall i :: i in b <==> i in Members(b);
    assert forall s :: x[s] == y[s];
  }

  lemma {:induction false} OneEach<M(!new)>(a: seq<Id>, domain: nat, msg: M)
    requires Distinct(a)
    ensures forall s: Sig<M> :: multiset(SignAll(a, domain, msg))[s]
                                == if s.Signed? && s.signer in a && s == Signed(s.signer, domain, msg) then 1 else 0
  {
    if a != [] {
      var front, last := a[..|a| - 1], a[|a| - 1];
      OneEach(front, domain, msg);
      assert last !in front;
      assert SignAll(a, domain, msg) == SignAll(front, domain, msg) + [Signed(last, domain, msg)];
      assert forall i :: i in a <==> i in front || i == last;
    }
  }
}
