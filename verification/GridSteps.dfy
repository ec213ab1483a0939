/** What a node that takes part in drawing a DAG does, step by step: it collects partials for
    its vertex, records certificates of the row below, advances, and votes. */
module GridSteps {
  import opened Validators
  import opened Worlds
  import opened Signatures
  import opened Certificates
  import opened VertexCert
  import opened VertexInvariant
  import opened VertexNetwork
  import opened VertexResponses
  import opened Grid

  // The host supplies no blobs.
  function HostOf(p: Plan, bad: set<Id>): Env { Env(WorldOf(p.f, bad).set_, 0, _ => []) }

  function OfferOf(p: Plan, r: nat, i: Id): Proposal {
    Proposal(Placed(p, r, i), Signed(i, VERTEX_PROPOSAL, SigningBytes(Placed(p, r, i))))
  }

  function VoteOf(p: Plan, r: nat, i: Id, voter: Id): Partial {
    Partial(Placed(p, r, i).hash, r, i, voter, Signed(voter, VERTEX_CERT, SigningBytes(Placed(p, r, i))))
  }

  function HashRow(p: Plan, r: nat, ids: set<Id>): map<Id, Hash> {
    map k | k in ids :: Placed(p, r, k).hash
  }

  // The authors of the parents.
  function Picks(p: Plan, r: nat, i: Id): set<Id> {
    set j | 0 <= j <= 2 * p.f :: p.pick(r, i, j)
  }

  // ---------------------------------------------------------------------
  // What is known of a book
  // ---------------------------------------------------------------------

  ghost predicate RowIs(b: Book, p: Plan, r: nat, ids: set<Id>) {
    && (ids == {} ==> r !in b.certified)
    && (ids != {} ==> r in b.certified && b.certified[r] == HashRow(p, r, ids))
  }

  // Nothing has been recorded for later rounds.
  ghost predicate NoneAbove(b: Book, r: nat) {
    forall q :: q in b.certified ==> q <= r
  }

  // The own vertex of a round is stored and has partials by `got`, but no certificate.
  ghost predicate Open(b: Book, p: Plan, r: nat, i: Id, got: set<Id>) {
    var h := Placed(p, r, i).hash;
    && h in b.mine && b.mine[h] == OfferOf(p, r, i)
    && h in b.collecting && b.collecting[h].Keys == got && h !in b.emitted
  }

  // Keys remembered for votes and proposals: earlier rounds, and some authors of round q.
  ghost predicate KeysBelow(b: Book, q: nat, authors: set<Id>) {
    && (forall k :: k in b.seen ==> k.round < q || (k.round == q && k.author in authors))
    && (forall k :: k in b.voted ==> k.round < q || (k.round == q && k.author in authors))
  }

  // The node has voted on row r and is collecting certificates of it; it may have
  // advanced already.
  ghost predicate Collecting(b: Book, p: Plan, i: Id, at: nat, r: nat, ids: set<Id>) {
    && b.selfId == i && b.started && b.currentRound == at && (at == r || at == r + 1)
    && RowIs(b, p, r, ids) && NoneAbove(b, r) && KeysBelow(b, r + 1, {i})
    && (at == r + 1 ==> Open(b, p, r + 1, i, {i}))
  }

  // The node has advanced to row q, knows all of the row below, and has voted for the
  // vertices of some authors.
  ghost predicate Voting(b: Book, p: Plan, i: Id, q: nat, below: set<Id>, voted: set<Id>) {
    && b.selfId == i && b.started && b.currentRound == q && Open(b, p, q, i, {i}) && KeysBelow(b, q, voted)
    && (if q == 0 then b.certified == map[] else RowIs(b, p, q - 1, below) && NoneAbove(b, q - 1))
  }

  lemma CollectedIsVoting(b: Book, p: Plan, i: Id, r: nat, ids: set<Id>)
    requires Collecting(b, p, i, r + 1, r, ids)
    ensures Voting(b, p, i, r + 1, ids, {i})
  {
    hide Open, RowIs;
  }

  lemma VotedIsCollecting(b: Book, p: Plan, i: Id, q: nat, below: set<Id>, voted: set<Id>)
    requires Voting(b, p, i, q, below, voted)
    ensures Collecting(b, p, i, q, q, {}) && Open(b, p, q, i, {i})
  {
    hide Open;
  }

  // ---------------------------------------------------------------------
  // Recording and advancing
  // ---------------------------------------------------------------------

  lemma RowGrows(p: Plan, r: nat, ids: set<Id>, k: Id)
    ensures HashRow(p, r, ids)[k := Placed(p, r, k).hash] == HashRow(p, r, ids + {k})
    ensures map[k := Placed(p, r, k).hash] == HashRow(p, r, {k})
  {
    hide Placed;
  }

  lemma RowCount(p: Plan, r: nat, ids: set<Id>)
    ensures |HashRow(p, r, ids)| == |ids|
  {
    hide Placed;
    assert HashRow(p, r, ids).Keys == ids;
    assert |HashRow(p, r, ids)| == |HashRow(p, r, ids).Keys|;
  }

  lemma RecordRow(b: Book, p: Plan, r: nat, ids: set<Id>, k: Id)
    requires RowIs(b, p, r, ids) && NoneAbove(b, r)
    ensures var c := RecordCert(b, Placed(p, r, k));
            RowIs(c, p, r, ids + {k}) && NoneAbove(c, r) && c == b.(certified := c.certified)
  {
    hide Placed;
    PlacedFields(p, r, k);
    RowGrows(p, r, ids, k);
    assert {} + {k} == {k};
  }

  lemma CountIs(b: Book, p: Plan, r: nat, ids: set<Id>)
    requires RowIs(b, p, r, ids)
    ensures CertifiedCount(b, r) == |ids|
  {
    hide HashRow;
    RowCount(p, r, ids);
  }

  // Short of a quorum in the current round the book is only trimmed.
  lemma StaysPut(b: Book, env: Env)
    requires b.started && CertifiedCount(b, b.currentRound) < Need(env)
    ensures MaybeAdvance(b, env) == Step(Prune(b), [], true)
  {
    hide VertexCert.Prune;
    assert AdvanceLoop(b, env) == Step(b, [], true);
  }

  lemma TrimKeeps(b: Book, p: Plan, i: Id, at: nat, r: nat, ids: set<Id>)
    requires Collecting(b, p, i, at, r, ids)
    ensures Collecting(Prune(b), p, i, at, r, ids)
  {
    hide Placed, HashRow;
    PlacedFields(p, r + 1, i);
  }

  lemma TrimKeepsOpen(b: Book, p: Plan, i: Id, r: nat, got: set<Id>)
    requires Open(b, p, r, i, got) && b.currentRound <= r + 1
    ensures Open(Prune(b), p, r, i, got)
  {
    hide Placed;
    PlacedFields(p, r, i);
  }

  // Recording one more certificate of the row without advancing.
  lemma Records(b: Book, p: Plan, bad: set<Id>, i: Id, at: nat, r: nat, ids: set<Id>, k: Id)
    requires Collecting(b, p, i, at, r, ids) && |bad| <= p.f && (at == r ==> |ids + {k}| < 2 * p.f + 1)
    ensures var s := MaybeAdvance(RecordCert(b, Placed(p, r, k)), HostOf(p, bad));
            && s.actions == [] && Collecting(s.book, p, i, at, r, ids + {k})
            && forall got :: Open(b, p, r, i, got) ==> Open(s.book, p, r, i, got)
  {
    hide Placed, Open, RowIs, KeysBelow, VertexCert.Prune, VertexCert.MaybeAdvance, VertexCert.RecordCert;
    var c := RecordCert(b, Placed(p, r, k));
    RecordRow(b, p, r, ids, k);
    SameRest(b, c, p, i, r);
    WorldIsGood(p.f, bad);
    if at == r { CountIs(c, p, r, ids + {k}); } else { CountAbove(c, r); }
    StaysPut(c, HostOf(p, bad));
    TrimKeeps(c, p, i, at, r, ids + {k});
    forall got | Open(b, p, r, i, got) ensures Open(Prune(c), p, r, i, got) { TrimKeepsOpen(c, p, i, r, got); }
  }

  lemma CountAbove(b: Book, r: nat)
    requires NoneAbove(b, r)
    ensures CertifiedCount(b, r + 1) == 0
  {
  }

  // The recorded certificates are all that differs.
  lemma SameRest(b: Book, c: Book, p: Plan, i: Id, r: nat)
    requires c == b.(certified := c.certified)
    ensures KeysBelow(b, r + 1, {i}) ==> KeysBelow(c, r + 1, {i})
    ensures forall q: nat, got :: Open(b, p, q, i, got) ==> Open(c, p, q, i, got)
  {
    hide Placed;
  }

  // ---------------------------------------------------------------------
  // The certificate that completes the parents
  // ---------------------------------------------------------------------

  // The parents are listed by author.
  ghost predicate Ordered(p: Plan, r: nat, i: Id) {
    forall j: nat, k: nat :: j < k <= 2 * p.f ==> p.pick(r, i, j) < p.pick(r, i, k)
  }

  lemma PicksInOrder(p: Plan, r: nat, i: Id)
    requires Ordered(p, r + 1, i)
    ensures |Picks(p, r + 1, i)| == 2 * p.f + 1
    ensures |HashRow(p, r, Picks(p, r + 1, i))| == 2 * p.f + 1
    ensures ValuesInOrder(HashRow(p, r, Picks(p, r + 1, i)), 2 * p.f + 1) == Placed(p, r + 1, i).parents
  {
    hide Placed;
    var ids, n := Picks(p, r + 1, i), 2 * p.f + 1;
    var picks: seq<nat> := seq(n, j requires 0 <= j < n => p.pick(r + 1, i, j));
    var row, keys := HashRow(p, r, ids), Sorted(HashRow(p, r, ids).Keys);
    PicksListed(p, r + 1, i, picks);
    DistinctSize(picks);
    assert Members(picks) == ids;
    RowCount(p, r, ids);
    assert row.Keys == ids;
    SortedSpec(row.Keys);
    AscendingUnique(keys, picks);
    PlacedFields(p, r + 1, i);
    OrderedValues(row, n);
    assert ValuesInOrder(row, n) == Placed(p, r + 1, i).parents;
  }

  lemma PicksListed(p: Plan, r: nat, i: Id, picks: seq<nat>)
    requires |picks| == 2 * p.f + 1 && forall j :: 0 <= j <= 2 * p.f ==> picks[j] == p.pick(r, i, j)
    ensures forall x :: x in picks <==> x in Picks(p, r, i)
  {
    forall x | x in Picks(p, r, i) ensures x in picks {
      var j :| 0 <= j <= 2 * p.f && p.pick(r, i, j) == x;
      assert picks[j] == x;
    }
  }

  // The proposal made on a full row.
  lemma NextOffer(b: Book, p: Plan, bad: set<Id>, i: Id, r: nat)
    requires b.selfId == i && Ordered(p, r + 1, i)
    requires RowIs(b, p, r, Picks(p, r + 1, i))
    ensures r in b.certified && 2 * p.f + 1 <= |b.certified[r]|
    ensures MakeProposal(b, HostOf(p, bad), r + 1, ValuesInOrder(b.certified[r], 2 * p.f + 1)) == OfferOf(p, r + 1, i)
  {
    PicksInOrder(p, r, i);
    assert p.pick(r + 1, i, 0) in Picks(p, r + 1, i);
  }

  // What proposing round r + 1 leaves.
  lemma Proposes(b: Book, p: Plan, bad: set<Id>, i: Id, r: nat, parents: seq<Hash>)
    requires Collecting(b, p, i, r, r, Picks(p, r + 1, i)) && Core(b, HostOf(p, bad).set_)
    requires MakeProposal(b, HostOf(p, bad), r + 1, parents) == OfferOf(p, r + 1, i)
    ensures var s := Propose(b, HostOf(p, bad), r + 1, parents);
            && Collecting(s.book, p, i, r + 1, r, Picks(p, r + 1, i))
            && BroadcastProposal(OfferOf(p, r + 1, i)) in s.actions
            && forall got :: Open(b, p, r, i, got) ==> Open(s.book, p, r, i, got)
  {
    hide Placed, RowIs, Picks;
    PlacedFields(p, r + 1, i);
    PlacedFields(p, r, i);
    var h, s := Placed(p, r + 1, i).hash, Propose(b, HostOf(p, bad), r + 1, parents);
    assert h !in b.mine;
    assert Slot(b, h) == map[];
    SameRow(b, s.book, p, r, Picks(p, r + 1, i));
  }

  lemma SameRow(b: Book, c: Book, p: Plan, r: nat, ids: set<Id>)
    requires RowIs(b, p, r, ids) && c.certified == b.certified
    ensures RowIs(c, p, r, ids)
  {
  }

  lemma AdvancesOnce(b: Book, p: Plan, bad: set<Id>, i: Id, r: nat)
    requires Collecting(b, p, i, r, r, Picks(p, r + 1, i)) && Core(b, HostOf(p, bad).set_) && |bad| <= p.f
    requires Ordered(p, r + 1, i)
    ensures var s := MaybeAdvance(b, HostOf(p, bad));
            && Collecting(s.book, p, i, r + 1, r, Picks(p, r + 1, i))
            && BroadcastProposal(OfferOf(p, r + 1, i)) in s.actions
            && forall got :: Open(b, p, r, i, got) ==> Open(s.book, p, r, i, got)
  {
    hide Placed, Open, RowIs, Picks, KeysBelow, Core, VertexCert.Prune, VertexCert.Propose, VertexCert.MakeProposal;
    hide VertexCert.ValuesInOrder;
    var env, ids := HostOf(p, bad), Picks(p, r + 1, i);
    WorldIsGood(p.f, bad);
    PicksInOrder(p, r, i);
    CountIs(b, p, r, ids);
    NextOffer(b, p, bad, i, r);
    var parents := ValuesInOrder(b.certified[r], 2 * p.f + 1);
    Proposes(b, p, bad, i, r, parents);
    var s := Propose(b, env, r + 1, parents);
    assert ProposeNext(b, env) == s;
    CountAbove(s.book, r);
    assert AdvanceLoop(s.book, env) == Step(s.book, [], true);
    TrimKeeps(s.book, p, i, r + 1, r, ids);
    forall got | Open(b, p, r, i, got) ensures Open(Prune(s.book), p, r, i, got) {
      TrimKeepsOpen(s.book, p, i, r, got);
    }
  }

  // Recording the last of the parents: the node advances and proposes.
  lemma Advances(b: Book, p: Plan, bad: set<Id>, i: Id, r: nat, ids: set<Id>, k: Id)
    requires Collecting(b, p, i, r, r, ids) && BookInv(b, HostOf(p, bad).set_) && |bad| <= p.f
    requires Ordered(p, r + 1, i) && ids + {k} == Picks(p, r + 1, i)
    ensures var s := MaybeAdvance(RecordCert(b, Placed(p, r, k)), HostOf(p, bad));
            && Collecting(s.book, p, i, r + 1, r, ids + {k}) && BroadcastProposal(OfferOf(p, r + 1, i)) in s.actions
            && forall got :: Open(b, p, r, i, got) ==> Open(s.book, p, r, i, got)
  {
    hide Placed, Open, RowIs, Picks, KeysBelow, Core, VertexCert.MaybeAdvance, VertexCert.RecordCert, Ordered;
    var c := RecordCert(b, Placed(p, r, k));
    RecordRow(b, p, r, ids, k);
    SameRest(b, c, p, i, r);
    RecordCore(b, HostOf(p, bad).set_, Placed(p, r, k));
    AdvancesOnce(c, p, bad, i, r);
  }

  lemma RecordCore(b: Book, set_: ValidatorSet, v: Vertex)
    requires BookInv(b, set_)
    ensures Core(RecordCert(b, v), set_)
  {
    hide Core;
    RecordKeeps(b, set_, v);
  }

  // ---------------------------------------------------------------------
  // Partials
  // ---------------------------------------------------------------------

  lemma VoteAccepted(b: Book, p: Plan, bad: set<Id>, i: Id, r: nat, got: set<Id>, k: Id)
    requires b.selfId == i && Open(b, p, r, i, got) && k !in got && k != i && k <= 3 * p.f && |bad| <= p.f
    ensures Accepts(b, HostOf(p, bad), VoteOf(p, r, i, k))
    ensures var c := Stored(b, VoteOf(p, r, i, k));
            Open(c, p, r, i, got + {k}) && c == b.(collecting := c.collecting)
            && forall g :: g in b.collecting && g != Placed(p, r, i).hash
                ==> g in c.collecting && c.collecting[g] == b.collecting[g]
  {
    hide Placed;
    PlacedFields(p, r, i);
    WorldIsGood(p.f, bad);
  }

  // Storing a partial changes nothing else that matters.
  lemma StoredCollecting(b: Book, c: Book, p: Plan, i: Id, at: nat, r: nat, ids: set<Id>)
    requires Collecting(b, p, i, at, r, ids) && c == b.(collecting := c.collecting, emitted := c.emitted)
    requires c.emitted <= b.emitted + {Placed(p, r, i).hash}
    requires forall g :: g in b.collecting && g != Placed(p, r, i).hash ==>
               g in c.collecting && c.collecting[g] == b.collecting[g]
    ensures Collecting(c, p, i, at, r, ids)
  {
    hide Placed;
    PlacedFields(p, r, i);
    PlacedFields(p, r + 1, i);
  }

  lemma CollectingSelf(b: Book, p: Plan, i: Id, at: nat, r: nat, ids: set<Id>)
    requires Collecting(b, p, i, at, r, ids)
    ensures b.selfId == i
  {
  }

  lemma NotReady(b: Book, env: Env, h: Hash)
    requires !Ready(b, env, h)
    ensures TryFinalize(b, env, h) == Step(b, [], true)
  {
  }

  // A partial short of a quorum is stored.
  lemma Collects(b: Book, p: Plan, bad: set<Id>, i: Id, at: nat, r: nat, ids: set<Id>, got: set<Id>, k: Id)
    requires Collecting(b, p, i, at, r, ids) && Open(b, p, r, i, got) && |bad| <= p.f
    requires k !in got && k != i && k <= 3 * p.f && |got + {k}| < 2 * p.f + 1
    ensures var s := Handle(b, HostOf(p, bad), PartialReceived(VoteOf(p, r, i, k)));
            s.actions == [] && Collecting(s.book, p, i, at, r, ids) && Open(s.book, p, r, i, got + {k})
  {
    hide Placed, Collecting, VertexCert.OnVertexPartial, VertexCert.TryFinalize, Accepts, Stored;
    var bp := VoteOf(p, r, i, k);
    CollectingSelf(b, p, i, at, r, ids);
    VoteAccepted(b, p, bad, i, r, got, k);
    var c := Stored(b, bp);
    PartialCases(b, HostOf(p, bad), bp);
    StoredCollecting(b, c, p, i, at, r, ids);
    WorldIsGood(p.f, bad);
    assert |c.collecting[Placed(p, r, i).hash]| == |c.collecting[Placed(p, r, i).hash].Keys|;
    NotReady(c, HostOf(p, bad), Placed(p, r, i).hash);
  }

  lemma PartsOf(v: Vertex, set_: ValidatorSet, cs: seq<Contributor>, x: VSig)
    requires Assembled(v, set_, cs).Ok? && x in Assembled(v, set_, cs).value.certificate.sig.parts
    ensures exists j :: 0 <= j < |cs| && cs[j].1 == x
  {
    assert x in multiset(ContributorSigs(cs));
    assert x in ContributorSigs(cs);
    var j :| 0 <= j < |cs| && ContributorSigs(cs)[j] == x;
  }

  // The certificate of an own vertex holds partials of those collected.
  lemma OwnParts(b: Book, env: Env, h: Hash, x: VSig)
    requires CollectOk(b, env.set_) && Ready(b, env, h) && OwnCertificate(b, env, h).Some?
    requires x in OwnCertificate(b, env, h).value.certificate.sig.parts
    ensures x.Signed? && x.signer in b.collecting[h]
    ensures x == Signed(x.signer, VERTEX_CERT, SigningBytes(b.mine[h].vertex))
  {
    hide ContributorsFrom, Certificates.VerifyCertifiedVertex, Certificates.Assembled;
    var sigs, voters := b.collecting[h], Sorted(b.collecting[h].Keys);
    SortedSpec(sigs.Keys);
    ContributorsAre(env.set_, voters, sigs);
    var cs := Contributors(env.set_, sigs);
    PartsOf(b.mine[h].vertex, env.set_, cs, x);
    var j :| 0 <= j < |cs| && cs[j].1 == x;
    assert x == sigs[voters[j]];
  }

  lemma CoreCollects(b: Book, set_: ValidatorSet)
    requires Core(b, set_)
    ensures CollectOk(b, set_)
  {
  }

  // The partial that completes a quorum: the vertex is certified, recorded and announced.
  lemma Certifies(b: Book, p: Plan, bad: set<Id>, i: Id, at: nat, r: nat, ids: set<Id>, got: set<Id>, k: Id)
    returns (cv: CertifiedVertex)
    requires Collecting(b, p, i, at, r, ids) && Open(b, p, r, i, got) && |bad| <= p.f && BookInv(b, HostOf(p, bad).set_)
    requires k !in got && k != i && k <= 3 * p.f && |got + {k}| == 2 * p.f + 1
    requires (at == r ==> |ids + {i}| < 2 * p.f + 1)
    ensures var s := Handle(b, HostOf(p, bad), PartialReceived(VoteOf(p, r, i, k)));
            s.actions == [BroadcastCert(cv)] && Collecting(s.book, p, i, at, r, ids + {i})
    ensures cv.vertex == Placed(p, r, i) && VerifyCertifiedVertex(cv, HostOf(p, bad).set_).Ok?
    ensures forall x :: x in cv.certificate.sig.parts ==>
              x.Signed? && x.signer in got + {k} && x == Signed(x.signer, VERTEX_CERT, SigningBytes(Placed(p, r, i)))
  {
    hide Placed, Collecting, VertexCert.OnVertexPartial, VertexCert.MaybeAdvance, VertexCert.OwnCertificate;
    hide VertexCert.RecordCert;
    hide Certificates.VerifyCertifiedVertex, Core;
    var bp, env, h := VoteOf(p, r, i, k), HostOf(p, bad), Placed(p, r, i).hash;
    CollectingSelf(b, p, i, at, r, ids);
    VoteAccepted(b, p, bad, i, r, got, k);
    var c := Stored(b, bp);
    WorldIsGood(p.f, bad);
    StoredKeeps(b, env, bp);
    PartialCases(b, env, bp);
    assert |c.collecting[h]| == |c.collecting[h].Keys|;
    OwnCertificateVerifies(c, env, h);
    cv := OwnCertificate(c, env, h).value;
    forall x | x in cv.certificate.sig.parts
      ensures x.Signed? && x.signer in got + {k} && x == Signed(x.signer, VERTEX_CERT, SigningBytes(Placed(p, r, i)))
    {
      CoreCollects(c, env.set_);
      OwnParts(c, env, h, x);
    }
    var d := c.(emitted := c.emitted + {h});
    StoredCollecting(b, d, p, i, at, r, ids);
    Records(d, p, bad, i, at, r, ids, i);
    assert [BroadcastCert(cv)] + [] == [BroadcastCert(cv)];
  }

  // ---------------------------------------------------------------------
  // Votes and the start
  // ---------------------------------------------------------------------

  // A vertex whose parents are in the row below.
  ghost predicate Supported(p: Plan, q: nat, k: Id, below: set<Id>) {
    q > 0 ==> Picks(p, q, k) <= below
  }

  lemma ParentsKnown(b: Book, p: Plan, q: nat, k: Id, below: set<Id>)
    requires q > 0 && RowIs(b, p, q - 1, below) && Picks(p, q, k) <= below
    ensures KnownParents(b, q - 1, Placed(p, q, k).parents)
  {
    hide Placed;
    forall h | h in Placed(p, q, k).parents ensures q - 1 in b.certified && h in b.certified[q - 1].Values {
      var j := ParentIs(p, q, k, h);
      var a := p.pick(q, k, j);
      assert a in Picks(p, q, k);
      assert HashRow(p, q - 1, below)[a] == h;
    }
  }

  lemma VotesFor(b: Book, p: Plan, bad: set<Id>, i: Id, q: nat, below: set<Id>, voted: set<Id>, k: Id)
    requires Voting(b, p, i, q, below, voted) && k !in voted && k != i && k <= 3 * p.f && |bad| <= p.f
    requires Supported(p, q, k, below)
    ensures var s := Handle(b, HostOf(p, bad), ProposalReceived(OfferOf(p, q, k)));
            s.actions == [BroadcastPartial(VoteOf(p, q, k, i))] && Voting(s.book, p, i, q, below, voted + {k})
  {
    hide Placed, Picks, VertexCert.OnVertexProposal;
    var o, env := OfferOf(p, q, k), HostOf(p, bad);
    PlacedFields(p, q, k);
    WorldIsGood(p.f, bad);
    if q > 0 { ParentsKnown(b, p, q, k, below); }
    assert Key(q, k) !in b.seen && Key(q, k) !in b.voted;
    assert Votable(b, env, o);
    ProposalCases(b, env, o);
    hide Open, RowIs;
    VoteBook(b, Vote(NoteSeen(b, o), o).book, p, i, q, below);
  }

  lemma VoteBook(b: Book, c: Book, p: Plan, i: Id, q: nat, below: set<Id>)
    requires c == b.(voted := c.voted, seen := c.seen)
    ensures Open(b, p, q, i, {i}) ==> Open(c, p, q, i, {i})
    ensures q > 0 && RowIs(b, p, q - 1, below) ==> RowIs(c, p, q - 1, below)
  {
  }

  lemma Starts(p: Plan, bad: set<Id>, i: Id)
    ensures var s := Handle(FreshBook(i), HostOf(p, bad), Start);
            Voting(s.book, p, i, 0, {}, {i}) && BroadcastProposal(OfferOf(p, 0, i)) in s.actions
  {
    PlacedFields(p, 0, i);
    var b := FreshBook(i).(started := true);
    assert MakeProposal(b, HostOf(p, bad), 0, []) == OfferOf(p, 0, i);
    hide Placed;
    var s := Propose(b, HostOf(p, bad), 0, []);
    assert Slot(b, Placed(p, 0, i).hash) == map[];
  }
}
