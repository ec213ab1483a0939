/** Every plan in which honest validators name parents as the code makes them do is drawn by
    a run in which nothing is delivered that was not sent. */
module GridRuns {
  import opened Validators
  import opened Worlds
  import opened Signatures
  import opened Certificates
  import opened VertexCert
  import opened VertexInvariant
  import opened VertexNetwork
  import opened HostViews
  import opened Stories
  import opened Dag
  import opened Grid
  import opened GridSteps

  // A plan, the validators that deviate, and the honest ones that take part.
  datatype Cast = Cast(plan: Plan, bad: set<Id>, active: set<Id>)

  ghost function RowOf(c: Cast, r: nat): set<Id> {
    set k | k in c.active + c.bad && c.plan.stands(r, k)
  }

  // Those who take part have a vertex in every round and name 2f + 1 of the round before in
  // author order. One that does not name itself names only others that do, since it then
  // advances before its own certificate is complete.
  ghost predicate Playable(c: Cast) {
    var p := c.plan;
    && p.f > 0 && |c.bad| <= p.f && c.active !! c.bad && |c.active| >= 2 * p.f + 1
    && (forall i: Id :: i in c.active + c.bad ==> i <= 3 * p.f)
    && (forall r: nat, i: Id :: p.stands(r, i) ==> r <= p.top && i in c.active + c.bad)
    && (forall r: nat, i: Id :: r <= p.top && i in c.active ==> p.stands(r, i))
    && ParentsStand(p)
    && (forall r: nat, i: Id :: 0 < r <= p.top && i in c.active ==> Ordered(p, r, i))
    && (forall r: nat, i: Id, k: Id ::
          0 < r <= p.top && i in c.active && i !in Picks(p, r, i) && k in Picks(p, r, i) ==>
          k in c.bad || k in Picks(p, r, k))
  }

  function WorldFor(c: Cast): World { WorldOf(c.plan.f, c.bad) }
  function EnvFor(c: Cast): Env { HostOf(c.plan, c.bad) }

  lemma InCast(c: Cast, k: Id)
    requires Playable(c) && k in c.active
    ensures k <= 3 * c.plan.f && k !in c.bad
  {
    assert k in c.active + c.bad;
  }

  lemma CastWorld(c: Cast)
    requires Playable(c)
    ensures GoodWorld(WorldFor(c)) && EnvFor(c).set_ == WorldFor(c).set_
    ensures forall i :: i in c.active ==> Honest(WorldFor(c), i)
  {
    WorldIsGood(c.plan.f, c.bad);
    forall i | i in c.active ensures Honest(WorldFor(c), i) { InCast(c, i); }
  }

  // ---------------------------------------------------------------------
  // What has been sent and delivered
  // ---------------------------------------------------------------------

  // Vertices of rounds before r, and of some authors in round r.
  ghost predicate Held(p: Plan, r: nat, ids: set<Id>, v: Vertex) {
    p.stands(v.round, v.author) && v == Placed(p, v.round, v.author)
        && (v.round < r || (v.round == r && v.author in ids))
  }

  ghost predicate Has(s: Story, p: Plan, i: Id, r: nat, ids: set<Id>) {
    forall v :: v in Delivered(s.labels, i) <==> Held(p, r, ids, v)
  }

  ghost predicate VoteOut(c: Cast, s: Story, r: nat, k: Id, j: Id) {
    && s.run != []
    && (j != k ==> BroadcastPartial(VoteOf(c.plan, r, k, j)) in Said(s))
    && Signed(j, VERTEX_CERT, SigningBytes(Placed(c.plan, r, k))) in Now(s).signed
  }

  ghost predicate VotesOut(c: Cast, s: Story, r: nat) {
    s.run != [] &&
    forall k: Id, j: Id :: k in RowOf(c, r) && j in c.active ==> VoteOut(c, s, r, k, j)
  }

  // A certificate of the vertex can be delivered.
  ghost predicate Certificate(c: Cast, s: Story, r: nat, k: Id, cv: CertifiedVertex) {
    && s.run != []
    && cv.vertex == Placed(c.plan, r, k)
    && Deliverable(WorldFor(c), Now(s).signed, CertReceived(cv)) && Sent(WorldFor(c), Said(s), CertReceived(cv))
  }

  ghost predicate CertOut(c: Cast, s: Story, r: nat, k: Id) {
    exists cv :: Certificate(c, s, r, k, cv)
  }

  lemma AmongKeeps(c: Cast, s: Story, s': Story, ids: set<Id>, r: nat)
    requires Among(s, s', ids)
    ensures VotesOut(c, s, r) ==> VotesOut(c, s', r)
    ensures forall k: Id :: CertOut(c, s, r, k) ==> CertOut(c, s', r, k)
  {
    hide Placed, Said, Now, Certificates.VerifyCertifiedVertex, Delivered, RowOf;
    forall k: Id | CertOut(c, s, r, k) ensures CertOut(c, s', r, k) {
      var cv :| Certificate(c, s, r, k, cv);
      assert Certificate(c, s', r, k, cv);
    }
    if VotesOut(c, s, r) {
      forall k: Id, j: Id | k in RowOf(c, r) && j in c.active ensures VoteOut(c, s', r, k, j) {
        assert VoteOut(c, s, r, k, j);
      }
    }
  }

  // A node collecting row r has been delivered what it has recorded.
  ghost predicate AtWork(c: Cast, s: Story, i: Id, at: nat, r: nat, ids: set<Id>) {
    && s.run != [] && i in Now(s).books && Collecting(Now(s).books[i], c.plan, i, at, r, ids)
    && Has(s, c.plan, i, r, ids)
  }

  ghost predicate OwnOpen(c: Cast, s: Story, i: Id, r: nat, got: set<Id>) {
    s.run != [] && i in Now(s).books && Open(Now(s).books[i], c.plan, r, i, got)
  }

  lemma HasMore(s: Story, s': Story, p: Plan, i: Id, r: nat, ids: set<Id>, k: Id)
    requires Has(s, p, i, r, ids) && p.stands(r, k)
    requires Delivered(s'.labels, i) == Delivered(s.labels, i) + [Placed(p, r, k)]
    ensures Has(s', p, i, r, ids + {k})
  {
    hide Placed, Delivered;
    PlacedFields(p, r, k);
  }

  lemma HasSame(s: Story, s': Story, p: Plan, i: Id, r: nat, ids: set<Id>)
    requires Has(s, p, i, r, ids) && Delivered(s'.labels, i) == Delivered(s.labels, i)
    ensures Has(s', p, i, r, ids)
  {
  }

  // ---------------------------------------------------------------------
  // The own certificate
  // ---------------------------------------------------------------------

  lemma VoteArrives(c: Cast, s: Story, r: nat, i: Id, k: Id)
    requires Playable(c) && s.run != [] && VotesOut(c, s, r) && i in RowOf(c, r) && k in c.active && k != i
    ensures var e := PartialReceived(VoteOf(c.plan, r, i, k));
            Deliverable(WorldFor(c), Now(s).signed, e) && Sent(WorldFor(c), Said(s), e)
  {
    hide Placed, Now, Said, RowOf;
    assert VoteOut(c, s, r, i, k);
  }

  lemma {:induction false} Gather(c: Cast, s: Story, i: Id, at: nat, r: nat, ids: set<Id>, d: set<Id>)
    returns (s': Story)
    requires Playable(c) && Told(WorldFor(c), s) && AtWork(c, s, i, at, r, ids) && OwnOpen(c, s, i, r, {i})
    requires VotesOut(c, s, r) && i in RowOf(c, r) && d <= c.active - {i} && |d| < 2 * c.plan.f
    ensures Told(WorldFor(c), s') && Among(s, s', {i}) && AtWork(c, s', i, at, r, ids) && OwnOpen(c, s', i, r, {i} + d)
    decreases d
  {
    hide Placed, Told, Said, Collecting, Open, Has, VotesOut, RowOf, VertexCert.Handle, Deliverable, Sent, Delivered;
    if d == {} {
      s' := s;
      AmongSelf(s, {i});
      assert {i} + d == {i};
    } else {
      var k :| k in d;
      SubsetSize(d - {k}, d);
      var s1 := Gather(c, s, i, at, r, ids, d - {k});
      AmongKeeps(c, s, s1, {i}, r);
      CastFacts(c, i, k);
      VoteArrives(c, s1, r, i, k);
      var got := {i} + (d - {k});
      GotSize(i, d, k);
      Collects(Now(s1).books[i], c.plan, c.bad, i, at, r, ids, got, k);
      s' := Take(WorldFor(c), s1, i, EnvFor(c), PartialReceived(VoteOf(c.plan, r, i, k)));
      HasSame(s1, s', c.plan, i, r, ids);
      AmongJoin(s, s1, s', {i}, {i});
      assert {i} + {i} == {i};
      assert got + {k} == {i} + d;
    }
  }

  lemma GotSize(i: Id, d: set<Id>, k: Id)
    requires k in d && i !in d
    ensures |{i} + (d - {k}) + {k}| == |d| + 1
  {
    assert {i} + (d - {k}) + {k} == {i} + d;
  }

  lemma CastFacts(c: Cast, i: Id, k: Id)
    requires Playable(c) && k in c.active
    ensures k <= 3 * c.plan.f && |c.bad| <= c.plan.f && EnvFor(c).set_ == WorldFor(c).set_
  {
    InCast(c, k);
  }

  lemma {:induction false} SomeOf(s: set<Id>, n: nat) returns (d: set<Id>)
    requires |s| >= n
    ensures d <= s && |d| == n
  {
    if n == 0 {
      d := {};
    } else {
      var k :| k in s;
      d := SomeOf(s - {k}, n - 1);
      d := d + {k};
    }
  }

  lemma CertArrives(c: Cast, s: Story, r: nat, i: Id, cv: CertifiedVertex, got: set<Id>)
    requires s.run != [] && VotesOut(c, s, r) && i in RowOf(c, r) && got <= c.active
    requires cv.vertex == Placed(c.plan, r, i) && VerifyCertifiedVertex(cv, WorldFor(c).set_).Ok?
    requires BroadcastCert(cv) in Said(s)
    requires forall x :: x in cv.certificate.sig.parts ==>
               x.Signed? && x.signer in got && x == Signed(x.signer, VERTEX_CERT, SigningBytes(Placed(c.plan, r, i)))
    ensures Certificate(c, s, r, i, cv)
  {
    hide Placed, Now, Said, RowOf, Certificates.VerifyCertifiedVertex;
    forall x | x in cv.certificate.sig.parts ensures Available(WorldFor(c), Now(s).signed, x) {
      assert VoteOut(c, s, r, i, x.signer);
    }
  }

  // A certificate already out is delivered and recorded without advancing.
  lemma DeliverOne(c: Cast, s: Story, i: Id, at: nat, r: nat, ids: set<Id>, next: set<Id>, k: Id, cv: CertifiedVertex)
    returns (s': Story)
    requires Playable(c) && Told(WorldFor(c), s) && c.plan.stands(r, k) && Certificate(c, s, r, k, cv)
    requires s.run != [] && i in Now(s).books && Collecting(Now(s).books[i], c.plan, i, at, r, next)
    requires Has(s, c.plan, i, r, ids)
    requires next + {k} == ids + {k} && (at == r ==> |ids + {k}| < 2 * c.plan.f + 1)
    ensures Told(WorldFor(c), s') && Among(s, s', {i}) && AtWork(c, s', i, at, r, ids + {k})
    ensures forall got :: OwnOpen(c, s, i, r, got) ==> OwnOpen(c, s', i, r, got)
  {
    hide Placed, Told, Said, Collecting, Open, Has, VertexCert.MaybeAdvance, VertexCert.RecordCert, Deliverable, Sent;
    hide Delivered;
    CastWorld(c);
    Records(Now(s).books[i], c.plan, c.bad, i, at, r, next, k);
    s' := Take(WorldFor(c), s, i, EnvFor(c), CertReceived(cv));
    HasMore(s, s', c.plan, i, r, ids, k);
  }

  // The partial that completes the quorum.
  lemma LastPartial(c: Cast, s: Story, i: Id, at: nat, r: nat, ids: set<Id>, d: set<Id>, k: Id)
    returns (s': Story, cv: CertifiedVertex)
    requires Playable(c) && Told(WorldFor(c), s) && AtWork(c, s, i, at, r, ids) && OwnOpen(c, s, i, r, {i} + (d - {k}))
    requires VotesOut(c, s, r) && i in RowOf(c, r) && i in c.active && (at == r ==> |ids + {i}| < 2 * c.plan.f + 1)
    requires d <= c.active - {i} && |d| == 2 * c.plan.f && k in d && k <= 3 * c.plan.f
    ensures Told(WorldFor(c), s') && Among(s, s', {i}) && Has(s', c.plan, i, r, ids)
    ensures i in Now(s').books && Collecting(Now(s').books[i], c.plan, i, at, r, ids + {i})
    ensures Certificate(c, s', r, i, cv)
  {
    hide Placed, Told, Said, Collecting, Open, Has, VotesOut, RowOf, VertexCert.Handle, Deliverable, Sent, Delivered;
    hide Certificate;
    hide Certificates.VerifyCertifiedVertex, Among, ActionSigs, Inv, BookInv, GoodWorld, Playable;
    CastWorld(c);
    CastFacts0(c);
    DInActive(c, d, i, k);
    VoteArrives(c, s, r, i, k);
    ToldInv(WorldFor(c), s, i);
    var got := {i} + (d - {k});
    GotSize(i, d, k);
    cv := Certifies(Now(s).books[i], c.plan, c.bad, i, at, r, ids, got, k);
    s' := Take(WorldFor(c), s, i, EnvFor(c), PartialReceived(VoteOf(c.plan, r, i, k)));
    HasSame(s, s', c.plan, i, r, ids);
    AmongKeeps(c, s, s', {i}, r);
    CertArrives(c, s', r, i, cv, got + {k});
  }

  lemma DInActive(c: Cast, d: set<Id>, i: Id, k: Id)
    requires d <= c.active - {i} && k in d && i in c.active
    ensures k in c.active && k != i && k !in {i} + (d - {k}) && {i} + (d - {k}) + {k} <= c.active
  {
  }

  lemma CastFacts0(c: Cast)
    requires Playable(c)
    ensures |c.bad| <= c.plan.f && EnvFor(c).set_ == WorldFor(c).set_
  {
  }

  lemma FinalizeOwn(c: Cast, s: Story, i: Id, at: nat, r: nat, ids: set<Id>) returns (s': Story)
    requires Playable(c) && Told(WorldFor(c), s) && AtWork(c, s, i, at, r, ids) && OwnOpen(c, s, i, r, {i})
    requires VotesOut(c, s, r) && i in RowOf(c, r) && i in c.active && (at == r ==> |ids + {i}| < 2 * c.plan.f + 1)
    ensures Told(WorldFor(c), s') && Among(s, s', {i}) && AtWork(c, s', i, at, r, ids + {i}) && CertOut(c, s', r, i)
  {
    hide Placed, Told, Said, Collecting, Open, Has, VotesOut, Certificate, Delivered;
    var d, k := OthersOf(c, i);
    var s1 := Gather(c, s, i, at, r, ids, d - {k});
    AmongKeeps(c, s, s1, {i}, r);
    var s2, cv := LastPartial(c, s1, i, at, r, ids, d, k);
    s' := DeliverOne(c, s2, i, at, r, ids, ids + {i}, i, cv);
    assert CertOut(c, s2, r, i);
    AmongKeeps(c, s2, s', {i}, r);
    AmongJoin(s, s1, s2, {i}, {i});
    AmongJoin(s, s2, s', {i} + {i}, {i});
    assert {i} + {i} + {i} == {i};
  }

  // 2f others who take part, and one of them.
  lemma OthersOf(c: Cast, i: Id) returns (d: set<Id>, k: Id)
    requires Playable(c)
    ensures d <= c.active - {i} && |d| == 2 * c.plan.f && k in d && k != i && k <= 3 * c.plan.f
    ensures |d - {k}| < 2 * c.plan.f
  {
    d := SomeOf(c.active - {i}, 2 * c.plan.f);
    k :| k in d;
    InCast(c, k);
  }

  // ---------------------------------------------------------------------
  // Certificates of others
  // ---------------------------------------------------------------------

  lemma {:induction false} DeliverSome(c: Cast, s: Story, i: Id, at: nat, r: nat, ids: set<Id>, todo: set<Id>)
    returns (s': Story)
    requires Playable(c) && Told(WorldFor(c), s) && AtWork(c, s, i, at, r, ids)
    requires forall k :: k in todo ==> c.plan.stands(r, k) && CertOut(c, s, r, k)
    requires at == r ==> |ids + todo| < 2 * c.plan.f + 1
    ensures Told(WorldFor(c), s') && Among(s, s', {i}) && AtWork(c, s', i, at, r, ids + todo)
    ensures forall got :: OwnOpen(c, s, i, r, got) ==> OwnOpen(c, s', i, r, got)
    decreases todo
  {
    hide Placed, Told, Said, Collecting, Open, Has, Certificate;
    if todo == {} {
      s' := s;
      AmongSelf(s, {i});
      assert ids + todo == ids;
    } else {
      var k :| k in todo;
      SubsetSize(ids + (todo - {k}), ids + todo);
      var s1 := DeliverSome(c, s, i, at, r, ids, todo - {k});
      AmongKeeps(c, s, s1, {i}, r);
      var cv :| Certificate(c, s1, r, k, cv);
      assert ids + (todo - {k}) + {k} == ids + todo;
      s' := DeliverOne(c, s1, i, at, r, ids + (todo - {k}), ids + (todo - {k}), k, cv);
      AmongJoin(s, s1, s', {i}, {i});
      assert {i} + {i} == {i};
    }
  }

  // What a node that has advanced to row q has sent and signed.
  ghost predicate Offered(c: Cast, s: Story, q: nat, i: Id) {
    && s.run != [] && BroadcastProposal(OfferOf(c.plan, q, i)) in Said(s)
    && OfferOf(c.plan, q, i).sig in Now(s).signed
    && Signed(i, VERTEX_CERT, SigningBytes(Placed(c.plan, q, i))) in Now(s).signed
  }

  lemma OfferedStays(c: Cast, s: Story, s': Story, ids: set<Id>, q: nat, i: Id)
    requires Among(s, s', ids) && Offered(c, s, q, i)
    ensures Offered(c, s', q, i)
  {
    hide Placed, Said, Now, Delivered;
  }

  // The certificate that completes the parents.
  lemma LastPick(c: Cast, s: Story, i: Id, r: nat, ids: set<Id>, k: Id) returns (s': Story)
    requires Playable(c) && Told(WorldFor(c), s) && AtWork(c, s, i, r, r, ids) && i in c.active && r < c.plan.top
    requires ids + {k} == Picks(c.plan, r + 1, i) && c.plan.stands(r, k) && CertOut(c, s, r, k)
    ensures Told(WorldFor(c), s') && Among(s, s', {i}) && AtWork(c, s', i, r + 1, r, ids + {k})
    ensures Offered(c, s', r + 1, i)
    ensures forall got :: OwnOpen(c, s, i, r, got) ==> OwnOpen(c, s', i, r, got)
  {
    hide Placed, Told, Said, Collecting, Open, Has, Certificate, Picks, Ordered, VertexCert.MaybeAdvance;
    hide VertexCert.RecordCert, Deliverable, Sent, Delivered;
    hide Playable, Among, ActionSigs, Inv, BookInv, GoodWorld, Offered;
    CastWorld(c);
    CastFaulty(c);
    CastOrdered(c, r + 1, i);
    var cv :| Certificate(c, s, r, k, cv);
    CertificateIs(c, s, r, k, cv);
    ToldInv(WorldFor(c), s, i);
    Advances(Now(s).books[i], c.plan, c.bad, i, r, ids, k);
    s' := Take(WorldFor(c), s, i, EnvFor(c), CertReceived(cv));
    HasMore(s, s', c.plan, i, r, ids, k);
    OfferSent(c, s', r + 1, i);
  }

  lemma CastFaulty(c: Cast)
    requires Playable(c)
    ensures |c.bad| <= c.plan.f && c.plan.f > 0
  {
  }

  lemma OfferSent(c: Cast, s: Story, q: nat, i: Id)
    requires s.run != [] && BroadcastProposal(OfferOf(c.plan, q, i)) in Said(s)
    requires ActionSigs(i, BroadcastProposal(OfferOf(c.plan, q, i))) <= Now(s).signed
    ensures Offered(c, s, q, i)
  {
    hide Placed, Said, Now;
  }

  lemma DeliverPicks(c: Cast, s: Story, i: Id, r: nat, ids: set<Id>) returns (s': Story)
    requires Playable(c) && Told(WorldFor(c), s) && AtWork(c, s, i, r, r, ids) && i in c.active && r < c.plan.top
    requires ids < Picks(c.plan, r + 1, i)
    requires forall k :: k in Picks(c.plan, r + 1, i) ==> c.plan.stands(r, k) && (k !in ids ==> CertOut(c, s, r, k))
    ensures Told(WorldFor(c), s') && Among(s, s', {i}) && AtWork(c, s', i, r + 1, r, Picks(c.plan, r + 1, i))
    ensures Offered(c, s', r + 1, i)
    ensures forall got :: OwnOpen(c, s, i, r, got) ==> OwnOpen(c, s', i, r, got)
  {
    hide Placed, Told, Said, Collecting, Open, Has, Certificate, Picks, Playable, Delivered, Among, Offered, CertOut;
    var k, todo := PicksLeft(c, i, r, ids);
    var s1 := DeliverSome(c, s, i, r, r, ids, todo);
    AmongKeeps(c, s, s1, {i}, r);
    s' := LastPick(c, s1, i, r, ids + todo, k);
    AmongJoin(s, s1, s', {i}, {i});
    assert {i} + {i} == {i};
  }

  lemma PicksCount(c: Cast, i: Id, r: nat)
    requires Playable(c) && i in c.active && r < c.plan.top
    ensures |Picks(c.plan, r + 1, i)| == 2 * c.plan.f + 1
  {
    hide Playable, Picks;
    CastOrdered(c, r + 1, i);
    PicksInOrder(c.plan, r, i);
  }

  // The last parent to be delivered, and those before it.
  lemma PicksLeft(c: Cast, i: Id, r: nat, ids: set<Id>) returns (k: Id, todo: set<Id>)
    requires Playable(c) && i in c.active && r < c.plan.top && ids < Picks(c.plan, r + 1, i)
    ensures k in Picks(c.plan, r + 1, i) && k !in ids && todo <= Picks(c.plan, r + 1, i) - ids
    ensures ids + todo + {k} == Picks(c.plan, r + 1, i) && |ids + todo| < 2 * c.plan.f + 1
  {
    PicksCount(c, i, r);
    hide Picks, Playable;
    var picks := Picks(c.plan, r + 1, i);
    k :| k in picks && k !in ids;
    todo := picks - ids - {k};
    assert ids + todo == picks - {k};
  }

  lemma CastOrdered(c: Cast, r: nat, i: Id)
    requires Playable(c) && 0 < r <= c.plan.top && i in c.active
    ensures Ordered(c.plan, r, i)
  {
  }

  lemma CertificateIs(c: Cast, s: Story, r: nat, k: Id, cv: CertifiedVertex)
    requires s.run != [] && Certificate(c, s, r, k, cv)
    ensures cv.vertex == Placed(c.plan, r, k)
    ensures Deliverable(WorldFor(c), Now(s).signed, CertReceived(cv)) && Sent(WorldFor(c), Said(s), CertReceived(cv))
  {
  }

  // ---------------------------------------------------------------------
  // Votes
  // ---------------------------------------------------------------------

  // A node voting on row q has been delivered all of the rows below.
  ghost predicate AtVote(c: Cast, s: Story, i: Id, q: nat, voted: set<Id>) {
    && s.run != [] && i in Now(s).books
    && Voting(Now(s).books[i], c.plan, i, q, if q == 0 then {} else RowOf(c, q - 1), voted)
    && Has(s, c.plan, i, q, {})
  }

  lemma ProposalArrives(c: Cast, s: Story, q: nat, k: Id)
    requires Playable(c) && s.run != [] && k in RowOf(c, q) && (k in c.active ==> Offered(c, s, q, k))
    ensures var e := ProposalReceived(OfferOf(c.plan, q, k));
            Deliverable(WorldFor(c), Now(s).signed, e) && Sent(WorldFor(c), Said(s), e)
  {
    hide Said, Now;
    PlacedFields(c.plan, q, k);
    hide Placed;
  }

  lemma RowSupports(c: Cast, q: nat, k: Id)
    requires Playable(c) && k in RowOf(c, q)
    ensures k <= 3 * c.plan.f && |c.bad| <= c.plan.f
    ensures q > 0 ==> Supported(c.plan, q, k, RowOf(c, q - 1))
  {
    if q > 0 {
      forall a | a in Picks(c.plan, q, k) ensures a in RowOf(c, q - 1) {
        var j :| 0 <= j <= 2 * c.plan.f && c.plan.pick(q, k, j) == a;
      }
    }
  }

  lemma {:induction false} VoteAll(c: Cast, s: Story, i: Id, q: nat, todo: set<Id>) returns (s': Story)
    requires Playable(c) && Told(WorldFor(c), s) && AtVote(c, s, i, q, {i}) && i !in todo && todo <= RowOf(c, q)
    requires forall k :: k in todo && k in c.active ==> Offered(c, s, q, k)
    ensures Told(WorldFor(c), s') && Among(s, s', {i}) && AtVote(c, s', i, q, {i} + todo)
    ensures forall k :: k in todo ==> VoteOut(c, s', q, k, i)
    decreases todo
  {
    hide Placed, Told, Said, Voting, Has, VertexCert.Handle, Deliverable, Sent, Delivered, RowOf, Offered, VoteOut;
    hide Supported;
    if todo == {} {
      s' := s;
      AmongSelf(s, {i});
      assert {i} + todo == {i};
    } else {
      var k :| k in todo;
      var s1 := VoteAll(c, s, i, q, todo - {k});
      CastWorld(c);
      RowSupports(c, q, k);
      if k in c.active { OfferedStays(c, s, s1, {i}, q, k); }
      ProposalArrives(c, s1, q, k);
      var voted, below := {i} + (todo - {k}), if q == 0 then {} else RowOf(c, q - 1);
      SupportedStart(c, q, k, below);
      VotesFor(Now(s1).books[i], c.plan, c.bad, i, q, below, voted, k);
      s' := Take(WorldFor(c), s1, i, EnvFor(c), ProposalReceived(OfferOf(c.plan, q, k)));
      HasSame(s1, s', c.plan, i, q, {});
      VoteSent(c, s', q, k, i);
      forall l | l in todo - {k} ensures VoteOut(c, s', q, l, i) { VoteStays(c, s1, s', {i}, q, l, i); }
      AmongJoin(s, s1, s', {i}, {i});
      assert {i} + {i} == {i};
      assert voted + {k} == {i} + todo;
    }
  }

  lemma SupportedStart(c: Cast, q: nat, k: Id, below: set<Id>)
    requires q > 0 ==> Supported(c.plan, q, k, below)
    ensures Supported(c.plan, q, k, below)
  {
  }

  lemma VoteStays(c: Cast, s: Story, s': Story, ids: set<Id>, q: nat, k: Id, j: Id)
    requires Among(s, s', ids) && VoteOut(c, s, q, k, j)
    ensures VoteOut(c, s', q, k, j)
  {
    hide Placed, Said, Now, Delivered;
  }

  lemma VoteSent(c: Cast, s: Story, q: nat, k: Id, j: Id)
    requires s.run != [] && BroadcastPartial(VoteOf(c.plan, q, k, j)) in Said(s)
    requires ActionSigs(j, BroadcastPartial(VoteOf(c.plan, q, k, j))) <= Now(s).signed
    ensures VoteOut(c, s, q, k, j)
  {
    hide Placed, Said, Now;
  }

  // ---------------------------------------------------------------------
  // From one row to the next
  // ---------------------------------------------------------------------

  // A certificate put together from signatures of the given validators.
  lemma AssembleFrom(v: Vertex, set_: ValidatorSet, ids: set<Id>) returns (cv: CertifiedVertex)
    requires Distinct(set_) && v.hash == ContentHash(v) && (forall j :: j in ids ==> j in set_)
    requires |ids| >= QuorumThreshold(|set_|)
    ensures cv.vertex == v && VerifyCertifiedVertex(cv, set_).Ok?
    ensures forall x :: x in cv.certificate.sig.parts ==>
              x.Signed? && x.signer in ids && x == Signed(x.signer, VERTEX_CERT, SigningBytes(v))
  {
    var sigs: map<Id, VSig> := map j | j in ids :: Signed(j, VERTEX_CERT, SigningBytes(v));
    var voters := Sorted(ids);
    SortedSpec(ids);
    AscendingDistinct(voters);
    hide ContributorsFrom, Certificates.VerifyCertifiedVertex, Certificates.Assembled;
    ContributorsGood(v, set_, voters, sigs);
    var cs := ContributorsFrom(set_, voters, sigs);
    AssembledVerifies(v, set_, cs);
    AssembledVertex(v, set_, cs);
    ContributorsAre(set_, voters, sigs);
    cv := Assembled(v, set_, cs).value;
    forall x | x in cv.certificate.sig.parts
      ensures x.Signed? && x.signer in ids && x == Signed(x.signer, VERTEX_CERT, SigningBytes(v))
    {
      PartsOf(v, set_, cs, x);
      var j :| 0 <= j < |cs| && cs[j].1 == x;
      assert voters[j] in ids;
    }
  }

  // The certificate of a deviating validator's vertex, from the votes.
  lemma FaultyCert(c: Cast, s: Story, r: nat, k: Id)
    requires Playable(c) && VotesOut(c, s, r) && k in RowOf(c, r) && k in c.bad
    ensures CertOut(c, s, r, k)
  {
    PlacedFields(c.plan, r, k);
    hide Placed, Now, Said, RowOf, Certificates.VerifyCertifiedVertex;
    CastIds(c);
    var cv := AssembleFrom(Placed(c.plan, r, k), WorldFor(c).set_, c.active);
    forall x | x in cv.certificate.sig.parts ensures Available(WorldFor(c), Now(s).signed, x) {
      assert VoteOut(c, s, r, k, x.signer);
    }
    assert Certificate(c, s, r, k, cv);
  }

  lemma CastIds(c: Cast)
    requires Playable(c)
    ensures Distinct(WorldFor(c).set_) && |c.active| >= QuorumThreshold(|WorldFor(c).set_|)
            && forall j :: j in c.active ==> j in WorldFor(c).set_
  {
    WorldIsGood(c.plan.f, c.bad);
    forall j | j in c.active ensures j in WorldFor(c).set_ { InCast(c, j); }
  }

  ghost predicate RowVotedBy(c: Cast, s: Story, q: nat, i: Id) {
    forall k: Id :: k in RowOf(c, q) ==> VoteOut(c, s, q, k, i)
  }

  ghost predicate AllOffered(c: Cast, s: Story, q: nat) {
    forall k: Id :: k in c.active ==> Offered(c, s, q, k)
  }

  lemma RowStays(c: Cast, s: Story, s': Story, ids: set<Id>, q: nat)
    requires Among(s, s', ids)
    ensures forall i: Id :: RowVotedBy(c, s, q, i) ==> RowVotedBy(c, s', q, i)
    ensures forall i: Id :: Offered(c, s, q, i) ==> Offered(c, s', q, i)
    ensures AllOffered(c, s, q) ==> AllOffered(c, s', q)
  {
    hide Among, Offered, VoteOut, RowOf;
    forall i: Id | RowVotedBy(c, s, q, i) ensures RowVotedBy(c, s', q, i) {
      forall k: Id | k in RowOf(c, q) ensures VoteOut(c, s', q, k, i) { VoteStays(c, s, s', ids, q, k, i); }
    }
    forall i: Id | Offered(c, s, q, i) ensures Offered(c, s', q, i) { OfferedStays(c, s, s', ids, q, i); }
  }

  // What a node does on the way: those that name themselves finalize first, the others
  // advance and then finalize; then the former advance; all fill up the row, and vote.
  datatype Act = Finalize | AdvanceFirst | Advance | Fill | VoteRow

  ghost predicate NamesSelf(c: Cast, r: nat, i: Id) { i in Picks(c.plan, r + 1, i) }

  ghost predicate Before(a: Act, c: Cast, s: Story, r: nat, i: Id) {
    match a
    case Finalize => AtWork(c, s, i, r, r, {}) && OwnOpen(c, s, i, r, {i}) && NamesSelf(c, r, i)
    case AdvanceFirst => AtWork(c, s, i, r, r, {}) && OwnOpen(c, s, i, r, {i}) && !NamesSelf(c, r, i)
    case Advance => AtWork(c, s, i, r, r, {i}) && NamesSelf(c, r, i)
    case Fill => exists ids :: ids <= RowOf(c, r) && AtWork(c, s, i, r + 1, r, ids) && Offered(c, s, r + 1, i)
    case VoteRow => AtWork(c, s, i, r + 1, r, RowOf(c, r)) && Offered(c, s, r + 1, i)
  }

  ghost predicate Done(a: Act, c: Cast, s: Story, r: nat, i: Id) {
    match a
    case Finalize => AtWork(c, s, i, r, r, {i}) && CertOut(c, s, r, i)
    case AdvanceFirst =>
      AtWork(c, s, i, r + 1, r, Picks(c.plan, r + 1, i) + {i}) && Offered(c, s, r + 1, i) && CertOut(c, s, r, i)
    case Advance => AtWork(c, s, i, r + 1, r, Picks(c.plan, r + 1, i)) && Offered(c, s, r + 1, i)
    case Fill => AtWork(c, s, i, r + 1, r, RowOf(c, r)) && Offered(c, s, r + 1, i)
    case VoteRow =>
      AtWork(c, s, i, r + 1, r + 1, {}) && OwnOpen(c, s, i, r + 1, {i}) && RowVotedBy(c, s, r + 1, i)
  }

  // What has to be out for it.
  ghost predicate Given(a: Act, c: Cast, s: Story, r: nat) {
    match a
    case Finalize => VotesOut(c, s, r)
    case AdvanceFirst =>
      && VotesOut(c, s, r)
      && forall k: Id :: k in RowOf(c, r) && (k in c.bad || NamesSelf(c, r, k)) ==> CertOut(c, s, r, k)
    case Advance => forall k: Id :: k in RowOf(c, r) ==> CertOut(c, s, r, k)
    case Fill => forall k: Id :: k in RowOf(c, r) ==> CertOut(c, s, r, k)
    case VoteRow => AllOffered(c, s, r + 1)
  }

  lemma NodeStays(c: Cast, s: Story, s': Story, ids: set<Id>, i: Id)
    requires Among(s, s', ids) && i !in ids
    ensures forall at, r, row :: AtWork(c, s, i, at, r, row) ==> AtWork(c, s', i, at, r, row)
    ensures forall r, got :: OwnOpen(c, s, i, r, got) ==> OwnOpen(c, s', i, r, got)
  {
    hide Collecting, Open, Said, Delivered, Held;
  }

  lemma BeforeStays(a: Act, c: Cast, s: Story, s': Story, ids: set<Id>, r: nat, i: Id)
    requires Among(s, s', ids) && i !in ids && Before(a, c, s, r, i)
    ensures Before(a, c, s', r, i)
  {
    NodeStays(c, s, s', ids, i);
    RowStays(c, s, s', ids, r + 1);
    hide AtWork, OwnOpen, Among, Offered, NamesSelf, RowOf;
  }

  lemma DoneStays(a: Act, c: Cast, s: Story, s': Story, ids: set<Id>, r: nat, i: Id)
    requires Among(s, s', ids) && i !in ids && Done(a, c, s, r, i)
    ensures Done(a, c, s', r, i)
  {
    NodeStays(c, s, s', ids, i);
    AmongKeeps(c, s, s', ids, r);
    RowStays(c, s, s', ids, r + 1);
    hide AtWork, OwnOpen, Among, Offered, RowOf, RowVotedBy, Picks, CertOut, VotesOut;
  }

  lemma GivenStays(a: Act, c: Cast, s: Story, s': Story, ids: set<Id>, r: nat)
    requires Among(s, s', ids) && Given(a, c, s, r)
    ensures Given(a, c, s', r)
  {
    AmongKeeps(c, s, s', ids, r);
    RowStays(c, s, s', ids, r + 1);
    hide Among, AllOffered, RowOf, NamesSelf, CertOut, VotesOut;
  }

  lemma {:induction false} Everyone(a: Act, c: Cast, s: Story, r: nat, todo: set<Id>) returns (s': Story)
    requires Playable(c) && Told(WorldFor(c), s) && s.run != [] && r < c.plan.top && todo <= c.active
    requires Given(a, c, s, r)
    requires forall i :: i in todo ==> Before(a, c, s, r, i)
    ensures s'.run != [] && Told(WorldFor(c), s') && Among(s, s', todo)
            && forall i :: i in todo ==> Done(a, c, s', r, i)
    decreases todo
  {
    hide Told, Before, Done, Given, Playable, Among;
    if todo == {} {
      s' := s;
      AmongSelf(s, {});
    } else {
      var i :| i in todo;
      var s1 := Everyone(a, c, s, r, todo - {i});
      GivenStays(a, c, s, s1, todo - {i}, r);
      BeforeStays(a, c, s, s1, todo - {i}, r, i);
      s' := OneAct(a, c, s1, r, i);
      forall j | j in todo - {i} ensures Done(a, c, s', r, j) { DoneStays(a, c, s1, s', {i}, r, j); }
      AmongJoin(s, s1, s', todo - {i}, {i});
      assert todo - {i} + {i} == todo;
    }
  }

  lemma OneAct(a: Act, c: Cast, s: Story, r: nat, i: Id) returns (s': Story)
    requires Playable(c) && Told(WorldFor(c), s) && r < c.plan.top && i in c.active && Given(a, c, s, r)
    requires Before(a, c, s, r, i)
    ensures s'.run != [] && Told(WorldFor(c), s') && Among(s, s', {i}) && Done(a, c, s', r, i)
  {
    hide Told, Playable, Among, Before, Done, Given;
    match a {
      case Finalize => s' := ActFinalize(c, s, r, i);
      case AdvanceFirst => s' := ActAdvanceFirst(c, s, r, i);
      case Advance => s' := ActAdvance(c, s, r, i);
      case Fill => s' := ActFill(c, s, r, i);
      case VoteRow => s' := ActVote(c, s, r, i);
    }
    AmongRuns(s, s', {i});
  }

  lemma AmongRuns(s: Story, s': Story, ids: set<Id>)
    requires Among(s, s', ids)
    ensures s.run != [] && s'.run != []
  {
  }

  lemma InRow(c: Cast, r: nat, i: Id)
    requires Playable(c) && i in c.active && r <= c.plan.top
    ensures i in RowOf(c, r) && c.plan.f > 0
  {
  }

  lemma RowStands(c: Cast, r: nat)
    ensures forall k :: k in RowOf(c, r) ==> c.plan.stands(r, k) && k in c.active + c.bad
  {
  }

  lemma PicksStand(c: Cast, r: nat, i: Id)
    requires Playable(c) && i in c.active && r < c.plan.top
    ensures Picks(c.plan, r + 1, i) <= RowOf(c, r) && Picks(c.plan, r + 1, i) != {}
    ensures forall k :: k in Picks(c.plan, r + 1, i) && !NamesSelf(c, r, i) ==> k in c.bad || NamesSelf(c, r, k)
  {
    InRow(c, r + 1, i);
    RowSupports(c, r + 1, i);
    assert c.plan.pick(r + 1, i, 0) in Picks(c.plan, r + 1, i);
  }

  lemma ActFinalize(c: Cast, s: Story, r: nat, i: Id) returns (s': Story)
    requires Playable(c) && Told(WorldFor(c), s) && r < c.plan.top && i in c.active && Given(Finalize, c, s, r)
    requires Before(Finalize, c, s, r, i)
    ensures Told(WorldFor(c), s') && Among(s, s', {i}) && Done(Finalize, c, s', r, i)
  {
    InRow(c, r, i);
    hide Told, Playable, Among, AtWork, OwnOpen, VotesOut, RowOf, CertOut;
    assert {} + {i} == {i};
    s' := FinalizeOwn(c, s, i, r, r, {});
  }

  // The parents of one that does not name itself are all out.
  lemma FirstPicks(c: Cast, s: Story, r: nat, i: Id)
    requires Playable(c) && r < c.plan.top && i in c.active && Given(AdvanceFirst, c, s, r) && !NamesSelf(c, r, i)
    ensures {} < Picks(c.plan, r + 1, i) && VotesOut(c, s, r)
    ensures forall k :: k in Picks(c.plan, r + 1, i) ==> c.plan.stands(r, k) && CertOut(c, s, r, k)
  {
    RowStands(c, r);
    PicksStand(c, r, i);
    hide Playable, RowOf, CertOut, Picks, VotesOut, NamesSelf;
  }

  lemma ActAdvanceFirst(c: Cast, s: Story, r: nat, i: Id) returns (s': Story)
    requires Playable(c) && Told(WorldFor(c), s) && r < c.plan.top && i in c.active && Given(AdvanceFirst, c, s, r)
    requires Before(AdvanceFirst, c, s, r, i)
    ensures Told(WorldFor(c), s') && Among(s, s', {i}) && Done(AdvanceFirst, c, s', r, i)
  {
    hide Told, Playable, Among, AtWork, OwnOpen, VotesOut, RowOf, CertOut, Offered, Picks, NamesSelf, Given;
    InRow(c, r, i);
    FirstPicks(c, s, r, i);
    var s1 := DeliverPicks(c, s, i, r, {});
    s' := FinalizeAhead(c, s, s1, r, i);
    AmongJoin(s, s1, s', {i}, {i});
    assert {i} + {i} == {i};
  }

  // Its own certificate is completed after the advance.
  lemma FinalizeAhead(c: Cast, s: Story, s1: Story, r: nat, i: Id) returns (s': Story)
    requires Playable(c) && VotesOut(c, s, r) && Among(s, s1, {i}) && Told(WorldFor(c), s1) && i in c.active
    requires i in RowOf(c, r)
    requires AtWork(c, s1, i, r + 1, r, Picks(c.plan, r + 1, i)) && OwnOpen(c, s1, i, r, {i})
    requires Offered(c, s1, r + 1, i)
    ensures Told(WorldFor(c), s') && Among(s1, s', {i})
    ensures AtWork(c, s', i, r + 1, r, Picks(c.plan, r + 1, i) + {i}) && Offered(c, s', r + 1, i)
    ensures CertOut(c, s', r, i)
  {
    hide Told, Playable, Among, AtWork, OwnOpen, VotesOut, RowOf, CertOut, Offered, Picks;
    AmongKeeps(c, s, s1, {i}, r);
    s' := FinalizeOwn(c, s1, i, r + 1, r, Picks(c.plan, r + 1, i));
    OfferedStays(c, s1, s', {i}, r + 1, i);
  }

  lemma ActAdvance(c: Cast, s: Story, r: nat, i: Id) returns (s': Story)
    requires Playable(c) && Told(WorldFor(c), s) && r < c.plan.top && i in c.active && Given(Advance, c, s, r)
    requires Before(Advance, c, s, r, i)
    ensures Told(WorldFor(c), s') && Among(s, s', {i}) && Done(Advance, c, s', r, i)
  {
    RowStands(c, r);
    PicksStand(c, r, i);
    PicksCount(c, i, r);
    InRow(c, r, i);
    hide Told, Playable, Among, AtWork, OwnOpen, VotesOut, RowOf, CertOut, Offered, Picks;
    assert {i} != Picks(c.plan, r + 1, i);
    s' := DeliverPicks(c, s, i, r, {i});
  }

  lemma ActFill(c: Cast, s: Story, r: nat, i: Id) returns (s': Story)
    requires Playable(c) && Told(WorldFor(c), s) && r < c.plan.top && i in c.active && Given(Fill, c, s, r)
    requires Before(Fill, c, s, r, i)
    ensures Told(WorldFor(c), s') && Among(s, s', {i}) && Done(Fill, c, s', r, i)
  {
    RowStands(c, r);
    hide Told, Playable, Among, AtWork, OwnOpen, RowOf, CertOut, Offered;
    var ids :| ids <= RowOf(c, r) && AtWork(c, s, i, r + 1, r, ids) && Offered(c, s, r + 1, i);
    s' := DeliverSome(c, s, i, r + 1, r, ids, RowOf(c, r) - ids);
    OfferedStays(c, s, s', {i}, r + 1, i);
    assert ids + (RowOf(c, r) - ids) == RowOf(c, r);
  }

  // All of a row is none of the next.
  lemma HasRow(c: Cast, s: Story, r: nat, i: Id)
    requires Playable(c)
    ensures Has(s, c.plan, i, r, RowOf(c, r)) <==> Has(s, c.plan, i, r + 1, {})
  {
    hide Placed, Delivered;
    forall v ensures Held(c.plan, r, RowOf(c, r), v) <==> Held(c.plan, r + 1, {}, v) {}
  }

  lemma ActVote(c: Cast, s: Story, r: nat, i: Id) returns (s': Story)
    requires Playable(c) && Told(WorldFor(c), s) && r < c.plan.top && i in c.active && Given(VoteRow, c, s, r)
    requires Before(VoteRow, c, s, r, i)
    ensures Told(WorldFor(c), s') && Among(s, s', {i}) && Done(VoteRow, c, s', r, i)
  {
    InRow(c, r + 1, i);
    hide Told, Playable, Among, RowOf, AtWork, AtVote, Offered, VoteOut, OwnOpen;
    StartVoting(c, s, r, i);
    s' := VoteAll(c, s, i, r + 1, RowOf(c, r + 1) - {i});
    StopVoting(c, s', r + 1, i, {i} + (RowOf(c, r + 1) - {i}));
    OfferedStays(c, s, s', {i}, r + 1, i);
    OwnVoteOut(c, s', r + 1, i);
    assert RowVotedBy(c, s', r + 1, i);
  }

  lemma StartVoting(c: Cast, s: Story, r: nat, i: Id)
    requires Playable(c) && AtWork(c, s, i, r + 1, r, RowOf(c, r))
    ensures AtVote(c, s, i, r + 1, {i})
  {
    HasRow(c, s, r, i);
    hide Playable, RowOf, Collecting, Voting, Has;
    CollectedIsVoting(Now(s).books[i], c.plan, i, r, RowOf(c, r));
  }

  lemma StopVoting(c: Cast, s: Story, q: nat, i: Id, voted: set<Id>)
    requires AtVote(c, s, i, q, voted)
    ensures AtWork(c, s, i, q, q, {}) && OwnOpen(c, s, i, q, {i})
  {
    hide RowOf, Collecting, Voting, Open, Has;
    VotedIsCollecting(Now(s).books[i], c.plan, i, q, if q == 0 then {} else RowOf(c, q - 1), voted);
  }

  lemma OwnVoteOut(c: Cast, s: Story, q: nat, i: Id)
    requires Offered(c, s, q, i)
    ensures VoteOut(c, s, q, i, i)
  {
    hide Placed, Said, Now;
  }

  // ---------------------------------------------------------------------
  // All rows
  // ---------------------------------------------------------------------

  // All who take part have voted on row r and on all before.
  ghost predicate RowVoted(c: Cast, s: Story, r: nat) {
    && s.run != [] && Told(WorldFor(c), s) && VotesOut(c, s, r) && SilentBut(s, c.active)
    && (forall i :: i in c.active ==> AtWork(c, s, i, r, r, {}) && OwnOpen(c, s, i, r, {i}))
    && (forall q: nat, k: Id :: q < r && k in RowOf(c, q) ==> CertOut(c, s, q, k))
  }

  // Nobody else has taken a step.
  ghost predicate SilentBut(s: Story, ids: set<Id>) {
    forall t :: 0 <= t < |s.labels| ==> s.labels[t].node in ids
  }

  lemma StillSilent(s: Story, s': Story, ids: set<Id>, all: set<Id>)
    requires Among(s, s', ids) && ids <= all && SilentBut(s, all)
    ensures SilentBut(s', all)
  {
    hide Said, Now, Delivered;
    forall t | 0 <= t < |s'.labels| ensures s'.labels[t].node in all {
      if t < |s.labels| { assert s'.labels[t] == s.labels[t]; }
    }
  }

  lemma CertsStay(c: Cast, s: Story, s': Story, ids: set<Id>)
    requires Among(s, s', ids)
    ensures forall q: nat, k: Id :: CertOut(c, s, q, k) ==> CertOut(c, s', q, k)
  {
    hide Among, CertOut;
    forall q: nat, k: Id | CertOut(c, s, q, k) ensures CertOut(c, s', q, k) { AmongKeeps(c, s, s', ids, q); }
  }

  // Those that name themselves among the parents.
  ghost function Selfs(c: Cast, r: nat): set<Id> { set i | i in c.active && NamesSelf(c, r, i) }

  // Row r is certified and all have advanced.
  lemma FinishRow(c: Cast, s: Story, r: nat) returns (s': Story)
    requires Playable(c) && RowVoted(c, s, r) && r < c.plan.top
    ensures Told(WorldFor(c), s') && Among(s, s', c.active)
    ensures forall i :: i in c.active ==> Before(Fill, c, s', r, i)
    ensures forall k :: k in RowOf(c, r) ==> CertOut(c, s', r, k)
  {
    hide Told, Playable, Among, AtWork, OwnOpen, VotesOut, RowOf, CertOut, Offered, Picks, NamesSelf, Said, Now;
    var selfs := Selfs(c, r);
    var others := c.active - selfs;
    var s1 := Everyone(Finalize, c, s, r, selfs);
    AmongKeeps(c, s, s1, selfs, r);
    FaultyCerts(c, s1, r);
    forall i | i in others ensures Before(AdvanceFirst, c, s1, r, i) {
      BeforeStays(AdvanceFirst, c, s, s1, selfs, r, i);
    }
    CertsSoFar(c, s1, r, selfs);
    var s2 := Everyone(AdvanceFirst, c, s1, r, others);
    AmongKeeps(c, s1, s2, others, r);
    CertsAll(c, s1, s2, r);
    forall i | i in selfs ensures Before(Advance, c, s2, r, i) {
      DoneStays(Finalize, c, s1, s2, others, r, i);
    }
    s' := Everyone(Advance, c, s2, r, selfs);
    AmongKeeps(c, s2, s', selfs, r);
    forall i | i in c.active ensures Before(Fill, c, s', r, i) {
      if i in others {
        DoneStays(AdvanceFirst, c, s2, s', selfs, r, i);
        FillReady(AdvanceFirst, c, s', r, i);
      } else {
        FillReady(Advance, c, s', r, i);
      }
    }
    AmongJoin(s, s1, s2, selfs, others);
    AmongJoin(s, s2, s', selfs + others, selfs);
    assert selfs + others + selfs == c.active;
  }

  lemma FaultyCerts(c: Cast, s: Story, r: nat)
    requires Playable(c) && VotesOut(c, s, r)
    ensures forall k :: k in RowOf(c, r) && k in c.bad ==> CertOut(c, s, r, k)
  {
    hide Playable, VotesOut, RowOf, CertOut;
    forall k | k in RowOf(c, r) && k in c.bad ensures CertOut(c, s, r, k) { FaultyCert(c, s, r, k); }
  }

  lemma CertsSoFar(c: Cast, s: Story, r: nat, selfs: set<Id>)
    requires VotesOut(c, s, r) && selfs == Selfs(c, r) && forall i :: i in selfs ==> Done(Finalize, c, s, r, i)
    requires forall k :: k in RowOf(c, r) && k in c.bad ==> CertOut(c, s, r, k)
    ensures Given(AdvanceFirst, c, s, r)
  {
    RowStands(c, r);
    hide VotesOut, RowOf, CertOut, NamesSelf, AtWork;
    forall k: Id | k in RowOf(c, r) && (k in c.bad || NamesSelf(c, r, k)) ensures CertOut(c, s, r, k) {
      if k !in c.bad {
        assert k in selfs;
        assert Done(Finalize, c, s, r, k);
      }
    }
  }

  lemma CertsAll(c: Cast, s: Story, s': Story, r: nat)
    requires Given(AdvanceFirst, c, s, r) && Among(s, s', c.active - Selfs(c, r))
    requires forall i :: i in c.active - Selfs(c, r) ==> Done(AdvanceFirst, c, s', r, i)
    ensures Given(Advance, c, s', r) && Given(Fill, c, s', r)
  {
    RowStands(c, r);
    AmongKeeps(c, s, s', c.active - Selfs(c, r), r);
    hide VotesOut, RowOf, CertOut, NamesSelf, AtWork, Among, Offered;
    forall k: Id | k in RowOf(c, r) ensures CertOut(c, s', r, k) {
      if k in c.bad || NamesSelf(c, r, k) {
        assert CertOut(c, s, r, k);
      } else {
        assert k in c.active - Selfs(c, r);
        assert Done(AdvanceFirst, c, s', r, k);
      }
    }
  }

  lemma PicksInRow(c: Cast, r: nat, i: Id)
    requires Playable(c) && i in c.active && r < c.plan.top
    ensures Picks(c.plan, r + 1, i) <= RowOf(c, r) && Picks(c.plan, r + 1, i) + {i} <= RowOf(c, r)
  {
    hide Picks, RowOf, Playable, NamesSelf;
    PicksStand(c, r, i);
    InRow(c, r, i);
  }

  lemma FillReady(a: Act, c: Cast, s: Story, r: nat, i: Id)
    requires Playable(c) && i in c.active && r < c.plan.top && (a == AdvanceFirst || a == Advance)
    requires Done(a, c, s, r, i)
    ensures Before(Fill, c, s, r, i)
  {
    hide Playable, RowOf, CertOut, NamesSelf, AtWork, Offered, Picks;
    PicksInRow(c, r, i);
    if a == Advance {
      assert AtWork(c, s, i, r + 1, r, Picks(c.plan, r + 1, i));
    } else {
      assert AtWork(c, s, i, r + 1, r, Picks(c.plan, r + 1, i) + {i});
    }
  }

  /** One more row: all who take part certify and record row r and vote on the next. */
  lemma NextRow(c: Cast, s: Story, r: nat) returns (s': Story)
    requires Playable(c) && RowVoted(c, s, r) && r < c.plan.top
    ensures RowVoted(c, s', r + 1)
  {
    hide Told, Playable, Among, AtWork, OwnOpen, VotesOut, RowOf, CertOut, Offered, SilentBut, Before, Done, RowVotedBy;
    var s1 := FinishRow(c, s, r);
    AmongRuns(s, s1, c.active);
    var s2 := Everyone(Fill, c, s1, r, c.active);
    AllFilled(c, s2, r);
    s' := Everyone(VoteRow, c, s2, r, c.active);
    AmongJoin(s, s1, s2, c.active, c.active);
    AmongJoin(s, s2, s', c.active + c.active, c.active);
    assert c.active + c.active + c.active == c.active;
    StillSilent(s, s', c.active, c.active);
    AmongJoin(s1, s2, s', c.active, c.active);
    assert c.active + c.active == c.active;
    CertsStay(c, s, s', c.active);
    CertsStay(c, s1, s', c.active);
    AllVoted(c, s', r);
  }

  lemma AllFilled(c: Cast, s: Story, r: nat)
    requires forall i :: i in c.active ==> Done(Fill, c, s, r, i)
    ensures Given(VoteRow, c, s, r) && forall i :: i in c.active ==> Before(VoteRow, c, s, r, i)
  {
    hide AtWork, Offered, RowOf;
  }

  lemma AllVoted(c: Cast, s: Story, r: nat)
    requires s.run != [] && forall i :: i in c.active ==> Done(VoteRow, c, s, r, i)
    ensures VotesOut(c, s, r + 1)
            && forall i :: i in c.active ==> AtWork(c, s, i, r + 1, r + 1, {}) && OwnOpen(c, s, i, r + 1, {i})
  {
    hide AtWork, OwnOpen, RowOf, VoteOut;
  }

  // ---------------------------------------------------------------------
  // The first row
  // ---------------------------------------------------------------------

  ghost function FreshNet(w: World): Net {
    Net(map i | i in Members(w.set_) - w.byzantine :: FreshBook(i), {})
  }

  lemma Beginning(w: World)
    ensures var s := Story([FreshNet(w)], []);
            Told(w, s) && forall i :: Honest(w, i) ==> i in Now(s).books && Now(s).books[i] == FreshBook(i)
  {
    TellFirst(w, FreshNet(w));
  }

  ghost predicate Untouched(s: Story, i: Id) {
    s.run != [] && i in Now(s).books && Now(s).books[i] == FreshBook(i) && Delivered(s.labels, i) == []
  }

  // Started, with its first vertex offered.
  ghost predicate Started(c: Cast, s: Story, i: Id) {
    AtVote(c, s, i, 0, {i}) && Offered(c, s, 0, i)
  }

  lemma {:induction false} StartAll(c: Cast, s: Story, todo: set<Id>) returns (s': Story)
    requires Playable(c) && s.run != [] && Told(WorldFor(c), s) && forall i :: i in todo ==> Untouched(s, i)
    ensures s'.run != [] && Told(WorldFor(c), s') && Among(s, s', todo) && forall i :: i in todo ==> Started(c, s', i)
    decreases todo
  {
    hide Told, Playable, Among, Untouched, Started;
    if todo == {} {
      s' := s;
      AmongSelf(s, {});
    } else {
      var i :| i in todo;
      var s1 := StartAll(c, s, todo - {i});
      UntouchedStays(s, s1, todo - {i}, i);
      s' := StartOne(c, s1, i);
      forall j | j in todo - {i} ensures Started(c, s', j) { StartedStays(c, s1, s', {i}, j); }
      AmongJoin(s, s1, s', todo - {i}, {i});
      assert todo - {i} + {i} == todo;
    }
  }

  lemma UntouchedStays(s: Story, s': Story, ids: set<Id>, i: Id)
    requires Among(s, s', ids) && i !in ids && Untouched(s, i)
    ensures Untouched(s', i)
  {
    hide Said;
  }

  lemma VotingStays(c: Cast, s: Story, s': Story, ids: set<Id>, i: Id, q: nat, voted: set<Id>)
    requires Among(s, s', ids) && i !in ids && AtVote(c, s, i, q, voted)
    ensures AtVote(c, s', i, q, voted)
  {
    hide Voting, Said, Delivered, Held, RowOf;
  }

  lemma StartedStays(c: Cast, s: Story, s': Story, ids: set<Id>, i: Id)
    requires Among(s, s', ids) && i !in ids && Started(c, s, i)
    ensures Started(c, s', i)
  {
    hide Among, AtVote, Offered;
    VotingStays(c, s, s', ids, i, 0, {i});
    OfferedStays(c, s, s', ids, 0, i);
  }

  lemma StartOne(c: Cast, s: Story, i: Id) returns (s': Story)
    requires Playable(c) && Told(WorldFor(c), s) && Untouched(s, i)
    ensures s'.run != [] && Told(WorldFor(c), s') && Among(s, s', {i}) && Started(c, s', i)
  {
    hide Placed, Told, Said, Voting, VertexCert.Handle, Delivered, Playable, ActionSigs, Among, Offered;
    CastWorld(c);
    Starts(c.plan, c.bad, i);
    s' := Take(WorldFor(c), s, i, EnvFor(c), Start);
    OfferSent(c, s', 0, i);
    assert Has(s', c.plan, i, 0, {});
  }

  // All vote on row 0.
  lemma {:induction false} VoteFirst(c: Cast, s: Story, todo: set<Id>) returns (s': Story)
    requires Playable(c) && s.run != [] && Told(WorldFor(c), s) && todo <= c.active
             && forall i :: i in c.active ==> Started(c, s, i)
    ensures s'.run != [] && Told(WorldFor(c), s') && Among(s, s', todo)
    ensures forall i :: i in todo ==> AtWork(c, s', i, 0, 0, {}) && OwnOpen(c, s', i, 0, {i}) && RowVotedBy(c, s', 0, i)
    decreases todo
  {
    hide Told, Playable, Among, Started, AtWork, OwnOpen, RowVotedBy;
    if todo == {} {
      s' := s;
      AmongSelf(s, {});
    } else {
      var i :| i in todo;
      var s1 := VoteFirst(c, s, todo - {i});
      s' := OneFirst(c, s, s1, todo - {i}, i);
      forall j | j in todo - {i}
        ensures AtWork(c, s', j, 0, 0, {}) && OwnOpen(c, s', j, 0, {j}) && RowVotedBy(c, s', 0, j)
      {
        NodeStays(c, s1, s', {i}, j);
        RowStays(c, s1, s', {i}, 0);
      }
      AmongJoin(s, s1, s', todo - {i}, {i});
      assert todo - {i} + {i} == todo;
    }
  }

  lemma OneFirst(c: Cast, s: Story, s1: Story, ids: set<Id>, i: Id) returns (s': Story)
    requires Playable(c) && Told(WorldFor(c), s1) && Among(s, s1, ids) && i in c.active && i !in ids
    requires forall k :: k in c.active ==> Started(c, s, k)
    ensures s'.run != [] && Told(WorldFor(c), s') && Among(s1, s', {i})
    ensures AtWork(c, s', i, 0, 0, {}) && OwnOpen(c, s', i, 0, {i}) && RowVotedBy(c, s', 0, i)
  {
    InRow(c, 0, i);
    hide Told, Playable, Among, RowOf, AtWork, AtVote, Offered, VoteOut, OwnOpen;
    assert Started(c, s, i);
    VotingStays(c, s, s1, ids, i, 0, {i});
    RowStays(c, s, s1, ids, 0);
    forall k | k in c.active ensures Offered(c, s1, 0, k) { assert Started(c, s, k); }
    s' := VoteAll(c, s1, i, 0, RowOf(c, 0) - {i});
    AmongRuns(s1, s', {i});
    StopVoting(c, s', 0, i, {i} + (RowOf(c, 0) - {i}));
    OfferedStays(c, s1, s', {i}, 0, i);
    OwnVoteOut(c, s', 0, i);
  }

  /** Whatever DAG a plan of this kind describes, a run draws it row by row, in which every
      message delivered was sent: at the end those who take part have indexed all of the rows
      below the top, and the others have not taken a step. */
  lemma {:induction false} Draw(c: Cast, r: nat) returns (s: Story)
    requires Playable(c) && r <= c.plan.top
    ensures RowVoted(c, s, r)
  {
    hide RowVoted, ParentsStand, Ordered, Picks;
    if r > 0 {
      s := Draw(c, r - 1);
      s := NextRow(c, s, r - 1);
    } else {
      s := FirstRow(c);
    }
  }

  lemma FirstRow(c: Cast) returns (s: Story)
    requires Playable(c)
    ensures RowVoted(c, s, 0)
  {
    hide Told, Playable, Among, Untouched, Started, AtWork, OwnOpen, RowVotedBy, VotesOut, CertOut, RowOf, SilentBut;
    var s0 := Opening(c);
    var s1 := StartAll(c, s0, c.active);
    s := VoteFirst(c, s1, c.active);
    AmongJoin(s0, s1, s, c.active, c.active);
    assert c.active + c.active == c.active;
    StillSilent(s0, s, c.active, c.active);
    VotesFromRows(c, s, 0);
  }

  lemma Opening(c: Cast) returns (s: Story)
    requires Playable(c)
    ensures s.run != [] && Told(WorldFor(c), s) && SilentBut(s, c.active)
            && forall i :: i in c.active ==> Untouched(s, i)
  {
    hide Told, Untouched;
    CastWorld(c);
    Beginning(WorldFor(c));
    s := Story([FreshNet(WorldFor(c))], []);
    forall i | i in c.active ensures Untouched(s, i) { UntouchedStart(c, s, i); }
  }

  lemma UntouchedStart(c: Cast, s: Story, i: Id)
    requires s.run != [] && s.labels == [] && i in Now(s).books && Now(s).books[i] == FreshBook(i)
    ensures Untouched(s, i)
  {
  }

  lemma VotesFromRows(c: Cast, s: Story, q: nat)
    requires s.run != [] && forall i :: i in c.active ==> RowVotedBy(c, s, q, i)
    ensures VotesOut(c, s, q)
  {
    hide RowOf, VoteOut;
  }

  // ---------------------------------------------------------------------
  // Those who lag behind
  // ---------------------------------------------------------------------

  lemma {:induction false} SilentBook(w: World, run: seq<Net>, labels: seq<Label>, j: Id, t: nat)
    requires Run(w, run, labels) && t <= |labels| && Honest(w, j) && forall k :: 0 <= k < t ==> labels[k].node != j
    ensures j in run[t].books && run[t].books[j] == FreshBook(j) && Delivered(labels[..t], j) == []
  {
    hide VertexCert.Handle, Deliverable;
    if t > 0 {
      SilentBook(w, run, labels, j, t - 1);
      var l := labels[t - 1];
      assert NodeStep(w, run[t - 1], run[t - 1 + 1], l.node, l.env, l.event);
      assert labels[..t][..t - 1] == labels[..t - 1];
    }
  }

  /** An honest validator outside the cast is as it was at the beginning. */
  lemma LagsBehind(c: Cast, s: Story, r: nat, j: Id)
    requires RowVoted(c, s, r) && Honest(WorldFor(c), j) && j !in c.active
    ensures Untouched(s, j)
  {
    hide Run, Posted, AtWork, OwnOpen, VotesOut, CertOut, RowOf, Honest;
    ToldShape(WorldFor(c), s);
    SilentBook(WorldFor(c), s.run, s.labels, j, |s.labels|);
    assert s.labels[..|s.labels|] == s.labels;
  }

  // A certificate of a lower row is delivered to anyone.
  lemma DeliverSlot(c: Cast, s: Story, j: Id, q: nat, k: Id) returns (s': Story, cv: CertifiedVertex)
    requires Playable(c) && s.run != [] && Told(WorldFor(c), s) && j in Now(s).books && CertOut(c, s, q, k)
    ensures s'.run != [] && Told(WorldFor(c), s') && Among(s, s', {j}) && j in Now(s').books
    ensures cv.vertex == Placed(c.plan, q, k)
    ensures Now(s').books[j] == Handle(Now(s).books[j], EnvFor(c), CertReceived(cv)).book
    ensures s'.labels == s.labels + [Label(j, EnvFor(c), CertReceived(cv))]
    ensures Delivered(s'.labels, j) == Delivered(s.labels, j) + [cv.vertex]
  {
    hide Told, Playable, Among, Certificate, Delivered, VertexCert.Handle, Deliverable, Sent, Placed, ActionSigs;
    cv :| Certificate(c, s, q, k, cv);
    CertificateIs(c, s, q, k, cv);
    CastWorld(c);
    s' := Take(WorldFor(c), s, j, EnvFor(c), CertReceived(cv));
  }

  /** Certificates of the lower rows can be delivered to anyone in any order. */
  lemma {:induction false} DeliverList(c: Cast, s: Story, r: nat, j: Id, slots: seq<(nat, Id)>) returns (s': Story)
    requires Playable(c) && s.run != [] && Told(WorldFor(c), s) && j in Now(s).books
    requires forall q: nat, k: Id :: q < r && k in RowOf(c, q) ==> CertOut(c, s, q, k)
    requires forall t :: 0 <= t < |slots| ==> slots[t].0 < r && slots[t].1 in RowOf(c, slots[t].0)
    ensures s'.run != [] && Told(WorldFor(c), s') && Among(s, s', {j}) && j in Now(s').books
    ensures Delivered(s'.labels, j) == Delivered(s.labels, j) + VerticesAtSlots(c.plan, slots)
  {
    hide Told, Playable, Among, RowOf, CertOut, Delivered, VertexCert.Handle, Placed;
    if slots == [] {
      s' := s;
      AmongSelf(s, {j});
    } else {
      var m := |slots| - 1;
      var s1 := DeliverList(c, s, r, j, slots[..m]);
      CertsStay(c, s, s1, {j});
      var cv;
      s', cv := DeliverSlot(c, s1, j, slots[m].0, slots[m].1);
      AmongJoin(s, s1, s', {j}, {j});
      assert {j} + {j} == {j};
    }
  }

  function VerticesAtSlots(p: Plan, slots: seq<(nat, Id)>): seq<Vertex> {
    if slots == [] then []
    else VerticesAtSlots(p, slots[..|slots| - 1]) + [Placed(p, slots[|slots| - 1].0, slots[|slots| - 1].1)]
  }

  /** Those who take part have indexed exactly the rows below. */
  lemma HasBelow(c: Cast, s: Story, r: nat, i: Id)
    requires RowVoted(c, s, r) && i in c.active
    ensures DrawnBelow(c.plan, r, Delivered(s.labels, i))
  {
    hide Told, VotesOut, CertOut, RowOf, Collecting, Placed, Delivered;
    assert AtWork(c, s, i, r, r, {});
  }
}
