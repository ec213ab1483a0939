/** A network of n = 3f + 1 nodes, at most f of them arbitrary: honest nodes run
    the handlers, the rest deliver whatever they can build from their own keys
    and the signatures honest nodes have made. */
module VertexNetwork {
  import opened Validators
  import opened Worlds
  import opened Signatures
  import opened Certificates
  import opened VertexCert
  import opened VertexInvariant

  // `signed` is every signature made by an honest node so far.
  datatype Net = Net(books: map<Id, Book>, signed: set<VSig>)

  // Signatures a step of node `i` makes. A proposal is signed under both
  // domains: the second one is the node's own partial, which it keeps.
  ghost function ActionSigs(i: Id, a: Action): set<VSig> {
    match a
    case BroadcastProposal(p) => {p.sig, Signed(i, VERTEX_CERT, SigningBytes(p.vertex))}
    case BroadcastPartial(bp) => {bp.sig}
    case _ => {}
  }

  ghost function Sigs(i: Id, actions: seq<Action>): set<VSig> {
    if actions == [] then {} else ActionSigs(i, actions[0]) + Sigs(i, actions[1..])
  }

  // Honest signatures cannot be forged.
  ghost predicate Available(w: World, signed: set<VSig>, s: VSig) {
    s.Signed? && Honest(w, s.signer) ==> s in signed
  }

  ghost predicate Deliverable(w: World, signed: set<VSig>, e: Event) {
    match e
    case Start => true
    case ProposalReceived(p) => Available(w, signed, p.sig)
    case PartialReceived(bp) => Available(w, signed, bp.sig)
    case CertReceived(cv) =>
      && VerifyCertifiedVertex(cv, w.set_).Ok?     // the host checks before it delivers
      && forall s :: s in cv.certificate.sig.parts ==> Available(w, signed, s)
    case TimerFired(_) => true
  }

  ghost predicate Init(w: World, n: Net) {
    && (forall i :: i in n.books <==> Honest(w, i))
    && (forall i :: i in n.books ==> n.books[i] == FreshBook(i))
    && n.signed == {}
  }

  // Honest node `i` handles one event.
  ghost predicate NodeStep(w: World, n: Net, n': Net, i: Id, env: Env, e: Event) {
    && i in n.books && env.set_ == w.set_ && Deliverable(w, n.signed, e)
    && var s := Handle(n.books[i], env, e);
       n' == Net(n.books[i := s.book], n.signed + Sigs(i, s.actions))
  }

  // Which node handled which event, and what its host supplied.
  datatype Label = Label(node: Id, env: Env, event: Event)

  // A run is the sequence of states and, between them, the steps taken.
  ghost predicate Run(w: World, run: seq<Net>, labels: seq<Label>) {
    && |run| == |labels| + 1 && Init(w, run[0])
    && forall t :: 0 <= t < |labels| ==>
         NodeStep(w, run[t], run[t + 1], labels[t].node, labels[t].env, labels[t].event)
  }

  // The actions of step `t`.
  ghost function ActionsAt(run: seq<Net>, labels: seq<Label>, t: nat): seq<Action>
    requires t < |labels| < |run| && labels[t].node in run[t].books
  {
    Handle(run[t].books[labels[t].node], labels[t].env, labels[t].event).actions
  }

  // ---------------------------------------------------------------------
  // Certificates that exist or could be put together
  // ---------------------------------------------------------------------

  ghost function Voters(w: World, signed: set<VSig>, body: Body): set<Id> {
    set i | i in w.set_ && (i in w.byzantine || Signed(i, VERTEX_CERT, body) in signed)
  }

  ghost predicate Certifiable(w: World, signed: set<VSig>, body: Body) {
    |Voters(w, signed, body)| >= QuorumThreshold(|w.set_|)
  }

  lemma CertifiableGrows(w: World, signed: set<VSig>, more: set<VSig>, body: Body)
    requires signed <= more && Certifiable(w, signed, body)
    ensures Certifiable(w, more, body)
  {
    SubsetSize(Voters(w, signed, body), Voters(w, more, body));
  }

  /** Every certificate that passes verify_certified_vertex and can be delivered
      is over a certifiable body. */
  lemma AcceptedIsCertifiable(w: World, signed: set<VSig>, cv: CertifiedVertex)
    requires Distinct(w.set_) && Deliverable(w, signed, CertReceived(cv))
    ensures cv.vertex.hash == OfBody(SigningBytes(cv.vertex))
    ensures Certifiable(w, signed, SigningBytes(cv.vertex))
  {
    var body := SigningBytes(cv.vertex);
    var quorum := VerifiedMeans(cv, w.set_);
    forall i | i in quorum ensures i in Voters(w, signed, body) {
      assert Signed(i, VERTEX_CERT, body) in cv.certificate.sig.parts;
    }
    SubsetSize(quorum, Voters(w, signed, body));
  }

  // ---------------------------------------------------------------------
  // The invariant
  // ---------------------------------------------------------------------

  // Hash `h` names a certifiable vertex of the given round.
  ghost predicate CertifiedAt(w: World, signed: set<VSig>, h: Hash, round: nat) {
    h.OfBody? && h.body.round == round && Certifiable(w, signed, h.body)
  }

  // What an honest node checks of a vertex before it signs it.
  ghost predicate ParentsCertified(w: World, signed: set<VSig>, body: Body) {
    && body.author in w.set_
    && (body.round == 0 ==> body.parents == [])
    && (body.round > 0 ==>
          && |body.parents| >= QuorumThreshold(|w.set_|)
          && forall h :: h in body.parents ==> CertifiedAt(w, signed, h, body.round - 1))
  }

  // An honest author's vertex is only signed once the author has proposed it.
  ghost predicate Justified(w: World, signed: set<VSig>, body: Body) {
    && ParentsCertified(w, signed, body)
    && (Honest(w, body.author) ==> Signed(body.author, VERTEX_PROPOSAL, body) in signed)
  }

  ghost predicate VotesOk(w: World, i: Id, b: Book, signed: set<VSig>) {
    forall body :: Signed(i, VERTEX_CERT, body) in signed ==>
      && Justified(w, signed, body)
      && body.round <= b.currentRound + 1
      && (b.currentRound <= body.round + 1 ==> Key(body.round, body.author) in b.voted)
      && (body.author == i ==> b.started && body.round <= b.currentRound)
  }

  ghost predicate VotesOnce(i: Id, signed: set<VSig>) {
    forall x, y :: Signed(i, VERTEX_CERT, x) in signed && Signed(i, VERTEX_CERT, y) in signed ==>
      x.round == y.round && x.author == y.author ==> x == y
  }

  ghost function ParentAuthors(body: Body): set<Id> {
    set h | h in body.parents && h.OfBody? :: h.body.author
  }

  // Parents are listed by author, the lowest id first.
  ghost predicate InAuthorOrder(parents: seq<Hash>) {
    && (forall h :: h in parents ==> h.OfBody?)
    && forall i, j :: 0 <= i < j < |parents|
        ==> parents[i].OfBody? && parents[j].OfBody? && parents[i].body.author < parents[j].body.author
  }

  ghost predicate ProposalsOk(w: World, i: Id, b: Book, signed: set<VSig>) {
    forall body :: Signed(i, VERTEX_PROPOSAL, body) in signed ==>
      && body.author == i && b.started && body.round <= b.currentRound
      && Signed(i, VERTEX_CERT, body) in signed
      && InAuthorOrder(body.parents)
      && (body.round > 0 ==> |ParentAuthors(body)| >= QuorumThreshold(|w.set_|))
  }

  ghost predicate CertifiedOk(w: World, b: Book, signed: set<VSig>) {
    forall r, a :: r in b.certified && a in b.certified[r] ==>
      CertifiedAt(w, signed, b.certified[r][a], r) && b.certified[r][a].body.author == a
  }

  ghost predicate StoredOk(w: World, i: Id, b: Book, signed: set<VSig>) {
    && (forall h, v :: h in b.collecting && v in b.collecting[h] && Honest(w, v) ==> b.collecting[h][v] in signed)
    && (forall h :: h in b.mine ==>
          && Signed(i, VERTEX_PROPOSAL, SigningBytes(b.mine[h].vertex)) in signed
          && Signed(i, VERTEX_CERT, SigningBytes(b.mine[h].vertex)) in signed)
  }

  ghost predicate NodeInv(w: World, i: Id, b: Book, signed: set<VSig>) {
    && b.selfId == i
    && VotesOk(w, i, b, signed) && VotesOnce(i, signed) && ProposalsOk(w, i, b, signed)
    && CertifiedOk(w, b, signed) && StoredOk(w, i, b, signed)
  }

  ghost predicate Inv(w: World, n: Net) {
    && (forall i :: i in n.books <==> Honest(w, i))
    && (forall i :: i in n.books ==> BookInv(n.books[i], w.set_) && NodeInv(w, i, n.books[i], n.signed))
    && (forall s :: s in n.signed ==> s.Signed? && Honest(w, s.signer))
  }

  // ---------------------------------------------------------------------
  // Signatures of a step
  // ---------------------------------------------------------------------

  lemma {:induction false} SigsAppend(i: Id, a: seq<Action>, b: seq<Action>)
    ensures Sigs(i, a + b) == Sigs(i, a) + Sigs(i, b)
  {
    if a == [] {
      assert a + b == b;
    } else {
      SigsAppend(i, a[1..], b);
      assert (a + b)[1..] == a[1..] + b;
    }
  }

  lemma SigsOne(i: Id, a: Action)
    ensures Sigs(i, [a]) == ActionSigs(i, a)
  {
    assert [a][1..] == [];
  }

  lemma ProposeSigs(b: Book, env: Env, round: nat, parents: seq<Hash>)
    ensures var body := SigningBytes(MakeProposal(b, env, round, parents).vertex);
            Sigs(b.selfId, Propose(b, env, round, parents).actions)
            == {Signed(b.selfId, VERTEX_PROPOSAL, body), Signed(b.selfId, VERTEX_CERT, body)}
  {
    var i, p := b.selfId, MakeProposal(b, env, round, parents);
    var cancel := if b.roundTimer.Some? then [CancelTimer(b.roundTimer.value)] else [];
    var sched, send := ScheduleTimer(b.nextTimer, RoundDelay(env, 0)), BroadcastProposal(p);
    assert [sched, send] == [sched] + [send];
    SigsAppend(i, cancel, [sched, send]);
    SigsAppend(i, [sched], [send]);
    SigsOne(i, sched);
    SigsOne(i, send);
    if b.roundTimer.Some? { SigsOne(i, cancel[0]); }
  }

  // ---------------------------------------------------------------------
  // More signatures never invalidate what held
  // ---------------------------------------------------------------------

  lemma CertifiedAtGrows(w: World, signed: set<VSig>, more: set<VSig>, h: Hash, round: nat)
    requires signed <= more && CertifiedAt(w, signed, h, round)
    ensures CertifiedAt(w, more, h, round)
  {
    CertifiableGrows(w, signed, more, h.body);
  }

  lemma ParentsGrow(w: World, signed: set<VSig>, more: set<VSig>, body: Body)
    requires signed <= more && ParentsCertified(w, signed, body)
    ensures ParentsCertified(w, more, body)
  {
    if body.round > 0 {
      forall h | h in body.parents ensures CertifiedAt(w, more, h, body.round - 1) {
        CertifiedAtGrows(w, signed, more, h, body.round - 1);
      }
    }
  }

  lemma JustifiedGrows(w: World, signed: set<VSig>, more: set<VSig>, body: Body)
    requires signed <= more && Justified(w, signed, body)
    ensures Justified(w, more, body)
  {
    ParentsGrow(w, signed, more, body);
  }

  lemma CertifiedOkGrows(w: World, b: Book, signed: set<VSig>, more: set<VSig>)
    requires signed <= more && CertifiedOk(w, b, signed)
    ensures CertifiedOk(w, b, more)
  {
    forall r, a | r in b.certified && a in b.certified[r]
      ensures CertifiedAt(w, more, b.certified[r][a], r) && b.certified[r][a].body.author == a
    {
      CertifiedAtGrows(w, signed, more, b.certified[r][a], r);
    }
  }

  ghost predicate SignedByOthers(j: Id, signed: set<VSig>, more: set<VSig>) {
    signed <= more && forall s :: s in more && s !in signed ==> s.Signed? && s.signer != j
  }

  /** A step of one node keeps what holds of every other node. */
  lemma OthersKeep(w: World, j: Id, b: Book, signed: set<VSig>, more: set<VSig>)
    requires NodeInv(w, j, b, signed) && SignedByOthers(j, signed, more)
    ensures NodeInv(w, j, b, more)
  {
    CertifiedOkGrows(w, b, signed, more);
    forall body | Signed(j, VERTEX_CERT, body) in more ensures Justified(w, more, body) {
      assert Signed(j, VERTEX_CERT, body) in signed;
      JustifiedGrows(w, signed, more, body);
    }
    assert VotesOk(w, j, b, more);
    assert VotesOnce(j, more);
    assert ProposalsOk(w, j, b, more);
    assert StoredOk(w, j, b, more);
  }

  // ---------------------------------------------------------------------
  // Signing a new vertex
  // ---------------------------------------------------------------------

  // The node has not yet signed any vertex for this slot.
  ghost predicate Unsigned(i: Id, signed: set<VSig>, key: Key) {
    forall x :: Signed(i, VERTEX_CERT, x) in signed ==> Key(x.round, x.author) != key
  }

  lemma SignOnce(i: Id, signed: set<VSig>, more: set<VSig>, body: Body)
    requires VotesOnce(i, signed) && Unsigned(i, signed, Key(body.round, body.author))
    requires forall x :: Signed(i, VERTEX_CERT, x) in more ==> x == body || Signed(i, VERTEX_CERT, x) in signed
    ensures VotesOnce(i, more)
  {
  }

  // The part of a vote's record that does not depend on later signatures.
  ghost predicate Remembered(i: Id, b: Book, body: Body) {
    && body.round <= b.currentRound + 1
    && (b.currentRound <= body.round + 1 ==> Key(body.round, body.author) in b.voted)
    && (body.author == i ==> b.started && body.round <= b.currentRound)
  }

  lemma SignVotes(w: World, i: Id, b: Book, c: Book, signed: set<VSig>, more: set<VSig>, body: Body)
    requires VotesOk(w, i, b, signed) && signed <= more
    requires forall x :: Signed(i, VERTEX_CERT, x) in more ==> x == body || Signed(i, VERTEX_CERT, x) in signed
    requires Justified(w, more, body) && Remembered(i, c, body)
    requires forall x :: Signed(i, VERTEX_CERT, x) in signed && Remembered(i, b, x) ==> Remembered(i, c, x)
    ensures VotesOk(w, i, c, more)
  {
    forall x | Signed(i, VERTEX_CERT, x) in more ensures Justified(w, more, x) && Remembered(i, c, x) {
      if x != body {
        JustifiedGrows(w, signed, more, x);
        assert Remembered(i, b, x);
      }
    }
  }

  /** A vote for another node's vertex: the key was not in `voted`, and pruning only
      drops keys whose round is outside the window, so it was never voted before. */
  lemma VoteKeeps(w: World, i: Id, b: Book, signed: set<VSig>, body: Body)
    requires NodeInv(w, i, b, signed) && Justified(w, signed, body)
    requires body.author != i && RoundInWindow(b, body.round)
    requires Key(body.round, body.author) !in b.voted
    ensures NodeInv(w, i, b.(voted := b.voted + {Key(body.round, body.author)}),
                    signed + {Signed(i, VERTEX_CERT, body)})
  {
    var key := Key(body.round, body.author);
    var c, more := b.(voted := b.voted + {key}), signed + {Signed(i, VERTEX_CERT, body)};
    assert Unsigned(i, signed, key);
    SignOnce(i, signed, more, body);
    JustifiedGrows(w, signed, more, body);
    SignVotes(w, i, b, c, signed, more, body);
    CertifiedOkGrows(w, b, signed, more);
    assert ProposalsOk(w, i, c, more);
    assert StoredOk(w, i, c, more);
  }

  lemma ProposeKeeps(w: World, b: Book, env: Env, round: nat, parents: seq<Hash>, signed: set<VSig>)
    requires NodeInv(w, b.selfId, b, signed) && MineOk(b) && b.started
    requires b.currentRound <= round <= b.currentRound + 1
    requires forall x :: Signed(b.selfId, VERTEX_CERT, x) in signed && x.author == b.selfId ==> x.round < round
    requires var body := SigningBytes(MakeProposal(b, env, round, parents).vertex);
             && ParentsCertified(w, signed, body) && InAuthorOrder(parents)
             && (round > 0 ==> |ParentAuthors(body)| >= QuorumThreshold(|w.set_|))
    ensures var s := Propose(b, env, round, parents);
            NodeInv(w, b.selfId, s.book, signed + Sigs(b.selfId, s.actions))
  {
    var i, p := b.selfId, MakeProposal(b, env, round, parents);
    var body, s := SigningBytes(p.vertex), Propose(b, env, round, parents);
    ProposeSigs(b, env, round, parents);
    var more := signed + {Signed(i, VERTEX_PROPOSAL, body), Signed(i, VERTEX_CERT, body)};
    assert Unsigned(i, signed, Key(round, i));
    SignOnce(i, signed, more, body);
    ParentsGrow(w, signed, more, body);
    SignVotes(w, i, b, s.book, signed, more, body);
    CertifiedOkGrows(w, b, signed, more);
    ProposeStored(w, b, env, round, parents, signed, more);
    assert ProposalsOk(w, i, s.book, more);
  }

  lemma ProposeStored(w: World, b: Book, env: Env, round: nat, parents: seq<Hash>, signed: set<VSig>, more: set<VSig>)
    requires StoredOk(w, b.selfId, b, signed) && signed <= more
    requires var body := SigningBytes(MakeProposal(b, env, round, parents).vertex);
             {Signed(b.selfId, VERTEX_PROPOSAL, body), Signed(b.selfId, VERTEX_CERT, body)} <= more
    ensures StoredOk(w, b.selfId, Propose(b, env, round, parents).book, more)
  {
    var c := Propose(b, env, round, parents).book;
    forall h, v | h in c.collecting && v in c.collecting[h] && Honest(w, v) ensures c.collecting[h][v] in more {
      if h in b.collecting && v in b.collecting[h] {
        assert b.collecting[h][v] in signed;
      }
    }
  }

  // ---------------------------------------------------------------------
  // Advancing
  // ---------------------------------------------------------------------

  lemma {:induction false} OrderedValues(m: map<Id, Hash>, k: nat)
    requires k <= |m|
    ensures var r := ValuesInOrder(m, k);
            var keys := Sorted(m.Keys);
            && |r| == k && |keys| == |m| && Distinct(keys) && Ascending(keys)
            && (forall j :: 0 <= j < k ==> keys[j] in m && r[j] == m[keys[j]])
  {
    var keys := Sorted(m.Keys);
    SortedSpec(m.Keys);
    AscendingDistinct(keys);
    assert forall j :: 0 <= j < |keys| ==> keys[j] in keys;
    assert |m| == |m.Keys|;
  }

  /** The parents an honest node picks are certified vertices of the previous round
      by a quorum of different authors, listed in author order. */
  lemma NextParents(w: World, b: Book, env: Env, signed: set<VSig>)
    requires CertifiedOk(w, b, signed) && env.set_ == w.set_ && b.selfId in w.set_
    requires CertifiedCount(b, b.currentRound) >= Need(env)
    ensures var parents := ValuesInOrder(b.certified[b.currentRound], Need(env));
            var body := SigningBytes(MakeProposal(b, env, b.currentRound + 1, parents).vertex);
            && ParentsCertified(w, signed, body) && |ParentAuthors(body)| >= QuorumThreshold(|w.set_|)
            && InAuthorOrder(parents)
  {
    var m := b.certified[b.currentRound];
    var parents := ValuesInOrder(m, Need(env));
    var keys := Sorted(m.Keys);
    OrderedValues(m, Need(env));
    var body := SigningBytes(MakeProposal(b, env, b.currentRound + 1, parents).vertex);
    forall h | h in parents ensures CertifiedAt(w, signed, h, b.currentRound) {
      var j :| 0 <= j < |parents| && parents[j] == h;
      assert CertifiedAt(w, signed, m[keys[j]], b.currentRound);
    }
    forall j | 0 <= j < |parents| ensures parents[j].OfBody? && parents[j].body.author == keys[j] {
      assert CertifiedAt(w, signed, m[keys[j]], b.currentRound);
    }
    var first := keys[..Need(env)];
    DistinctSize(first);
    forall a | a in first ensures a in ParentAuthors(body) {
      var j :| 0 <= j < |first| && first[j] == a;
      assert parents[j] in body.parents && parents[j].body.author == a;
    }
    SubsetSize(Members(first), ParentAuthors(body));
  }

  lemma ProposeNextNode(w: World, b: Book, env: Env, signed: set<VSig>)
    requires NodeInv(w, b.selfId, b, signed) && MineOk(b) && b.started
    requires env.set_ == w.set_ && b.selfId in w.set_ && CertifiedCount(b, b.currentRound) >= Need(env)
    ensures var s := ProposeNext(b, env);
            NodeInv(w, b.selfId, s.book, signed + Sigs(b.selfId, s.actions)) && MineOk(s.book)
  {
    var parents := ValuesInOrder(b.certified[b.currentRound], Need(env));
    NextParents(w, b, env, signed);
    ProposeKeeps(w, b, env, b.currentRound + 1, parents, signed);
    ProposeMine(b, env, b.currentRound + 1, parents);
  }

  lemma {:induction false} AdvanceNode(w: World, b: Book, env: Env, signed: set<VSig>)
    requires NodeInv(w, b.selfId, b, signed) && MineOk(b) && b.started
    requires env.set_ == w.set_ && b.selfId in w.set_
    ensures var s := AdvanceLoop(b, env);
            NodeInv(w, b.selfId, s.book, signed + Sigs(b.selfId, s.actions))
    decreases |AheadOf(b)|
  {
    hide NodeInv, MineOk, VertexCert.ProposeNext;
    if CertifiedCount(b, b.currentRound) >= Need(env) {
      ProposeNextNode(w, b, env, signed);
      ProposeNextFrame(b, env);
      var s := ProposeNext(b, env);
      var t := AdvanceLoop(s.book, env);
      AdvanceNode(w, s.book, env, signed + Sigs(b.selfId, s.actions));
      SigsAppend(b.selfId, s.actions, t.actions);
      assert signed + Sigs(b.selfId, s.actions + t.actions)
             == signed + Sigs(b.selfId, s.actions) + Sigs(b.selfId, t.actions);
    } else {
      assert signed + Sigs(b.selfId, []) == signed;
    }
  }

  lemma PruneNode(w: World, b: Book, signed: set<VSig>)
    requires NodeInv(w, b.selfId, b, signed)
    ensures NodeInv(w, b.selfId, Prune(b), signed)
  {
    var i, c := b.selfId, Prune(b);
    assert VotesOk(w, i, c, signed);
    assert CertifiedOk(w, c, signed);
    assert StoredOk(w, i, c, signed);
  }

  lemma MaybeAdvanceNode(w: World, b: Book, env: Env, signed: set<VSig>)
    requires NodeInv(w, b.selfId, b, signed) && MineOk(b)
    requires env.set_ == w.set_ && b.selfId in w.set_
    ensures var s := MaybeAdvance(b, env);
            NodeInv(w, b.selfId, s.book, signed + Sigs(b.selfId, s.actions))
  {
    hide VotesOk, VotesOnce, ProposalsOk, CertifiedOk, StoredOk;
    if b.started {
      AdvanceNode(w, b, env, signed);
      var s := AdvanceLoop(b, env);
      AdvanceStops(b, env);
      PruneNode(w, s.book, signed + Sigs(b.selfId, s.actions));
    } else {
      assert signed + Sigs(b.selfId, []) == signed;
    }
  }

  lemma RecordNode(w: World, b: Book, signed: set<VSig>, v: Vertex)
    requires NodeInv(w, b.selfId, b, signed)
    requires v.hash == OfBody(SigningBytes(v)) && Certifiable(w, signed, SigningBytes(v))
    ensures NodeInv(w, b.selfId, RecordCert(b, v), signed)
  {
    var i, c := b.selfId, RecordCert(b, v);
    forall r, a | r in c.certified && a in c.certified[r]
      ensures CertifiedAt(w, signed, c.certified[r][a], r) && c.certified[r][a].body.author == a
    {
      if !(r == v.round && a == v.author) {
        assert r in b.certified && a in b.certified[r] && c.certified[r][a] == b.certified[r][a];
      }
    }
    assert VotesOk(w, i, c, signed);
    assert ProposalsOk(w, i, c, signed);
    assert StoredOk(w, i, c, signed);
  }

  // ---------------------------------------------------------------------
  // Every handler, for the node that runs it
  // ---------------------------------------------------------------------

  ghost predicate OwnSigs(i: Id, actions: seq<Action>) {
    forall s :: s in Sigs(i, actions) ==> s.Signed? && s.signer == i
  }

  lemma {:induction false} AdvanceOwnSigs(b: Book, env: Env)
    ensures OwnSigs(b.selfId, AdvanceLoop(b, env).actions)
    decreases |AheadOf(b)|
  {
    if CertifiedCount(b, b.currentRound) >= Need(env) {
      ProposeSigs(b, env, b.currentRound + 1, ValuesInOrder(b.certified[b.currentRound], Need(env)));
      ProposeNextFrame(b, env);
      var s := ProposeNext(b, env);
      AdvanceOwnSigs(s.book, env);
      SigsAppend(b.selfId, s.actions, AdvanceLoop(s.book, env).actions);
    }
  }

  lemma MaybeAdvanceOwnSigs(b: Book, env: Env)
    ensures OwnSigs(b.selfId, MaybeAdvance(b, env).actions)
  {
    AdvanceOwnSigs(b, env);
  }

  // The outcome of a step: the invariant on the larger signature set, with
  // nothing signed in another node's name.
  ghost predicate GoodStep(w: World, i: Id, s: Step, signed: set<VSig>) {
    NodeInv(w, i, s.book, signed + Sigs(i, s.actions)) && OwnSigs(i, s.actions)
  }

  lemma QuietStep(w: World, i: Id, s: Step, signed: set<VSig>)
    requires NodeInv(w, i, s.book, signed) && s.actions == []
    ensures GoodStep(w, i, s, signed)
  {
    assert signed + Sigs(i, []) == signed;
  }

  lemma SilentStep(w: World, i: Id, s: Step, a: Action, signed: set<VSig>)
    requires NodeInv(w, i, s.book, signed) && s.actions == [a] && a.EmitEvidence?
    ensures GoodStep(w, i, s, signed)
  {
    SigsOne(i, a);
    assert signed + Sigs(i, [a]) == signed;
  }

  // Books that differ only in what the invariant does not mention.
  lemma SameNode(w: World, i: Id, b: Book, c: Book, signed: set<VSig>)
    requires NodeInv(w, i, b, signed)
    requires c == b.(seen := c.seen, rejected := c.rejected, conflicts := c.conflicts, stalled := c.stalled,
                     emitted := c.emitted, roundTimer := c.roundTimer, retries := c.retries, nextTimer := c.nextTimer)
    ensures NodeInv(w, i, c, signed)
  {
    assert VotesOk(w, i, c, signed);
    assert ProposalsOk(w, i, c, signed);
    assert CertifiedOk(w, c, signed);
    assert StoredOk(w, i, c, signed);
  }

  lemma CastVote(w: World, i: Id, b: Book, p: Proposal, signed: set<VSig>)
    requires NodeInv(w, i, b, signed) && Justified(w, signed, SigningBytes(p.vertex))
    requires p.vertex.author != i && RoundInWindow(b, p.vertex.round)
    ensures GoodStep(w, i, Vote(b, p), signed)
  {
    var s := Vote(b, p);
    if s.actions == [] {
      QuietStep(w, i, s, signed);
    } else {
      VoteKeeps(w, i, b, signed, SigningBytes(p.vertex));
      SigsOne(i, s.actions[0]);
    }
  }

  lemma ProposalNode(w: World, i: Id, b: Book, env: Env, p: Proposal, signed: set<VSig>)
    requires NodeInv(w, i, b, signed) && env.set_ == w.set_ && Available(w, signed, p.sig)
    ensures GoodStep(w, i, OnVertexProposal(b, env, p), signed)
  {
    ProposalCases(b, env, p);
    var s, b1 := OnVertexProposal(b, env, p), NoteSeen(b, p);
    SameNode(w, i, b, b1, signed);
    if Votable(b, env, p) {
      VotableIsJustified(w, b, env, p, signed);
      CastVote(w, i, b1, p, signed);
    } else {
      SameNode(w, i, b, s.book, signed);
      if s.actions == [] { QuietStep(w, i, s, signed); } else { SilentStep(w, i, s, s.actions[0], signed); }
    }
  }

  lemma VotableIsJustified(w: World, b: Book, env: Env, p: Proposal, signed: set<VSig>)
    requires CertifiedOk(w, b, signed) && env.set_ == w.set_ && Votable(b, env, p)
    requires Available(w, signed, p.sig)
    ensures Justified(w, signed, SigningBytes(p.vertex))
  {
    var v := p.vertex;
    if v.round > 0 {
      forall h | h in v.parents ensures CertifiedAt(w, signed, h, v.round - 1) {
        var a :| a in b.certified[v.round - 1] && b.certified[v.round - 1][a] == h;
      }
    }
  }

  lemma ReadyIsCertifiable(w: World, b: Book, env: Env, h: Hash, signed: set<VSig>)
    requires env.set_ == w.set_ && CollectOk(b, w.set_) && StoredOk(w, b.selfId, b, signed) && Ready(b, env, h)
    ensures Certifiable(w, signed, SigningBytes(b.mine[h].vertex))
  {
    var body := SigningBytes(b.mine[h].vertex);
    forall v | v in b.collecting[h].Keys ensures v in Voters(w, signed, body) {
      assert h in b.collecting && v in b.collecting[h];
      assert v in w.set_;
      assert b.collecting[h][v] == Signed(v, VERTEX_CERT, SigningBytes(b.mine[h].vertex));
      if v !in w.byzantine {
        assert Honest(w, v);
        assert b.collecting[h][v] in signed;
      }
    }
    SubsetSize(b.collecting[h].Keys, Voters(w, signed, body));
    assert |b.collecting[h]| == |b.collecting[h].Keys|;
  }

  lemma FinalizeNode(w: World, b: Book, env: Env, h: Hash, cv: CertifiedVertex, signed: set<VSig>)
    requires env.set_ == w.set_ && b.selfId in w.set_ && MineOk(b) && h in b.mine
    requires NodeInv(w, b.selfId, b, signed) && cv.vertex == b.mine[h].vertex
    requires Certifiable(w, signed, SigningBytes(cv.vertex))
    ensures var s := MaybeAdvance(RecordCert(b.(emitted := b.emitted + {h}), cv.vertex), env);
            GoodStep(w, b.selfId, Step(s.book, [BroadcastCert(cv)] + s.actions, true), signed)
  {
    hide VotesOk, VotesOnce, ProposalsOk, CertifiedOk, StoredOk;
    var i, b1 := b.selfId, b.(emitted := b.emitted + {h});
    SameNode(w, i, b, b1, signed);
    RecordNode(w, b1, signed, cv.vertex);
    var b2 := RecordCert(b1, cv.vertex);
    MaybeAdvanceNode(w, b2, env, signed);
    MaybeAdvanceOwnSigs(b2, env);
    AnnounceFirst(w, i, MaybeAdvance(b2, env), cv, signed);
  }

  lemma AnnounceFirst(w: World, i: Id, s: Step, cv: CertifiedVertex, signed: set<VSig>)
    requires GoodStep(w, i, s, signed)
    ensures GoodStep(w, i, Step(s.book, [BroadcastCert(cv)] + s.actions, true), signed)
  {
    SigsAppend(i, [BroadcastCert(cv)], s.actions);
    SigsOne(i, BroadcastCert(cv));
    assert Sigs(i, [BroadcastCert(cv)] + s.actions) == Sigs(i, s.actions);
  }

  lemma TryFinalizeNode(w: World, b: Book, env: Env, h: Hash, signed: set<VSig>)
    requires Distinct(w.set_) && env.set_ == w.set_
    requires NodeInv(w, b.selfId, b, signed) && BookInv(b, w.set_)
    ensures GoodStep(w, b.selfId, TryFinalize(b, env, h), signed)
  {
    hide VotesOk, VotesOnce, ProposalsOk, CertifiedOk, StoredOk;
    var i := b.selfId;
    if Ready(b, env, h) {
      OwnCertificateVerifies(b, env, h);
      ReadyIsCertifiable(w, b, env, h, signed);
      FinalizeNode(w, b, env, h, OwnCertificate(b, env, h).value, signed);
    } else {
      QuietStep(w, i, TryFinalize(b, env, h), signed);
    }
  }

  lemma SlotNode(w: World, b: Book, c: Book, h: Hash, slot: map<Id, VSig>, signed: set<VSig>)
    requires NodeInv(w, b.selfId, b, signed)
    requires c == b.(collecting := b.collecting[h := slot], rejected := c.rejected, conflicts := c.conflicts)
    requires forall v :: v in slot && Honest(w, v) ==> slot[v] in signed
    ensures NodeInv(w, b.selfId, c, signed)
  {
    var i := b.selfId;
    assert VotesOk(w, i, c, signed);
    assert ProposalsOk(w, i, c, signed);
    assert CertifiedOk(w, c, signed);
    forall g, v | g in c.collecting && v in c.collecting[g] && Honest(w, v) ensures c.collecting[g][v] in signed {
      if g != h { assert c.collecting[g] == b.collecting[g]; }
    }
  }

  lemma StoredNode(w: World, b: Book, bp: Partial, signed: set<VSig>)
    requires NodeInv(w, b.selfId, b, signed) && Available(w, signed, bp.sig)
    requires bp.sig.Signed? && bp.sig.signer == bp.voter
    ensures NodeInv(w, b.selfId, Stored(b, bp), signed)
  {
    SlotNode(w, b, Stored(b, bp), bp.vertexHash, Slot(b, bp.vertexHash)[bp.voter := bp.sig], signed);
  }

  lemma RefusedNode(w: World, b: Book, env: Env, bp: Partial, signed: set<VSig>)
    requires NodeInv(w, b.selfId, b, signed) && !Accepts(b, env, bp)
    ensures GoodStep(w, b.selfId, OnVertexPartial(b, env, bp), signed)
  {
    hide VertexCert.OnVertexPartial, VotesOk, VotesOnce, ProposalsOk, CertifiedOk;
    PartialCases(b, env, bp);
    var s := OnVertexPartial(b, env, bp);
    if s.book != b {
      SlotNode(w, b, s.book, bp.vertexHash, Slot(b, bp.vertexHash), signed);
    }
    QuietStep(w, b.selfId, s, signed);
  }

  lemma PartialNode(w: World, b: Book, env: Env, bp: Partial, signed: set<VSig>)
    requires Distinct(w.set_) && env.set_ == w.set_ && Available(w, signed, bp.sig)
    requires NodeInv(w, b.selfId, b, signed) && BookInv(b, w.set_)
    ensures GoodStep(w, b.selfId, OnVertexPartial(b, env, bp), signed)
  {
    hide VertexCert.OnVertexPartial, VertexCert.TryFinalize, NodeInv, GoodStep;
    PartialCases(b, env, bp);
    if Accepts(b, env, bp) {
      StoredCollects(b, env, bp);
      StoredNode(w, b, bp, signed);
      TryFinalizeNode(w, Stored(b, bp), env, bp.vertexHash, signed);
    } else {
      RefusedNode(w, b, env, bp, signed);
    }
  }

  lemma GenesisNode(w: World, b: Book, env: Env, signed: set<VSig>)
    requires env.set_ == w.set_ && NodeInv(w, b.selfId, b, signed) && BookInv(b, w.set_)
    ensures GoodStep(w, b.selfId, Genesis(b, env), signed)
  {
    if b.started {
      QuietStep(w, b.selfId, Genesis(b, env), signed);
    } else {
      var b1 := b.(started := true);
      assert NodeInv(w, b.selfId, b1, signed);
      ProposeSigs(b1, env, 0, []);
      ProposeKeeps(w, b1, env, 0, [], signed);
    }
  }

  lemma CertNode(w: World, b: Book, env: Env, cv: CertifiedVertex, signed: set<VSig>)
    requires Distinct(w.set_) && env.set_ == w.set_ && Deliverable(w, signed, CertReceived(cv))
    requires NodeInv(w, b.selfId, b, signed) && BookInv(b, w.set_)
    ensures GoodStep(w, b.selfId, OnCertifiedVertex(b, env, cv), signed)
  {
    AcceptedIsCertifiable(w, signed, cv);
    RecordNode(w, b, signed, cv.vertex);
    MaybeAdvanceNode(w, RecordCert(b, cv.vertex), env, signed);
    MaybeAdvanceOwnSigs(RecordCert(b, cv.vertex), env);
  }

  // Firing a timer signs nothing new: it sends a proposal made before.
  lemma TimerSigs(w: World, b: Book, env: Env, id: nat, signed: set<VSig>)
    requires StoredOk(w, b.selfId, b, signed) && MineOk(b)
    ensures Sigs(b.selfId, OnTimerFired(b, env, id).actions) <= signed
    ensures OwnSigs(b.selfId, OnTimerFired(b, env, id).actions)
  {
    var i, s, p := b.selfId, OnTimerFired(b, env, id), CurrentProposal(b.mine, b.currentRound);
    if s.actions != [] {
      var last := s.actions[|s.actions| - 1];
      SigsOne(i, last);
      if p.Some? {
        var send := BroadcastProposal(p.value);
        SigsOne(i, send);
        SigsAppend(i, [send], [last]);
        assert s.actions == [send] + [last];
      } else {
        assert s.actions == [] + [last] == [last];
      }
    }
  }

  lemma TimerNode(w: World, b: Book, env: Env, id: nat, signed: set<VSig>)
    requires NodeInv(w, b.selfId, b, signed) && BookInv(b, w.set_)
    ensures GoodStep(w, b.selfId, OnTimerFired(b, env, id), signed)
  {
    var i, s := b.selfId, OnTimerFired(b, env, id);
    SameNode(w, i, b, s.book, signed);
    if s.actions == [] {
      QuietStep(w, i, s, signed);
    } else {
      TimerSigs(w, b, env, id, signed);
      assert signed + Sigs(i, s.actions) == signed;
    }
  }

  lemma HandleNode(w: World, b: Book, env: Env, e: Event, signed: set<VSig>)
    requires Distinct(w.set_) && env.set_ == w.set_ && Deliverable(w, signed, e)
    requires NodeInv(w, b.selfId, b, signed) && BookInv(b, w.set_)
    ensures GoodStep(w, b.selfId, Handle(b, env, e), signed)
  {
    hide VotesOk, VotesOnce, ProposalsOk, CertifiedOk, StoredOk, NodeInv;
    match e
    case Start => GenesisNode(w, b, env, signed);
    case ProposalReceived(p) => ProposalNode(w, b.selfId, b, env, p, signed);
    case PartialReceived(bp) => PartialNode(w, b, env, bp, signed);
    case CertReceived(cv) => CertNode(w, b, env, cv, signed);
    case TimerFired(id) => TimerNode(w, b, env, id, signed);
  }

  // ---------------------------------------------------------------------
  // Whole runs
  // ---------------------------------------------------------------------

  lemma InitInv(w: World, n: Net)
    requires Init(w, n)
    ensures Inv(w, n)
  {
  }

  lemma StepInv(w: World, n: Net, n': Net, i: Id, env: Env, e: Event)
    requires Distinct(w.set_) && Inv(w, n) && NodeStep(w, n, n', i, env, e)
    ensures Inv(w, n') && n.signed <= n'.signed
  {
    hide VotesOk, VotesOnce, ProposalsOk, CertifiedOk, StoredOk, VertexCert.Handle;
    var b := n.books[i];
    HandleKeeps(b, env, e);
    HandleNode(w, b, env, e, n.signed);
    forall j | j in n'.books ensures BookInv(n'.books[j], w.set_) && NodeInv(w, j, n'.books[j], n'.signed) {
      if j != i {
        OthersKeep(w, j, n.books[j], n.signed, n'.signed);
      }
    }
  }

  /** The invariant holds in every state of every run. */
  lemma {:induction false} RunInv(w: World, run: seq<Net>, labels: seq<Label>, t: nat)
    requires Distinct(w.set_) && Run(w, run, labels) && t < |run|
    ensures Inv(w, run[t])
  {
    hide Inv, Init, NodeStep;
    if t == 0 {
      InitInv(w, run[0]);
    } else {
      RunInv(w, run, labels, t - 1);
      var l := labels[t - 1];
      StepInv(w, run[t - 1], run[t], l.node, l.env, l.event);
    }
  }

  lemma {:induction false} SignedGrows(w: World, run: seq<Net>, labels: seq<Label>, s: nat, t: nat)
    requires Run(w, run, labels) && s <= t < |run|
    ensures run[s].signed <= run[t].signed
  {
    hide VertexCert.Handle;
    if s < t {
      SignedGrows(w, run, labels, s, t - 1);
      var l := labels[t - 1];
      assert NodeStep(w, run[t - 1], run[t], l.node, l.env, l.event);
    }
  }
}
