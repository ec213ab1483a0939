/** What holds over whole runs of the certification network. */
module VertexSafety {
  import opened Validators
  import opened Worlds
  import opened Signatures
  import opened Certificates
  import opened VertexCert
  import opened VertexInvariant
  import opened VertexNetwork

  // ---------------------------------------------------------------------
  // Certificate uniqueness
  // ---------------------------------------------------------------------

  lemma CertifiableUnique(w: World, n: Net, x: Body, y: Body)
    requires GoodWorld(w) && Inv(w, n)
    requires Certifiable(w, n.signed, x) && Certifiable(w, n.signed, y)
    requires x.round == y.round && x.author == y.author
    ensures x == y
  {
    DistinctSize(w.set_);
    var i := QuorumsShareHonest(Members(w.set_), w.byzantine, Voters(w, n.signed, x), Voters(w, n.signed, y));
    assert i in n.books;
    assert VotesOnce(i, n.signed);
  }

  /** No two certificates that verify, delivered at any two moments of any run, are
      for different vertices of one author and round. */
  lemma CertificateUniqueness(w: World, run: seq<Net>, labels: seq<Label>,
                              s: nat, t: nat, a: CertifiedVertex, b: CertifiedVertex)
    requires GoodWorld(w) && Run(w, run, labels) && s < |run| && t < |run|
    requires Deliverable(w, run[s].signed, CertReceived(a)) && Deliverable(w, run[t].signed, CertReceived(b))
    requires a.vertex.round == b.vertex.round && a.vertex.author == b.vertex.author
    ensures a.vertex == b.vertex
  {
    var m := if s < t then t else s;
    RunInv(w, run, labels, m);
    SignedGrows(w, run, labels, s, m);
    SignedGrows(w, run, labels, t, m);
    AcceptedIsCertifiable(w, run[s].signed, a);
    AcceptedIsCertifiable(w, run[t].signed, b);
    CertifiableGrows(w, run[s].signed, run[m].signed, SigningBytes(a.vertex));
    CertifiableGrows(w, run[t].signed, run[m].signed, SigningBytes(b.vertex));
    CertifiableUnique(w, run[m], SigningBytes(a.vertex), SigningBytes(b.vertex));
  }

  /** Whatever two honest nodes record for one round and author, at any two
      moments, is the same vertex hash. */
  lemma CertifiedAgreement(w: World, run: seq<Net>, labels: seq<Label>,
                           s: nat, t: nat, i: Id, j: Id, round: nat, author: Id)
    requires GoodWorld(w) && Run(w, run, labels) && s < |run| && t < |run|
    requires i in run[s].books && j in run[t].books
    requires var c := run[s].books[i].certified; round in c && author in c[round]
    requires var d := run[t].books[j].certified; round in d && author in d[round]
    ensures run[s].books[i].certified[round][author] == run[t].books[j].certified[round][author]
  {
    var m := if s < t then t else s;
    RunInv(w, run, labels, s);
    RunInv(w, run, labels, t);
    RunInv(w, run, labels, m);
    SignedGrows(w, run, labels, s, m);
    SignedGrows(w, run, labels, t, m);
    var g, h := run[s].books[i].certified[round][author], run[t].books[j].certified[round][author];
    assert CertifiedOk(w, run[s].books[i], run[s].signed);
    assert CertifiedOk(w, run[t].books[j], run[t].signed);
    CertifiedAtGrows(w, run[s].signed, run[m].signed, g, round);
    CertifiedAtGrows(w, run[t].signed, run[m].signed, h, round);
    CertifiableUnique(w, run[m], g.body, h.body);
  }

  /** Recording a delivered certificate never replaces one hash by another. */
  lemma RecordNeverReplaces(w: World, run: seq<Net>, labels: seq<Label>, t: nat, i: Id, cv: CertifiedVertex)
    requires GoodWorld(w) && Run(w, run, labels) && t < |run| && i in run[t].books
    requires Deliverable(w, run[t].signed, CertReceived(cv))
    requires var c := run[t].books[i].certified; cv.vertex.round in c && cv.vertex.author in c[cv.vertex.round]
    ensures RecordCert(run[t].books[i], cv.vertex) == run[t].books[i]
  {
    hide VertexNetwork.Inv, VertexNetwork.NodeStep, VertexCert.RecordCert, VertexNetwork.Deliverable;
    RunInv(w, run, labels, t);
    RecordedAgrees(w, run[t], i, cv);
    RecordSame(run[t].books[i], cv.vertex);
  }

  lemma RecordedAgrees(w: World, n: Net, i: Id, cv: CertifiedVertex)
    requires GoodWorld(w) && Inv(w, n) && i in n.books && Deliverable(w, n.signed, CertReceived(cv))
    requires var c := n.books[i].certified; cv.vertex.round in c && cv.vertex.author in c[cv.vertex.round]
    ensures n.books[i].certified[cv.vertex.round][cv.vertex.author] == cv.vertex.hash
  {
    hide VertexInvariant.BookInv, VertexNetwork.VotesOk, VertexNetwork.VotesOnce, VertexNetwork.ProposalsOk;
    hide VertexNetwork.StoredOk, VertexNetwork.Certifiable;
    AcceptedIsCertifiable(w, n.signed, cv);
    var b, v := n.books[i], cv.vertex;
    assert CertifiedOk(w, b, n.signed);
    var h := b.certified[v.round][v.author];
    assert CertifiedAt(w, n.signed, h, v.round);
    CertifiableUnique(w, n, SigningBytes(v), h.body);
  }

  lemma RecordSame(b: Book, v: Vertex)
    requires v.round in b.certified && v.author in b.certified[v.round] && b.certified[v.round][v.author] == v.hash
    ensures RecordCert(b, v) == b
  {
    assert b.certified[v.round][v.author := v.hash] == b.certified[v.round];
    assert b.certified[v.round := b.certified[v.round]] == b.certified;
  }

  // ---------------------------------------------------------------------
  // The certified graph is layered
  // ---------------------------------------------------------------------

  lemma CertifiableIsJustified(w: World, n: Net, body: Body)
    requires FewFaulty(w) && Inv(w, n) && Certifiable(w, n.signed, body)
    ensures Justified(w, n.signed, body)
  {
    var i := QuorumHasHonest(|w.set_|, w.byzantine, Voters(w, n.signed, body));
    assert i in n.books;
    assert VotesOk(w, i, n.books[i], n.signed);
  }

  // A chain of parent links, newest vertex first.
  ghost predicate Chain(path: seq<Hash>) {
    && path != [] && (forall k :: 0 <= k < |path| ==> path[k].OfBody?)
    && forall k :: 0 <= k < |path| - 1 ==> path[k + 1] in path[k].body.parents
  }

  /** Every parent of a certified vertex of round r > 0 is a certified vertex of
      round r - 1; along a chain the round drops by exactly one per link. */
  lemma {:induction false} ChainDescends(w: World, n: Net, path: seq<Hash>, k: nat)
    requires FewFaulty(w) && Inv(w, n) && Chain(path) && k < |path|
    requires Certifiable(w, n.signed, path[0].body)
    ensures k <= path[0].body.round && CertifiedAt(w, n.signed, path[k], path[0].body.round - k)
  {
    if k > 0 {
      ChainDescends(w, n, path, k - 1);
      CertifiableIsJustified(w, n, path[k - 1].body);
      assert path[k - 1 + 1] in path[k - 1].body.parents;
    }
  }

  /** In every run the certified graph is acyclic, a certified vertex has no parents
      exactly at round 0, and a chain that cannot be extended has exactly as many
      links as the round it starts from. */
  lemma CertifiedLayers(w: World, run: seq<Net>, labels: seq<Label>, t: nat, path: seq<Hash>)
    requires FewFaulty(w) && Run(w, run, labels) && t < |run|
    requires Chain(path) && Certifiable(w, run[t].signed, path[0].body)
    ensures |path| <= path[0].body.round + 1 && Distinct(path)
    ensures path[|path| - 1].body.parents == [] <==> |path| == path[0].body.round + 1
  {
    RunInv(w, run, labels, t);
    var n := run[t];
    forall k | 0 <= k < |path| ensures k <= path[0].body.round && path[k].body.round == path[0].body.round - k {
      ChainDescends(w, n, path, k);
    }
    ChainDescends(w, n, path, |path| - 1);
    CertifiableIsJustified(w, n, path[|path| - 1].body);
  }

  // ---------------------------------------------------------------------
  // Accountability
  // ---------------------------------------------------------------------

  lemma {:induction false} NoEvidenceWhenAdvancing(b: Book, env: Env)
    ensures forall a :: a in AdvanceLoop(b, env).actions ==>
              !a.EmitEvidence? && !a.BroadcastCert? && !a.BroadcastPartial?
    decreases |AheadOf(b)|
  {
    if CertifiedCount(b, b.currentRound) >= Need(env) {
      NoEvidenceWhenAdvancing(ProposeNext(b, env).book, env);
    }
  }

  // Evidence comes only from a proposal that conflicts with the recorded one.
  lemma EvidenceSource(b: Book, env: Env, e: Event, a: Action)
    requires a in Handle(b, env, e).actions && a.EmitEvidence?
    ensures e.ProposalReceived? && Conflicting(b, e.proposal)
    ensures var p := e.proposal;
            && p.vertex.hash == ContentHash(p.vertex) && VerifyProposal(env.set_, p)
            && a == EmitEvidence(p.vertex.author,
                                 Equivocation(p.vertex.author, b.seen[Key(p.vertex.round, p.vertex.author)][0], p))
  {
    match e
    case Start => assert false;
    case ProposalReceived(p) =>
    case PartialReceived(bp) =>
      PartialCases(b, env, bp);
      if Accepts(b, env, bp) && Ready(Stored(b, bp), env, bp.vertexHash)
         && OwnCertificate(Stored(b, bp), env, bp.vertexHash).Some? {
        var s := Stored(b, bp);
        var cv := OwnCertificate(s, env, bp.vertexHash).value;
        NoEvidenceWhenAdvancing(RecordCert(s.(emitted := s.emitted + {bp.vertexHash}), cv.vertex), env);
      }
      assert false;
    case CertReceived(cv) =>
      NoEvidenceWhenAdvancing(RecordCert(b, cv.vertex), env);
      assert false;
    case TimerFired(id) => assert false;
  }

  // Every recorded proposal was built from available signatures.
  ghost predicate SeenAvailable(w: World, b: Book, signed: set<VSig>) {
    forall k, x :: k in b.seen && x in b.seen[k] ==> Available(w, signed, x.sig)
  }

  lemma ProposeSeen(w: World, b: Book, env: Env, round: nat, parents: seq<Hash>, signed: set<VSig>)
    requires SeenAvailable(w, b, signed)
    ensures var s := Propose(b, env, round, parents);
            SeenAvailable(w, s.book, signed + Sigs(b.selfId, s.actions))
  {
    ProposeSigs(b, env, round, parents);
    var s, own := Propose(b, env, round, parents), Key(round, b.selfId);
    forall k, x | k in s.book.seen && x in s.book.seen[k]
      ensures Available(w, signed + Sigs(b.selfId, s.actions), x.sig)
    {
      if k != own || x in SeenAt(b, own) {
        assert k in b.seen && x in b.seen[k];
      }
    }
  }

  lemma {:induction false} AdvanceSeen(w: World, b: Book, env: Env, signed: set<VSig>)
    requires SeenAvailable(w, b, signed)
    ensures var s := AdvanceLoop(b, env);
            SeenAvailable(w, s.book, signed + Sigs(b.selfId, s.actions))
    decreases |AheadOf(b)|
  {
    if CertifiedCount(b, b.currentRound) >= Need(env) {
      ProposeSeen(w, b, env, b.currentRound + 1, ValuesInOrder(b.certified[b.currentRound], Need(env)), signed);
      ProposeNextFrame(b, env);
      var s := ProposeNext(b, env);
      var t := AdvanceLoop(s.book, env);
      AdvanceSeen(w, s.book, env, signed + Sigs(b.selfId, s.actions));
      SigsAppend(b.selfId, s.actions, t.actions);
      assert signed + Sigs(b.selfId, s.actions + t.actions)
             == signed + Sigs(b.selfId, s.actions) + Sigs(b.selfId, t.actions);
    }
  }

  lemma MaybeAdvanceSeen(w: World, b: Book, env: Env, signed: set<VSig>)
    requires SeenAvailable(w, b, signed)
    ensures var s := MaybeAdvance(b, env);
            SeenAvailable(w, s.book, signed + Sigs(b.selfId, s.actions))
  {
    if b.started {
      AdvanceSeen(w, b, env, signed);
      var s := AdvanceLoop(b, env);
      forall k, x | k in Prune(s.book).seen && x in Prune(s.book).seen[k]
        ensures Available(w, signed + Sigs(b.selfId, s.actions), x.sig)
      {
        assert x in s.book.seen[k];
      }
    }
  }

  lemma SeenGrows(w: World, b: Book, c: Book, signed: set<VSig>, more: set<VSig>)
    requires SeenAvailable(w, b, signed) && signed <= more && c.seen == b.seen
    ensures SeenAvailable(w, c, more)
  {
  }

  lemma FinalizeSeen(w: World, b: Book, env: Env, h: Hash, signed: set<VSig>)
    requires SeenAvailable(w, b, signed)
    ensures var s := TryFinalize(b, env, h);
            SeenAvailable(w, s.book, signed + Sigs(b.selfId, s.actions))
  {
    var s := TryFinalize(b, env, h);
    if Ready(b, env, h) && OwnCertificate(b, env, h).Some? {
      var cv := OwnCertificate(b, env, h).value;
      var b2 := RecordCert(b.(emitted := b.emitted + {h}), cv.vertex);
      MaybeAdvanceSeen(w, b2, env, signed);
      SigsAppend(b.selfId, [BroadcastCert(cv)], MaybeAdvance(b2, env).actions);
      SigsOne(b.selfId, BroadcastCert(cv));
      assert Sigs(b.selfId, s.actions) == Sigs(b.selfId, MaybeAdvance(b2, env).actions);
    } else {
      SeenGrows(w, b, s.book, signed, signed + Sigs(b.selfId, s.actions));
    }
  }

  lemma PartialSeen(w: World, b: Book, env: Env, bp: Partial, signed: set<VSig>)
    requires SeenAvailable(w, b, signed)
    ensures var s := OnVertexPartial(b, env, bp);
            SeenAvailable(w, s.book, signed + Sigs(b.selfId, s.actions))
  {
    PartialCases(b, env, bp);
    var s := OnVertexPartial(b, env, bp);
    if Accepts(b, env, bp) {
      SeenGrows(w, b, Stored(b, bp), signed, signed);
      FinalizeSeen(w, Stored(b, bp), env, bp.vertexHash, signed);
    } else {
      SeenGrows(w, b, s.book, signed, signed + Sigs(b.selfId, s.actions));
    }
  }

  lemma ProposalSeen(w: World, b: Book, env: Env, p: Proposal, signed: set<VSig>)
    requires SeenAvailable(w, b, signed) && Available(w, signed, p.sig)
    ensures SeenAvailable(w, OnVertexProposal(b, env, p).book, signed)
  {
    ProposalCases(b, env, p);
    var n := NoteSeen(b, p);
    assert SeenAvailable(w, n, signed);
    assert OnVertexProposal(b, env, p).book.seen == b.seen || OnVertexProposal(b, env, p).book.seen == n.seen;
  }

  lemma HandleSeen(w: World, b: Book, env: Env, e: Event, signed: set<VSig>)
    requires SeenAvailable(w, b, signed) && Deliverable(w, signed, e)
    ensures var s := Handle(b, env, e);
            SeenAvailable(w, s.book, signed + Sigs(b.selfId, s.actions))
  {
    var s := Handle(b, env, e);
    var more := signed + Sigs(b.selfId, s.actions);
    match e
    case Start =>
      if b.started { SeenGrows(w, b, s.book, signed, more); }
      else { ProposeSeen(w, b.(started := true), env, 0, [], signed); }
    case ProposalReceived(p) =>
      ProposalSeen(w, b, env, p, signed);
      SeenGrows(w, s.book, s.book, signed, more);
    case PartialReceived(bp) => PartialSeen(w, b, env, bp, signed);
    case CertReceived(cv) => MaybeAdvanceSeen(w, RecordCert(b, cv.vertex), env, signed);
    case TimerFired(id) => SeenGrows(w, b, s.book, signed, more);
  }

  ghost predicate AllSeen(w: World, n: Net) {
    forall i :: i in n.books ==> SeenAvailable(w, n.books[i], n.signed)
  }

  lemma StepSeen(w: World, n: Net, n': Net, i: Id, env: Env, e: Event)
    requires AllSeen(w, n) && NodeStep(w, n, n', i, env, e) && n.books[i].selfId == i
    ensures AllSeen(w, n')
  {
    HandleSeen(w, n.books[i], env, e, n.signed);
    forall j | j in n'.books ensures SeenAvailable(w, n'.books[j], n'.signed) {
      if j != i {
        SeenGrows(w, n.books[j], n'.books[j], n.signed, n'.signed);
      }
    }
  }

  lemma {:induction false} RunSeen(w: World, run: seq<Net>, labels: seq<Label>, t: nat)
    requires Distinct(w.set_) && Run(w, run, labels) && t < |run|
    ensures AllSeen(w, run[t])
  {
    hide VertexCert.Handle;
    if t > 0 {
      RunSeen(w, run, labels, t - 1);
      RunInv(w, run, labels, t - 1);
      var l := labels[t - 1];
      StepSeen(w, run[t - 1], run[t], l.node, l.env, l.event);
    }
  }

  // Two proposals by an honest author for one round are the same vertex.
  lemma HonestProposesOnce(w: World, n: Net, p: Proposal, q: Proposal)
    requires Inv(w, n) && Honest(w, p.vertex.author)
    requires p.vertex.author == q.vertex.author && p.vertex.round == q.vertex.round
    requires VerifyProposal(w.set_, p) && VerifyProposal(w.set_, q)
    requires Available(w, n.signed, p.sig) && Available(w, n.signed, q.sig)
    ensures SigningBytes(p.vertex) == SigningBytes(q.vertex)
  {
    var i := p.vertex.author;
    assert i in n.books;
    assert ProposalsOk(w, i, n.books[i], n.signed);
    assert VotesOnce(i, n.signed);
  }

  lemma ConflictAccusesByzantine(w: World, n: Net, b: Book, p: Proposal)
    requires Inv(w, n) && SeenOk(b, w.set_) && SeenAvailable(w, b, n.signed)
    requires p.vertex.hash == ContentHash(p.vertex) && VerifyProposal(w.set_, p) && Available(w, n.signed, p.sig)
    requires Conflicting(b, p)
    ensures var first := b.seen[Key(p.vertex.round, p.vertex.author)][0];
            VerifyEvidence(w.set_, Equivocation(p.vertex.author, first, p))
    ensures !Honest(w, p.vertex.author)
  {
    var k := Key(p.vertex.round, p.vertex.author);
    var first := b.seen[k][0];
    assert first in b.seen[k];
    if Honest(w, p.vertex.author) {
      HonestProposesOnce(w, n, first, p);
      assert false;
    }
  }

  /** Every piece of equivocation evidence an honest node emits passes the evidence
      check, and the accused is never an honest node. */
  lemma Accountability(w: World, run: seq<Net>, labels: seq<Label>, t: nat, a: Action)
    requires Distinct(w.set_) && Run(w, run, labels) && t < |labels|
    requires labels[t].node in run[t].books && a in ActionsAt(run, labels, t) && a.EmitEvidence?
    ensures a.offender == a.evidence.validator && VerifyEvidence(w.set_, a.evidence)
    ensures !Honest(w, a.offender)
  {
    var n, l := run[t], labels[t];
    RunInv(w, run, labels, t);
    RunSeen(w, run, labels, t);
    assert NodeStep(w, n, run[t + 1], l.node, l.env, l.event);
    EvidenceSource(n.books[l.node], l.env, l.event, a);
    ConflictAccusesByzantine(w, n, n.books[l.node], l.event.proposal);
  }

  // ---------------------------------------------------------------------
  // At most once
  // ---------------------------------------------------------------------

  lemma {:induction false} SigOfAction(i: Id, actions: seq<Action>, a: Action)
    requires a in actions
    ensures ActionSigs(i, a) <= Sigs(i, actions)
  {
    if actions[0] != a {
      SigOfAction(i, actions[1..], a);
    }
  }

  // Partials come only from a vote on a proposal.
  lemma PartialSource(b: Book, env: Env, e: Event, a: Action) returns (v: Vertex)
    requires a in Handle(b, env, e).actions && a.BroadcastPartial?
    ensures v.hash == ContentHash(v)
    ensures a.partial == Partial(v.hash, v.round, v.author, b.selfId, Signed(b.selfId, VERTEX_CERT, SigningBytes(v)))
  {
    match e
    case Start => assert false;
    case ProposalReceived(p) =>
      ProposalCases(b, env, p);
      v := p.vertex;
    case PartialReceived(bp) =>
      PartialCases(b, env, bp);
      var s, h := Stored(b, bp), bp.vertexHash;
      if Accepts(b, env, bp) && Ready(s, env, h) && OwnCertificate(s, env, h).Some? {
        NoEvidenceWhenAdvancing(RecordCert(s.(emitted := s.emitted + {h}),
                                           OwnCertificate(s, env, h).value.vertex), env);
      }
      assert false;
    case CertReceived(cv) =>
      NoEvidenceWhenAdvancing(RecordCert(b, cv.vertex), env);
      assert false;
    case TimerFired(id) => assert false;
  }

  lemma PartialIsSigned(w: World, run: seq<Net>, labels: seq<Label>, s: nat, m: nat, a: Action) returns (v: Vertex)
    requires Distinct(w.set_) && Run(w, run, labels) && s < |labels| && s < m < |run|
    requires labels[s].node in run[s].books && a in ActionsAt(run, labels, s) && a.BroadcastPartial?
    ensures var i := labels[s].node;
            var sig := Signed(i, VERTEX_CERT, SigningBytes(v));
            && v.hash == ContentHash(v) && sig in run[m].signed
            && a.partial == Partial(v.hash, v.round, v.author, i, sig)
  {
    hide VertexCert.Handle;
    var i := labels[s].node;
    RunInv(w, run, labels, s);
    SignedGrows(w, run, labels, s + 1, m);
    assert NodeStep(w, run[s], run[s + 1], i, labels[s].env, labels[s].event);
    v := PartialSource(run[s].books[i], labels[s].env, labels[s].event, a);
    SigOfAction(i, ActionsAt(run, labels, s), a);
  }

  /** Although voted keys are pruned, over a whole run a node sends partials for at
      most one vertex per round and author. */
  lemma OnePartialPerSlot(w: World, run: seq<Net>, labels: seq<Label>, s: nat, t: nat, a: Action, b: Action)
    requires Distinct(w.set_) && Run(w, run, labels) && s < |labels| && t < |labels|
    requires labels[s].node in run[s].books && labels[t].node == labels[s].node && labels[t].node in run[t].books
    requires a in ActionsAt(run, labels, s) && a.BroadcastPartial?
    requires b in ActionsAt(run, labels, t) && b.BroadcastPartial?
    requires a.partial.round == b.partial.round && a.partial.author == b.partial.author
    ensures a.partial == b.partial
  {
    var i, m := labels[s].node, |labels|;
    var x := PartialIsSigned(w, run, labels, s, m, a);
    var y := PartialIsSigned(w, run, labels, t, m, b);
    RunInv(w, run, labels, m);
    RunInv(w, run, labels, s);
    assert Honest(w, i) && i in run[m].books;
    assert VotesOnce(i, run[m].signed);
  }

  // Own vertex `h` has been certified, or is too old ever to be proposed again.
  ghost predicate Spent(b: Book, h: Hash) {
    h.OfBody? && (h in b.emitted || (h !in b.mine && b.started && h.body.round <= b.currentRound))
  }

  lemma ProposeSpent(b: Book, env: Env, round: nat, parents: seq<Hash>, h: Hash)
    requires Spent(b, h) && b.started && b.currentRound < round
    ensures Spent(Propose(b, env, round, parents).book, h)
  {
  }

  lemma {:induction false} AdvanceSpent(b: Book, env: Env, h: Hash)
    requires Spent(b, h) && b.started
    ensures Spent(AdvanceLoop(b, env).book, h)
    decreases |AheadOf(b)|
  {
    if CertifiedCount(b, b.currentRound) >= Need(env) {
      ProposeSpent(b, env, b.currentRound + 1, ValuesInOrder(b.certified[b.currentRound], Need(env)), h);
      ProposeNextFrame(b, env);
      AdvanceSpent(ProposeNext(b, env).book, env, h);
    }
  }

  lemma MaybeAdvanceSpent(b: Book, env: Env, h: Hash)
    requires Core(b, env.set_) && Spent(b, h)
    ensures Spent(MaybeAdvance(b, env).book, h)
  {
    if b.started {
      AdvanceSpent(b, env, h);
      AdvanceKeeps(b, env);
      AdvanceStops(b, env);
      var c := AdvanceLoop(b, env).book;
      assert h in c.mine ==> c.mine[h].vertex.hash == h;
    }
  }

  lemma RecordSpent(b: Book, v: Vertex, h: Hash)
    requires Spent(b, h)
    ensures Spent(RecordCert(b, v), h)
  {
  }

  lemma FinalizeSpent(b: Book, env: Env, g: Hash, h: Hash)
    requires BookInv(b, env.set_) && Spent(b, h)
    ensures Spent(TryFinalize(b, env, g).book, h)
  {
    if Ready(b, env, g) && OwnCertificate(b, env, g).Some? {
      var d, v := b.(emitted := b.emitted + {g}), OwnCertificate(b, env, g).value.vertex;
      FinalizeCore(b, env.set_, g, v);
      assert Spent(d, h);
      hide VertexInvariant.Core, VertexInvariant.Trimmed, Spent, VertexCert.MaybeAdvance, VertexCert.RecordCert;
      hide VertexCert.OwnCertificate;
      RecordSpent(d, v, h);
      MaybeAdvanceSpent(RecordCert(d, v), env, h);
    }
  }

  lemma PartialSpent(b: Book, env: Env, bp: Partial, h: Hash)
    requires BookInv(b, env.set_) && Spent(b, h)
    ensures Spent(OnVertexPartial(b, env, bp).book, h)
  {
    hide VertexCert.OnVertexPartial, VertexCert.TryFinalize;
    PartialCases(b, env, bp);
    if Accepts(b, env, bp) {
      StoredCollects(b, env, bp);
      FinalizeSpent(Stored(b, bp), env, bp.vertexHash, h);
    }
  }

  lemma CertSpent(b: Book, env: Env, v: Vertex, h: Hash)
    requires BookInv(b, env.set_) && Spent(b, h)
    ensures Spent(MaybeAdvance(RecordCert(b, v), env).book, h)
  {
    hide VertexCert.MaybeAdvance;
    RecordKeeps(b, env.set_, v);
    RecordSpent(b, v, h);
    MaybeAdvanceSpent(RecordCert(b, v), env, h);
  }

  lemma HandleSpent(b: Book, env: Env, e: Event, h: Hash)
    requires BookInv(b, env.set_) && Distinct(env.set_) && Spent(b, h)
    ensures Spent(Handle(b, env, e).book, h)
  {
    match e
    case Start => assert b.started;
    case ProposalReceived(p) => ProposalCases(b, env, p);
    case PartialReceived(bp) => PartialSpent(b, env, bp, h);
    case CertReceived(cv) => CertSpent(b, env, cv.vertex, h);
    case TimerFired(id) =>
  }

  // A step announces at most one certificate, for a vertex not spent before and
  // spent after.
  lemma AnnouncingSpends(b: Book, env: Env, e: Event, a: Action)
    requires BookInv(b, env.set_) && Distinct(env.set_)
    requires a in Handle(b, env, e).actions && a.BroadcastCert?
    ensures a.cert.vertex.hash in b.mine && a.cert.vertex.hash !in b.emitted
    ensures VerifyCertifiedVertex(a.cert, env.set_).Ok?
    ensures Spent(Handle(b, env, e).book, a.cert.vertex.hash)
  {
    match e
    case Start => assert false;
    case ProposalReceived(p) => ProposalCases(b, env, p); assert false;
    case PartialReceived(bp) =>
      PartialCases(b, env, bp);
      AnnouncedCertificate(b, env, bp, a);
    case CertReceived(cv) => NoEvidenceWhenAdvancing(RecordCert(b, cv.vertex), env); assert false;
    case TimerFired(id) => assert false;
  }

  lemma AnnouncedCertificate(b: Book, env: Env, bp: Partial, a: Action)
    requires BookInv(b, env.set_) && Distinct(env.set_) && Accepts(b, env, bp)
    requires a in TryFinalize(Stored(b, bp), env, bp.vertexHash).actions && a.BroadcastCert?
    ensures a.cert.vertex.hash in b.mine && a.cert.vertex.hash !in b.emitted
    ensures VerifyCertifiedVertex(a.cert, env.set_).Ok?
    ensures Spent(TryFinalize(Stored(b, bp), env, bp.vertexHash).book, a.cert.vertex.hash)
  {
    var c, g := Stored(b, bp), bp.vertexHash;
    StoredCollects(b, env, bp);
    OwnCertificateVerifies(c, env, g);
    OnlyOwnCertificate(c, env, g, a);
    assert c.mine[g].vertex.hash == g;
    NowSpent(c, env, g);
  }

  lemma OnlyOwnCertificate(c: Book, env: Env, g: Hash, a: Action)
    requires a in TryFinalize(c, env, g).actions && a.BroadcastCert?
    requires Ready(c, env, g) ==> OwnCertificate(c, env, g).Some?
    ensures Ready(c, env, g) && a.cert == OwnCertificate(c, env, g).value
  {
    hide VertexCert.RecordCert, VertexCert.OwnCertificate;
    var d := RecordCert(c.(emitted := c.emitted + {g}), OwnCertificate(c, env, g).value.vertex);
    NoEvidenceWhenAdvancing(d, env);
  }

  // Once its certificate is announced, an own vertex is spent.
  lemma NowSpent(c: Book, env: Env, g: Hash)
    requires Core(c, env.set_) && Ready(c, env, g) && OwnCertificate(c, env, g).Some? && g.OfBody?
    ensures Spent(TryFinalize(c, env, g).book, g)
  {
    var d, v := c.(emitted := c.emitted + {g}), OwnCertificate(c, env, g).value.vertex;
    FinalizeCore(c, env.set_, g, v);
    assert Spent(d, g);
    hide VertexInvariant.Core, Spent, VertexCert.MaybeAdvance, VertexCert.RecordCert, VertexCert.OwnCertificate;
    RecordSpent(d, v, g);
    MaybeAdvanceSpent(RecordCert(d, v), env, g);
  }

  lemma {:induction false} StaysSpent(w: World, run: seq<Net>, labels: seq<Label>, s: nat, t: nat, i: Id, h: Hash)
    requires Distinct(w.set_) && Run(w, run, labels) && s <= t < |run|
    requires i in run[s].books && Spent(run[s].books[i], h)
    ensures i in run[t].books && Spent(run[t].books[i], h)
  {
    hide VertexCert.Handle, Spent, VertexNetwork.NodeInv, VertexNetwork.Deliverable;
    if s < t {
      StaysSpent(w, run, labels, s, t - 1, i, h);
      RunInv(w, run, labels, t - 1);
      var l := labels[t - 1];
      assert NodeStep(w, run[t - 1], run[t], l.node, l.env, l.event);
      if l.node == i {
        HandleSpent(run[t - 1].books[i], l.env, l.event, h);
      }
    }
  }

  lemma AnnouncedAt(w: World, run: seq<Net>, labels: seq<Label>, s: nat, a: Action)
    requires Distinct(w.set_) && Run(w, run, labels) && s < |labels|
    requires labels[s].node in run[s].books && a in ActionsAt(run, labels, s) && a.BroadcastCert?
    ensures var i, h := labels[s].node, a.cert.vertex.hash;
            && !Spent(run[s].books[i], h) && VerifyCertifiedVertex(a.cert, w.set_).Ok?
            && i in run[s + 1].books && Spent(run[s + 1].books[i], h)
  {
    hide VertexCert.Handle, VertexNetwork.NodeInv, VertexNetwork.Deliverable;
    RunInv(w, run, labels, s);
    var l := labels[s];
    assert NodeStep(w, run[s], run[s + 1], l.node, l.env, l.event);
    AnnouncingSpends(run[s].books[l.node], l.env, l.event, a);
  }

  /** Over a whole run a node broadcasts a certificate for one of its vertices at
      most once, and every certificate it broadcasts verifies. */
  lemma OneCertificatePerVertex(w: World, run: seq<Net>, labels: seq<Label>, s: nat, t: nat, a: Action, b: Action)
    requires Distinct(w.set_) && Run(w, run, labels) && s < t < |labels|
    requires labels[s].node in run[s].books && labels[t].node == labels[s].node && labels[t].node in run[t].books
    requires a in ActionsAt(run, labels, s) && a.BroadcastCert?
    requires b in ActionsAt(run, labels, t) && b.BroadcastCert?
    ensures a.cert.vertex.hash != b.cert.vertex.hash
    ensures VerifyCertifiedVertex(a.cert, w.set_).Ok? && VerifyCertifiedVertex(b.cert, w.set_).Ok?
  {
    hide VertexCert.Handle, Spent;
    AnnouncedAt(w, run, labels, s, a);
    AnnouncedAt(w, run, labels, t, b);
    StaysSpent(w, run, labels, s + 1, t, labels[s].node, a.cert.vertex.hash);
  }

  // ---------------------------------------------------------------------
  // How many different authors a voter makes sure of
  // ---------------------------------------------------------------------

  lemma {:induction false} AuthorsOfDistinct(hs: set<Hash>, authors: set<Id>)
    requires forall h :: h in hs ==> h.OfBody?
    requires forall g, h :: g in hs && h in hs && g.body.author == h.body.author ==> g == h
    requires authors == set h | h in hs :: h.body.author
    ensures |authors| == |hs|
  {
    if hs != {} {
      var h :| h in hs;
      var rest := hs - {h};
      AuthorsOfDistinct(rest, set x | x in rest :: x.body.author);
      assert authors == (set x | x in rest :: x.body.author) + {h.body.author};
    }
  }

  /** Counting the parents list does not count authors: a vertex that passes the
      voter's checks names as many authors as it lists different parents, so it has
      a quorum of them exactly when its parents are a quorum without repetition. */
  lemma VotedParentAuthors(w: World, b: Book, env: Env, p: Proposal, signed: set<VSig>)
    requires CertifiedOk(w, b, signed) && Votable(b, env, p) && p.vertex.round > 0
    ensures |ParentAuthors(SigningBytes(p.vertex))| == |Members(p.vertex.parents)|
  {
    var r, hs := p.vertex.round - 1, Members(p.vertex.parents);
    forall h | h in hs ensures h.OfBody? && h.body.author in b.certified[r] && b.certified[r][h.body.author] == h {
      assert h in b.certified[r].Values;
      var a :| a in b.certified[r] && b.certified[r][a] == h;
    }
    AuthorsOfDistinct(hs, ParentAuthors(SigningBytes(p.vertex)));
  }

  /** Four validators: a round-1 vertex that lists one parent three times is voted
      for, although its parents have a single author. */
  lemma RepeatedParentIsVotedFor()
    ensures exists b: Book, env: Env, p: Proposal ::
              && Core(b, env.set_) && |env.set_| == 4 && |ParentAuthors(SigningBytes(p.vertex))| == 1
              && (exists a :: a in OnVertexProposal(b, env, p).actions && a.BroadcastPartial?)
  {
    var env := Env([0, 1, 2, 3], 250, _ => []);
    var root := OfBody(Body(0, 0, [], []));
    var b := FreshBook(1).(certified := map[0 := map[0 := root]]);
    var v := SealHash(Vertex(1, 2, [root, root, root], [], Zero));
    var p := Proposal(v, Signed(2, VERTEX_PROPOSAL, SigningBytes(v)));
    assert b.certified[0][0] == root && root in b.certified[0].Values;
    assert KnownParents(NoteSeen(b, p), 0, v.parents);
    assert ParentAuthors(SigningBytes(v)) == {0};
    var s := OnVertexProposal(b, env, p);
    assert s == Vote(NoteSeen(b, p), p);
    assert s.actions[0] in s.actions && s.actions[0].BroadcastPartial?;
  }
}
