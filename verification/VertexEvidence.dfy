/** A node remembers the first genuine proposal of every slot as long as the slot is
    in its window, so a second one never goes unreported. */
module VertexEvidence {
  import opened Validators
  import opened Worlds
  import opened Signatures
  import opened Certificates
  import opened VertexCert
  import opened VertexInvariant
  import opened VertexNetwork

  // A vertex of a validator, filed under its content hash and signed by its author.
  predicate Genuine(set_: ValidatorSet, p: Proposal) {
    && p.vertex.author in set_ && p.vertex.hash == OfBody(SigningBytes(p.vertex))
    && p.sig == Signed(p.vertex.author, VERTEX_PROPOSAL, SigningBytes(p.vertex))
  }

  // The rounds about which a node at round `current` takes proposals.
  predicate Open(current: nat, round: nat) {
    round + 1 >= current && round <= current + 1
  }

  function SlotOf(p: Proposal): Key {
    Key(p.vertex.round, p.vertex.author)
  }

  // The proposal held for a slot, if any.
  function Held(b: Book, key: Key): Option<Proposal> {
    if key in b.seen && b.seen[key] != [] then Some(b.seen[key][0]) else None
  }

  // Nothing else than `p` is held for its slot.
  predicate Free(b: Book, p: Proposal) {
    Held(b, SlotOf(p)) == None || Held(b, SlotOf(p)) == Some(p)
  }

  lemma HeldIsGenuine(b: Book, set_: ValidatorSet, key: Key)
    requires BookInv(b, set_) && Held(b, key).Some?
    ensures b.seen[key] == [b.seen[key][0]]
    ensures Genuine(set_, Held(b, key).value) && SlotOf(Held(b, key).value) == key
  {
    assert |b.seen[key]| == 1;
  }

  // Genuine proposals of equal content hash are equal.
  lemma HashDecides(set_: ValidatorSet, p: Proposal, q: Proposal)
    requires Genuine(set_, p) && Genuine(set_, q) && p.vertex.hash == q.vertex.hash
    ensures p == q
  {
  }

  lemma ConflictingIs(b: Book, set_: ValidatorSet, p: Proposal)
    requires BookInv(b, set_) && Genuine(set_, p)
    ensures Conflicting(b, p) <==> !Free(b, p)
    ensures SlotOf(p) in b.seen ==> b.seen[SlotOf(p)] != []
  {
    var key := SlotOf(p);
    if key in b.seen {
      assert |b.seen[key]| == 1;
      HeldIsGenuine(b, set_, key);
      if b.seen[key][0].vertex.hash == p.vertex.hash { HashDecides(set_, b.seen[key][0], p); }
      assert Conflicting(b, p) <==> b.seen[key][0].vertex.hash != p.vertex.hash;
    }
  }

  /** A genuine proposal of a peer in the window is remembered, or exposes the one
      held for its slot; in the latter case evidence naming both is published. */
  lemma NotesOrReports(b: Book, env: Env, p: Proposal)
    requires BookInv(b, env.set_) && Genuine(env.set_, p)
    requires p.vertex.author != b.selfId && Open(b.currentRound, p.vertex.round)
    ensures var s, author := OnVertexProposal(b, env, p), p.vertex.author;
            && s.book.currentRound == b.currentRound && s.book.selfId == b.selfId
            && if Free(b, p) then Held(s.book, SlotOf(p)) == Some(p)
               else s.actions == [EmitEvidence(author, Equivocation(author, Held(b, SlotOf(p)).value, p))]
  {
    ConflictingIs(b, env.set_, p);
    hide BookInv, VertexCert.Conflicting, VertexCert.KnownParents, VertexCert.OnVertexProposal;
    if Free(b, p) {
      NewIsHeld(b, env, p);
    } else {
      OtherIsReported(b, env, p);
    }
  }

  lemma NewIsHeld(b: Book, env: Env, p: Proposal)
    requires !Conflicting(b, p) && Genuine(env.set_, p) && Free(b, p)
    requires p.vertex.author != b.selfId && Open(b.currentRound, p.vertex.round)
    requires SlotOf(p) in b.seen ==> b.seen[SlotOf(p)] != []
    ensures var c := OnVertexProposal(b, env, p).book;
            c.currentRound == b.currentRound && c.selfId == b.selfId && Held(c, SlotOf(p)) == Some(p)
  {
    hide VertexCert.Conflicting, VertexCert.KnownParents;
  }

  lemma OtherIsReported(b: Book, env: Env, p: Proposal)
    requires Conflicting(b, p) && Genuine(env.set_, p) && Held(b, SlotOf(p)).Some?
    requires p.vertex.author != b.selfId && Open(b.currentRound, p.vertex.round)
    ensures var author := p.vertex.author;
            OnVertexProposal(b, env, p)
            == Step(b, [EmitEvidence(author, Equivocation(author, Held(b, SlotOf(p)).value, p))], true)
  {
    hide VertexCert.Conflicting, VertexCert.KnownParents;
  }

  // ---------------------------------------------------------------------
  // Nothing makes a node forget it while the slot is in its window
  // ---------------------------------------------------------------------

  // `p` is held unless its round has left the window.
  predicate Noted(b: Book, p: Proposal) {
    b.currentRound <= p.vertex.round + 1 ==> Held(b, SlotOf(p)) == Some(p)
  }

  // From book `b` to book `c` the round does not drop and `p` is not forgotten.
  predicate Keeps(b: Book, c: Book, p: Proposal) {
    c.currentRound >= b.currentRound && (Noted(b, p) ==> Noted(c, p))
  }

  lemma ProposeNotes(b: Book, env: Env, round: nat, parents: seq<Hash>, p: Proposal)
    requires b.currentRound <= round
    ensures Keeps(b, Propose(b, env, round, parents).book, p)
  {
  }

  lemma {:induction false} AdvanceNotes(b: Book, env: Env, p: Proposal)
    ensures Keeps(b, AdvanceLoop(b, env).book, p)
    decreases |AheadOf(b)|
  {
    if CertifiedCount(b, b.currentRound) >= Need(env) {
      ProposeNotes(b, env, b.currentRound + 1, ValuesInOrder(b.certified[b.currentRound], Need(env)), p);
      AdvanceNotes(ProposeNext(b, env).book, env, p);
    }
  }

  lemma PruneNotes(b: Book, p: Proposal)
    ensures Keeps(b, Prune(b), p)
  {
    var c, key := Prune(b), SlotOf(p);
    if b.currentRound <= key.round + 1 && key in b.seen {
      assert key in c.seen && c.seen[key] == b.seen[key];
    }
  }

  lemma MaybeAdvanceNotes(b: Book, env: Env, p: Proposal)
    ensures Keeps(b, MaybeAdvance(b, env).book, p)
  {
    hide VertexCert.AdvanceLoop, VertexCert.Prune;
    AdvanceNotes(b, env, p);
    PruneNotes(AdvanceLoop(b, env).book, p);
  }

  lemma FinalizeNotes(b: Book, env: Env, h: Hash, p: Proposal)
    ensures Keeps(b, TryFinalize(b, env, h).book, p)
  {
    hide VertexCert.MaybeAdvance, VertexCert.OwnCertificate;
    if Ready(b, env, h) && OwnCertificate(b, env, h).Some? {
      var v := OwnCertificate(b, env, h).value.vertex;
      MaybeAdvanceNotes(RecordCert(b.(emitted := b.emitted + {h}), v), env, p);
    }
  }

  lemma ProposalNotes(b: Book, env: Env, q: Proposal, p: Proposal)
    ensures Keeps(b, OnVertexProposal(b, env, q).book, p)
  {
    ProposalCases(b, env, q);
  }

  lemma HandleNotes(b: Book, env: Env, e: Event, p: Proposal)
    requires BookInv(b, env.set_)
    ensures Keeps(b, Handle(b, env, e).book, p)
  {
    hide VertexCert.TryFinalize, VertexCert.MaybeAdvance, VertexCert.OnVertexProposal, VertexCert.OnVertexPartial;
    match e
    case Start => if !b.started { ProposeNotes(b.(started := true), env, 0, [], p); }
    case ProposalReceived(q) => ProposalNotes(b, env, q, p);
    case PartialReceived(bp) =>
      PartialCases(b, env, bp);
      FinalizeNotes(Stored(b, bp), env, bp.vertexHash, p);
    case CertReceived(cv) => MaybeAdvanceNotes(RecordCert(b, cv.vertex), env, p);
    case TimerFired(id) =>
  }

  lemma {:induction false} StaysNoted(w: World, run: seq<Net>, labels: seq<Label>, s: nat, t: nat, i: Id, p: Proposal)
    requires Distinct(w.set_) && Run(w, run, labels) && s <= t < |run| && i in run[s].books
    ensures i in run[t].books && Keeps(run[s].books[i], run[t].books[i], p)
  {
    hide VertexCert.Handle, Noted, VertexNetwork.NodeInv, VertexNetwork.Deliverable;
    if s < t {
      StaysNoted(w, run, labels, s, t - 1, i, p);
      RunInv(w, run, labels, t - 1);
      var l := labels[t - 1];
      assert NodeStep(w, run[t - 1], run[t], l.node, l.env, l.event);
      if l.node == i {
        HandleNotes(run[t - 1].books[i], l.env, l.event, p);
      }
    }
  }

  // In step `t` node `i` handles proposal `p` of a peer, in its window.
  ghost predicate Receives(w: World, run: seq<Net>, labels: seq<Label>, t: nat, i: Id, p: Proposal) {
    && t < |labels| < |run| && labels[t].node == i && labels[t].event == ProposalReceived(p)
    && i in run[t].books && Genuine(w.set_, p) && p.vertex.author != i
    && Open(run[t].books[i].currentRound, p.vertex.round)
  }

  // In step `t` evidence against the author of both is published, in this order.
  ghost predicate Reports(run: seq<Net>, labels: seq<Label>, t: nat, p: Proposal, q: Proposal)
    requires t < |labels| < |run| && labels[t].node in run[t].books
  {
    ActionsAt(run, labels, t) == [EmitEvidence(p.vertex.author, Equivocation(p.vertex.author, p, q))]
  }

  lemma ReceiptNotes(w: World, run: seq<Net>, labels: seq<Label>, t: nat, i: Id, p: Proposal)
    requires Distinct(w.set_) && Run(w, run, labels) && Receives(w, run, labels, t, i, p)
    ensures i in run[t + 1].books && run[t].books[i].selfId == i
    ensures if Free(run[t].books[i], p) then Noted(run[t + 1].books[i], p)
            else Reports(run, labels, t, Held(run[t].books[i], SlotOf(p)).value, p)
  {
    hide VertexNetwork.Deliverable, VertexCert.OnVertexProposal;
    RunInv(w, run, labels, t);
    var l, b := labels[t], run[t].books[i];
    assert NodeStep(w, run[t], run[t + 1], l.node, l.env, l.event);
    hide VertexInvariant.BookInv, VotesOk, VotesOnce, ProposalsOk, CertifiedOk, StoredOk;
    NotesOrReports(b, l.env, p);
    if !Free(b, p) { HeldIsGenuine(b, w.set_, SlotOf(p)); }
  }

  /** Over a whole run: of two different genuine proposals of one slot that a node
      handles while the slot is in its window, the second is reported together with the
      first, whatever happens in between, unless the first was already reported together
      with another one held before it. */
  lemma SecondIsReported(w: World, run: seq<Net>, labels: seq<Label>, s: nat, t: nat, i: Id, p: Proposal, q: Proposal)
    requires Distinct(w.set_) && Run(w, run, labels) && s < t
    requires Receives(w, run, labels, s, i, p) && Receives(w, run, labels, t, i, q)
    requires p.vertex.round == q.vertex.round && p.vertex.author == q.vertex.author && p != q
    ensures if Free(run[s].books[i], p) then Reports(run, labels, t, p, q)
            else Reports(run, labels, s, Held(run[s].books[i], SlotOf(p)).value, p)
  {
    hide VertexCert.Handle;
    ReceiptNotes(w, run, labels, s, i, p);
    ReceiptNotes(w, run, labels, t, i, q);
    StaysNoted(w, run, labels, s + 1, t, i, p);
  }
}
