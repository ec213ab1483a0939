/** What every handler of one node keeps, whatever messages arrive. */
module VertexInvariant {
  import opened Validators
  import opened Signatures
  import opened Certificates
  import opened VertexCert

  // Own proposals: signed, filed under their hash, one per round.
  ghost predicate OwnProposals(mine: map<Hash, Proposal>, started: bool, self: Id, current: nat) {
    && (forall h :: h in mine ==>
          var v := mine[h].vertex;
          && started && v.hash == h == ContentHash(v) && v.author == self
          && v.round <= current
          && mine[h].sig == Signed(self, VERTEX_PROPOSAL, SigningBytes(v)))
    && (forall g, h :: g in mine && h in mine && mine[g].vertex.round == mine[h].vertex.round ==> g == h)
  }

  ghost predicate MineOk(b: Book) {
    OwnProposals(b.mine, b.started, b.selfId, b.currentRound)
  }

  // Stored partials verify, and belong to own vertices.
  ghost predicate Collected(collecting: map<Hash, map<Id, VSig>>, mine: map<Hash, Proposal>, emitted: set<Hash>,
                            set_: ValidatorSet) {
    && collecting.Keys <= mine.Keys
    && emitted <= mine.Keys
    && (forall h, v :: h in collecting && v in collecting[h] ==>
          v in set_ && collecting[h][v] == Signed(v, VERTEX_CERT, SigningBytes(mine[h].vertex)))
  }

  ghost predicate CollectOk(b: Book, set_: ValidatorSet) {
    Collected(b.collecting, b.mine, b.emitted, set_)
  }

  // One verified proposal per key, at most one round ahead.
  ghost predicate SeenProposals(seen: map<Key, seq<Proposal>>, set_: ValidatorSet, started: bool, self: Id,
                                current: nat) {
    forall k :: k in seen ==>
      && |seen[k]| == 1
      && var p := seen[k][0];
         && p.vertex.round == k.round && p.vertex.author == k.author
         && p.vertex.hash == ContentHash(p.vertex) && VerifyProposal(set_, p)
         && k.round <= current + 1
         && (k.author == self ==> started && k.round <= current)
  }

  ghost predicate SeenOk(b: Book, set_: ValidatorSet) {
    SeenProposals(b.seen, set_, b.started, b.selfId, b.currentRound)
  }

  ghost predicate VotedKeys(voted: set<Key>, set_: ValidatorSet, started: bool, self: Id, current: nat) {
    forall k :: k in voted ==>
      && k.author in set_ && k.round <= current + 1
      && (k.author == self ==> started && k.round <= current)
  }

  ghost predicate VotedOk(b: Book, set_: ValidatorSet) {
    VotedKeys(b.voted, set_, b.started, b.selfId, b.currentRound)
  }

  ghost predicate Core(b: Book, set_: ValidatorSet) {
    && b.selfId in set_
    && (!b.started ==> b.currentRound == 0)
    && MineOk(b) && CollectOk(b, set_) && SeenOk(b, set_) && VotedOk(b, set_)
  }

  // Nothing older than the previous round is remembered.
  ghost predicate Trimmed(b: Book) {
    && (forall k :: k in b.seen ==> k.round + 1 >= b.currentRound)
    && (forall k :: k in b.voted ==> k.round + 1 >= b.currentRound)
  }

  ghost predicate BookInv(b: Book, set_: ValidatorSet) {
    Core(b, set_) && Trimmed(b)
  }

  // `round` is later than every round this node has proposed.
  ghost predicate NewRound(b: Book, round: nat) {
    forall h :: h in b.mine ==> b.mine[h].vertex.round < round
  }

  ghost predicate NewKey(b: Book, round: nat) {
    && (forall k :: k in b.seen && k.author == b.selfId ==> k.round < round)
    && (forall k :: k in b.voted && k.author == b.selfId ==> k.round < round)
  }

  lemma ProposeMine(b: Book, env: Env, round: nat, parents: seq<Hash>)
    requires MineOk(b) && b.started && round >= b.currentRound && NewRound(b, round)
    ensures MineOk(Propose(b, env, round, parents).book)
    ensures MakeProposal(b, env, round, parents).vertex.hash !in b.mine
  {
  }

  /** A new proposal starts with exactly one partial, the node's own, so it is not
      ready for a certificate when a quorum has more than one member. */
  lemma ProposeCollect(b: Book, env: Env, round: nat, parents: seq<Hash>)
    requires b.selfId in env.set_ && MineOk(b) && CollectOk(b, env.set_) && NewRound(b, round)
    ensures var h := MakeProposal(b, env, round, parents).vertex.hash;
            var m := Propose(b, env, round, parents).book.collecting;
            h in m && m[h].Keys == {b.selfId} && |m[h]| == 1
    ensures CollectOk(Propose(b, env, round, parents).book, env.set_)
  {
    var h := MakeProposal(b, env, round, parents).vertex.hash;
    assert h !in b.mine;
    assert Slot(b, h) == map[];
    var m := Propose(b, env, round, parents).book.collecting[h];
    assert m.Keys == {b.selfId};
    assert |m| == |m.Keys|;
  }

  lemma ProposeKeys(b: Book, env: Env, round: nat, parents: seq<Hash>)
    requires b.selfId in env.set_ && SeenOk(b, env.set_) && VotedOk(b, env.set_)
    requires b.started && round >= b.currentRound && NewKey(b, round)
    ensures SeenOk(Propose(b, env, round, parents).book, env.set_)
    ensures VotedOk(Propose(b, env, round, parents).book, env.set_)
  {
    assert SeenAt(b, Key(round, b.selfId)) == [];
  }

  // What one round of advancing leaves alone.
  lemma ProposeNextFrame(b: Book, env: Env)
    requires CertifiedCount(b, b.currentRound) >= Need(env)
    ensures var c := ProposeNext(b, env).book;
            && c.currentRound == b.currentRound + 1 && c.certified == b.certified
            && c.started == b.started && c.selfId == b.selfId && c.roundTimer.Some?
  {
  }

  lemma {:induction false} AdvanceMine(b: Book, env: Env)
    requires MineOk(b) && b.started
    ensures MineOk(AdvanceLoop(b, env).book)
    decreases |AheadOf(b)|
  {
    if CertifiedCount(b, b.currentRound) >= Need(env) {
      ProposeMine(b, env, b.currentRound + 1, ValuesInOrder(b.certified[b.currentRound], Need(env)));
      ProposeNextFrame(b, env);
      AdvanceMine(ProposeNext(b, env).book, env);
    }
  }

  lemma {:induction false} AdvanceCollect(b: Book, env: Env)
    requires b.selfId in env.set_ && MineOk(b) && b.started && CollectOk(b, env.set_)
    ensures CollectOk(AdvanceLoop(b, env).book, env.set_)
    decreases |AheadOf(b)|
  {
    if CertifiedCount(b, b.currentRound) >= Need(env) {
      var parents := ValuesInOrder(b.certified[b.currentRound], Need(env));
      ProposeMine(b, env, b.currentRound + 1, parents);
      ProposeCollect(b, env, b.currentRound + 1, parents);
      ProposeNextFrame(b, env);
      AdvanceCollect(ProposeNext(b, env).book, env);
    }
  }

  lemma {:induction false} AdvanceKeys(b: Book, env: Env)
    requires b.selfId in env.set_ && SeenOk(b, env.set_) && VotedOk(b, env.set_) && b.started
    ensures SeenOk(AdvanceLoop(b, env).book, env.set_)
    ensures VotedOk(AdvanceLoop(b, env).book, env.set_)
    decreases |AheadOf(b)|
  {
    if CertifiedCount(b, b.currentRound) >= Need(env) {
      ProposeKeys(b, env, b.currentRound + 1, ValuesInOrder(b.certified[b.currentRound], Need(env)));
      ProposeNextFrame(b, env);
      AdvanceKeys(ProposeNext(b, env).book, env);
    }
  }

  /** Advancing terminates on any recorded certificates, future rounds included,
      and stops at the first round with fewer certificates than a quorum. */
  lemma {:induction false} AdvanceStops(b: Book, env: Env)
    ensures var c := AdvanceLoop(b, env).book;
            && c.started == b.started && c.selfId == b.selfId && c.certified == b.certified
            && c.currentRound >= b.currentRound
            && (b.roundTimer.Some? ==> c.roundTimer.Some?)
            && CertifiedCount(b, c.currentRound) < Need(env)
    ensures var c := AdvanceLoop(b, env).book;
            forall r :: b.currentRound <= r < c.currentRound ==> CertifiedCount(b, r) >= Need(env)
    decreases |AheadOf(b)|
  {
    if CertifiedCount(b, b.currentRound) >= Need(env) {
      ProposeNextFrame(b, env);
      var n := ProposeNext(b, env).book;
      AdvanceStops(n, env);
      assert forall r :: CertifiedCount(n, r) == CertifiedCount(b, r);
    }
  }

  // `done` are the first actions of advancing with result `all`, and `b` is the
  // book they lead to.
  ghost predicate Progress(all: Step, done: seq<Action>, b: Book, env: Env) {
    all == Step(AdvanceLoop(b, env).book, done + AdvanceLoop(b, env).actions, true)
  }

  lemma ProgressStep(all: Step, done: seq<Action>, b: Book, env: Env)
    requires Progress(all, done, b, env) && CertifiedCount(b, b.currentRound) >= Need(env)
    ensures var s := ProposeNext(b, env); Progress(all, done + s.actions, s.book, env)
  {
    var s := ProposeNext(b, env);
    var t := AdvanceLoop(s.book, env);
    assert AdvanceLoop(b, env) == Step(t.book, s.actions + t.actions, true);
    assert done + (s.actions + t.actions) == (done + s.actions) + t.actions;
  }

  lemma ProgressDone(all: Step, done: seq<Action>, b: Book, env: Env)
    requires Progress(all, done, b, env) && CertifiedCount(b, b.currentRound) < Need(env)
    ensures all == Step(b, done, true)
  {
    assert done + [] == done;
  }

  lemma AdvanceKeeps(b: Book, env: Env)
    requires Core(b, env.set_) && b.started
    ensures Core(AdvanceLoop(b, env).book, env.set_)
  {
    AdvanceStops(b, env);
    AdvanceMine(b, env);
    AdvanceCollect(b, env);
    AdvanceKeys(b, env);
  }

  lemma PruneKeeps(b: Book, set_: ValidatorSet)
    requires Core(b, set_)
    ensures BookInv(Prune(b), set_)
    ensures Prune(b).currentRound == b.currentRound && Prune(b).started == b.started
    ensures CertifiedCount(Prune(b), b.currentRound) == CertifiedCount(b, b.currentRound)
  {
    var p := Prune(b);
    assert MineOk(p);
    assert CollectOk(p, set_);
    assert SeenOk(p, set_);
    assert VotedOk(p, set_);
  }

  lemma MaybeAdvanceKeeps(b: Book, env: Env)
    requires BookInv(b, env.set_)
    ensures var s := MaybeAdvance(b, env);
            && BookInv(s.book, env.set_) && s.ok && s.book.started == b.started
            && (b.started ==> CertifiedCount(s.book, s.book.currentRound) < Need(env))
  {
    if b.started {
      AdvanceStops(b, env);
      AdvanceKeeps(b, env);
      PruneKeeps(AdvanceLoop(b, env).book, env.set_);
    }
  }

  lemma RecordKeeps(b: Book, set_: ValidatorSet, v: Vertex)
    requires BookInv(b, set_)
    ensures BookInv(RecordCert(b, v), set_)
  {
  }

  // ---------------------------------------------------------------------
  // Assembly never fails its own check
  // ---------------------------------------------------------------------

  lemma {:induction false} ContributorsAre(set_: ValidatorSet, voters: seq<Id>, sigs: map<Id, VSig>)
    requires forall x :: x in voters ==> x in sigs && x in set_
    ensures |ContributorsFrom(set_, voters, sigs)| == |voters|
    ensures forall j :: 0 <= j < |voters| ==>
              voters[j] in voters && ContributorsFrom(set_, voters, sigs)[j]
                  == (IndexOf(set_, voters[j]).value, sigs[voters[j]])
  {
    if voters != [] {
      var front, last := voters[..|voters| - 1], voters[|voters| - 1];
      assert last in voters;
      assert forall x :: x in front ==> x in voters;
      ContributorsAre(set_, front, sigs);
      assert ContributorsFrom(set_, voters, sigs) == ContributorsFrom(set_, front, sigs)
             + [(IndexOf(set_, last).value, sigs[last])];
      forall j | 0 <= j < |voters|
        ensures ContributorsFrom(set_, voters, sigs)[j] == (IndexOf(set_, voters[j]).value, sigs[voters[j]])
      {
        if j < |front| { assert voters[j] == front[j]; }
      }
    }
  }

  lemma ContributorsGood(v: Vertex, set_: ValidatorSet, voters: seq<Id>, sigs: map<Id, VSig>)
    requires Distinct(set_) && Distinct(voters)
    requires forall x :: x in voters ==> x in sigs && x in set_ && sigs[x] == Signed(x, VERTEX_CERT, SigningBytes(v))
    ensures var cs := ContributorsFrom(set_, voters, sigs); |cs| == |voters| && GoodContributors(v, set_, cs)
  {
    ContributorsAre(set_, voters, sigs);
    hide ContributorsFrom;
    var cs := ContributorsFrom(set_, voters, sigs);
    forall i, j | 0 <= i < j < |cs| ensures cs[i].0 != cs[j].0 {
      assert set_[cs[i].0] == voters[i] && set_[cs[j].0] == voters[j];
    }
  }

  /** In every state satisfying the invariant, the certificate built when a
      quorum of partials is in passes verify_certified_vertex. */
  lemma OwnCertificateVerifies(b: Book, env: Env, h: Hash)
    requires Core(b, env.set_) && Distinct(env.set_) && Ready(b, env, h)
    ensures var r := OwnCertificate(b, env, h);
            r.Some? && r.value.vertex == b.mine[h].vertex && VerifyCertifiedVertex(r.value, env.set_).Ok?
  {
    hide Certificates.VerifyCertifiedVertex, Certificates.Assembled, SeenOk, VotedOk;
    OwnContributors(b, env.set_, h);
    AssembledVerifies(b.mine[h].vertex, env.set_, Contributors(env.set_, b.collecting[h]));
    AssembledVertex(b.mine[h].vertex, env.set_, Contributors(env.set_, b.collecting[h]));
  }

  lemma AssembledVertex(v: Vertex, set_: ValidatorSet, cs: seq<Contributor>)
    requires Assembled(v, set_, cs).Ok?
    ensures Assembled(v, set_, cs).value.vertex == v
  {
  }

  // The stored partials of an own vertex, as contributors to its certificate.
  lemma OwnContributors(b: Book, set_: ValidatorSet, h: Hash)
    requires CollectOk(b, set_) && MineOk(b) && Distinct(set_) && h in b.mine && h in b.collecting
    ensures var cs := Contributors(set_, b.collecting[h]);
            && |cs| == |b.collecting[h]| && GoodContributors(b.mine[h].vertex, set_, cs)
            && b.mine[h].vertex.hash == ContentHash(b.mine[h].vertex)
  {
    hide Certificates.GoodContributors, ContributorsFrom;
    var sigs, v := b.collecting[h], b.mine[h].vertex;
    var voters := Sorted(sigs.Keys);
    SortedSpec(sigs.Keys);
    AscendingDistinct(voters);
    assert |sigs| == |sigs.Keys|;
    ContributorsGood(v, set_, voters, sigs);
  }

  // Announcing and recording a certificate keeps the core.
  lemma FinalizeCore(b: Book, set_: ValidatorSet, h: Hash, v: Vertex)
    requires Core(b, set_) && h in b.mine
    ensures Core(RecordCert(b.(emitted := b.emitted + {h}), v), set_)
  {
    var c := RecordCert(b.(emitted := b.emitted + {h}), v);
    hide OwnProposals, SeenProposals, VotedKeys;
    assert CollectOk(c, set_);
  }

  lemma TryFinalizeKeeps(b: Book, env: Env, h: Hash)
    requires BookInv(b, env.set_) && Distinct(env.set_)
    ensures var s := TryFinalize(b, env, h);
            && BookInv(s.book, env.set_) && s.ok && s.book.started == b.started
  {
    if Ready(b, env, h) {
      OwnCertificateVerifies(b, env, h);
      AnnouncedKeeps(b, env.set_, h);
      hide Core, Trimmed, VertexCert.OwnCertificate, VertexCert.MaybeAdvance, VertexCert.RecordCert;
      RecordStarted(b.(emitted := b.emitted + {h}), b.mine[h].vertex);
      MaybeAdvanceKeeps(RecordCert(b.(emitted := b.emitted + {h}), b.mine[h].vertex), env);
    }
  }

  lemma RecordStarted(b: Book, v: Vertex)
    ensures RecordCert(b, v).started == b.started && RecordCert(b, v).roundTimer == b.roundTimer
  {
  }

  lemma AnnouncedKeeps(b: Book, set_: ValidatorSet, h: Hash)
    requires BookInv(b, set_) && h in b.mine
    ensures BookInv(RecordCert(b.(emitted := b.emitted + {h}), b.mine[h].vertex), set_)
  {
    hide Core;
    FinalizeCore(b, set_, h, b.mine[h].vertex);
  }

  // The book after storing a verified partial in its slot.
  function Stored(b: Book, bp: Partial): Book {
    var h := bp.vertexHash;
    b.(collecting := b.collecting[h := Slot(b, h)[bp.voter := bp.sig]])
  }

  predicate Accepts(b: Book, env: Env, bp: Partial) {
    && bp.author == b.selfId && bp.voter != b.selfId && bp.vertexHash in b.mine
    && bp.voter !in Slot(b, bp.vertexHash) && VerifyPartial(env.set_, bp, b.mine[bp.vertexHash].vertex)
  }

  lemma StoredCollects(b: Book, env: Env, bp: Partial)
    requires CollectOk(b, env.set_) && Accepts(b, env, bp)
    ensures CollectOk(Stored(b, bp), env.set_)
  {
    var c := Stored(b, bp);
    forall h, v | h in c.collecting && v in c.collecting[h]
      ensures v in env.set_ && c.collecting[h][v] == Signed(v, VERTEX_CERT, SigningBytes(c.mine[h].vertex))
    {
      if h != bp.vertexHash {
        assert b.collecting[h][v] == c.collecting[h][v];
      }
    }
  }

  lemma StoredKeeps(b: Book, env: Env, bp: Partial)
    requires Core(b, env.set_) && Accepts(b, env, bp)
    ensures Core(Stored(b, bp), env.set_)
  {
    StoredCollects(b, env, bp);
  }

  // A partial either is stored and may finalize, or changes nothing but
  // counters and an empty slot.
  lemma PartialCases(b: Book, env: Env, bp: Partial)
    ensures var s := OnVertexPartial(b, env, bp);
            if Accepts(b, env, bp) then s == TryFinalize(Stored(b, bp), env, bp.vertexHash)
            else s.ok && s.actions == []
                 && (s.book != b ==>
                       && bp.vertexHash in b.mine
                       && s.book == b.(collecting := b.collecting[bp.vertexHash := Slot(b, bp.vertexHash)],
                                       rejected := s.book.rejected, conflicts := s.book.conflicts))
  {
  }

  lemma PartialKeeps(b: Book, env: Env, bp: Partial)
    requires BookInv(b, env.set_) && Distinct(env.set_)
    ensures var s := OnVertexPartial(b, env, bp); BookInv(s.book, env.set_) && s.ok
  {
    PartialCases(b, env, bp);
    if Accepts(b, env, bp) {
      StoredCollects(b, env, bp);
      TryFinalizeKeeps(Stored(b, bp), env, bp.vertexHash);
    } else if OnVertexPartial(b, env, bp).book != b {
      SlotKeeps(b, OnVertexPartial(b, env, bp).book, env.set_, bp.vertexHash);
    }
  }

  lemma SlotKeeps(b: Book, c: Book, set_: ValidatorSet, h: Hash)
    requires BookInv(b, set_) && h in b.mine
    requires c == b.(collecting := b.collecting[h := Slot(b, h)], rejected := c.rejected, conflicts := c.conflicts)
    ensures BookInv(c, set_)
  {
    hide OwnProposals, SeenProposals, VotedKeys;
    forall g, v | g in c.collecting && v in c.collecting[g]
      ensures v in set_ && c.collecting[g][v] == Signed(v, VERTEX_CERT, SigningBytes(c.mine[g].vertex))
    {
      assert g in b.collecting && v in b.collecting[g];
    }
  }

  // When the handler goes on to vote.
  predicate Votable(b: Book, env: Env, p: Proposal) {
    var v := p.vertex;
    && v.hash == ContentHash(v) && VerifyProposal(env.set_, p)
    && v.author != b.selfId && RoundInWindow(b, v.round) && !Conflicting(b, p)
    && (v.round == 0 ==> v.parents == [])
    && (v.round > 0 ==> |v.parents| >= Need(env) && KnownParents(b, v.round - 1, v.parents))
  }

  // A proposal is voted for, or changes at most a counter and its own key in `seen`.
  lemma ProposalCases(b: Book, env: Env, p: Proposal)
    ensures var s := OnVertexProposal(b, env, p);
            if Votable(b, env, p) then s == Vote(NoteSeen(b, p), p)
            else
              && s.ok
              && (s.actions == [] || (|s.actions| == 1 && s.actions[0].EmitEvidence?))
              && (|| s.book == b.(rejected := s.book.rejected)
                  || (&& s.book == NoteSeen(b, p).(rejected := s.book.rejected)
                      && p.vertex.author != b.selfId && RoundInWindow(b, p.vertex.round)
                      && p.vertex.hash == ContentHash(p.vertex) && VerifyProposal(env.set_, p)))
  {
  }

  lemma NoteSeenKeeps(b: Book, set_: ValidatorSet, p: Proposal)
    requires BookInv(b, set_) && p.vertex.author != b.selfId && RoundInWindow(b, p.vertex.round)
    requires p.vertex.hash == ContentHash(p.vertex) && VerifyProposal(set_, p)
    ensures BookInv(NoteSeen(b, p), set_)
  {
    assert SeenOk(NoteSeen(b, p), set_);
  }

  lemma VoteKeepsBook(b: Book, set_: ValidatorSet, p: Proposal)
    requires BookInv(b, set_) && p.vertex.author != b.selfId && RoundInWindow(b, p.vertex.round)
    requires p.vertex.author in set_
    ensures BookInv(Vote(b, p).book, set_)
  {
    assert VotedOk(Vote(b, p).book, set_);
  }

  lemma CountersKeep(b: Book, c: Book, set_: ValidatorSet)
    requires BookInv(b, set_)
    requires c == b.(rejected := c.rejected, conflicts := c.conflicts, stalled := c.stalled,
                     roundTimer := c.roundTimer, retries := c.retries, nextTimer := c.nextTimer)
    ensures BookInv(c, set_)
  {
  }

  lemma ProposalKeeps(b: Book, env: Env, p: Proposal)
    requires BookInv(b, env.set_)
    ensures var s := OnVertexProposal(b, env, p); BookInv(s.book, env.set_) && s.ok
  {
    ProposalCases(b, env, p);
    var c, n := OnVertexProposal(b, env, p).book, NoteSeen(b, p);
    if Votable(b, env, p) {
      NoteSeenKeeps(b, env.set_, p);
      VoteKeepsBook(n, env.set_, p);
    } else if c == b.(rejected := c.rejected) {
      CountersKeep(b, c, env.set_);
    } else {
      NoteSeenKeeps(b, env.set_, p);
      CountersKeep(n, c, env.set_);
    }
  }

  lemma GenesisKeeps(b: Book, env: Env)
    requires BookInv(b, env.set_)
    ensures var s := Genesis(b, env); BookInv(s.book, env.set_) && s.ok
  {
    if !b.started {
      var b1 := b.(started := true);
      ProposeMine(b1, env, 0, []);
      ProposeCollect(b1, env, 0, []);
      ProposeKeys(b1, env, 0, []);
    }
  }

  lemma TimerKeeps(b: Book, env: Env, id: nat)
    requires BookInv(b, env.set_)
    ensures var s := OnTimerFired(b, env, id); BookInv(s.book, env.set_) && s.ok
  {
    CountersKeep(b, OnTimerFired(b, env, id).book, env.set_);
  }

  /** Every event keeps the invariant and no handler ever returns an error. */
  lemma HandleKeeps(b: Book, env: Env, e: Event)
    requires BookInv(b, env.set_) && Distinct(env.set_)
    ensures BookInv(Handle(b, env, e).book, env.set_) && Handle(b, env, e).ok
  {
    match e
    case Start => GenesisKeeps(b, env);
    case ProposalReceived(p) => ProposalKeeps(b, env, p);
    case PartialReceived(bp) => PartialKeeps(b, env, bp);
    case CertReceived(cv) => RecordKeeps(b, env.set_, cv.vertex); MaybeAdvanceKeeps(RecordCert(b, cv.vertex), env);
    case TimerFired(id) => TimerKeeps(b, env, id);
  }

  // ---------------------------------------------------------------------
  // Memory bound
  // ---------------------------------------------------------------------

  function Row(r: nat, ids: set<Id>): set<Key> {
    set a | a in ids :: Key(r, a)
  }

  lemma {:induction false} RowSize(r: nat, ids: set<Id>)
    ensures |Row(r, ids)| == |ids|
  {
    if ids != {} {
      var x :| x in ids;
      RowSize(r, ids - {x});
      assert Row(r, ids) == Row(r, ids - {x}) + {Key(r, x)};
    }
  }

  /** At every resting point at most 3n keys are remembered for votes and for
      proposals, each within one round of the current one, with one proposal each. */
  lemma MemoryBound(b: Book, set_: ValidatorSet)
    requires BookInv(b, set_) && Distinct(set_)
    ensures |b.voted| <= 3 * |set_| && |b.seen| <= 3 * |set_|
    ensures forall k :: k in b.voted || k in b.seen ==> RoundInWindow(b, k.round) && k.author in set_
    ensures forall k :: k in b.seen ==> |b.seen[k]| == 1
  {
    WithinWindow(b, set_, b.voted);
    WithinWindow(b, set_, b.seen.Keys);
    assert |b.seen| == |b.seen.Keys|;
  }

  lemma WithinWindow(b: Book, set_: ValidatorSet, keys: set<Key>)
    requires Distinct(set_)
    requires forall k :: k in keys ==> RoundInWindow(b, k.round) && k.author in set_
    ensures |keys| <= 3 * |set_|
  {
    DistinctSize(set_);
    var r := if b.currentRound == 0 then 0 else b.currentRound - 1;
    assert forall k :: k in keys ==> k.round == r || k.round == r + 1 || k.round == r + 2;
    ThreeRows(r, Members(set_), keys);
  }

  lemma ThreeRows(r: nat, ids: set<Id>, keys: set<Key>)
    requires forall k :: k in keys ==> k.author in ids && (k.round == r || k.round == r + 1 || k.round == r + 2)
    ensures |keys| <= 3 * |ids|
  {
    RowSize(r, ids);
    RowSize(r + 1, ids);
    RowSize(r + 2, ids);
    var x, y, z := keys * Row(r, ids), keys * Row(r + 1, ids), keys * Row(r + 2, ids);
    forall k | k in keys ensures k in x + y + z {
      assert k == Key(k.round, k.author);
    }
    assert keys == x + y + z;
    SubsetSize(x, Row(r, ids));
    SubsetSize(y, Row(r + 1, ids));
    SubsetSize(z, Row(r + 2, ids));
  }

  // ---------------------------------------------------------------------
  // When a node names a fallback timer
  // ---------------------------------------------------------------------

  ghost predicate Resting(b: Book, env: Env) {
    b.started ==> b.roundTimer.Some? && CertifiedCount(b, b.currentRound) < Need(env)
  }

  lemma MaybeAdvanceRests(b: Book, env: Env)
    requires BookInv(b, env.set_) && (b.started ==> b.roundTimer.Some?)
    ensures Resting(MaybeAdvance(b, env).book, env)
  {
    MaybeAdvanceKeeps(b, env);
    if b.started {
      AdvanceStops(b, env);
    }
  }

  lemma TryFinalizeRests(b: Book, env: Env, h: Hash)
    requires BookInv(b, env.set_) && Distinct(env.set_) && Resting(b, env)
    ensures Resting(TryFinalize(b, env, h).book, env)
  {
    if Ready(b, env, h) {
      OwnCertificateVerifies(b, env, h);
      AnnouncedKeeps(b, env.set_, h);
      hide BookInv, VertexCert.OwnCertificate, VertexCert.MaybeAdvance, VertexCert.RecordCert;
      RecordStarted(b.(emitted := b.emitted + {h}), b.mine[h].vertex);
      MaybeAdvanceRests(RecordCert(b.(emitted := b.emitted + {h}), b.mine[h].vertex), env);
    }
  }

  /** Every event leaves the node either not started or with a fallback timer
      pending and its current round short of a quorum. The one exception is the
      start itself: it rests exactly when fewer than a quorum of round-0
      certificates were recorded before it, so hosts must start first. */
  lemma HandleRests(b: Book, env: Env, e: Event)
    requires BookInv(b, env.set_) && Distinct(env.set_) && Resting(b, env)
    ensures Resting(Handle(b, env, e).book, env)
            <==> !(e.Start? && !b.started && CertifiedCount(b, 0) >= Need(env))
  {
    hide Core, Trimmed;
    match e
    case Start =>
    case ProposalReceived(p) => ProposalCases(b, env, p);
    case PartialReceived(bp) => PartialRests(b, env, bp);
    case CertReceived(cv) => CertRests(b, env, cv);
    case TimerFired(id) =>
  }

  lemma PartialRests(b: Book, env: Env, bp: Partial)
    requires BookInv(b, env.set_) && Distinct(env.set_) && Resting(b, env)
    ensures Resting(OnVertexPartial(b, env, bp).book, env)
  {
    hide VertexCert.OnVertexPartial, VertexCert.TryFinalize;
    PartialCases(b, env, bp);
    if Accepts(b, env, bp) {
      StoredCollects(b, env, bp);
      TryFinalizeRests(Stored(b, bp), env, bp.vertexHash);
    }
  }

  lemma CertRests(b: Book, env: Env, cv: CertifiedVertex)
    requires BookInv(b, env.set_) && Resting(b, env)
    ensures Resting(OnCertifiedVertex(b, env, cv).book, env)
  {
    hide VertexCert.MaybeAdvance, VertexCert.RecordCert, BookInv;
    RecordKeeps(b, env.set_, cv.vertex);
    RecordStarted(b, cv.vertex);
    MaybeAdvanceRests(RecordCert(b, cv.vertex), env);
  }

  /** Before the start, certificates are recorded without advancing; starting on
      top of a recorded quorum leaves a timer whose firing arms no successor. */
  lemma LateStartLosesTheTimer(b: Book, env: Env)
    requires !b.started && CertifiedCount(b, 0) >= Need(env)
    ensures var started := Genesis(b, env).book;
            && started.roundTimer.Some?
            && var fired := OnTimerFired(started, env, started.roundTimer.value);
               fired.book.roundTimer.None? && fired.actions == []
  {
  }
}
