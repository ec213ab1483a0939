/** What proposals a node sends over a run: exactly when two of them are for one height,
    and exactly when that makes other nodes accuse it. */
module MacroProposals {
  import opened Validators
  import opened Worlds
  import opened Signatures
  import opened MacroQcs
  import opened MacroFin
  import opened MacroInvariant
  import opened MacroSteps
  import opened MacroNetwork
  import opened MacroHistory
  import opened MacroLimits

  // The proposals that a list of actions sends.
  ghost function Offers(actions: seq<Action>): set<Proposal> {
    set a | a in actions && a.SendProposal? :: a.proposal
  }

  lemma OffersAppend(a: seq<Action>, b: seq<Action>)
    ensures Offers(a + b) == Offers(a) + Offers(b)
  {
  }

  // Two proposals for one height.
  ghost predicate Conflict(sent: set<Proposal>) {
    exists p, q :: p in sent && q in sent && p.cp.height == q.cp.height && p.cp.hash != q.cp.hash
  }

  // What is known of the proposals a node has sent.
  ghost predicate SentOk(sent: set<Proposal>, b: Book) {
    forall p :: p in sent ==>
      && p.proposer == b.selfId && Sound(p.cp)
      && p.sig == Signed(p.proposer, MACRO_PROPOSER_SIG, ProposerMsg(p.proposer, p.cp.hash))
      && p.cp.height <= b.nextHeight && p.cp.height in b.proposed
      && (p.cp.height == b.nextHeight ==> p.cp.parent == b.lastHash)
  }

  ghost predicate Onward(b: Book, c: Book) {
    && c.selfId == b.selfId && b.proposed <= c.proposed
    && ((c.nextHeight == b.nextHeight && c.lastHash == b.lastHash) || c.nextHeight > b.nextHeight)
  }

  lemma OnwardKeeps(sent: set<Proposal>, b: Book, c: Book)
    requires SentOk(sent, b) && Onward(b, c)
    ensures SentOk(sent, c)
  {
  }

  // ---------------------------------------------------------------------
  // The window fills
  // ---------------------------------------------------------------------

  // The push fills the window of the primary, and a proposal already sent for the
  // height was over another window.
  ghost predicate Refill(b: Book, env: Env, sent: set<Proposal>, h: nat) {
    && |b.ring + [h]| >= env.window && env.primary(env.beacon, b.nextHeight) == b.selfId
    && exists p :: p in sent && p.cp.height == b.nextHeight && p.cp.root != OfRing(b.ring + [h])
  }

  // One of the pushes of the list does so.
  ghost predicate RefillIn(b: Book, env: Env, sent: set<Proposal>, hashes: seq<nat>) {
    hashes != [] &&
    var m := |hashes| - 1;
    var s := OnLocalMicroQcs(b, env, hashes[..m]);
    RefillIn(b, env, sent, hashes[..m]) || Refill(s.book, env, sent + Offers(s.actions), hashes[m])
  }

  ghost predicate RefillAt(b: Book, env: Env, sent: set<Proposal>, e: Event) {
    e.MicroQcs? && RefillIn(b, env, sent, e.hashes)
  }

  ghost predicate NoCharge(actions: seq<Action>) {
    forall a :: a in actions ==> !a.EmitEvidence?
  }

  // What a push sends.
  lemma PushOffers(b: Book, env: Env, h: nat)
    ensures var s := PushMicro(b, env, h);
            && Onward(b, s.book) && s.book.nextHeight == b.nextHeight && s.book.seen == b.seen && NoCharge(s.actions)
            && if |b.ring + [h]| >= env.window && env.primary(env.beacon, b.nextHeight) == b.selfId
               then b.nextHeight in s.book.proposed
                   && exists p :: Offers(s.actions) == {p} && FullOffer(b, b.ring + [h], p)
               else Offers(s.actions) == {}
  {
    var ring := b.ring + [h];
    if |ring| >= env.window {
      var c := NewCandidate(b, env, ring);
      var turn := TurnOf(env, b.selfId, b.nextHeight);
      var s := Announce(c, env, turn);
      var t := ArmModeB(s.book, env);
      OffersAppend(s.actions, t.actions);
      assert Offers(t.actions) == {};
      if turn == Propose {
        var p := MakeProposal(c, env, c.candidate[c.nextHeight], env.beacon);
        assert s.actions == [SendProposal(p)];
        assert Offers(s.actions) == {p};
        assert FullOffer(b, ring, p);
      } else {
        assert Offers(s.actions) == {};
      }
    }
  }

  // The proposal of the candidate for a full window.
  ghost predicate FullOffer(b: Book, ring: seq<nat>, p: Proposal) {
    && p.proposer == b.selfId && p.cp == Build(b.nextHeight, 0, b.lastHash, OfRing(ring))
    && p.sig == Signed(p.proposer, MACRO_PROPOSER_SIG, ProposerMsg(p.proposer, p.cp.hash))
  }

  // One more proposal conflicts exactly with those of its height and another root.
  lemma OneMore(b: Book, sent: set<Proposal>, p: Proposal)
    requires SentOk(sent, b) && Sound(p.cp) && p.cp.height == b.nextHeight && p.cp.parent == b.lastHash
    ensures Conflict(sent + {p})
            <==> Conflict(sent) || exists x :: x in sent && x.cp.height == b.nextHeight && x.cp.root != p.cp.root
  {
    if Conflict(sent + {p}) && !Conflict(sent) {
      var x, y :| x in sent + {p} && y in sent + {p} && x.cp.height == y.cp.height && x.cp.hash != y.cp.hash;
      if x == p { assert y in sent; } else { assert x in sent; }
    }
    if x :| x in sent && x.cp.height == b.nextHeight && x.cp.root != p.cp.root {
      assert x in sent + {p} && p in sent + {p} && x.cp.hash != p.cp.hash;
    }
    if Conflict(sent) {
      var x, y :| x in sent && y in sent && x.cp.height == y.cp.height && x.cp.hash != y.cp.hash;
      assert x in sent + {p} && y in sent + {p};
    }
  }

  // A set of sent proposals grows by what a step sends, in the sense of SentOk.
  ghost predicate Accounts(b: Book, s: MStep, sent: set<Proposal>, refill: bool) {
    && SentOk(sent + Offers(s.actions), s.book)
    && (Conflict(sent + Offers(s.actions)) <==> Conflict(sent) || refill)
  }

  lemma PushAccounts(b: Book, env: Env, sent: set<Proposal>, h: nat)
    requires SentOk(sent, b)
    ensures Accounts(b, PushMicro(b, env, h), sent, Refill(b, env, sent, h))
  {
    hide MacroFin.PushMicro, Conflict, Sound;
    var s := PushMicro(b, env, h);
    PushOffers(b, env, h);
    OnwardKeeps(sent, b, s.book);
    if Offers(s.actions) == {} {
      assert sent + {} == sent;
    } else {
      var p :| Offers(s.actions) == {p} && FullOffer(b, b.ring + [h], p);
      BuildIsSound(b.nextHeight, b.lastHash, OfRing(b.ring + [h]));
      OneMore(b, sent, p);
    }
  }

  lemma BuildIsSound(height: nat, parent: MHash, root: Root)
    ensures var cp := Build(height, 0, parent, root);
            Sound(cp) && cp.height == height && cp.parent == parent && cp.root == root
  {
  }

  lemma {:induction false} MicroAccounts(b: Book, env: Env, sent: set<Proposal>, hashes: seq<nat>)
    requires SentOk(sent, b)
    ensures var s := OnLocalMicroQcs(b, env, hashes);
            Accounts(b, s, sent, RefillIn(b, env, sent, hashes)) && s.book.seen == b.seen && NoCharge(s.actions)
  {
    hide MacroFin.PushMicro, Conflict, SentOk, Refill;
    if hashes == [] {
      assert Offers([]) == {};
      assert sent + {} == sent;
    } else {
      var m := |hashes| - 1;
      var s := OnLocalMicroQcs(b, env, hashes[..m]);
      var t := PushMicro(s.book, env, hashes[m]);
      MicroAccounts(b, env, sent, hashes[..m]);
      PushAccounts(s.book, env, sent + Offers(s.actions), hashes[m]);
      PushOffers(s.book, env, hashes[m]);
      OffersAppend(s.actions, t.actions);
      assert sent + Offers(s.actions) + Offers(t.actions) == sent + Offers(s.actions + t.actions);
    }
  }

  // ---------------------------------------------------------------------
  // The other handlers
  // ---------------------------------------------------------------------

  ghost predicate NoOffer(actions: seq<Action>) {
    forall a :: a in actions ==> !a.SendProposal?
  }

  ghost predicate Quiet(b: Book, s: MStep) {
    NoOffer(s.actions) && b.proposed <= s.book.proposed
  }

  // Also accuses nobody and notes no proposal.
  ghost predicate Calm(b: Book, s: MStep) {
    Quiet(b, s) && NoCharge(s.actions) && s.book.seen == b.seen
  }

  lemma AdoptionQuiet(b: Book, env: Env, cp: Checkpoint, qc: MacroQc, height: nat, head: seq<Action>)
    requires NoOffer(head) && NoCharge(head)
    ensures var s := Adoption(b, env, cp, qc, height, head); Calm(b, s)
  {
    hide MacroFin.NewlyFinalized, MacroFin.Adopt;
  }

  lemma AggregateQuiet(b: Book, env: Env, beacon: nat, hash: MHash, subnet: nat)
    ensures forall a :: a in AggregateActions(b, env, beacon, hash, subnet) ==> a.SendSubnetAgg?
  {
    hide MacroQcs.BuildAggregate;
  }

  lemma ModeAQuiet(b: Book, env: Env, hash: MHash, height: nat)
    requires height in b.candidate
    ensures var s := TryModeA(b, env, hash, height); Calm(b, s)
  {
    hide MacroFin.Adoption, MacroQcs.ModeAQc, MacroFin.BeaconFor;
    var r := ModeAQc(hash, if hash in b.subnetAggs then b.subnetAggs[hash] else map[], env.set_, b.sigs);
    if r.Some? { AdoptionQuiet(b, env, b.candidate[height], r.value, height, [SendQc(r.value)]); }
  }

  lemma SubnetPathQuiet(b: Book, env: Env, bp: BlsPartial, height: nat)
    requires height in b.candidate
    ensures var s := SubnetPath(b, env, bp, height); Calm(b, s)
  {
    hide MacroFin.TryModeA, MacroFin.AggregateActions, MacroFin.SubnetPartialsOf, MacroFin.PartialsOf;
    var c := AddPartial(AddSubnetPartial(b, bp.hash, bp.subnet, bp.validator), bp.hash, bp.validator);
    AggregateQuiet(c, env, BeaconFor(c, env, height), bp.hash, bp.subnet);
    ModeAQuiet(c, env, bp.hash, height);
  }

  lemma FlatPathQuiet(b: Book, env: Env, bp: BlsPartial, height: nat, mode: Mode)
    requires height in b.candidate
    ensures var s := FlatPath(b, env, bp, height, mode); Calm(b, s)
  {
    hide MacroFin.Adoption, MacroQcs.Mode0Qc, MacroFin.PartialsOf;
    var c := AddPartial(b, bp.hash, bp.validator);
    var r := Mode0Qc(bp.hash, PartialsOf(c.partials, bp.hash), c.sigs, env.set_, mode);
    if r.Some? { AdoptionQuiet(c, env, c.candidate[height], r.value, height, [SendQc(r.value)]); }
  }

  lemma KnownHeight(b: Book, hash: MHash)
    requires CandidateHeight(b, hash).Some?
    ensures CandidateHeight(b, hash).value in b.candidate
  {
    assert Minimum(HeightsOf(b.candidate, hash)) in HeightsOf(b.candidate, hash);
  }

  lemma CalmFrom(b: Book, c: Book, s: MStep)
    requires c.proposed == b.proposed && c.seen == b.seen && Calm(c, s)
    ensures Calm(b, s)
  {
  }

  lemma CalmEnd(b: Book, c: Book)
    requires c.proposed == b.proposed && c.seen == b.seen
    ensures Calm(b, MStep(c, []))
  {
  }

  lemma PathQuiet(b: Book, env: Env, bp: BlsPartial, height: nat, mode: Mode)
    requires height in b.candidate
    ensures Calm(b, SubnetPath(b, env, bp, height)) && Calm(b, FlatPath(b, env, bp, height, mode))
  {
    SubnetPathQuiet(b, env, bp, height);
    FlatPathQuiet(b, env, bp, height, mode);
  }

  lemma PartialQuiet(b: Book, env: Env, bp: BlsPartial)
    ensures var s := OnBlsPartial(b, env, bp); Calm(b, s)
  {
    hide MacroFin.SubnetPath, MacroFin.FlatPath, MacroQcs.VerifyPartial, MacroFin.CandidateHeight, MacroFin.ActiveMode;
    hide Calm;
    CalmEnd(b, b);
    if CandidateHeight(b, bp.hash).Some? {
      KnownHeight(b, bp.hash);
      var height := CandidateHeight(b, bp.hash).value;
      var c := b.(sigs := b.sigs[(bp.hash, bp.validator) := bp.sig]);
      CalmEnd(b, b.(rejected := b.rejected + 1));
      CalmEnd(b, c);
      PathQuiet(c, env, bp, height, ActiveMode(c, env, height));
      CalmFrom(b, c, SubnetPath(c, env, bp, height));
      CalmFrom(b, c, FlatPath(c, env, bp, height, ActiveMode(c, env, height)));
    }
  }

  lemma QcQuiet(b: Book, env: Env, qc: MacroQc)
    ensures var s := OnMacroQc(b, env, qc); Calm(b, s)
  {
    hide MacroFin.Adoption, MacroQcs.VerifyMacroQc;
    if CandidateHeight(b, qc.hash).Some? {
      var height := CandidateHeight(b, qc.hash).value;
      AdoptionQuiet(b, env, b.candidate[height], qc, height, []);
    }
  }

  lemma SubnetAggQuiet(b: Book, env: Env, agg: SubnetAgg)
    ensures var s := OnSubnetAggregate(b, env, agg); Calm(b, s)
  {
    hide MacroFin.TryModeA, MacroQcs.VerifySubnetAgg;
    if CandidateHeight(b, agg.hash).Some? {
      ModeAQuiet(StoreAgg(b, agg), env, agg.hash, CandidateHeight(b, agg.hash).value);
    }
  }

  // The first verified proposal of its proposer and height.
  lemma FirstQuiet(b: Book, env: Env, p: Proposal)
    requires Verified(b, env, p) && SeenAt(b, (p.cp.height, p.proposer)) == []
    ensures Quiet(b, OnMacroProposal(b, env, p)) && Judged(b, env, p, OnMacroProposal(b, env, p))
  {
    hide MacroFin.VerifyProposal, MacroFin.ConsiderVote;
    var c, key := NoteBeacon(b, env, p.cp.height), (p.cp.height, p.proposer);
    var beacon := BeaconFor(c, env, p.cp.height);
    var d := c.(seen := c.seen[key := [p]]);
    assert SeenAt(c, key) == [];
    assert OnMacroProposal(b, env, p) == ConsiderVote(d, env, p, beacon);
    ConsiderQuiet(d, env, p, beacon);
  }

  ghost predicate Conflicting(b: Book, p: Proposal) {
    exists q :: q in SeenAt(b, (p.cp.height, p.proposer)) && q.cp.hash != p.cp.hash
  }

  // A verified one that conflicts with an earlier one.
  lemma ConflictQuiet(b: Book, env: Env, p: Proposal)
    requires Verified(b, env, p) && Conflicting(b, p)
    ensures Quiet(b, OnMacroProposal(b, env, p)) && Judged(b, env, p, OnMacroProposal(b, env, p))
  {
    hide MacroFin.VerifyProposal, MacroFin.ConsiderVote;
    var c, key := NoteBeacon(b, env, p.cp.height), (p.cp.height, p.proposer);
    assert SeenAt(c, key) == SeenAt(b, key);
    var a := EmitEvidence(p.proposer, MacroEquivocation(SeenAt(b, key)[0], p));
    assert OnMacroProposal(b, env, p) == MStep(c, [a]);
    assert [a][0] == a;
  }

  // Any other.
  lemma LaterQuiet(b: Book, env: Env, p: Proposal)
    requires !Verified(b, env, p) || (SeenAt(b, (p.cp.height, p.proposer)) != [] && !Conflicting(b, p))
    ensures Quiet(b, OnMacroProposal(b, env, p)) && Judged(b, env, p, OnMacroProposal(b, env, p))
  {
    hide MacroFin.VerifyProposal, MacroFin.ConsiderVote;
    var c, key := NoteBeacon(b, env, p.cp.height), (p.cp.height, p.proposer);
    assert SeenAt(c, key) == SeenAt(b, key);
    assert OnMacroProposal(b, env, p).actions == [];
  }

  // A proposal is noted when it is the first verified one of its proposer and
  // height; nothing else changes what has been seen.
  lemma ProposalQuiet(b: Book, env: Env, p: Proposal)
    ensures Quiet(b, OnMacroProposal(b, env, p)) && Judged(b, env, p, OnMacroProposal(b, env, p))
  {
    hide MacroFin.OnMacroProposal, Quiet, Judged, Verified, Conflicting;
    if Verified(b, env, p) && SeenAt(b, (p.cp.height, p.proposer)) == [] {
      FirstQuiet(b, env, p);
    } else if Verified(b, env, p) && Conflicting(b, p) {
      ConflictQuiet(b, env, p);
    } else {
      LaterQuiet(b, env, p);
    }
  }

  ghost predicate Verified(b: Book, env: Env, p: Proposal) {
    VerifyProposal(env, p, BeaconFor(NoteBeacon(b, env, p.cp.height), env, p.cp.height))
  }

  // What is noted of a proposal and when it makes the node accuse the proposer.
  ghost predicate Judged(b: Book, env: Env, p: Proposal, s: MStep) {
    var key := (p.cp.height, p.proposer);
    && p.cp.height in s.book.beacons
    && BeaconFor(s.book, env, p.cp.height) == BeaconFor(NoteBeacon(b, env, p.cp.height), env, p.cp.height)
    && s.book.seen == (if Verified(b, env, p) && SeenAt(b, key) == [] then b.seen[key := [p]] else b.seen)
    && (forall a :: a in s.actions && a.EmitEvidence? && a.evidence.MacroEquivocation? ==>
          SeenAt(b, key) != [] && a == EmitEvidence(p.proposer, MacroEquivocation(SeenAt(b, key)[0], p)))
    && ((exists a :: a in s.actions && a.EmitEvidence? && a.evidence.MacroEquivocation?) <==>
          Verified(b, env, p) && exists q :: q in SeenAt(b, key) && q.cp.hash != p.cp.hash)
  }

  lemma ConsiderQuiet(b: Book, env: Env, p: Proposal, beacon: nat)
    ensures var s := ConsiderVote(b, env, p, beacon);
            Quiet(b, s) && s.book.seen == b.seen && s.book.beacons == b.beacons
            && forall a :: a in s.actions && a.EmitEvidence? ==> !a.evidence.MacroEquivocation?
  {
    hide MacroFin.AggregateActions, MacroFin.SelfCheck, MacroFin.VotesOf, MacroFin.MakeVote, MacroFin.Adopt;
    hide MacroFin.Acceptable;
    var mode := ActiveMode(b, env, p.cp.height);
    if TryLock(b.locks, b.selfId, p.cp.height, p.cp.hash).Some? {
      var c := CastVote(b, p.cp, TryLock(b.locks, b.selfId, p.cp.height, p.cp.hash).value);
      var d := AnnounceVote(c, env, p.cp, mode, beacon);
      SelfCheckQuiet(c.votes, c.selfId);
      var subnet := env.subnet(beacon, c.selfId);
      AggregateQuiet(d.book, env, beacon, p.cp.hash, subnet);
    }
  }

  lemma SelfCheckQuiet(votes: map<Id, seq<Vote>>, v: Id)
    ensures NoOffer(SelfCheck(votes, v))
    ensures forall a :: a in SelfCheck(votes, v) ==> a.EmitEvidence? && !a.evidence.MacroEquivocation?
  {
    var all := VotesOf(votes, v);
    if |all| >= 2 {
      var m := |all| - 1;
      SurroundExact(all[..m], all[m]);
      DoubleExact(all[..m], all[m]);
    }
  }

  lemma ModeBQuiet(b: Book, env: Env, height: nat)
    ensures var s := ModeBDeadline(b, env, height); Calm(b, s)
  {
    hide MacroFin.PartialsOf, MacroFin.TryLock;
  }

  lemma BackupKeeps(b: Book, env: Env, height: nat)
    ensures var s := BackupPropose(b, env, height);
            b.proposed <= s.book.proposed && s.book.seen == b.seen && NoCharge(s.actions)
  {
    hide MacroFin.MakeProposal, MacroFin.BeaconFor;
  }

  // The backup proposes the candidate of a height for which nothing was proposed.
  lemma BackupOffers(b: Book, env: Env, height: nat)
    ensures var s := BackupPropose(b, env, height);
            (Offers(s.actions) == {} || (&& height !in b.proposed && height in b.candidate && height in s.book.proposed
                                         && exists p :: Offers(s.actions) == {p} && OfferOf(b, height, p)))
  {
    hide OfferOf, MacroFin.MakeProposal, Offers, MacroFin.BeaconFor;
    NoneOffered();
    var s := BackupPropose(b, env, height);
    if s.actions != [] {
      var c := b.(timers := b.timers.(backup := b.timers.backup - {height}));
      OneOffered(c, env, height, BeaconFor(c, env, height));
      SameOffer(b, c, height, MakeProposal(c, env, c.candidate[height], BeaconFor(c, env, height)));
    }
  }

  lemma NoneOffered()
    ensures Offers([]) == {}
  {
  }

  lemma OneOffered(b: Book, env: Env, height: nat, beacon: nat)
    requires height in b.candidate
    ensures var p := MakeProposal(b, env, b.candidate[height], beacon);
            Offers([SendProposal(p)]) == {p} && OfferOf(b, height, p)
  {
  }

  lemma SameOffer(b: Book, c: Book, height: nat, p: Proposal)
    requires height in b.candidate && c.candidate == b.candidate && c.selfId == b.selfId
    ensures OfferOf(b, height, p) <==> OfferOf(c, height, p)
  {
  }

  ghost predicate OfferOf(b: Book, height: nat, p: Proposal)
    requires height in b.candidate
  {
    && p.proposer == b.selfId && p.cp == b.candidate[height]
    && p.sig == Signed(p.proposer, MACRO_PROPOSER_SIG, ProposerMsg(p.proposer, p.cp.hash))
  }

  // ---------------------------------------------------------------------
  // One step
  // ---------------------------------------------------------------------

  lemma GoodOnward(b: Book, s: MStep, set_: ValidatorSet, o: Origin)
    requires BookInv(b, set_) && Good(b, s, set_, o) && b.proposed <= s.book.proposed
    ensures Onward(b, s.book)
  {
    hide EmittedOk, TimersOk, ChainOk, LocksOk, StoreOk, VotedOk, Linked, Persisted, Reported, Silent, Settled;
    hide StoresOnly, Clean, Signs, Abstains, QcsIn;
    if Stays(b, s) { assert LinkAt(b.candidate, b.nextHeight) == LinkAt(s.book.candidate, b.nextHeight); }
  }

  lemma QuietAccounts(b: Book, s: MStep, sent: set<Proposal>)
    requires SentOk(sent, b) && Quiet(b, s) && Onward(b, s.book)
    ensures Accounts(b, s, sent, false)
  {
    hide Conflict, Sound;
    OnwardKeeps(sent, b, s.book);
    assert Offers(s.actions) == {};
    assert sent + {} == sent;
  }

  lemma BackupAccounts(b: Book, env: Env, height: nat, sent: set<Proposal>)
    requires BookInv(b, env.set_) && SentOk(sent, b) && height in b.timers.backup
    requires Onward(b, BackupPropose(b, env, height).book)
    ensures Accounts(b, BackupPropose(b, env, height), sent, false)
  {
    hide EmittedOk, ChainOk, LocksOk, StoreOk, VotedOk, MacroFin.BackupPropose, Conflict, Sound;
    var s := BackupPropose(b, env, height);
    BackupKeeps(b, env, height);
    BackupOffers(b, env, height);
    OnwardKeeps(sent, b, s.book);
    if Offers(s.actions) == {} {
      assert sent + {} == sent;
    } else {
      var p :| Offers(s.actions) == {p} && OfferOf(b, height, p);
      assert Linked(b.candidate, b.candidate[height], height);
      OneMore(b, sent, p);
      BackupNext(b, env, height);
    }
  }

  lemma BackupNext(b: Book, env: Env, height: nat)
    ensures var c := BackupPropose(b, env, height).book;
            c.nextHeight == b.nextHeight && c.lastHash == b.lastHash && c.selfId == b.selfId
  {
  }

  // The backup timer that fired, if it was one.
  lemma TimerAccounts(b: Book, env: Env, id: nat, sent: set<Proposal>)
    requires BookInv(b, env.set_) && Distinct(env.set_) && SentOk(sent, b)
    ensures Accounts(b, OnTimerFired(b, env, id), sent, false)
    ensures OnTimerFired(b, env, id).book.seen == b.seen && NoCharge(OnTimerFired(b, env, id).actions)
  {
    hide BookInv, SentOk, MacroFin.BackupPropose, MacroFin.ModeBDeadline, Good, Accounts, Onward;
    HandleGood(b, env, TimerFired(id));
    if HeightFor(b.timers.backup, id).Some? {
      var height := HeightFor(b.timers.backup, id).value;
      HeightIsArmed(b.timers.backup, id);
      BackupKeeps(b, env, height);
      GoodOnward(b, OnTimerFired(b, env, id), env.set_, OriginOf(TimerFired(id)));
      BackupAccounts(b, env, height, sent);
    } else if HeightFor(b.timers.modeB, id).Some? {
      ModeBQuiet(b, env, HeightFor(b.timers.modeB, id).value);
      GoodOnward(b, OnTimerFired(b, env, id), env.set_, OriginOf(TimerFired(id)));
      QuietAccounts(b, OnTimerFired(b, env, id), sent);
    } else {
      SameOnward(b);
      QuietAccounts(b, MStep(b, []), sent);
    }
  }

  lemma SameOnward(b: Book)
    ensures Onward(b, b)
  {
  }

  lemma HeightIsArmed(m: map<nat, nat>, id: nat)
    requires HeightFor(m, id).Some?
    ensures HeightFor(m, id).value in m
  {
    var hs := set h | h in m && m[h] == id;
    assert Minimum(hs) in hs;
  }

  /** One event: what the node has sent stays accounted for, and a first conflict
      appears exactly when the primary's window refills over something else. */
  lemma HandleAccounts(b: Book, env: Env, e: Event, sent: set<Proposal>)
    requires BookInv(b, env.set_) && Distinct(env.set_) && Wire(e) && SentOk(sent, b)
    ensures Accounts(b, Handle(b, env, e), sent, RefillAt(b, env, sent, e))
    ensures !e.ProposalReceived? ==> Handle(b, env, e).book.seen == b.seen && NoCharge(Handle(b, env, e).actions)
  {
    hide BookInv, SentOk, Good, Accounts, Onward, RefillIn;
    hide MacroFin.OnLocalMicroQcs, MacroFin.OnMacroProposal, MacroFin.OnBlsPartial, MacroFin.OnMacroQc;
    hide MacroFin.OnSubnetAggregate, MacroFin.OnTimerFired;
    var s := Handle(b, env, e);
    if e.MicroQcs? {
      MicroAccounts(b, env, sent, e.hashes);
    } else if e.TimerFired? {
      TimerAccounts(b, env, e.id, sent);
    } else {
      match e {
        case ProposalReceived(p) => ProposalQuiet(b, env, p);
        case PartialReceived(bp) => PartialQuiet(b, env, bp);
        case QcReceived(qc) => QcQuiet(b, env, qc);
        case SubnetReceived(agg) => SubnetAggQuiet(b, env, agg);
      }
      HandleGood(b, env, e);
      GoodOnward(b, s, env.set_, OriginOf(e));
      QuietAccounts(b, s, sent);
    }
  }

  // ---------------------------------------------------------------------
  // Whole runs
  // ---------------------------------------------------------------------

  // Everything node i proposed in the first t steps.
  ghost function ProposedBefore(run: seq<Net>, labels: seq<Label>, i: Id, t: nat): set<Proposal>
    requires t <= |labels| < |run|
  {
    if t == 0 then {}
    else
      ProposedBefore(run, labels, i, t - 1)
      + if labels[t - 1].node == i && i in run[t - 1].books then Offers(ActionsAt(run, labels, t - 1)) else {}
  }

  // In step t the window of primary i fills again, over something else than it
  // has proposed for the height.
  ghost predicate RefillStep(run: seq<Net>, labels: seq<Label>, i: Id, t: nat)
    requires t < |labels| < |run|
  {
    && labels[t].node == i && i in run[t].books
    && RefillAt(run[t].books[i], labels[t].env, ProposedBefore(run, labels, i, t), labels[t].event)
  }

  ghost predicate Refilled(run: seq<Net>, labels: seq<Label>, i: Id, t: nat)
    requires t <= |labels| < |run|
  {
    exists s :: 0 <= s < t && RefillStep(run, labels, i, s)
  }

  lemma StartSent(w: World, need: nat, run: seq<Net>, labels: seq<Label>, i: Id)
    requires Run(w, need, run, labels) && i in run[0].books
    ensures SentOk({}, run[0].books[i])
  {
  }

  lemma {:induction false} RunAccounts(w: World, need: nat, run: seq<Net>, labels: seq<Label>, i: Id, t: nat)
    requires Distinct(w.set_) && Run(w, need, run, labels) && t < |run| && t <= |labels| < |run| && Honest(w, i)
    ensures i in run[t].books && SentOk(ProposedBefore(run, labels, i, t), run[t].books[i])
    ensures Conflict(ProposedBefore(run, labels, i, t)) <==> Refilled(run, labels, i, t)
  {
    hide Run, SentOk, Conflict, RefillAt, BookInv, Good, MacroFin.Handle, Offers;
    NodesStay(w, need, run, labels, i, t);
    if t == 0 {
      StartSent(w, need, run, labels, i);
      NoConflict();
    } else {
      RunAccounts(w, need, run, labels, i, t - 1);
      var l := labels[t - 1];
      if l.node == i {
        StepGood(w, need, run, labels, t - 1);
        StepWire(w, need, run, labels, t - 1);
        HandleAccounts(run[t - 1].books[i], l.env, l.event, ProposedBefore(run, labels, i, t - 1));
        assert RefillStep(run, labels, i, t - 1)
               <==> RefillAt(run[t - 1].books[i], l.env, ProposedBefore(run, labels, i, t - 1), l.event);
      } else {
        OtherStep(w, need, run, labels, i, t - 1);
        var sent := ProposedBefore(run, labels, i, t - 1);
        assert sent + {} == sent;
        assert !RefillStep(run, labels, i, t - 1);
      }
    }
  }

  lemma NoConflict()
    ensures !Conflict({})
  {
  }

  lemma StepWire(w: World, need: nat, run: seq<Net>, labels: seq<Label>, t: nat)
    requires Run(w, need, run, labels) && t < |labels|
    ensures labels[t].env.set_ == w.set_ && Wire(labels[t].event)
  {
    hide MacroFin.Handle, Init;
    assert NodeStep(w, need, run[t], run[t + 1], labels[t]);
  }

  /** Over every run an honest node sends two different proposals for one height exactly
      when, as primary, its window refilled over something else than it had proposed for
      the height. The backup timer, votes and later heights never lead to a second one. */
  lemma ProposesTwiceExactly(w: World, need: nat, run: seq<Net>, labels: seq<Label>, i: Id)
    requires Distinct(w.set_) && Run(w, need, run, labels) && Honest(w, i)
    ensures |run| == |labels| + 1
    ensures Refilled(run, labels, i, |labels|) <==>
              exists p, q :: p in ProposedBefore(run, labels, i, |labels|)
                  && q in ProposedBefore(run, labels, i, |labels|)
                             && p.cp.height == q.cp.height && p.cp.hash != q.cp.hash
  {
    hide Run, Refilled, ProposedBefore;
    RunShape(w, need, run, labels);
    RunAccounts(w, need, run, labels, i, |labels|);
  }

  // ---------------------------------------------------------------------
  // Accusations
  // ---------------------------------------------------------------------

  // The height field is the one under the hash.
  ghost predicate HeightIntact(cp: Checkpoint) {
    cp.hash.OfCheckpoint? ==> cp.height == cp.hash.height
  }

  ghost predicate SameProposed(sent: set<Proposal>, p: Proposal) {
    exists q :: q in sent && q.cp.hash == p.cp.hash
  }

  // A proposal that verifies as an honest proposer's is over a hash it proposed.
  ghost predicate Genuine(w: World, run: seq<Net>, labels: seq<Label>, t: nat)
    requires t < |labels| < |run|
  {
    labels[t].event.ProposalReceived? ==>
      var p := labels[t].event.proposal;
      && HeightIntact(p.cp)
      && (Honest(w, p.proposer) && Verify(p.proposer, MACRO_PROPOSER_SIG, ProposerMsg(p.proposer, p.cp.hash), p.sig) ==>
            SameProposed(ProposedBefore(run, labels, p.proposer, t), p))
  }

  ghost predicate AllGenuine(w: World, run: seq<Net>, labels: seq<Label>) {
    |labels| < |run| && forall t :: 0 <= t < |labels| ==> Genuine(w, run, labels, t)
  }

  // Proposals are noted under their height and proposer.
  ghost predicate SeenOk(w: World, run: seq<Net>, labels: seq<Label>, t: nat, seen: map<(nat, Id), seq<Proposal>>)
    requires t <= |labels| < |run|
  {
    forall key, x :: key in seen && x in seen[key] ==>
      && x.cp.height == key.0 && HeightIntact(x.cp)
      && (Honest(w, key.1) ==> SameProposed(ProposedBefore(run, labels, key.1, t), x))
  }

  lemma {:induction false} ProposedGrows(run: seq<Net>, labels: seq<Label>, i: Id, s: nat, t: nat)
    requires s <= t <= |labels| < |run|
    ensures ProposedBefore(run, labels, i, s) <= ProposedBefore(run, labels, i, t)
  {
    hide Offers;
    if s < t { ProposedGrows(run, labels, i, s, t - 1); }
  }

  lemma SeenGrows(w: World, run: seq<Net>, labels: seq<Label>, t: nat, seen: map<(nat, Id), seq<Proposal>>)
    requires t < |labels| < |run| && SeenOk(w, run, labels, t, seen)
    ensures SeenOk(w, run, labels, t + 1, seen)
  {
    hide Offers, HeightIntact, ActionsAt;
    forall key, x | key in seen && x in seen[key]
      ensures Honest(w, key.1) ==> SameProposed(ProposedBefore(run, labels, key.1, t + 1), x)
    {
      ProposedGrows(run, labels, key.1, t, t + 1);
    }
  }

  lemma SeenStep(w: World, run: seq<Net>, labels: seq<Label>, t: nat, b: Book)
    requires t < |labels| < |run| && Genuine(w, run, labels, t) && SeenOk(w, run, labels, t, b.seen)
    requires labels[t].event.ProposalReceived?
    ensures SeenOk(w, run, labels, t, OnMacroProposal(b, labels[t].env, labels[t].event.proposal).book.seen)
  {
    hide ProposedBefore, HeightIntact, SameProposed, MacroFin.OnMacroProposal, Quiet;
    ProposalQuiet(b, labels[t].env, labels[t].event.proposal);
  }

  lemma {:induction false} RunSeen(w: World, need: nat, run: seq<Net>, labels: seq<Label>, j: Id, t: nat)
    requires Distinct(w.set_) && Run(w, need, run, labels) && t < |run| && t <= |labels| < |run| && Honest(w, j)
    requires AllGenuine(w, run, labels)
    ensures j in run[t].books && SeenOk(w, run, labels, t, run[t].books[j].seen)
  {
    hide Run, SeenOk, Genuine, BookInv, Good, MacroFin.Handle, ProposedBefore;
    NodesStay(w, need, run, labels, j, t);
    if t == 0 {
      StartSeen(w, need, run, labels, j);
    } else {
      RunSeen(w, need, run, labels, j, t - 1);
      var b, l := run[t - 1].books[j], labels[t - 1];
      if l.node == j {
        StepGood(w, need, run, labels, t - 1);
        StepSeen(w, need, run, labels, t - 1, b);
      } else {
        OtherStep(w, need, run, labels, j, t - 1);
      }
      SeenGrows(w, run, labels, t - 1, run[t].books[j].seen);
    }
  }

  lemma StepSeen(w: World, need: nat, run: seq<Net>, labels: seq<Label>, t: nat, b: Book)
    requires Distinct(w.set_) && Run(w, need, run, labels) && t < |labels| < |run| && Genuine(w, run, labels, t)
    requires BookInv(b, w.set_) && SeenOk(w, run, labels, t, b.seen)
    ensures SeenOk(w, run, labels, t, Handle(b, labels[t].env, labels[t].event).book.seen)
  {
    hide Run, SeenOk, Genuine, BookInv, Accounts, Conflict;
    hide MacroFin.OnLocalMicroQcs, MacroFin.OnMacroProposal, MacroFin.OnBlsPartial, MacroFin.OnMacroQc;
    hide MacroFin.OnSubnetAggregate, MacroFin.OnTimerFired;
    StepWire(w, need, run, labels, t);
    if labels[t].event.ProposalReceived? {
      SeenStep(w, run, labels, t, b);
    } else {
      HandleAccounts(b, labels[t].env, labels[t].event, {});
    }
  }

  lemma StartSeen(w: World, need: nat, run: seq<Net>, labels: seq<Label>, j: Id)
    requires Run(w, need, run, labels) && j in run[0].books && |labels| < |run|
    ensures SeenOk(w, run, labels, 0, run[0].books[j].seen)
  {
  }

  ghost predicate Accuses(actions: seq<Action>, i: Id) {
    exists a :: a in actions && a.EmitEvidence? && a.evidence.MacroEquivocation? && a.offender == i
  }

  // Only a delivered proposal makes a node accuse, and then of a conflict.
  lemma JudgedConflict(w: World, run: seq<Net>, labels: seq<Label>, t: nat, b: Book, i: Id)
    requires t < |labels| < |run| && Genuine(w, run, labels, t) && SeenOk(w, run, labels, t, b.seen) && Honest(w, i)
    requires labels[t].event.ProposalReceived?
    requires Accuses(OnMacroProposal(b, labels[t].env, labels[t].event.proposal).actions, i)
    requires forall p :: p in ProposedBefore(run, labels, i, t) ==> Sound(p.cp)
    ensures Conflict(ProposedBefore(run, labels, i, t))
  {
    hide ProposedBefore, MacroFin.OnMacroProposal, Quiet;
    var p := labels[t].event.proposal;
    ProposalQuiet(b, labels[t].env, p);
    assert p.proposer == i && Verified(b, labels[t].env, p);
    var x :| x in SeenAt(b, (p.cp.height, p.proposer)) && x.cp.hash != p.cp.hash;
    var sent := ProposedBefore(run, labels, i, t);
    var y :| y in sent && y.cp.hash == p.cp.hash;
    var z :| z in sent && z.cp.hash == x.cp.hash;
  }

  /** Only a node that proposed twice for a height is accused. */
  lemma AccusedOnlyAfterRefill(w: World, need: nat, run: seq<Net>, labels: seq<Label>, i: Id, t: nat)
    requires Distinct(w.set_) && Run(w, need, run, labels) && AllGenuine(w, run, labels) && Honest(w, i)
    requires t < |labels| && labels[t].node in run[t].books && Accuses(ActionsAt(run, labels, t), i)
    ensures Refilled(run, labels, i, t)
  {
    hide Run, SeenOk, Genuine, BookInv, Good, MacroFin.Handle, ProposedBefore, Conflict, Accounts;
    StepGood(w, need, run, labels, t);
    var l := labels[t];
    var b := run[t].books[l.node];
    StepWire(w, need, run, labels, t);
    NodesStay(w, need, run, labels, l.node, t);
    RunSeen(w, need, run, labels, l.node, t);
    HandleAccounts(b, l.env, l.event, {});
    assert l.event.ProposalReceived?;
    RunAccounts(w, need, run, labels, i, t);
    HandleIsProposal(b, l.env, l.event);
    JudgedConflict(w, run, labels, t, b, i);
  }

  lemma HandleIsProposal(b: Book, env: Env, e: Event)
    requires e.ProposalReceived?
    ensures Handle(b, env, e) == OnMacroProposal(b, env, e.proposal)
  {
  }

  // Whatever the node has noted, one of two such proposals makes it accuse.
  lemma OneOfBoth(b: Book, env: Env, p: Proposal, q: Proposal)
    requires p.proposer == q.proposer && p.cp.height == q.cp.height && p.cp.hash != q.cp.hash
    requires Verified(b, env, p) && Verified(OnMacroProposal(b, env, p).book, env, q)
    ensures || Accuses(OnMacroProposal(b, env, p).actions, p.proposer)
            || Accuses(OnMacroProposal(OnMacroProposal(b, env, p).book, env, q).actions, p.proposer)
  {
    hide MacroFin.OnMacroProposal, Quiet, Verified;
    var c, key := OnMacroProposal(b, env, p).book, (p.cp.height, p.proposer);
    ProposalQuiet(b, env, p);
    ProposalQuiet(c, env, q);
    if SeenAt(b, key) == [] {
      assert SeenAt(c, key) == [p];
      assert p in SeenAt(c, key);
    } else {
      var x := SeenAt(b, key)[0];
      assert x in SeenAt(b, key) && SeenAt(c, key) == SeenAt(b, key);
    }
  }

  // From step m on somebody accuses i.
  ghost predicate Accused(run: seq<Net>, labels: seq<Label>, i: Id, m: nat) {
    && |labels| < |run|
    && exists t :: m <= t < |labels| && labels[t].node in run[t].books && Accuses(ActionsAt(run, labels, t), i)
  }

  // When node j receives two more proposals, of which honest ones are resent, it
  // accuses i.
  ghost predicate Accusable(w: World, need: nat, run: seq<Net>, labels: seq<Label>, i: Id, j: Id) {
    exists l1: Label, l2: Label, n1: Net, n2: Net ::
      AccusesAfter(w, need, run + [n1] + [n2], labels + [l1] + [l2], i, j, |labels|)
  }

  ghost predicate AccusesAfter(w: World, need: nat, run: seq<Net>, labels: seq<Label>, i: Id, j: Id, m: nat) {
    && Run(w, need, run, labels) && AllGenuine(w, run, labels) && Accused(run, labels, i, m)
    && forall t :: m <= t < |labels| ==> labels[t].node == j
  }

  lemma {:induction false} SameBefore(run: seq<Net>, labels: seq<Label>, n: Net, l: Label, i: Id, t: nat)
    requires t <= |labels| && |run| == |labels| + 1
    ensures ProposedBefore(run + [n], labels + [l], i, t) == ProposedBefore(run, labels, i, t)
  {
    hide Offers, MacroFin.Handle;
    if t > 0 { SameBefore(run, labels, n, l, i, t - 1); }
  }

  lemma GenuineExtend(w: World, run: seq<Net>, labels: seq<Label>, n: Net, l: Label)
    requires |run| == |labels| + 1 && AllGenuine(w, run, labels)
    requires l.event.ProposalReceived? && HeightIntact(l.event.proposal.cp)
    requires SameProposed(ProposedBefore(run, labels, l.event.proposal.proposer, |labels|), l.event.proposal)
    ensures AllGenuine(w, run + [n], labels + [l])
  {
    hide ProposedBefore, HeightIntact, SameProposed;
    var r, ls := run + [n], labels + [l];
    forall t | 0 <= t < |ls| ensures Genuine(w, r, ls, t) {
      if t < |labels| { assert Genuine(w, run, labels, t) && ls[t] == labels[t]; }
      if ls[t].event.ProposalReceived? { SameBefore(run, labels, n, l, ls[t].event.proposal.proposer, t); }
    }
  }

  // One more proposal delivered to node j.
  lemma Deliver(w: World, need: nat, run: seq<Net>, labels: seq<Label>, j: Id, env: Env, p: Proposal)
    returns (n: Net, l: Label)
    requires Run(w, need, run, labels) && |run| == |labels| + 1 && AllGenuine(w, run, labels)
    requires j in run[|labels|].books
    requires env.set_ == w.set_ && Sound(p.cp) && SameProposed(ProposedBefore(run, labels, p.proposer, |labels|), p)
    ensures Run(w, need, run + [n], labels + [l]) && AllGenuine(w, run + [n], labels + [l])
    ensures l == Label(j, env, ProposalReceived(p)) && j in n.books
    ensures n.books[j] == OnMacroProposal(run[|labels|].books[j], env, p).book
    ensures ActionsAt(run + [n], labels + [l], |labels|) == OnMacroProposal(run[|labels|].books[j], env, p).actions
  {
    hide Run, AllGenuine, ProposedBefore, SameProposed, MacroFin.OnMacroProposal;
    l := Label(j, env, ProposalReceived(p));
    var s := OnMacroProposal(run[|labels|].books[j], env, p);
    n := Net(run[|labels|].books[j := s.book], run[|labels|].signed + Sent(s.actions));
    RunExtend(w, need, run, labels, l, n);
    GenuineExtend(w, run, labels, n, l);
  }

  lemma OwnIsVerified(b: Book, set_: ValidatorSet, q: Id, p: Proposal)
    requires p.proposer in set_ && p.sig == Signed(p.proposer, MACRO_PROPOSER_SIG, ProposerMsg(p.proposer, p.cp.hash))
    ensures Verified(b, AnyEnv(set_, q), p)
  {
  }

  lemma ProposerIs(w: World, need: nat, run: seq<Net>, labels: seq<Label>, i: Id, m: nat, p: Proposal)
    requires Distinct(w.set_) && Run(w, need, run, labels) && m <= |labels| < |run| && Honest(w, i)
    requires p in ProposedBefore(run, labels, i, m)
    ensures p.proposer == i && Sound(p.cp)
    ensures p.sig == Signed(p.proposer, MACRO_PROPOSER_SIG, ProposerMsg(p.proposer, p.cp.hash))
    ensures SameProposed(ProposedBefore(run, labels, i, m), p)
  {
    hide Run, ProposedBefore, LocalInv;
    RunAccounts(w, need, run, labels, i, m);
    RunLocal(w, need, run, labels, m);
    SelfOf(w, run[m], i);
  }

  lemma RefillIsAccused(w: World, need: nat, run: seq<Net>, labels: seq<Label>, i: Id, j: Id)
    requires Distinct(w.set_) && Run(w, need, run, labels) && AllGenuine(w, run, labels)
    requires |run| == |labels| + 1 && Honest(w, i) && Honest(w, j) && Refilled(run, labels, i, |labels|)
    ensures Accusable(w, need, run, labels, i, j)
  {
    hide Run, AllGenuine, ProposedBefore, Refilled, MacroFin.OnMacroProposal, Verified, MacroFin.Handle, Accuses;
    hide SameProposed, SentOk, Sound, ActionsAt;
    var m, env := |labels|, AnyEnv(w.set_, i);
    NodesStay(w, need, run, labels, j, m);
    RunAccounts(w, need, run, labels, i, m);
    var sent := ProposedBefore(run, labels, i, m);
    var p, q :| p in sent && q in sent && p.cp.height == q.cp.height && p.cp.hash != q.cp.hash;
    ProposerIs(w, need, run, labels, i, m, p);
    ProposerIs(w, need, run, labels, i, m, q);
    var b := run[m].books[j];
    OwnIsVerified(b, w.set_, i, p);
    OwnIsVerified(OnMacroProposal(b, env, p).book, w.set_, i, q);
    OneOfBoth(b, env, p, q);
    var n1, l1 := Deliver(w, need, run, labels, j, env, p);
    var r, ls := run + [n1], labels + [l1];
    StillProposed(run, labels, n1, l1, i, q);
    var n2, l2 := Deliver(w, need, r, ls, j, env, q);
    SameActions(r, ls, n2, l2, m);
    var r2, ls2 := r + [n2], ls + [l2];
    var t := if Accuses(ActionsAt(r, ls, m), i) then m else m + 1;
    assert ls2[t].node == j && j in r2[t].books && Accuses(ActionsAt(r2, ls2, t), i);
    assert AccusesAfter(w, need, r2, ls2, i, j, m);
  }

  lemma StillProposed(run: seq<Net>, labels: seq<Label>, n: Net, l: Label, i: Id, q: Proposal)
    requires |run| == |labels| + 1 && SameProposed(ProposedBefore(run, labels, i, |labels|), q)
    ensures SameProposed(ProposedBefore(run + [n], labels + [l], i, |labels| + 1), q)
  {
    hide ProposedBefore;
    ProposedGrows(run + [n], labels + [l], i, |labels|, |labels| + 1);
    SameBefore(run, labels, n, l, i, |labels|);
  }

  lemma SameActions(run: seq<Net>, labels: seq<Label>, n: Net, l: Label, t: nat)
    requires t < |labels| < |run| && labels[t].node in run[t].books
    ensures ActionsAt(run + [n], labels + [l], t) == ActionsAt(run, labels, t)
  {
    hide MacroFin.Handle;
  }

  lemma SameRefill(run: seq<Net>, labels: seq<Label>, n: Net, l: Label, i: Id, t: nat)
    requires t <= |labels| && |run| == |labels| + 1
    ensures Refilled(run + [n], labels + [l], i, t) <==> Refilled(run, labels, i, t)
  {
    hide ProposedBefore, RefillAt;
    forall s | 0 <= s < t ensures RefillStep(run + [n], labels + [l], i, s) <==> RefillStep(run, labels, i, s) {
      SameBefore(run, labels, n, l, i, s);
    }
  }

  lemma RefillByOther(run: seq<Net>, labels: seq<Label>, i: Id, s: nat, t: nat)
    requires s <= t <= |labels| < |run| && Refilled(run, labels, i, t) && forall k :: s <= k < t ==> labels[k].node != i
    ensures Refilled(run, labels, i, s)
  {
    hide ProposedBefore, RefillAt;
    var k :| 0 <= k < t && RefillStep(run, labels, i, k);
  }

  /** Another honest node can be brought to accuse an honest one, by proposals sent or
      resent, exactly when the accused one's window refilled over something else than it
      had proposed. */
  lemma AccusedExactly(w: World, need: nat, run: seq<Net>, labels: seq<Label>, i: Id, j: Id)
    requires Distinct(w.set_) && Run(w, need, run, labels) && AllGenuine(w, run, labels)
    requires Honest(w, i) && Honest(w, j) && i != j
    ensures |run| == |labels| + 1
    ensures Accusable(w, need, run, labels, i, j) <==> Refilled(run, labels, i, |labels|)
  {
    hide Run, AllGenuine, Refilled, ActionsAt, Accuses, Honest;
    RunShape(w, need, run, labels);
    if Refilled(run, labels, i, |labels|) { RefillIsAccused(w, need, run, labels, i, j); }
    if Accusable(w, need, run, labels, i, j) {
      var l1: Label, l2: Label, n1: Net, n2: Net :|
        AccusesAfter(w, need, run + [n1] + [n2], labels + [l1] + [l2], i, j, |labels|);
      RefilledBefore(w, need, run + [n1] + [n2], labels + [l1] + [l2], i, j, |labels|);
      SameAfterTwo(run, labels, n1, n2, l1, l2, i);
    }
  }

  lemma SameAfterTwo(run: seq<Net>, labels: seq<Label>, n1: Net, n2: Net, l1: Label, l2: Label, i: Id)
    requires |run| == |labels| + 1
    ensures Refilled(run + [n1] + [n2], labels + [l1] + [l2], i, |labels|) <==> Refilled(run, labels, i, |labels|)
  {
    hide Refilled;
    SameRefill(run + [n1], labels + [l1], n2, l2, i, |labels|);
    SameRefill(run, labels, n1, l1, i, |labels|);
  }

  lemma RefilledBefore(w: World, need: nat, run: seq<Net>, labels: seq<Label>, i: Id, j: Id, m: nat)
    requires Distinct(w.set_) && Honest(w, i) && i != j && m <= |labels| < |run|
    requires AccusesAfter(w, need, run, labels, i, j, m)
    ensures Refilled(run, labels, i, m)
  {
    hide Run, AllGenuine, Refilled, ActionsAt, Accuses, Honest;
    var t :| m <= t < |labels| && labels[t].node in run[t].books && Accuses(ActionsAt(run, labels, t), i);
    AccusedOnlyAfterRefill(w, need, run, labels, i, t);
    RefillByOther(run, labels, i, m, t);
  }

  // ---------------------------------------------------------------------
  // A rebuilt candidate
  // ---------------------------------------------------------------------

  // The primary proposes whenever its window fills.
  lemma PrimaryPush(b: Book, env: Env, h: nat) returns (p: Proposal)
    requires b.ring == [] && env.window == 1 && env.forceKe && env.primary(env.beacon, b.nextHeight) == b.selfId
    ensures var s := PushMicro(b, env, h);
            && s.actions == [SendProposal(p)] && p.proposer == b.selfId
            && p.cp == Build(b.nextHeight, 0, b.lastHash, OfRing([h]))
            && s.book.ring == [] && s.book.nextHeight == b.nextHeight && s.book.lastHash == b.lastHash
            && s.book.selfId == b.selfId
  {
    assert b.ring + [h] == [h];
    var c := NewCandidate(b, env, [h]);
    p := MakeProposal(c, env, c.candidate[c.nextHeight], env.beacon);
    assert ArmModeB(Announce(c, env, Propose).book, env).actions == [];
  }

  lemma ProposesBoth(b: Book, env: Env) returns (p: Proposal, q: Proposal)
    requires b.ring == [] && env.window == 1 && env.forceKe && env.primary(env.beacon, b.nextHeight) == b.selfId
    ensures OnLocalMicroQcs(b, env, [1, 2]).actions == [SendProposal(p), SendProposal(q)]
    ensures p.proposer == q.proposer == b.selfId && p.cp.height == q.cp.height && p.cp.hash != q.cp.hash
  {
    hide MacroFin.PushMicro, MacroFin.OnLocalMicroQcs;
    p := PrimaryPush(b, env, 1);
    q := PrimaryPush(PushMicro(b, env, 1).book, env, 2);
    OneThenTwo(b, env);
    assert [1][0] != [2][0];
    assert [SendProposal(p)] + [SendProposal(q)] == [SendProposal(p), SendProposal(q)];
  }

  /** The candidate of a height is rebuilt whenever the window fills again before
      the height is adopted, and the primary proposes each of them: an honest
      validator can send two different proposals for one height. */
  lemma PrimaryProposesTwice(set_: ValidatorSet, id: Id)
    requires id in set_
    ensures exists env: Env, p: Proposal, q: Proposal ::
              && env.set_ == set_
              && OnLocalMicroQcs(Fresh(id), env, [1, 2]).actions == [SendProposal(p), SendProposal(q)]
              && p.proposer == q.proposer == id && p.cp.height == q.cp.height && p.cp.hash != q.cp.hash
              && RefillAt(Fresh(id), env, {}, MicroQcs([1, 2]))
  {
    hide MacroFin.PushMicro, MacroFin.OnLocalMicroQcs, RefillIn, Conflict;
    var env := Env(set_, 1, 0, (_, _) => id, (_, _) => id, (_, _, _, _) => true, (_, _) => 0, (_, _) => 0, false,
                   true, 4, 0);
    var b := Fresh(id);
    var p, q := ProposesBoth(b, env);
    MicroAccounts(b, env, {}, [1, 2]);
    NoConflict();
    BothOffered(OnLocalMicroQcs(b, env, [1, 2]).actions, p, q);
  }

  lemma BothOffered(actions: seq<Action>, p: Proposal, q: Proposal)
    requires actions == [SendProposal(p), SendProposal(q)] && p.cp.height == q.cp.height && p.cp.hash != q.cp.hash
    ensures Conflict({} + Offers(actions))
  {
    assert SendProposal(p) in actions && SendProposal(q) in actions;
    assert p in {} + Offers(actions) && q in {} + Offers(actions);
  }

  lemma OneThenTwo(b: Book, env: Env)
    ensures var s := PushMicro(b, env, 1);
            var t := PushMicro(s.book, env, 2);
            OnLocalMicroQcs(b, env, [1, 2]).actions == s.actions + t.actions
  {
    hide MacroFin.PushMicro;
    assert [1, 2][..1] == [1] && [1][..0] == [];
    assert OnLocalMicroQcs(b, env, [1]) == PushMicro(b, env, 1) by {
      var none: seq<Action> := [];
      assert none + PushMicro(b, env, 1).actions == PushMicro(b, env, 1).actions;
    }
  }
}
