/** Runs in which the epoch field of a proposed checkpoint has been altered, which no
    handler compares and no hash covers: one node signs two messages under one hash, and a
    broadcast certificate passes verify_macro_qc nowhere. */
module MacroEpochs {
  import opened Validators
  import opened Worlds
  import opened Signatures
  import opened MacroQcs
  import opened MacroFin
  import opened MacroInvariant
  import opened MacroSteps
  import opened MacroNetwork
  import opened MacroHistory
  import opened MacroResponses
  import opened MacroLimits
  import opened MacroThreshold
  import opened MacroRuns

  const ALTERED: Checkpoint := FIRST.(epoch := 1)

  lemma TwoMessages(i: Id)
    ensures FIRST == Cand(1) && ALTERED.hash == FIRST.hash && ALTERED.epoch != FIRST.epoch && LinkIntact(ALTERED)
    ensures PartialSig(i, ALTERED) != PartialSig(i, FIRST)
  {
  }

  // ---------------------------------------------------------------------
  // Two messages of one node
  // ---------------------------------------------------------------------

  // The deadline passes, then a proposal with another epoch arrives.
  function Twice(q: Id): seq<Event> { [MicroQcs([1]), TimerFired(0), ProposalReceived(OfferBy(q, ALTERED))] }

  lemma SignsAltered(i: Id, set_: ValidatorSet, q: Id)
    requires i in set_ && q in set_
    ensures Sent(Handle(Voted(i, 1), AnyEnv(set_, q), ProposalReceived(OfferBy(q, ALTERED))).actions)
            == {PartialSig(i, ALTERED)}
  {
    var b, env, p := Voted(i, 1), AnyEnv(set_, q), OfferBy(q, ALTERED);
    assert SeenAt(b, (0, q)) == [];
    assert Votable(b, env, p);
    ProposalIsVotedFor(b, env, p);
  }

  lemma TwiceSends(i: Id, set_: ValidatorSet, q: Id)
    requires i in set_ && q in set_ && i != q
    ensures PartialSig(i, FIRST) in SentOver(Fresh(i), AnyEnv(set_, q), Twice(q))
    ensures PartialSig(i, ALTERED) in SentOver(Fresh(i), AnyEnv(set_, q), Twice(q))
  {
    hide MacroFin.Handle, Sent, MacroRuns.After, MacroFin.Fresh, Built, Voted, PartialSig;
    var env, b := AnyEnv(set_, q), Fresh(i);
    TwoMessages(i);
    Builds(i, 1, set_, q);
    Votes(i, 1, set_, q);
    SignsAltered(i, set_, q);
    AfterTwo(b, env, MicroQcs([1]), TimerFired(0));
    AfterThree(b, env, MicroQcs([1]), TimerFired(0), ProposalReceived(OfferBy(q, ALTERED)));
    assert Twice(q)[..2] == [MicroQcs([1]), TimerFired(0)];
  }

  lemma TwiceDelivers(w: World, signed: set<MSig>, q: Id)
    ensures Deliverables(w, true, signed, Twice(q))
  {
    TwoMessages(q);
    hide LinkIntact;
  }

  /** In every network an honest node signs two messages under one hash in some run, once
      at the deadline and once for a proposal in which only the epoch has been altered. */
  lemma AlteredEpochIsSigned(w: World, id: Id, q: Id)
    requires GoodWorld(w) && Honest(w, id) && q in w.set_ && id != q
    ensures exists run: seq<Net>, labels: seq<Label>, x: Checkpoint, y: Checkpoint ::
              && Run(w, QuorumThreshold(|w.set_|), run, labels) && run != []
              && PartialSig(id, x) in run[|run| - 1].signed && PartialSig(id, y) in run[|run| - 1].signed
              && x.hash == y.hash && x.epoch != y.epoch && PartialSig(id, x) != PartialSig(id, y)
  {
    hide LooseRun, Run, SentOver, MacroRuns.After, Deliverables, PartialSig, MacroFin.Fresh;
    TwoMessages(id);
    StartsLoose(w, true);
    TwiceDelivers(w, {}, q);
    var run, labels := Performs(w, true, [FreshNet(w)], [], id, AnyEnv(w.set_, q), Twice(q));
    TwiceSends(id, w.set_, q);
    IntactRun(w, run, labels);
  }

  // ---------------------------------------------------------------------
  // A certificate over two messages
  // ---------------------------------------------------------------------

  const FOUR: ValidatorSet := [0, 1, 2, 3]
  const HIDDEN: World := World(FOUR, {3})

  // The partials of validators 1 and 3.
  const FROM_ONE: BlsPartial := BlsPartial(0, 1, FIRST.hash, PartialSig(1, FIRST))
  const FROM_THREE: BlsPartial := BlsPartial(0, 3, FIRST.hash, PartialSig(3, ALTERED))

  // Validator 0 stores the first partial, votes for the altered proposal, and then the
  // last partial completes a quorum of which it is the lowest.
  function Gathering(): seq<Event> { [MicroQcs([1]), PartialReceived(FROM_ONE), ProposalReceived(OfferBy(3, ALTERED))] }

  ghost predicate Holding(b: Book) {
    && b.selfId == 0 && b.nextHeight == 0 && b.lastHash == Zero && b.candidate == map[0 := FIRST] && b.emitted == {}
    && b.modeB == {}
    && b.locks == map[] && b.seen == map[] && b.beacons == map[0 := 0]
    && b.partials == map[FIRST.hash := {1}] && b.sigs == map[(FIRST.hash, 1) := PartialSig(1, FIRST)]
  }

  ghost predicate Mixed(b: Book) {
    && b.selfId == 0 && b.nextHeight == 0 && b.candidate == map[0 := ALTERED] && b.emitted == {} && b.modeB == {}
    && b.partials == map[FIRST.hash := {0, 1}]
    && b.sigs == map[(FIRST.hash, 1) := PartialSig(1, FIRST), (FIRST.hash, 0) := PartialSig(0, ALTERED)]
  }

  lemma FirstStored()
    ensures Holding(Handle(Built(0, 1), AnyEnv(FOUR, 3), PartialReceived(FROM_ONE)).book)
  {
    var b, env := Built(0, 1), AnyEnv(FOUR, 3);
    HasHeight(b, 0, FIRST.hash);
    assert VerifyPartial(FOUR, FROM_ONE, FIRST);
    assert PartialsOf(b.partials, FIRST.hash) + {1} == {1};
    assert 1 in {1} && Minimum({1}) in {1};
  }

  lemma AlteredConsidered(b: Book)
    requires Holding(b)
    ensures var env, p := AnyEnv(FOUR, 3), OfferBy(3, ALTERED);
            var d := b.(seen := b.seen[(0, 3) := [p]]);
            && Handle(b, env, ProposalReceived(p)) == ConsiderVote(d, env, p, 0) && Acceptable(d, env, p, 0)
  {
    var env, p := AnyEnv(FOUR, 3), OfferBy(3, ALTERED);
    hide MacroFin.ConsiderVote;
    ThreeVerifies();
    assert SeenAt(b, (0, 3)) == [];
    assert NoteBeacon(b, env, 0) == b;
    assert BeaconFor(b, env, 0) == 0;
  }

  lemma AlteredTaken(b: Book)
    requires Holding(b)
    ensures Mixed(Handle(b, AnyEnv(FOUR, 3), ProposalReceived(OfferBy(3, ALTERED))).book)
  {
    var env, p := AnyEnv(FOUR, 3), OfferBy(3, ALTERED);
    var d := b.(seen := b.seen[(0, 3) := [p]]);
    AlteredConsidered(b);
    assert PartialsOf(d.partials, FIRST.hash) + {0} == {0, 1};
    hide MacroFin.AggregateActions, MacroFin.SelfCheck, PartialSig, MacroFin.Acceptable, MacroFin.Handle;
    var s := ConsiderVote(d, env, p, 0);
    assert s == AnnounceVote(CastVote(d, ALTERED, map[0 := (0, FIRST.hash)]), env, ALTERED, Mode0Flat, 0);
    assert map[0 := FIRST][0 := ALTERED] == map[0 := ALTERED];
  }

  // The store after the last partial.
  function Store(): SigBook {
    map[(FIRST.hash, 1) := PartialSig(1, FIRST), (FIRST.hash, 0) := PartialSig(0, ALTERED),
        (FIRST.hash, 3) := PartialSig(3, ALTERED)]
  }

  // Over two messages, the certificate verifies for no checkpoint.
  lemma MixedFails(qc: MacroQc)
    requires Mode0Qc(FIRST.hash, {0, 1, 3}, Store(), FOUR, Mode0Flat) == Some(qc)
    ensures forall cp: Checkpoint :: !VerifyMacroQc(FOUR, qc, cp)
  {
    hide MacroQcs.VerifyMacroQc, MacroQcs.Mode0Qc, MacroQcs.Signers, Aggregated;
    StoreIsGood();
    forall cp: Checkpoint ensures !VerifyMacroQc(FOUR, qc, cp) {
      QcHash(FIRST.hash, {0, 1, 3}, Store(), FOUR, Mode0Flat);
      OtherHash(qc, cp);
      if cp.hash == FIRST.hash {
        Mode0Verifies(cp, {0, 1, 3}, Store(), FOUR, Mode0Flat);
        AllThree(qc);
        NotOver(qc, cp);
      }
    }
  }

  lemma OtherHash(qc: MacroQc, cp: Checkpoint)
    ensures qc.hash != cp.hash ==> !VerifyMacroQc(FOUR, qc, cp)
  {
  }

  lemma NotOver(qc: MacroQc, cp: Checkpoint)
    requires 0 in Signers(FOUR, qc) && 1 in Signers(FOUR, qc) && cp.hash == FIRST.hash
    ensures !OverCheckpoint(FOUR, qc, Store(), cp)
  {
    hide MacroQcs.Signers;
    TwoMessages(0);
    assert PartialSig(1, cp) == PartialSig(1, FIRST) ==> cp == FIRST;
    assert PartialSig(0, cp) == PartialSig(0, ALTERED) ==> cp == ALTERED;
  }

  lemma StoreIsGood()
    ensures Distinct(FOUR) && {0, 1, 3} <= Members(FOUR) && QuorumThreshold(|FOUR|) == 3 && SigsOk(FOUR, Store())
  {
    TwoMessages(0);
    assert FOUR[0] == 0 && FOUR[1] == 1 && FOUR[2] == 2 && FOUR[3] == 3;
  }

  lemma AllThree(qc: MacroQc)
    requires SelfMade(FOUR, qc, FIRST.hash, Store())
    ensures 0 in Signers(FOUR, qc) && 1 in Signers(FOUR, qc)
  {
    hide MacroQcs.Signers;
    StoreIsGood();
    var ids: set<Id> := {0, 1, 3};
    forall v | v in Signers(FOUR, qc) ensures v in ids {
      assert (FIRST.hash, v) in Store();
    }
    SubsetSize(Signers(FOUR, qc), ids);
  }

  // What it makes of the last partial.
  lemma LastPartial(b: Book)
    requires Mixed(b)
    ensures Handle(b, AnyEnv(FOUR, 3), PartialReceived(FROM_THREE))
            == FlatPath(b.(sigs := Store()), AnyEnv(FOUR, 3), FROM_THREE, 0, Mode0Flat)
  {
    hide MacroFin.FlatPath, MacroFin.CandidateHeight, PartialSig;
    TwoMessages(3);
    HasHeight(b, 0, FIRST.hash);
    ThreeVerifies();
    assert b.sigs[(FIRST.hash, 3) := FROM_THREE.sig] == Store();
  }

  lemma ThreeVerifies()
    ensures VerifyPartial(FOUR, FROM_THREE, ALTERED) && 3 in FOUR
  {
    assert FOUR[3] == 3;
  }

  // The lowest signer of three assembles the certificate.
  lemma MixedAssembles(b: Book) returns (qc: MacroQc)
    requires Mixed(b)
    ensures Mode0Qc(FIRST.hash, {0, 1, 3}, Store(), FOUR, Mode0Flat) == Some(qc)
    ensures SendQc(qc) in Handle(b, AnyEnv(FOUR, 3), PartialReceived(FROM_THREE)).actions
  {
    hide MacroQcs.Mode0Qc, MacroFin.FlatPath, Aggregated, MacroFin.Handle, Store, PartialSig;
    StoreIsGood();
    StoreKeys();
    LastPartial(b);
    Mode0Succeeds(FIRST, {0, 1, 3}, Store(), FOUR, Mode0Flat);
    qc := Mode0Qc(FIRST.hash, {0, 1, 3}, Store(), FOUR, Mode0Flat).value;
    FlatIs(b.(sigs := Store()), qc);
  }

  lemma FlatIs(d: Book, qc: MacroQc)
    requires d.selfId == 0 && 0 in d.candidate && d.partials == map[FIRST.hash := {0, 1}]
    requires Mode0Qc(FIRST.hash, {0, 1, 3}, d.sigs, FOUR, Mode0Flat) == Some(qc)
    ensures SendQc(qc) in FlatPath(d, AnyEnv(FOUR, 3), FROM_THREE, 0, Mode0Flat).actions
  {
    hide MacroQcs.Mode0Qc, MacroFin.Adoption, PartialSig;
    var c := AddPartial(d, FIRST.hash, 3);
    assert PartialsOf(c.partials, FIRST.hash) == {0, 1, 3};
    assert Minimum({0, 1, 3}) == 0;
    HeadSent(c, AnyEnv(FOUR, 3), c.candidate[0], qc);
  }

  lemma StoreKeys()
    ensures forall v :: v in {0, 1, 3} ==> (FIRST.hash, v) in Store()
  {
  }

  lemma HeadSent(b: Book, env: Env, cp: Checkpoint, qc: MacroQc)
    ensures SendQc(qc) in Adoption(b, env, cp, qc, 0, [SendQc(qc)]).actions
  {
    hide MacroFin.Advance, MacroFin.Finish;
    assert Adoption(b, env, cp, qc, 0, [SendQc(qc)]).actions[0] == SendQc(qc);
  }

  // ---------------------------------------------------------------------
  // Its run
  // ---------------------------------------------------------------------

  lemma HiddenIsGood()
    ensures GoodWorld(HIDDEN) && Honest(HIDDEN, 0) && Honest(HIDDEN, 1) && !Honest(HIDDEN, 3)
  {
    StoreIsGood();
    assert MaxFaulty(4) == 1;
  }

  lemma OneVotes()
    ensures PartialSig(1, FIRST) in SentOver(Fresh(1), AnyEnv(FOUR, 3), Voting())
  {
    hide MacroFin.Handle, Sent, SentOver, MacroRuns.After, MacroFin.Fresh, Built, Voted, PartialSig;
    TwoMessages(1);
    Builds(1, 1, FOUR, 3);
    Votes(1, 1, FOUR, 3);
    AfterTwo(Fresh(1), AnyEnv(FOUR, 3), MicroQcs([1]), TimerFired(0));
  }

  function Voting(): seq<Event> { [MicroQcs([1]), TimerFired(0)] }

  lemma ZeroGathers()
    ensures Mixed(After(Fresh(0), AnyEnv(FOUR, 3), Gathering()))
  {
    hide MacroFin.Handle, Sent, SentOver, MacroRuns.After, MacroFin.Fresh, Built, Holding, Mixed;
    var env := AnyEnv(FOUR, 3);
    Builds(0, 1, FOUR, 3);
    FirstStored();
    AlteredTaken(Handle(Built(0, 1), env, PartialReceived(FROM_ONE)).book);
    AfterThree(Fresh(0), env, MicroQcs([1]), PartialReceived(FROM_ONE), ProposalReceived(OfferBy(3, ALTERED)));
  }

  lemma AllDeliver(signed: set<MSig>)
    ensures Deliverables(HIDDEN, true, signed, Voting())
    ensures PartialSig(1, FIRST) in signed ==> Deliverables(HIDDEN, true, signed, Gathering())
    ensures LooseDeliverable(HIDDEN, true, signed, PartialReceived(FROM_THREE))
  {
    TwoMessages(3);
    HiddenIsGood();
    hide LinkIntact;
  }

  // The run up to the last step.
  lemma GatheringRun() returns (run: seq<Net>, labels: seq<Label>)
    ensures LooseRun(HIDDEN, true, run, labels) && |run| == |labels| + 1
    ensures 0 in run[|labels|].books && Mixed(run[|labels|].books[0])
  {
    hide LooseRun, SentOver, MacroRuns.After, Deliverables, PartialSig, MacroFin.Fresh, Mixed, LooseDeliverable;
    var w, env := HIDDEN, AnyEnv(FOUR, 3);
    HiddenIsGood();
    StartsLoose(w, true);
    AllDeliver({});
    var r, l := Performs(w, true, [FreshNet(w)], [], 1, env, Voting());
    OneVotes();
    AllDeliver(r[|l|].signed);
    run, labels := Performs(w, true, r, l, 0, env, Gathering());
    ZeroGathers();
  }

  // The last step broadcasts a certificate that passes nowhere.
  ghost predicate SendsUnverifiable(w: World, run: seq<Net>, labels: seq<Label>, t: nat, qc: MacroQc) {
    && t < |labels| < |run| && labels[t].node in run[t].books
    && SendQc(qc) in ActionsAt(run, labels, t) && forall cp: Checkpoint :: !VerifyMacroQc(w.set_, qc, cp)
  }

  /** With one faulty validator of four there is a run in which an honest one assembles
      and broadcasts a certificate, and adopts on it, that verify_macro_qc rejects for every
      checkpoint: the stored partials are over two epochs. */
  lemma MixedEpochsAreBroadcast()
    ensures exists w: World, run: seq<Net>, labels: seq<Label>, t: nat, qc: MacroQc ::
              && GoodWorld(w) && |w.set_| == 4 && Run(w, QuorumThreshold(|w.set_|), run, labels)
              && SendsUnverifiable(w, run, labels, t, qc)
  {
    hide LooseRun, Run, MacroFin.Handle, LooseDeliverable, Mixed, MacroQcs.VerifyMacroQc, Sent;
    var w, env := HIDDEN, AnyEnv(FOUR, 3);
    HiddenIsGood();
    var r, l := GatheringRun();
    AllDeliver(r[|l|].signed);
    var b := r[|l|].books[0];
    var s, e := Handle(b, env, PartialReceived(FROM_THREE)), Label(0, env, PartialReceived(FROM_THREE));
    var n := Net(r[|l|].books[0 := s.book], r[|l|].signed + Sent(s.actions));
    var qc := MixedAssembles(b);
    MixedFails(qc);
    LooseExtend(w, true, r, l, n, e);
    IntactRun(w, r + [n], l + [e]);
    assert ActionsAt(r + [n], l + [e], |l|) == s.actions;
    assert SendsUnverifiable(w, r + [n], l + [e], |l|, qc);
  }
}
