/** A run of honest validators in which one of them is accused although it has proposed
    once for each height: the height field is not compared with the hash. */
module MacroAccused {
  import opened Validators
  import opened Worlds
  import opened Signatures
  import opened MacroQcs
  import opened MacroFin
  import opened MacroInvariant
  import opened MacroSteps
  import opened MacroNetwork
  import opened MacroHistory
  import opened MacroLimits
  import opened MacroProposals
  import opened MacroThreshold
  import opened MacroRuns
  import opened MacroStale

  // A sent proposal, with any height field.
  ghost predicate Resent(sent: set<Proposal>, p: Proposal) {
    exists q, h: nat :: q in sent && p == q.(cp := q.cp.(height := h))
  }

  // Of proposals nothing else is delivered.
  ghost predicate OnlyResent(run: seq<Net>, labels: seq<Label>) {
    |labels| < |run| &&
    forall t :: 0 <= t < |labels| && labels[t].event.ProposalReceived? ==>
      Resent(ProposedBefore(run, labels, labels[t].event.proposal.proposer, t), labels[t].event.proposal)
  }

  ghost predicate NoProposals(labels: seq<Label>) {
    forall t :: 0 <= t < |labels| ==> !labels[t].event.ProposalReceived?
  }

  // ---------------------------------------------------------------------
  // The proposals
  // ---------------------------------------------------------------------

  const LOWERED: Checkpoint := SIGNED.(height := 0)

  lemma FirstAndSecond()
    ensures Sound(FIRST) && Sound(SIGNED) && FIRST.hash != SIGNED.hash && FIRST.height == 0 && SIGNED.height == 1
    ensures LinkIntact(FIRST) && LinkIntact(LOWERED) && LOWERED.hash == SIGNED.hash && FIRST.(height := 0) == FIRST
  {
  }

  // The two proposals of a node, the second with the height of the first.
  lemma AlteredPair(b: Book, set_: ValidatorSet, i: Id)
    requires i in set_ && SeenAt(b, (0, i)) == []
    ensures var p, x := OfferBy(i, FIRST), OfferBy(i, LOWERED);
            Accuses(OnMacroProposal(OnMacroProposal(b, AnyEnv(set_, i), p).book, AnyEnv(set_, i), x).actions, i)
  {
    hide MacroFin.OnMacroProposal, Verified, Accuses, Quiet;
    var env, p, x := AnyEnv(set_, i), OfferBy(i, FIRST), OfferBy(i, LOWERED);
    FirstAndSecond();
    OwnIsVerified(b, set_, i, p);
    OwnIsVerified(OnMacroProposal(b, env, p).book, set_, i, x);
    ProposalQuiet(b, env, p);
    OneOfBoth(b, env, p, x);
    assert SeenAt(b, (p.cp.height, p.proposer)) == [];
    NobodyAccused(b, env, p, i);
  }

  lemma NobodyAccused(b: Book, env: Env, p: Proposal, i: Id)
    requires Judged(b, env, p, OnMacroProposal(b, env, p)) && SeenAt(b, (p.cp.height, p.proposer)) == []
    ensures !Accuses(OnMacroProposal(b, env, p).actions, i)
  {
    hide MacroFin.OnMacroProposal, Verified;
  }

  // What a fill of the window sends.
  lemma FillOffers(b: Book, set_: ValidatorSet, q: Id, h: nat, cp: Checkpoint)
    requires b.ring == [] && b.selfId == q
    requires SendProposal(OfferBy(q, cp)) in Handle(b, AnyEnv(set_, q), MicroQcs([h])).actions
    ensures Offers(Handle(b, AnyEnv(set_, q), MicroQcs([h])).actions) == {OfferBy(q, cp)}
  {
    hide MacroFin.PushMicro;
    var env := AnyEnv(set_, q);
    OnePush(b, env, h);
    PushOffers(b, env, h);
    var s := PushMicro(b, env, h);
    assert OfferBy(q, cp) in Offers(s.actions);
  }

  lemma QuietOffers(b: Book, s: MStep)
    requires Calm(b, s)
    ensures Offers(s.actions) == {}
  {
  }

  lemma DeadlineOffers(b: Book, set_: ValidatorSet, q: Id, k: nat)
    requires b.timers.backup == map[]
    ensures Offers(Handle(b, AnyEnv(set_, q), TimerFired(k)).actions) == {}
  {
    hide MacroFin.ModeBDeadline, Calm;
    var env := AnyEnv(set_, q);
    assert HeightFor(b.timers.backup, k) == None;
    match HeightFor(b.timers.modeB, k)
    case None =>
    case Some(h) =>
      ModeBQuiet(b, env, h);
      QuietOffers(b, ModeBDeadline(b, env, h));
  }

  lemma QcOffers(b: Book, env: Env, qc: MacroQc)
    ensures Offers(Handle(b, env, QcReceived(qc)).actions) == {}
  {
    hide MacroFin.OnMacroQc, Calm;
    QcQuiet(b, env, qc);
    QuietOffers(b, OnMacroQc(b, env, qc));
  }

  // ---------------------------------------------------------------------
  // The run
  // ---------------------------------------------------------------------

  // What node i has proposed so far, in a run in which no proposal has been delivered.
  ghost predicate Scene(w: World, run: seq<Net>, labels: seq<Label>, i: Id, sent: set<Proposal>) {
    && LooseRun(w, true, run, labels) && |run| == |labels| + 1 && NoProposals(labels)
    && ProposedBefore(run, labels, i, |labels|) == sent && run[|labels|].books.Keys == HonestIds(w)
  }

  // One more step of a node.
  ghost predicate Turned(run: seq<Net>, labels: seq<Label>, run': seq<Net>, labels': seq<Label>, i: Id, env: Env,
                         e: Event) {
    && |run| == |labels| + 1 && i in run[|labels|].books
    && var n := run[|labels|];
       var s := Handle(n.books[i], env, e);
       && labels' == labels + [Label(i, env, e)]
       && run' == run + [Net(n.books[i := s.book], n.signed + Sent(s.actions))]
  }

  lemma Turn(w: World, run: seq<Net>, labels: seq<Label>, i: Id, env: Env, e: Event)
    returns (run': seq<Net>, labels': seq<Label>)
    requires LooseRun(w, true, run, labels) && |run| == |labels| + 1 && i in run[|labels|].books && env.set_ == w.set_
    requires LooseDeliverable(w, true, run[|labels|].signed, e)
    ensures LooseRun(w, true, run', labels') && Turned(run, labels, run', labels', i, env, e)
  {
    hide LooseRun, MacroFin.Handle, LooseDeliverable, Sent;
    var n := run[|labels|];
    var s := Handle(n.books[i], env, e);
    var n' := Net(n.books[i := s.book], n.signed + Sent(s.actions));
    LooseExtend(w, true, run, labels, n', Label(i, env, e));
    run', labels' := run + [n'], labels + [Label(i, env, e)];
  }

  lemma TurnProposes(run: seq<Net>, labels: seq<Label>, run': seq<Net>, labels': seq<Label>, i: Id, env: Env, e: Event,
                     k: Id)
    requires Turned(run, labels, run', labels', i, env, e)
    ensures ProposedBefore(run', labels', k, |labels'|)
            == ProposedBefore(run, labels, k, |labels|)
               + if i == k then Offers(Handle(run[|labels|].books[i], env, e).actions) else {}
    ensures ProposedBefore(run', labels', k, |labels|) == ProposedBefore(run, labels, k, |labels|)
  {
    hide MacroFin.Handle, Offers, Sent;
    SameBefore(run, labels, run'[|run|], Label(i, env, e), k, |labels|);
    assert labels'[|labels|] == Label(i, env, e) && run'[|labels|] == run[|labels|];
  }

  lemma SceneTurn(w: World, run: seq<Net>, labels: seq<Label>, run': seq<Net>, labels': seq<Label>, i: Id,
                  env: Env, e: Event, sent: set<Proposal>, more: set<Proposal>)
    requires Scene(w, run, labels, i, sent) && LooseRun(w, true, run', labels')
    requires Turned(run, labels, run', labels', i, env, e)
    requires !e.ProposalReceived? && Offers(Handle(run[|labels|].books[i], env, e).actions) == more
    ensures Scene(w, run', labels', i, sent + more)
  {
    hide MacroFin.Handle, Offers, Sent, LooseRun, ProposedBefore;
    TurnProposes(run, labels, run', labels', i, env, e, i);
  }

  // Steps of others.
  lemma {:induction false} ProposedSame(run: seq<Net>, labels: seq<Label>, run': seq<Net>, labels': seq<Label>, i: Id,
                                        t: nat)
    requires run <= run' && labels <= labels' && t <= |labels| < |run| && |labels'| < |run'|
    ensures ProposedBefore(run', labels', i, t) == ProposedBefore(run, labels, i, t)
  {
    hide Offers, MacroFin.Handle;
    if t > 0 {
      ProposedSame(run, labels, run', labels', i, t - 1);
      assert labels'[t - 1] == labels[t - 1] && run'[t - 1] == run[t - 1];
    }
  }

  lemma {:induction false} OthersPropose(run: seq<Net>, labels: seq<Label>, i: Id, s: nat, t: nat)
    requires s <= t <= |labels| < |run| && forall k :: s <= k < t ==> labels[k].node != i
    ensures ProposedBefore(run, labels, i, t) == ProposedBefore(run, labels, i, s)
  {
    hide Offers, MacroFin.Handle;
    if s < t { OthersPropose(run, labels, i, s, t - 1); }
  }

  lemma ScenePhase(w: World, run: seq<Net>, labels: seq<Label>, run': seq<Net>, labels': seq<Label>, i: Id,
                   sent: set<Proposal>, ids: set<Id>, env: Env, events: seq<Event>)
    requires Scene(w, run, labels, i, sent) && LooseRun(w, true, run', labels') && |run'| == |labels'| + 1
    requires Continued(run, run', ids, env, events) && Only(labels, labels', ids, events) && i !in ids
    requires forall e :: e in events ==> !e.ProposalReceived?
    ensures Scene(w, run', labels', i, sent)
  {
    hide LooseRun, ProposedBefore, MacroRuns.After, SentOver;
    ProposedSame(run, labels, run', labels', i, |labels|);
    OthersPropose(run', labels', i, |labels|, |labels'|);
    forall t | 0 <= t < |labels'| ensures !labels'[t].event.ProposalReceived? {
      if t < |labels| { assert labels'[t] == labels[t]; }
    }
  }

  // ---------------------------------------------------------------------
  // What the primary does
  // ---------------------------------------------------------------------

  ghost predicate Filled0(b: Book, i: Id) {
    Stage(b, i, 0, Zero, map[0 := FIRST], map[], Timers(map[], map[0 := 0], 1), {})
  }

  ghost predicate Voted0(b: Book, i: Id) {
    Stage(b, i, 0, Zero, map[0 := FIRST], map[i := (0, FIRST.hash)], Timers(map[], map[], 1), {})
  }

  ghost predicate Adopted0(b: Book, i: Id) {
    Stage(b, i, 1, FIRST.hash, map[0 := FIRST], map[i := (0, FIRST.hash)], Timers(map[], map[], 1), {FIRST.hash})
  }

  lemma FillsFirst(i: Id, set_: ValidatorSet)
    ensures var s := Handle(Fresh(i), AnyEnv(set_, i), MicroQcs([1]));
            Filled0(s.book, i) && Offers(s.actions) == {OfferBy(i, FIRST)}
  {
    hide MacroFin.Handle, Offers;
    Filled(Fresh(i), i, 0, Zero, map[], map[], map[], 0, {}, set_, i, 1);
    FillOffers(Fresh(i), set_, i, 1, FIRST);
  }

  lemma VotesFirst(b: Book, i: Id, set_: ValidatorSet)
    requires Filled0(b, i)
    ensures var s := Handle(b, AnyEnv(set_, i), TimerFired(0));
            Voted0(s.book, i) && Offers(s.actions) == {} && Sent(s.actions) == {PartialSig(i, FIRST)}
  {
    DeadlineOffers(b, set_, i, 0);
    hide MacroFin.Handle, Offers, Sent, PartialSig;
    Expired(b, i, 0, Zero, map[0 := FIRST], map[], 0, 1, {}, set_, i);
  }

  lemma AdoptsFirst(b: Book, i: Id, set_: ValidatorSet, qc: MacroQc)
    requires Voted0(b, i) && VerifyMacroQc(set_, qc, FIRST) && qc.hash == FIRST.hash
    ensures var s := Handle(b, AnyEnv(set_, i), QcReceived(qc)); Adopted0(s.book, i) && Offers(s.actions) == {}
  {
    QcOffers(b, AnyEnv(set_, i), qc);
    HasHeight(b, 0, FIRST.hash);
    hide MacroFin.Handle, Offers, MacroQcs.VerifyMacroQc, MacroFin.CandidateHeight;
    IsCertified(b, i, 0, Zero, map[0 := FIRST], map[i := (0, FIRST.hash)], map[], 1, {}, set_, i, qc);
    var none: map<nat, nat> := map[];
    assert none - {0} == none;
    assert {} + {FIRST.hash} == {FIRST.hash};
  }

  lemma FillsSecond(b: Book, i: Id, set_: ValidatorSet)
    requires Adopted0(b, i)
    ensures Offers(Handle(b, AnyEnv(set_, i), MicroQcs([2])).actions) == {OfferBy(i, SIGNED)}
  {
    hide MacroFin.Handle, Offers;
    Filled(b, i, 1, FIRST.hash, map[0 := FIRST], map[i := (0, FIRST.hash)], map[], 1, {FIRST.hash}, set_, i, 2);
    FillOffers(b, set_, i, 2, SIGNED);
  }

  // ---------------------------------------------------------------------
  // All of them
  // ---------------------------------------------------------------------

  function HonestWorld(set_: ValidatorSet): World { World(set_, {}) }

  lemma StartScene(w: World, i: Id)
    ensures Scene(w, [FreshNet(w)], [], i, {})
  {
    StartsLoose(w, true);
  }

  lemma EasyDeliver(w: World, signed: set<MSig>)
    ensures LooseDeliverable(w, true, signed, MicroQcs([1])) && LooseDeliverable(w, true, signed, TimerFired(0))
    ensures LooseDeliverable(w, true, signed, MicroQcs([2])) && Deliverables(w, true, signed, Early())
  {
  }

  // The primary proposes and votes.
  lemma PrimaryOpens(set_: ValidatorSet, i: Id) returns (run: seq<Net>, labels: seq<Label>)
    requires i in set_
    ensures Scene(HonestWorld(set_), run, labels, i, {OfferBy(i, FIRST)})
    ensures var n := run[|labels|]; Voted0(n.books[i], i) && PartialSig(i, FIRST) in n.signed
    ensures forall k :: k in run[|labels|].books && k != i ==> run[|labels|].books[k] == Fresh(k)
  {
    hide LooseRun, LooseDeliverable, MacroFin.Handle, MacroFin.Fresh, Offers, Sent, Filled0, Voted0, PartialSig;
    hide ProposedBefore, OfferBy;
    var w, env := HonestWorld(set_), AnyEnv(set_, i);
    StartScene(w, i);
    EasyDeliver(w, {});
    var r, l := Turn(w, [FreshNet(w)], [], i, env, MicroQcs([1]));
    FillsFirst(i, set_);
    SceneTurn(w, [FreshNet(w)], [], r, l, i, env, MicroQcs([1]), {}, {OfferBy(i, FIRST)});
    EasyDeliver(w, r[|l|].signed);
    run, labels := Turn(w, r, l, i, env, TimerFired(0));
    VotesFirst(r[|l|].books[i], i, set_);
    SceneTurn(w, r, l, run, labels, i, env, TimerFired(0), {OfferBy(i, FIRST)}, {});
    assert {} + {OfferBy(i, FIRST)} == {OfferBy(i, FIRST)} && {OfferBy(i, FIRST)} + {} == {OfferBy(i, FIRST)};
  }

  // So do the others, who then hold a certificate by everyone.
  lemma OthersVote(set_: ValidatorSet, i: Id) returns (run: seq<Net>, labels: seq<Label>)
    requires i in set_
    ensures Scene(HonestWorld(set_), run, labels, i, {OfferBy(i, FIRST)})
    ensures Voted0(run[|labels|].books[i], i) && AllSigned(run[|labels|].signed, HonestIds(HonestWorld(set_)), FIRST)
    ensures forall k :: k in run[|labels|].books && k != i ==> AfterEarly(run[|labels|].books[k], k)
  {
    hide LooseRun, Deliverables, MacroRuns.After, SentOver, MacroFin.Fresh, Voted0, PartialSig, ProposedBefore;
    hide AfterEarly, NoProposals, OfferBy;
    var w, env := HonestWorld(set_), AnyEnv(set_, i);
    var r, l := PrimaryOpens(set_, i);
    EasyDeliver(w, r[|l|].signed);
    run, labels := Phase(w, true, r, l, HonestIds(w) - {i}, env, Early());
    ScenePhase(w, r, l, run, labels, i, {OfferBy(i, FIRST)}, HonestIds(w) - {i}, env, Early());
    forall k | k in HonestIds(w) && k != i
      ensures AfterEarly(run[|labels|].books[k], k) && PartialSig(k, FIRST) in run[|labels|].signed
    {
      EarlyDoes(k, set_, i);
    }
  }

  // The primary adopts and proposes for the next height.
  lemma PrimaryGoesOn(set_: ValidatorSet, i: Id) returns (run: seq<Net>, labels: seq<Label>)
    requires Sized(set_) && i in set_
    ensures Scene(HonestWorld(set_), run, labels, i, {OfferBy(i, FIRST), OfferBy(i, SIGNED)})
    ensures forall k :: k in run[|labels|].books && k != i ==> AfterEarly(run[|labels|].books[k], k)
  {
    hide LooseRun, LooseDeliverable, MacroFin.Handle, Offers, Sent, Voted0, Adopted0, PartialSig, ProposedBefore;
    hide AfterEarly, Certify;
    hide MacroQcs.VerifyMacroQc, Everyone, OfferBy;
    var w, env := HonestWorld(set_), AnyEnv(set_, i);
    var r, l := OthersVote(set_, i);
    var qc := Certify(set_, Everyone(set_), FIRST);
    EveryoneCertifies(set_, r[|l|].signed);
    var r2, l2 := Turn(w, r, l, i, env, QcReceived(qc));
    AdoptsFirst(r[|l|].books[i], i, set_, qc);
    SceneTurn(w, r, l, r2, l2, i, env, QcReceived(qc), {OfferBy(i, FIRST)}, {});
    EasyDeliver(w, r2[|l2|].signed);
    run, labels := Turn(w, r2, l2, i, env, MicroQcs([2]));
    FillsSecond(r2[|l2|].books[i], i, set_);
    SceneTurn(w, r2, l2, run, labels, i, env, MicroQcs([2]), {OfferBy(i, FIRST)} + {}, {OfferBy(i, SIGNED)});
    assert {OfferBy(i, FIRST)} + {} + {OfferBy(i, SIGNED)} == {OfferBy(i, FIRST), OfferBy(i, SIGNED)};
  }

  lemma EveryoneCertifies(set_: ValidatorSet, signed: set<MSig>)
    requires Sized(set_) && AllSigned(signed, HonestIds(HonestWorld(set_)), FIRST)
    ensures var qc := Certify(set_, Everyone(set_), FIRST);
            && VerifyMacroQc(set_, qc, FIRST) && qc.hash == FIRST.hash
            && LooseDeliverable(HonestWorld(set_), true, signed, QcReceived(qc))
  {
    hide LooseDeliverable, MacroQcs.VerifyMacroQc, Certify, AllSigned;
    EveryoneCount(set_);
    SplitIsGood(set_);
    CertificateArrives(HonestWorld(set_), true, signed, Everyone(set_), FIRST, HonestIds(HonestWorld(set_)));
  }

  lemma OncePerHeightSent(i: Id)
    ensures !Conflict({OfferBy(i, FIRST), OfferBy(i, SIGNED)})
  {
    FirstAndSecond();
  }

  // Two more proposals that are resent.
  lemma TwoResent(run: seq<Net>, labels: seq<Label>, r1: seq<Net>, l1: seq<Label>, r2: seq<Net>, l2: seq<Label>, i: Id,
                  j: Id, env: Env, sent: set<Proposal>, p: Proposal, x: Proposal)
    requires NoProposals(labels) && i != j && p.proposer == x.proposer == i
    requires Turned(run, labels, r1, l1, j, env, ProposalReceived(p))
    requires Turned(r1, l1, r2, l2, j, env, ProposalReceived(x))
    requires ProposedBefore(run, labels, i, |labels|) == sent && Resent(sent, p) && Resent(sent, x)
    ensures OnlyResent(r2, l2) && ProposedBefore(r2, l2, i, |l2|) == sent
  {
    hide MacroFin.Handle, Offers, Sent, ProposedBefore, Resent;
    var m := |labels|;
    TurnProposes(run, labels, r1, l1, j, env, ProposalReceived(p), i);
    TurnProposes(r1, l1, r2, l2, j, env, ProposalReceived(x), i);
    SameBefore(r1, l1, r2[|r1|], l2[m + 1], i, m);
    forall t | 0 <= t < m ensures !l2[t].event.ProposalReceived? { assert l2[t] == labels[t]; }
  }

  /** Any number n = 3f + 1 of validators from four on, all honest: there is a run in which
      every delivered proposal is one that was sent, with any height field, and node j
      accuses node i, which has proposed once for each height. */
  lemma AlteredHeightAccuses(set_: ValidatorSet, i: Id, j: Id)
    requires Sized(set_) && i in set_ && j in set_ && i != j
    ensures exists w: World, run: seq<Net>, labels: seq<Label>, t: nat ::
              && w.set_ == set_ && GoodWorld(w) && w.byzantine == {} && Run(w, QuorumThreshold(|set_|), run, labels)
              && OnlyResent(run, labels) && !Conflict(ProposedBefore(run, labels, i, |labels|))
              && t < |labels| && labels[t].node == j && j in run[t].books && Accuses(ActionsAt(run, labels, t), i)
  {
    hide LooseRun, Run, MacroFin.Handle, Offers, Sent, ProposedBefore, Conflict, Accuses, OnlyResent;
    hide MacroFin.OnMacroProposal;
    var w, env, p, q, x := HonestWorld(set_), AnyEnv(set_, i), OfferBy(i, FIRST), OfferBy(i, SIGNED),
                           OfferBy(i, LOWERED);
    FirstAndSecond();
    SplitIsGood(set_);
    var r, l := PrimaryGoesOn(set_, i);
    var r1, l1 := Turn(w, r, l, j, env, ProposalReceived(p));
    var run, labels := Turn(w, r1, l1, j, env, ProposalReceived(x));
    assert p == p.(cp := p.cp.(height := 0)) && x == q.(cp := q.cp.(height := 0));
    TwoResent(r, l, r1, l1, run, labels, i, j, env, {p, q}, p, x);
    OncePerHeightSent(i);
    var b := r[|l|].books[j];
    AlteredPair(b, set_, i);
    HandleIsProposal(b, env, ProposalReceived(p));
    HandleIsProposal(r1[|l1|].books[j], env, ProposalReceived(x));
    IntactRun(w, run, labels);
    assert Accuses(ActionsAt(run, labels, |l1|), i);
  }
}
