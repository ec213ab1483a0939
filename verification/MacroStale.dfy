/** Macro agreement without the premise that the parent field of a proposed checkpoint is
    the one under its hash: a stale proposal releases the lock, honest validators sign two
    checkpoints of one height, and chains diverge. */
module MacroStale {
  import opened Validators
  import opened Worlds
  import opened Signatures
  import opened MacroQcs
  import opened MacroFin
  import opened MacroInvariant
  import opened MacroSteps
  import opened MacroNetwork
  import opened MacroLimits
  import opened MacroThreshold
  import opened MacroRuns

  // The stale proposal: the node signs the certified checkpoint again and forgets that
  // it has voted at the next height.
  lemma Released(b: Book, i: Id, cands: map<nat, Checkpoint>, lock: (nat, MHash), timers: Timers, done: set<MHash>,
                 set_: ValidatorSet, q: Id)
    requires Stage(b, i, 1, FIRST.hash, cands, map[i := lock], timers, done) && b.seen == map[] && q in set_
    requires 0 in cands && cands[0] == FIRST && lock.0 != 0 && timers.backup == map[]
    ensures var c := Handle(b, AnyEnv(set_, q), ProposalReceived(StaleProposal(q))).book;
            Stage(c, i, 1, FIRST.hash, cands[0 := Stale()], map[i := (0, FIRST.hash)], timers, done)
  {
    var env, p := AnyEnv(set_, q), StaleProposal(q);
    var c := NoteBeacon(b, env, 0);
    assert SeenAt(c, (0, q)) == [];
    var beacon := BeaconFor(c, env, 0);
    var d := c.(seen := c.seen[(0, q) := [p]]);
    assert Acceptable(d, env, p, beacon);
    assert map[i := lock][i := (0, FIRST.hash)] == map[i := (0, FIRST.hash)];
    hide MacroFin.AggregateActions, MacroFin.SelfCheck;
    var s := ConsiderVote(d, env, p, beacon);
    assert s == AnnounceVote(CastVote(d, p.cp, map[i := (0, FIRST.hash)]), env, p.cp, ActiveMode(d, env, 0), beacon);
    assert timers.(backup := timers.backup - {0}) == timers;
  }

  function Certified(set_: ValidatorSet, cp: Checkpoint): Event { QcReceived(Certify(set_, Everyone(set_), cp)) }

  lemma CertifiedOk(set_: ValidatorSet, cp: Checkpoint)
    requires Distinct(set_) && set_ != []
    ensures Certified(set_, cp).QcReceived? && Certified(set_, cp).qc.hash == cp.hash
    ensures VerifyMacroQc(set_, Certified(set_, cp).qc, cp)
  {
    assert 0 in Everyone(set_);
    AnySignersAccepted(set_, Everyone(set_), cp);
  }

  // Every node votes for the first candidate of height 0 at its deadline, adopts it and
  // votes for its own first candidate of height 1; all but one then see that one rebuilt,
  // a stale proposal, and the deadline of the rebuilt one.
  function Early(): seq<Event> { [MicroQcs([1]), TimerFired(0)] }
  function Middle(set_: ValidatorSet): seq<Event> { [Certified(set_, FIRST), MicroQcs([2]), TimerFired(1)] }
  function Late(q: Id): seq<Event> { [MicroQcs([3]), ProposalReceived(StaleProposal(q)), TimerFired(2)] }

  const TWO: map<nat, Checkpoint> := map[0 := FIRST, 1 := SIGNED]
  const OTHER: map<nat, Checkpoint> := map[0 := Stale(), 1 := REBUILT]

  ghost predicate AfterEarly(b: Book, i: Id) {
    Stage(b, i, 0, Zero, map[0 := FIRST], map[i := (0, FIRST.hash)], Timers(map[], map[], 1), {}) && b.seen == map[]
  }

  ghost predicate AfterMiddle(b: Book, i: Id) {
    Stage(b, i, 1, FIRST.hash, TWO, map[i := (1, SIGNED.hash)], Timers(map[], map[], 2), {FIRST.hash})
        && b.seen == map[]
  }

  ghost predicate AfterLate(b: Book, i: Id) {
    Stage(b, i, 1, FIRST.hash, OTHER, map[i := (1, REBUILT.hash)], Timers(map[], map[], 3), {FIRST.hash})
  }

  lemma EarlyDoes(i: Id, set_: ValidatorSet, q: Id)
    requires i != q
    ensures AfterEarly(After(Fresh(i), AnyEnv(set_, q), Early()), i)
    ensures PartialSig(i, FIRST) in SentOver(Fresh(i), AnyEnv(set_, q), Early())
  {
    hide MacroFin.Handle, Sent, SentOver, MacroRuns.After;
    AfterTwo(Fresh(i), AnyEnv(set_, q), MicroQcs([1]), TimerFired(0));
    Builds(i, 1, set_, q);
    Votes(i, 1, set_, q);
    assert Cand(1) == FIRST;
  }

  lemma Hashes3()
    ensures FIRST.hash != SIGNED.hash && FIRST.hash != REBUILT.hash && SIGNED.hash != REBUILT.hash
  {
    assert [2][0] != [3][0];
  }

  lemma MiddleDoes(b: Book, i: Id, set_: ValidatorSet, q: Id)
    requires AfterEarly(b, i) && i != q && Distinct(set_) && set_ != []
    ensures AfterMiddle(After(b, AnyEnv(set_, q), Middle(set_)), i)
    ensures PartialSig(i, SIGNED) in SentOver(b, AnyEnv(set_, q), Middle(set_))
  {
    hide MacroFin.Handle, Sent, SentOver, MacroRuns.After, Stage, MacroQcs.VerifyMacroQc, MacroFin.CandidateHeight;
    hide Certify;
    var env := AnyEnv(set_, q);
    Hashes3();
    CertifiedOk(set_, FIRST);
    StageCandidates(b, i, map[0 := FIRST]);
    HasHeight(b, 0, FIRST.hash);
    var qc := Certified(set_, FIRST).qc;
    IsCertified(b, i, 0, Zero, map[0 := FIRST], map[i := (0, FIRST.hash)], map[], 1, {}, set_, q, qc);
    var c := Handle(b, env, Certified(set_, FIRST)).book;
    assert {} + {FIRST.hash} == {FIRST.hash};
    var none: map<nat, nat> := map[];
    assert none - {0} == none;
    Filled(c, i, 1, FIRST.hash, map[0 := FIRST], map[i := (0, FIRST.hash)], map[], 1, {FIRST.hash}, set_, q, 2);
    var d := Handle(c, env, MicroQcs([2])).book;
    assert map[0 := FIRST][1 := SIGNED] == TWO;
    Expired(d, i, 1, FIRST.hash, TWO, map[i := (0, FIRST.hash)], 1, 2, {FIRST.hash}, set_, q);
    AfterThree(b, env, Certified(set_, FIRST), MicroQcs([2]), TimerFired(1));
  }

  lemma StageCandidates(b: Book, i: Id, cands: map<nat, Checkpoint>)
    requires exists next, last, lock, timers, done :: Stage(b, i, next, last, cands, lock, timers, done)
    ensures b.candidate == cands
  {
  }

  lemma LateDoes(b: Book, i: Id, set_: ValidatorSet, q: Id)
    requires AfterMiddle(b, i) && i != q && q in set_
    ensures AfterLate(After(b, AnyEnv(set_, q), Late(q)), i)
    ensures PartialSig(i, REBUILT) in SentOver(b, AnyEnv(set_, q), Late(q))
  {
    hide MacroFin.Handle, Sent, SentOver, MacroRuns.After, Stage;
    var env := AnyEnv(set_, q);
    Hashes3();
    Filled(b, i, 1, FIRST.hash, TWO, map[i := (1, SIGNED.hash)], map[], 2, {FIRST.hash}, set_, q, 3);
    var c := Handle(b, env, MicroQcs([3])).book;
    Released(c, i, TWO[1 := REBUILT], (1, SIGNED.hash), Timers(map[], map[1 := 2], 3), {FIRST.hash}, set_, q);
    var d := Handle(c, env, ProposalReceived(StaleProposal(q))).book;
    assert TWO[1 := REBUILT][0 := Stale()] == OTHER;
    Expired(d, i, 1, FIRST.hash, OTHER, map[i := (0, FIRST.hash)], 2, 3, {FIRST.hash}, set_, q);
    AfterThree(b, env, MicroQcs([3]), ProposalReceived(StaleProposal(q)), TimerFired(2));
  }

  // The first two phases, in which every honest node takes part.
  lemma AllVoteTwice(set_: ValidatorSet) returns (run: seq<Net>, labels: seq<Label>)
    requires Sized(set_)
    ensures var w := Split(set_);
            LooseRun(w, false, run, labels) && |run| == |labels| + 1 && run[|labels|].books.Keys == HonestIds(w)
    ensures forall i :: i in HonestIds(Split(set_)) ==> AfterMiddle(run[|labels|].books[i], i)
    ensures AllSigned(run[|labels|].signed, HonestIds(Split(set_)), SIGNED)
  {
    hide LooseRun, MacroRuns.After, SentOver, AfterEarly, AfterMiddle, PartialSig, MacroFin.Fresh;
    var w, q := Split(set_), set_[0];
    var ids, env := HonestIds(w), AnyEnv(set_, q);
    SplitIsGood(set_);
    StartsLoose(w, false);
    EarlyDelivers(w, {});
    run, labels := Phase(w, false, [FreshNet(w)], [], ids, env, Early());
    var n := run[|labels|];
    forall i | i in ids ensures AfterEarly(n.books[i], i) && PartialSig(i, FIRST) in n.signed {
      EarlyDoes(i, set_, q);
    }
    MiddleDelivers(w, n.signed);
    var before := run;
    run, labels := Phase(w, false, run, labels, ids, env, Middle(set_));
    forall i | i in ids
      ensures AfterMiddle(run[|labels|].books[i], i) && PartialSig(i, SIGNED) in run[|labels|].signed
    {
      MiddleDoes(n.books[i], i, set_, q);
    }
  }

  lemma EarlyDelivers(w: World, signed: set<MSig>)
    ensures Deliverables(w, false, signed, Early())
  {
  }

  lemma MiddleDelivers(w: World, signed: set<MSig>)
    requires GoodWorld(w) && AllSigned(signed, HonestIds(w), FIRST)
    ensures Deliverables(w, false, signed, Middle(w.set_))
  {
    EveryoneCount(w.set_);
    CertificateArrives(w, false, signed, Everyone(w.set_), FIRST, HonestIds(w));
    hide Certify, Quorum;
  }

  lemma LateDelivers(w: World, signed: set<MSig>, q: Id)
    ensures Deliverables(w, false, signed, Late(q))
  {
  }

  // Then all but one release the lock and vote again.
  lemma OthersVoteAgain(set_: ValidatorSet, j: Id) returns (run: seq<Net>, labels: seq<Label>)
    requires Sized(set_) && j in HonestIds(Split(set_))
    ensures var w := Split(set_);
            LooseRun(w, false, run, labels) && |run| == |labels| + 1 && run[|labels|].books.Keys == HonestIds(w)
    ensures AfterMiddle(run[|labels|].books[j], j)
    ensures forall i :: i in HonestIds(Split(set_)) && i != j ==> AfterLate(run[|labels|].books[i], i)
    ensures AllSigned(run[|labels|].signed, HonestIds(Split(set_)), SIGNED)
    ensures AllSigned(run[|labels|].signed, HonestIds(Split(set_)) - {j}, REBUILT)
  {
    hide LooseRun, MacroRuns.After, SentOver, AfterLate, AfterMiddle, PartialSig;
    var w, q := Split(set_), set_[0];
    var ids := HonestIds(w) - {j};
    SplitIsGood(set_);
    run, labels := AllVoteTwice(set_);
    var n := run[|labels|];
    LateDelivers(w, n.signed, q);
    run, labels := Phase(w, false, run, labels, ids, AnyEnv(set_, q), Late(q));
    forall i | i in ids ensures AfterLate(run[|labels|].books[i], i) && PartialSig(i, REBUILT) in run[|labels|].signed {
      LateDoes(n.books[i], i, set_, q);
    }
  }

  // One node adopts the checkpoint of height 1 that it holds.
  lemma AdoptsSecond(b: Book, i: Id, cands: map<nat, Checkpoint>, k: nat, set_: ValidatorSet, q: Id, flags: set<nat>)
    requires cands == TWO || cands == OTHER
    requires Stage(b, i, 1, FIRST.hash, cands, map[i := (1, cands[1].hash)], Timers(map[], map[], k), {FIRST.hash})
    requires VerifyMacroQc(set_, Certify(set_, flags, cands[1]), cands[1])
    ensures var c := After(b, AnyEnv(set_, q), [QcReceived(Certify(set_, flags, cands[1]))]);
            Prefix(c) && ChainOf(c) == [cands[0], cands[1]]
  {
    hide MacroFin.Handle, MacroQcs.VerifyMacroQc, MacroFin.CandidateHeight, MacroRuns.After;
    Hashes3();
    HasHeight(b, 1, cands[1].hash);
    var qc := Certify(set_, flags, cands[1]);
    IsCertified(b, i, 1, FIRST.hash, cands, map[i := (1, cands[1].hash)], map[], k, {FIRST.hash}, set_, q, qc);
    AfterOne(b, AnyEnv(set_, q), [], QcReceived(qc));
    assert [] + [QcReceived(qc)] == [QcReceived(qc)];
    AfterNone(b, AnyEnv(set_, q));
  }

  // The chains of two nodes at the end of a run are at odds, and one of them has signed
  // two checkpoints of one height and does not start at the zero hash.
  ghost predicate AtOdds(w: World, run: seq<Net>, labels: seq<Label>, i: Id, j: Id) {
    && GoodWorld(w) && LooseRun(w, false, run, labels) && |run| == |labels| + 1
    && var n := run[|labels|];
       && i in n.books && j in n.books && Prefix(n.books[i]) && Prefix(n.books[j])
       && !Agree(ChainOf(n.books[i]), ChainOf(n.books[j]))
       && ChainOf(n.books[i]) != [] && ChainOf(n.books[i])[0].parent != Zero
       && exists x: Checkpoint, y: Checkpoint ::
            PartialSig(i, x) in n.signed && PartialSig(i, y) in n.signed && x.height == y.height && x.hash != y.hash
  }

  // A node that holds the checkpoint receives a certificate of it by those who signed it.
  lemma OneAdopts(w: World, run: seq<Net>, labels: seq<Label>, i: Id, cands: map<nat, Checkpoint>, k: nat,
                  flags: set<nat>, ids: set<Id>)
    returns (run': seq<Net>, labels': seq<Label>)
    requires GoodWorld(w) && w.set_ != [] && LooseRun(w, false, run, labels) && |run| == |labels| + 1
    requires i in run[|labels|].books
    requires cands == TWO || cands == OTHER
    requires Stage(run[|labels|].books[i], i, 1, FIRST.hash, cands, map[i := (1, cands[1].hash)],
                   Timers(map[], map[], k), {FIRST.hash})
    requires (forall p :: p in flags ==> p < |w.set_|) && |flags| >= QuorumThreshold(|w.set_|)
    requires forall p :: p in flags && Honest(w, w.set_[p]) ==> w.set_[p] in ids
    requires AllSigned(run[|labels|].signed, ids, cands[1])
    ensures LooseRun(w, false, run', labels') && |run'| == |labels'| + 1
    ensures var n, n' := run[|labels|], run'[|labels'|];
            && n'.books.Keys == n.books.Keys && n.signed <= n'.signed
            && (forall j :: j in n.books && j != i ==> n'.books[j] == n.books[j])
            && Prefix(n'.books[i]) && ChainOf(n'.books[i]) == [cands[0], cands[1]]
  {
    hide LooseRun, MacroRuns.After, SentOver, PartialSig, Certify, MacroQcs.VerifyMacroQc, LooseDeliverable, Prefix;
    hide ChainOf, Stage, AllSigned;
    var n := run[|labels|];
    CertificateArrives(w, false, n.signed, flags, cands[1], ids);
    OneDelivers(w, false, n.signed, QcReceived(Certify(w.set_, flags, cands[1])));
    run', labels' := Performs(w, false, run, labels, i, AnyEnv(w.set_, w.set_[0]),
                              [QcReceived(Certify(w.set_, flags, cands[1]))]);
    LooseShape(w, false, run', labels');
    AdoptsSecond(n.books[i], i, cands, k, w.set_, w.set_[0], flags);
  }

  lemma BothAdoptSecond(set_: ValidatorSet, i: Id, j: Id, at: nat) returns (run: seq<Net>, labels: seq<Label>)
    requires Sized(set_) && i != j && i in HonestIds(Split(set_)) && j in HonestIds(Split(set_)) && at < |set_|
    requires set_[at] == j
    ensures AtOdds(Split(set_), run, labels, i, j)
  {
    hide LooseRun, PartialSig, Prefix, ChainOf, Stage, AtOdds;
    var w := Split(set_);
    SplitIsGood(set_);
    run, labels := OthersVoteAgain(set_, j);
    EveryoneCount(set_);
    OthersOnly(set_, at);
    assert PartialSig(i, SIGNED) in run[|labels|].signed && PartialSig(i, REBUILT) in run[|labels|].signed;
    run, labels := OneAdopts(w, run, labels, j, TWO, 2, Everyone(set_), HonestIds(w));
    run, labels := OneAdopts(w, run, labels, i, OTHER, 3, AllBut(set_, at), HonestIds(w) - {j});
    AreAtOdds(w, run, labels, i, j);
  }

  lemma AreAtOdds(w: World, run: seq<Net>, labels: seq<Label>, i: Id, j: Id)
    requires GoodWorld(w) && LooseRun(w, false, run, labels) && |run| == |labels| + 1
    requires i in run[|labels|].books && j in run[|labels|].books && Prefix(run[|labels|].books[i])
    requires Prefix(run[|labels|].books[j])
    requires ChainOf(run[|labels|].books[i]) == [Stale(), REBUILT]
    requires ChainOf(run[|labels|].books[j]) == [FIRST, SIGNED]
    requires PartialSig(i, SIGNED) in run[|labels|].signed && PartialSig(i, REBUILT) in run[|labels|].signed
    ensures AtOdds(w, run, labels, i, j)
  {
    hide LooseRun, PartialSig, Prefix, ChainOf, GoodWorld;
    Hashes3();
    assert Hashes([FIRST, SIGNED])[1] != Hashes([Stale(), REBUILT])[1];
  }

  /** If the parent field of a proposed checkpoint need not be the one under its hash, macro
      agreement, one vote per height and the order of a node's own chain all fail, with any
      number n = 3f + 1 of validators from four on, although every certificate names a quorum. */
  lemma StaleParentsDiverge(set_: ValidatorSet)
    requires Sized(set_)
    ensures exists w: World, run: seq<Net>, labels: seq<Label>, i: Id, j: Id ::
              w.set_ == set_ && AtOdds(w, run, labels, i, j)
  {
    hide AtOdds;
    SplitIsGood(set_);
    var f := MaxFaulty(|set_|);
    assert Honest(Split(set_), set_[f]) && Honest(Split(set_), set_[f + 1]);
    var run, labels := BothAdoptSecond(set_, set_[f + 1], set_[f], f);
  }
}
