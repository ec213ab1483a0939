/** A run of honest validators in which the two-chain tracker and the persisted chain of
    one of them differ, so that a persisted height is never reported final. */
module MacroTracker {
  import opened Validators
  import opened Worlds
  import opened Signatures
  import opened MacroQcs
  import opened MacroFin
  import opened MacroInvariant
  import opened MacroSteps
  import opened MacroNetwork
  import opened MacroHistory
  import opened MacroResponses
  import opened MacroLimits
  import opened MacroThreshold
  import opened MacroRuns

  // Every delivered proposal was sent in an earlier step.
  ghost predicate ProposalsSent(run: seq<Net>, labels: seq<Label>) {
    |labels| < |run| &&
    forall t :: 0 <= t < |labels| && labels[t].event.ProposalReceived?
        ==> SentBefore(run, labels, t, labels[t].event.proposal)
  }

  ghost predicate SentBefore(run: seq<Net>, labels: seq<Label>, t: nat, p: Proposal)
    requires t <= |labels| < |run|
  {
    exists s :: 0 <= s < t && labels[s].node in run[s].books && SendProposal(p) in ActionsAt(run, labels, s)
  }

  // ---------------------------------------------------------------------
  // What each node does
  // ---------------------------------------------------------------------

  function Child(): Checkpoint { Build(1, 0, Cand(2).hash, OfRing([3])) }

  // The window has filled twice when the deadline passes; the certificate of the rebuilt
  // candidate arrives, and the deadline of a child of it passes.
  function Rebuilding(): seq<Event> { [MicroQcs([1]), MicroQcs([2]), TimerFired(1)] }
  function Following(qc: MacroQc): seq<Event> { [QcReceived(qc), MicroQcs([3]), TimerFired(2)] }

  // One node has received the proposal of the first candidate in time.
  function Taking(q: Id): seq<Event> { [MicroQcs([1]), ProposalReceived(OfferBy(q, Cand(1))), MicroQcs([2])] }
  function Taken(qc: MacroQc): seq<Event> { [QcReceived(qc), MicroQcs([3])] }

  ghost predicate Rebuilt(b: Book, i: Id) {
    Stage(b, i, 0, Zero, map[0 := Cand(2)], map[i := (0, Cand(2).hash)], Timers(map[], map[], 2), {})
  }

  // The tracker has the first candidate of height 0.
  ghost predicate Torn(b: Book, i: Id, next: nat, last: MHash, cands: map<nat, Checkpoint>, m: map<nat, nat>, k: nat,
                       done: set<MHash>) {
    && Stage(b, i, next, last, cands, map[i := (0, Cand(1).hash)], Timers(map[], m, k), done)
    && 0 in b.chain.adopted && b.chain.adopted[0] == Cand(1)
  }

  ghost predicate TornFirst(b: Book, i: Id) { Torn(b, i, 0, Zero, map[0 := Cand(2)], map[0 := 1], 2, {}) }

  ghost predicate TornLast(b: Book, i: Id) {
    Torn(b, i, 1, Cand(2).hash, map[0 := Cand(2), 1 := Child()], map[1 := 2], 3, {Cand(2).hash})
  }

  lemma CandsDiffer()
    ensures Cand(1).hash != Cand(2).hash && Child().hash != Cand(2).hash && Cand(1).height == Cand(2).height == 0
  {
    assert [1][0] != [2][0];
  }

  // The first two fills of a window.
  lemma FillsTwice(i: Id, set_: ValidatorSet, q: Id)
    ensures var env := AnyEnv(set_, q);
            var s := Handle(Fresh(i), env, MicroQcs([1]));
            && Stage(s.book, i, 0, Zero, map[0 := Cand(1)], map[], Timers(map[], map[0 := 0], 1), {})
            && (i == q ==> SendProposal(OfferBy(q, Cand(1))) in s.actions)
            && Stage(Handle(s.book, env, MicroQcs([2])).book, i, 0, Zero, map[0 := Cand(2)], map[],
                     Timers(map[], map[0 := 1], 2), {})
  {
    hide MacroFin.Handle;
    var env := AnyEnv(set_, q);
    Filled(Fresh(i), i, 0, Zero, map[], map[], map[], 0, {}, set_, q, 1);
    var b := Handle(Fresh(i), env, MicroQcs([1])).book;
    Filled(b, i, 0, Zero, map[0 := Cand(1)], map[], map[0 := 0], 1, {}, set_, q, 2);
    assert map[0 := Cand(1)][0 := Cand(2)] == map[0 := Cand(2)];
    var m: map<nat, nat> := map[0 := 0];
    assert m[0 := 1] == map[0 := 1];
  }

  lemma RebuildDoes(i: Id, set_: ValidatorSet, q: Id)
    ensures Rebuilt(After(Fresh(i), AnyEnv(set_, q), Rebuilding()), i)
    ensures PartialSig(i, Cand(2)) in SentOver(Fresh(i), AnyEnv(set_, q), Rebuilding())
  {
    hide MacroFin.Handle, Sent, SentOver, MacroRuns.After, Stage, MacroFin.Fresh, Cand;
    var env := AnyEnv(set_, q);
    FillsTwice(i, set_, q);
    var c := Handle(Handle(Fresh(i), env, MicroQcs([1])).book, env, MicroQcs([2])).book;
    Expired(c, i, 0, Zero, map[0 := Cand(2)], map[], 1, 2, {}, set_, q);
    AfterThree(Fresh(i), env, MicroQcs([1]), MicroQcs([2]), TimerFired(1));
  }

  lemma StageCands(b: Book, i: Id, next: nat, last: MHash, cands: map<nat, Checkpoint>, locks: Locks, timers: Timers,
                   done: set<MHash>)
    requires Stage(b, i, next, last, cands, locks, timers, done)
    ensures b.candidate == cands && b.nextHeight == next && b.emitted == done
  {
  }

  lemma FollowDoes(b: Book, i: Id, set_: ValidatorSet, q: Id, qc: MacroQc)
    requires Rebuilt(b, i) && VerifyMacroQc(set_, qc, Cand(2)) && qc.hash == Cand(2).hash
    ensures PartialSig(i, Child()) in SentOver(b, AnyEnv(set_, q), Following(qc))
  {
    hide MacroFin.Handle, Sent, SentOver, MacroRuns.After, Stage, MacroQcs.VerifyMacroQc;
    hide MacroFin.CandidateHeight, Cand;
    hide Child;
    var env, cands, locks := AnyEnv(set_, q), map[0 := Cand(2)], map[i := (0, Cand(2).hash)];
    CandsDiffer();
    StageCands(b, i, 0, Zero, cands, locks, Timers(map[], map[], 2), {});
    HasHeight(b, 0, Cand(2).hash);
    IsCertified(b, i, 0, Zero, cands, locks, map[], 2, {}, set_, q, qc);
    var none: map<nat, nat> := map[];
    assert none - {0} == none && none[1 := 2] == map[1 := 2];
    assert {} + {Cand(2).hash} == {Cand(2).hash};
    var c := Handle(b, env, QcReceived(qc)).book;
    ChildIs();
    Filled(c, i, 1, Cand(2).hash, cands, locks, map[], 2, {Cand(2).hash}, set_, q, 3);
    var d := Handle(c, env, MicroQcs([3])).book;
    Expired(d, i, 1, Cand(2).hash, cands[1 := Child()], locks, 2, 3, {Cand(2).hash}, set_, q);
    AfterThree(b, env, QcReceived(qc), MicroQcs([3]), TimerFired(2));
  }

  lemma ChildIs()
    ensures Child() == Build(1, 0, Cand(2).hash, OfRing([3]))
  {
  }

  // The proposal is voted for: the node is locked on the first candidate and tracks it.
  lemma TakesOffer(i: Id, q: Id, set_: ValidatorSet)
    requires q in set_ && i != q
    ensures Torn(Handle(Built(i, 1), AnyEnv(set_, q), ProposalReceived(OfferBy(q, Cand(1)))).book,
                 i, 0, Zero, map[0 := Cand(1)], map[0 := 0], 1, {})
  {
    var b, env, p := Built(i, 1), AnyEnv(set_, q), OfferBy(q, Cand(1));
    assert SeenAt(b, (0, q)) == [];
    assert NoteBeacon(b, env, 0).beacons == b.beacons;
    var d := b.(seen := b.seen[(0, q) := [p]]);
    assert Acceptable(d, env, p, 0);
    assert TryLock(d.locks, i, 0, Cand(1).hash).Some?;
    hide MacroFin.AggregateActions, MacroFin.SelfCheck;
  }

  lemma TakeDoes(i: Id, set_: ValidatorSet, q: Id)
    requires q in set_ && i != q
    ensures TornFirst(After(Fresh(i), AnyEnv(set_, q), Taking(q)), i)
  {
    hide MacroFin.Handle, Sent, SentOver, MacroRuns.After, MacroFin.Fresh, Stage, Built;
    var env := AnyEnv(set_, q);
    Builds(i, 1, set_, q);
    TakesOffer(i, q, set_);
    var c := Handle(Built(i, 1), env, ProposalReceived(OfferBy(q, Cand(1)))).book;
    Filled(c, i, 0, Zero, map[0 := Cand(1)], map[i := (0, Cand(1).hash)], map[0 := 0], 1, {}, set_, q, 2);
    assert map[0 := Cand(1)][0 := Cand(2)] == map[0 := Cand(2)];
    var m: map<nat, nat> := map[0 := 0];
    assert m[0 := 1] == map[0 := 1];
    AfterThree(Fresh(i), env, MicroQcs([1]), ProposalReceived(OfferBy(q, Cand(1))), MicroQcs([2]));
  }

  lemma TakenDoes(b: Book, i: Id, set_: ValidatorSet, q: Id, qc: MacroQc)
    requires TornFirst(b, i) && VerifyMacroQc(set_, qc, Cand(2)) && qc.hash == Cand(2).hash
    ensures TornLast(After(b, AnyEnv(set_, q), Taken(qc)), i)
  {
    hide MacroFin.Handle, Sent, SentOver, MacroRuns.After, Stage, MacroQcs.VerifyMacroQc;
    hide MacroFin.CandidateHeight, Cand;
    hide Child;
    var env, cands, locks := AnyEnv(set_, q), map[0 := Cand(2)], map[i := (0, Cand(1).hash)];
    StageCands(b, i, 0, Zero, cands, locks, Timers(map[], map[0 := 1], 2), {});
    HasHeight(b, 0, Cand(2).hash);
    IsCertified(b, i, 0, Zero, cands, locks, map[0 := 1], 2, {}, set_, q, qc);
    var m, none: map<nat, nat> := map[0 := 1], map[];
    assert m - {0} == none && none[1 := 2] == map[1 := 2];
    assert {} + {Cand(2).hash} == {Cand(2).hash};
    var c := Handle(b, env, QcReceived(qc)).book;
    ChildIs();
    Filled(c, i, 1, Cand(2).hash, cands, locks, map[], 2, {Cand(2).hash}, set_, q, 3);
    assert cands[1 := Child()] == map[0 := Cand(2), 1 := Child()];
    AfterTwo(b, env, QcReceived(qc), MicroQcs([3]));
  }

  // Adopting the child: the height below is persisted and not tracked.
  lemma LastAdopts(b: Book, i: Id, set_: ValidatorSet, q: Id, qc: MacroQc)
    requires TornLast(b, i) && BookInv(b, set_) && VerifyMacroQc(set_, qc, Child()) && qc.hash == Child().hash
    ensures Adopts(b, Handle(b, AnyEnv(set_, q), QcReceived(qc))) && !Tracked(b, 0)
    ensures b.nextHeight == 1 && b.candidate == map[0 := Cand(2), 1 := Child()] && Child().parent == Cand(2).hash
  {
    CandsDiffer();
    hide BookInv, MacroQcs.VerifyMacroQc, MacroFin.CandidateHeight, Adopts, MacroFin.OnMacroQc, Cand;
    HasHeight(b, 1, Child().hash);
    VerifiedQcAdopts(b, AnyEnv(set_, q), qc);
  }

  // ---------------------------------------------------------------------
  // The run
  // ---------------------------------------------------------------------

  function AllHonest(set_: ValidatorSet): World { World(set_, {}) }

  // The primary has taken the first step, and only its first proposal is delivered.
  ghost predicate Opened(run: seq<Net>, labels: seq<Label>, q: Id, set_: ValidatorSet) {
    && 0 < |labels| < |run| && labels[0] == Label(q, AnyEnv(set_, q), MicroQcs([1]))
    && q in run[0].books && run[0].books[q] == Fresh(q)
    && forall t :: 0 <= t < |labels| ==> Allowed(labels[t].event, q)
  }

  predicate Allowed(e: Event, q: Id) { e.ProposalReceived? ==> e.proposal == OfferBy(q, Cand(1)) }

  lemma OpenedMore(run: seq<Net>, labels: seq<Label>, run': seq<Net>, labels': seq<Label>, q: Id, set_: ValidatorSet,
                   ids: set<Id>, events: seq<Event>)
    requires Opened(run, labels, q, set_) && run <= run' && Only(labels, labels', ids, events) && |labels'| < |run'|
    requires forall e :: e in events ==> Allowed(e, q)
    ensures Opened(run', labels', q, set_)
  {
    hide Allowed, MacroFin.Fresh;
    forall t | 0 <= t < |labels'| ensures Allowed(labels'[t].event, q) {
      if t < |labels| { assert labels'[t] == labels[t]; }
    }
  }

  lemma OpenedSent(run: seq<Net>, labels: seq<Label>, q: Id, set_: ValidatorSet)
    requires Opened(run, labels, q, set_)
    ensures ProposalsSent(run, labels)
  {
    hide MacroFin.Handle, MacroFin.Fresh, Cand, Stage;
    FillsTwice(q, set_, q);
    assert SendProposal(OfferBy(q, Cand(1))) in ActionsAt(run, labels, 0);
    forall t | 0 <= t < |labels| && labels[t].event.ProposalReceived?
      ensures SentBefore(run, labels, t, labels[t].event.proposal)
    {
      assert Allowed(labels[t].event, q) && labels[0].event.MicroQcs?;
    }
  }

  lemma EventsAllowed(q: Id, qc: MacroQc)
    ensures forall e :: e in Rebuilding() ==> Allowed(e, q)
    ensures forall e :: e in Taking(q) ==> Allowed(e, q)
    ensures forall e :: e in Following(qc) ==> Allowed(e, q)
    ensures forall e :: e in Taken(qc) ==> Allowed(e, q)
  {
  }

  lemma EventsDeliver(w: World, signed: set<MSig>, q: Id)
    ensures Deliverables(w, true, signed, Rebuilding()) && Deliverables(w, true, signed, Taking(q))
  {
  }

  lemma QcDelivers(w: World, signed: set<MSig>, qc: MacroQc)
    requires LooseDeliverable(w, true, signed, QcReceived(qc))
    ensures Deliverables(w, true, signed, Following(qc)) && Deliverables(w, true, signed, Taken(qc))
  {
    hide Quorum;
  }

  // The primary goes first.
  lemma Opens(set_: ValidatorSet, q: Id) returns (run: seq<Net>, labels: seq<Label>)
    requires q in set_
    ensures var w := AllHonest(set_);
            && LooseRun(w, true, run, labels) && Opened(run, labels, q, set_) && |run| == |labels| + 1
            && var n := run[|labels|];
               && n.books.Keys == HonestIds(w) && (forall i :: i in n.books && i != q ==> n.books[i] == Fresh(i))
               && Rebuilt(n.books[q], q) && PartialSig(q, Cand(2)) in n.signed
  {
    hide LooseRun, MacroRuns.After, SentOver, Deliverables, MacroFin.Fresh, Allowed, Rebuilt, Cand, PartialSig;
    var w, env := AllHonest(set_), AnyEnv(set_, q);
    StartsLoose(w, true);
    EventsDeliver(w, {}, q);
    run, labels := Performs(w, true, [FreshNet(w)], [], q, env, Rebuilding());
    EventsAllowed(q, Certify(set_, {}, Cand(1)));
    OpensLabels(labels, q, env);
    RebuildDoes(q, set_, q);
  }

  lemma OpensLabels(labels: seq<Label>, q: Id, env: Env)
    requires labels == [] + LabelsOf(q, env, Rebuilding())
    ensures |labels| == 3 && labels[0] == Label(q, env, MicroQcs([1]))
    ensures forall t :: 0 <= t < |labels| ==> labels[t].event in Rebuilding()
  {
  }

  // All but one have signed the rebuilt candidate, that one tracks the first.
  ghost predicate Halfway(set_: ValidatorSet, run: seq<Net>, labels: seq<Label>, q: Id, id: Id) {
    var w := AllHonest(set_);
    && LooseRun(w, true, run, labels) && Opened(run, labels, q, set_) && |run| == |labels| + 1
    && var n := run[|labels|];
       && n.books.Keys == HonestIds(w) && id in n.books && TornFirst(n.books[id], id)
       && (forall i :: i in HonestIds(w) && i != id ==> Rebuilt(n.books[i], i))
       && AllSigned(n.signed, HonestIds(w) - {id}, Cand(2))
  }

  // All but one have done so, and that one has done nothing.
  ghost predicate OthersRebuilt(set_: ValidatorSet, run: seq<Net>, labels: seq<Label>, q: Id, id: Id) {
    var w := AllHonest(set_);
    && LooseRun(w, true, run, labels) && Opened(run, labels, q, set_) && |run| == |labels| + 1
    && var n := run[|labels|];
       && n.books.Keys == HonestIds(w) && id in n.books && n.books[id] == Fresh(id)
       && (forall i :: i in HonestIds(w) && i != id ==> Rebuilt(n.books[i], i))
       && AllSigned(n.signed, HonestIds(w) - {id}, Cand(2))
  }

  lemma OthersRebuild(set_: ValidatorSet, q: Id, id: Id) returns (run: seq<Net>, labels: seq<Label>)
    requires q in set_ && id in set_ && q != id
    ensures OthersRebuilt(set_, run, labels, q, id)
  {
    hide LooseRun, MacroRuns.After, SentOver, Deliverables, MacroFin.Fresh, Opened, Only, Rebuilt, PartialSig, Allowed;
    hide Cand;
    var w, env := AllHonest(set_), AnyEnv(set_, q);
    EventsAllowed(q, Certify(set_, {}, Cand(1)));
    var r, l := Opens(set_, q);
    EventsDeliver(w, r[|l|].signed, q);
    run, labels := Phase(w, true, r, l, HonestIds(w) - {q, id}, env, Rebuilding());
    OpenedMore(r, l, run, labels, q, set_, HonestIds(w) - {q, id}, Rebuilding());
    forall i | i in HonestIds(w) && i != id
      ensures Rebuilt(run[|labels|].books[i], i) && PartialSig(i, Cand(2)) in run[|labels|].signed
    {
      RebuildDoes(i, set_, q);
    }
  }

  lemma FirstHalf(set_: ValidatorSet, q: Id, id: Id) returns (run: seq<Net>, labels: seq<Label>)
    requires q in set_ && id in set_ && q != id
    ensures Halfway(set_, run, labels, q, id)
  {
    hide LooseRun, MacroRuns.After, SentOver, Deliverables, MacroFin.Fresh, Opened, Only, Rebuilt;
    hide TornFirst, PartialSig;
    hide Allowed, Cand;
    var w, env := AllHonest(set_), AnyEnv(set_, q);
    EventsAllowed(q, Certify(set_, {}, Cand(1)));
    var r, l := OthersRebuild(set_, q, id);
    EventsDeliver(w, r[|l|].signed, q);
    run, labels := Performs(w, true, r, l, id, env, Taking(q));
    OnlyThese(l, id, env, Taking(q));
    OpenedMore(r, l, run, labels, q, set_, {id}, Taking(q));
    TakeDoes(id, set_, q);
  }

  lemma SecondHalf(set_: ValidatorSet, at: nat, q: Id) returns (run: seq<Net>, labels: seq<Label>)
    requires Sized(set_) && at < |set_| && q in set_ && q != set_[at]
    ensures var w, id := AllHonest(set_), set_[at];
            && LooseRun(w, true, run, labels) && Opened(run, labels, q, set_) && |run| == |labels| + 1
            && id in run[|labels|].books && TornLast(run[|labels|].books[id], id)
            && AllSigned(run[|labels|].signed, HonestIds(w) - {id}, Child())
  {
    hide LooseRun, MacroRuns.After, SentOver, Deliverables, LooseDeliverable, Opened, Only, Rebuilt;
    hide TornFirst, TornLast;
    hide PartialSig, Certify, Cand, Child, AllBut, MacroQcs.VerifyMacroQc;
    var w, env, id := AllHonest(set_), AnyEnv(set_, q), set_[at];
    var ids := HonestIds(w) - {id};
    var r1, l1 := FirstHalf(set_, q, id);
    OthersOnly(set_, at);
    CertificateArrives(w, true, r1[|l1|].signed, AllBut(set_, at), Cand(2), ids);
    var qc := Certify(set_, AllBut(set_, at), Cand(2));
    EventsAllowed(q, qc);
    QcDelivers(w, r1[|l1|].signed, qc);
    var r2, l2 := Phase(w, true, r1, l1, ids, env, Following(qc));
    OpenedMore(r1, l1, r2, l2, q, set_, ids, Following(qc));
    DeliverLater(w, true, r1[|l1|].signed, r2[|l2|].signed, Taken(qc));
    run, labels := Performs(w, true, r2, l2, id, env, Taken(qc));
    OnlyThese(l2, id, env, Taken(qc));
    OpenedMore(r2, l2, run, labels, q, set_, {id}, Taken(qc));
    TakenDoes(r2[|l2|].books[id], id, set_, q, qc);
    forall i | i in ids ensures PartialSig(i, Child()) in run[|labels|].signed {
      FollowDoes(r1[|l1|].books[i], i, set_, q, qc);
    }
  }

  // The last step of a run is an adoption that reports nothing, although the child it
  // persists is linked to the persisted checkpoint of height 0.
  ghost predicate Unreported(w: World, run: seq<Net>, labels: seq<Label>, id: Id) {
    && labels != [] && |run| == |labels| + 1
    && var t := |labels| - 1;
       && labels[t].node == id && id in run[t].books
       && var b := run[t].books[id];
          && b.nextHeight == 1 && 0 in b.candidate && 1 in b.candidate && !Tracked(b, 0)
          && Persisted(ActionsAt(run, labels, t)) == [b.candidate[1]] && b.candidate[1].parent == b.candidate[0].hash
          && Reported(ActionsAt(run, labels, t)) == []
  }

  lemma LastStep(set_: ValidatorSet, at: nat, q: Id) returns (run: seq<Net>, labels: seq<Label>)
    requires Sized(set_) && at < |set_| && q in set_ && q != set_[at]
    ensures LooseRun(AllHonest(set_), true, run, labels) && ProposalsSent(run, labels)
    ensures Unreported(AllHonest(set_), run, labels, set_[at])
  {
    hide LooseRun, MacroFin.Handle, Opened, TornLast, PartialSig, Certify, AllBut, MacroQcs.VerifyMacroQc, BookInv;
    hide Persisted, Reported;
    hide ProposalsSent, LooseDeliverable, Child;
    var w, id, env := AllHonest(set_), set_[at], AnyEnv(set_, q);
    var r, l := SecondHalf(set_, at, q);
    var n := r[|l|];
    OthersOnly(set_, at);
    CertificateArrives(w, true, n.signed, AllBut(set_, at), Child(), HonestIds(w) - {id});
    var qc := Certify(set_, AllBut(set_, at), Child());
    BookThere(w, r, l, id);
    LastAdopts(n.books[id], id, set_, q, qc);
    var s, e := Handle(n.books[id], env, QcReceived(qc)), Label(id, env, QcReceived(qc));
    var n' := Net(n.books[id := s.book], n.signed + Sent(s.actions));
    LooseExtend(w, true, r, l, n', e);
    run, labels := r + [n'], l + [e];
    assert ActionsAt(run, labels, |l|) == s.actions;
    OnlyThese(l, id, env, [QcReceived(qc)]);
    assert LabelsOf(id, env, [QcReceived(qc)]) == [e];
    OpenedMore(r, l, run, labels, q, set_, {id}, [QcReceived(qc)]);
    OpenedSent(run, labels, q, set_);
  }

  lemma BookThere(w: World, run: seq<Net>, labels: seq<Label>, id: Id)
    requires GoodWorld(w) && LooseRun(w, true, run, labels) && |run| == |labels| + 1 && id in run[|labels|].books
    ensures BookInv(run[|labels|].books[id], w.set_)
  {
    hide LooseRun, Run, BookInv, OwnInv;
    IntactRun(w, run, labels);
    RunLocal(w, QuorumThreshold(|w.set_|), run, labels, |labels|);
  }

  /** Any number n = 3f + 1 of validators from four on, all honest, any primary q and any
      other validator: the window refills before the certificate arrives, and only that
      validator has received the first proposal in time. Its tracker keeps the candidate
      it voted for, it persists the rebuilt one, and adopting the child reports nothing. */
  lemma TrackerDiverges(set_: ValidatorSet, id: Id, q: Id)
    requires Sized(set_) && id in set_ && q in set_ && id != q
    ensures exists w: World, run: seq<Net>, labels: seq<Label> ::
              && w.set_ == set_ && GoodWorld(w) && w.byzantine == {} && Run(w, QuorumThreshold(|set_|), run, labels)
              && ProposalsSent(run, labels) && Unreported(w, run, labels, id)
  {
    hide LooseRun, Run, ProposalsSent, Unreported;
    var at :| 0 <= at < |set_| && set_[at] == id;
    var run, labels := LastStep(set_, at, q);
    IntactRun(AllHonest(set_), run, labels);
    SplitIsGood(set_);
    assert GoodWorld(AllHonest(set_)) && AllHonest(set_).set_ == set_;
  }
}
