/** Runs of macro finality put together step by step: what one node makes of a list of
    events, and the same list taken by several nodes one after the other. */
module MacroRuns {
  import opened Validators
  import opened Worlds
  import opened Signatures
  import opened MacroQcs
  import opened MacroFin
  import opened MacroInvariant
  import opened MacroSteps
  import opened MacroNetwork
  import opened MacroLimits
  import opened MacroThreshold

  // As in MacroNetwork, with certificates by quorums; unless `intact`, the parent field of
  // a proposed checkpoint need not be the one under its hash.
  ghost predicate LooseDeliverable(w: World, intact: bool, signed: set<MSig>, e: Event) {
    && (intact ==> Wire(e))
    && (e.PartialReceived? ==> Available(w, signed, e.partial.sig))
    && (e.QcReceived? ==> Quorum(w.set_, e.qc) && forall s :: s in e.qc.agg.sig.parts ==> Available(w, signed, s))
  }

  ghost predicate LooseStep(w: World, intact: bool, n: Net, n': Net, l: Label) {
    && l.node in n.books && l.env.set_ == w.set_ && LooseDeliverable(w, intact, n.signed, l.event)
    && var s := Handle(n.books[l.node], l.env, l.event);
       n' == Net(n.books[l.node := s.book], n.signed + Sent(s.actions))
  }

  ghost predicate LooseRun(w: World, intact: bool, run: seq<Net>, labels: seq<Label>) {
    && |run| == |labels| + 1 && Init(w, run[0])
    && forall t :: 0 <= t < |labels| ==> LooseStep(w, intact, run[t], run[t + 1], labels[t])
  }

  // With intact parent fields these are the runs of MacroNetwork.
  lemma IntactRun(w: World, run: seq<Net>, labels: seq<Label>)
    requires LooseRun(w, true, run, labels)
    ensures Run(w, QuorumThreshold(|w.set_|), run, labels)
  {
    hide MacroFin.Handle, Init, Sent;
    forall t | 0 <= t < |labels| ensures NodeStep(w, QuorumThreshold(|w.set_|), run[t], run[t + 1], labels[t]) {
      assert LooseStep(w, true, run[t], run[t + 1], labels[t]);
    }
  }

  // ---------------------------------------------------------------------
  // One node
  // ---------------------------------------------------------------------

  // The book after a list of events.
  function After(b: Book, env: Env, events: seq<Event>): Book {
    if events == [] then b else Handle(After(b, env, events[..|events| - 1]), env, events[|events| - 1]).book
  }

  lemma AfterOne(b: Book, env: Env, events: seq<Event>, e: Event)
    ensures After(b, env, events + [e]) == Handle(After(b, env, events), env, e).book
  {
    assert (events + [e])[..|events|] == events;
  }

  // The signatures a node sends over a list of events.
  ghost function SentOver(b: Book, env: Env, events: seq<Event>): set<MSig> {
    if events == [] then {}
    else
      var m := |events| - 1;
      SentOver(b, env, events[..m]) + Sent(Handle(After(b, env, events[..m]), env, events[m]).actions)
  }

  lemma SentLast(b: Book, env: Env, events: seq<Event>, e: Event)
    ensures Sent(Handle(After(b, env, events), env, e).actions) <= SentOver(b, env, events + [e])
  {
    hide MacroFin.Handle, Sent, After;
    assert (events + [e])[..|events|] == events;
  }

  lemma AfterTwo(b: Book, env: Env, x: Event, y: Event)
    ensures var c := Handle(b, env, x).book;
            && After(b, env, [x, y]) == Handle(c, env, y).book
            && Sent(Handle(c, env, y).actions) <= SentOver(b, env, [x, y])
  {
    hide MacroFin.Handle, Sent;
    AfterOne(b, env, [], x);
    AfterOne(b, env, [x], y);
    SentLast(b, env, [x], y);
    assert [x] == [] + [x] && [x, y] == [x] + [y];
  }

  lemma AfterThree(b: Book, env: Env, x: Event, y: Event, z: Event)
    ensures var c := Handle(b, env, x).book;
            var d := Handle(c, env, y).book;
            && After(b, env, [x, y, z]) == Handle(d, env, z).book
            && Sent(Handle(d, env, z).actions) <= SentOver(b, env, [x, y, z])
  {
    hide MacroFin.Handle, Sent;
    AfterTwo(b, env, x, y);
    SentLast(b, env, [x, y], z);
    AfterOne(b, env, [x, y], z);
    assert [x, y, z] == [x, y] + [z];
  }

  lemma AfterNone(b: Book, env: Env)
    ensures After(b, env, []) == b
  {
  }

  // What matters of a book here.
  ghost predicate Stage(b: Book, i: Id, next: nat, last: MHash, cands: map<nat, Checkpoint>, locks: Locks,
                        timers: Timers, done: set<MHash>) {
    && b.selfId == i && b.ring == [] && b.nextHeight == next && b.lastHash == last && b.candidate == cands
    && b.locks == locks && b.timers == timers && b.emitted == done
  }

  lemma IsCertified(b: Book, i: Id, next: nat, last: MHash, cands: map<nat, Checkpoint>, locks: Locks,
                    m: map<nat, nat>, k: nat, done: set<MHash>, set_: ValidatorSet, q: Id, qc: MacroQc)
    requires Stage(b, i, next, last, cands, locks, Timers(map[], m, k), done) && next in cands
    requires cands[next].hash !in done && CandidateHeight(b, cands[next].hash) == Some(next)
    requires VerifyMacroQc(set_, qc, cands[next]) && qc.hash == cands[next].hash
    ensures var c := Handle(b, AnyEnv(set_, q), QcReceived(qc)).book;
            && Stage(c, i, next + 1, cands[next].hash, cands, locks, Timers(map[], m - {next}, k), done + {qc.hash})
            && c.seen == b.seen
            && forall h :: h in b.chain.adopted ==> h in c.chain.adopted && c.chain.adopted[h] == b.chain.adopted[h]
  {
    var env := AnyEnv(set_, q);
    hide MacroQcs.VerifyMacroQc, MacroFin.CandidateHeight, MacroFin.NewlyFinalized, MacroFin.NoteLeak;
    hide MacroFin.FinalReport;
    assert OnMacroQc(b, env, qc) == Adoption(b, env, cands[next], qc, next, []);
    var c := Advance(b, cands[next], qc.hash, next);
    assert c.timers == Timers(map[], m - {next}, k);
  }

  function OfferBy(q: Id, cp: Checkpoint): Proposal {
    Proposal(cp, q, 0, Signed(q, MACRO_PROPOSER_SIG, ProposerMsg(q, cp.hash)))
  }

  // The window fills: there is a new candidate, which the primary proposes.
  lemma Filled(b: Book, i: Id, next: nat, last: MHash, cands: map<nat, Checkpoint>, locks: Locks,
               m: map<nat, nat>, k: nat, done: set<MHash>, set_: ValidatorSet, q: Id, h: nat)
    requires Stage(b, i, next, last, cands, locks, Timers(map[], m, k), done)
    ensures var s, cp := Handle(b, AnyEnv(set_, q), MicroQcs([h])), Build(next, 0, last, OfRing([h]));
            && Stage(s.book, i, next, last, cands[next := cp], locks, Timers(map[], m[next := k], k + 1), done)
            && s.book.seen == b.seen && s.book.chain == b.chain
            && (i == q ==> SendProposal(OfferBy(q, cp)) in s.actions)
  {
    var env := AnyEnv(set_, q);
    OnePush(b, env, h);
    assert b.ring + [h] == [h];
    var d := NewCandidate(b, env, [h]);
    var s := Announce(d, env, TurnOf(env, i, next));
    var t := ArmModeB(s.book, env);
    assert PushMicro(b, env, h) == MStep(t.book, s.actions + t.actions);
    if i == q { assert s.actions[0] == SendProposal(OfferBy(q, d.candidate[next])); }
  }

  // The Mode B deadline: the node signs its candidate.
  lemma Expired(b: Book, i: Id, next: nat, last: MHash, cands: map<nat, Checkpoint>, locks: Locks, k: nat, m: nat,
                done: set<MHash>, set_: ValidatorSet, q: Id)
    requires Stage(b, i, next, last, cands, locks, Timers(map[], map[next := k], m), done) && next in cands
    requires cands[next].hash !in done && locks.Keys <= {i}
    requires (i in locks && locks[i].0 == next ==> locks[i].1 == cands[next].hash)
    ensures var s := Handle(b, AnyEnv(set_, q), TimerFired(k));
            && Stage(s.book, i, next, last, cands, map[i := (next, cands[next].hash)], Timers(map[], map[], m), done)
            && s.book.seen == b.seen && Sent(s.actions) == {PartialSig(i, cands[next])}
  {
    var env := AnyEnv(set_, q);
    assert HeightFor(b.timers.backup, k) == None;
    HeightForOne(next, k);
    var d := Expire(b, next);
    assert d.timers == Timers(map[], map[], m);
    assert locks[i := (next, cands[next].hash)] == map[i := (next, cands[next].hash)];
    hide PartialSig, MacroFin.PartialsOf;
  }

  lemma HasHeight(b: Book, h: nat, hash: MHash)
    requires forall g :: g in b.candidate && b.candidate[g].hash == hash <==> g == h
    ensures CandidateHeight(b, hash) == Some(h)
  {
    assert HeightsOf(b.candidate, hash) == {h};
    assert Minimum(HeightsOf(b.candidate, hash)) in HeightsOf(b.candidate, hash);
  }

  // ---------------------------------------------------------------------
  // Several nodes
  // ---------------------------------------------------------------------

  ghost predicate Deliverables(w: World, intact: bool, signed: set<MSig>, events: seq<Event>) {
    forall k :: 0 <= k < |events| ==> LooseDeliverable(w, intact, signed, events[k])
  }

  lemma DeliverLater(w: World, intact: bool, signed: set<MSig>, more: set<MSig>, events: seq<Event>)
    requires Deliverables(w, intact, signed, events) && signed <= more
    ensures Deliverables(w, intact, more, events)
  {
    hide Quorum;
  }

  lemma FewerEvents(w: World, intact: bool, signed: set<MSig>, events: seq<Event>)
    requires events != [] && Deliverables(w, intact, signed, events)
    ensures Deliverables(w, intact, signed, events[..|events| - 1])
  {
    hide LooseDeliverable;
  }

  lemma LastDeliverable(w: World, intact: bool, signed: set<MSig>, events: seq<Event>)
    requires events != [] && Deliverables(w, intact, signed, events)
    ensures LooseDeliverable(w, intact, signed, events[|events| - 1])
  {
    hide LooseDeliverable;
  }

  lemma OneDelivers(w: World, intact: bool, signed: set<MSig>, e: Event)
    requires LooseDeliverable(w, intact, signed, e)
    ensures Deliverables(w, intact, signed, [e])
  {
    hide LooseDeliverable;
  }

  lemma LooseExtend(w: World, intact: bool, run: seq<Net>, labels: seq<Label>, n: Net, l: Label)
    requires LooseRun(w, intact, run, labels) && LooseStep(w, intact, run[|labels|], n, l)
    ensures LooseRun(w, intact, run + [n], labels + [l])
  {
    hide LooseStep, Init;
    var r, ls := run + [n], labels + [l];
    forall t | 0 <= t < |ls| ensures LooseStep(w, intact, r[t], r[t + 1], ls[t]) {
      if t < |labels| { assert r[t] == run[t] && r[t + 1] == run[t + 1] && ls[t] == labels[t]; }
    }
  }

  lemma LooseShape(w: World, intact: bool, run: seq<Net>, labels: seq<Label>)
    requires LooseRun(w, intact, run, labels)
    ensures |run| == |labels| + 1
  {
    hide LooseStep, Init;
  }

  // The run has been extended by steps of the listed nodes, each of which took the
  // events in order.
  ghost predicate Continued(run: seq<Net>, run': seq<Net>, ids: set<Id>, env: Env, events: seq<Event>)
    requires run != [] && run' != []
  {
    var n, n' := run[|run| - 1], run'[|run'| - 1];
    && run <= run' && n'.books.Keys == n.books.Keys && n.signed <= n'.signed
    && (forall i :: i in n.books && i !in ids ==> n'.books[i] == n.books[i])
    && (forall i :: i in n.books && i in ids ==>
          n'.books[i] == After(n.books[i], env, events) && SentOver(n.books[i], env, events) <= n'.signed)
  }

  ghost function LabelsOf(i: Id, env: Env, events: seq<Event>): seq<Label> {
    seq(|events|, k requires 0 <= k < |events| => Label(i, env, events[k]))
  }

  // The steps added to the labels are among these, by these nodes.
  ghost predicate Only(labels: seq<Label>, labels': seq<Label>, ids: set<Id>, events: seq<Event>) {
    labels <= labels' && forall t :: |labels| <= t < |labels'| ==> labels'[t].node in ids && labels'[t].event in events
  }

  lemma {:induction false} Performs(w: World, intact: bool, run: seq<Net>, labels: seq<Label>, i: Id, env: Env,
                                    events: seq<Event>)
    returns (run': seq<Net>, labels': seq<Label>)
    requires LooseRun(w, intact, run, labels) && i in run[|labels|].books && env.set_ == w.set_
    requires Deliverables(w, intact, run[|labels|].signed, events)
    ensures LooseRun(w, intact, run', labels') && |run'| == |labels'| + 1
    ensures Continued(run, run', {i}, env, events) && labels' == labels + LabelsOf(i, env, events)
  {
    hide LooseRun, Deliverables, MacroFin.Handle, Sent;
    LooseShape(w, intact, run, labels);
    if events == [] {
      run', labels' := run, labels;
    } else {
      var m := |events| - 1;
      FewerEvents(w, intact, run[|labels|].signed, events);
      run', labels' := Performs(w, intact, run, labels, i, env, events[..m]);
      LooseShape(w, intact, run', labels');
      var n := run'[|labels'|];
      DeliverLater(w, intact, run[|labels|].signed, n.signed, events);
      var s := Handle(n.books[i], env, events[m]);
      var n' := Net(n.books[i := s.book], n.signed + Sent(s.actions));
      LastDeliverable(w, intact, n.signed, events);
      LooseExtend(w, intact, run', labels', n', Label(i, env, events[m]));
      LabelsLast(i, env, events);
      run', labels' := run' + [n'], labels' + [Label(i, env, events[m])];
    }
  }

  lemma OnlySame(labels: seq<Label>, ids: set<Id>, events: seq<Event>)
    ensures Only(labels, labels, ids, events)
  {
  }

  lemma OnlyThese(labels: seq<Label>, i: Id, env: Env, events: seq<Event>)
    ensures Only(labels, labels + LabelsOf(i, env, events), {i}, events)
  {
  }

  lemma LabelsLast(i: Id, env: Env, events: seq<Event>)
    requires events != []
    ensures LabelsOf(i, env, events) == LabelsOf(i, env, events[..|events| - 1]) + [Label(i, env, events[|events| - 1])]
  {
  }

  lemma OnlyJoin(x: seq<Label>, y: seq<Label>, z: seq<Label>, a: set<Id>, b: set<Id>, events: seq<Event>)
    requires Only(x, y, a, events) && Only(y, z, b, events)
    ensures Only(x, z, a + b, events)
  {
    forall t | |x| <= t < |z| ensures z[t].node in a + b && z[t].event in events {
      if t < |y| { assert z[t] == y[t]; }
    }
  }

  // Several nodes one after the other.
  lemma {:induction false} Phase(w: World, intact: bool, run: seq<Net>, labels: seq<Label>, ids: set<Id>, env: Env,
                                 events: seq<Event>)
    returns (run': seq<Net>, labels': seq<Label>)
    requires LooseRun(w, intact, run, labels) && |run| == |labels| + 1 && ids <= run[|labels|].books.Keys
    requires env.set_ == w.set_
    requires Deliverables(w, intact, run[|labels|].signed, events)
    ensures LooseRun(w, intact, run', labels') && |run'| == |labels'| + 1
    ensures Continued(run, run', ids, env, events) && Only(labels, labels', ids, events)
    decreases ids
  {
    hide LooseRun, Deliverables, After, SentOver, Only;
    if ids == {} {
      run', labels' := run, labels;
      OnlySame(labels, ids, events);
    } else {
      var i :| i in ids;
      run', labels' := Phase(w, intact, run, labels, ids - {i}, env, events);
      var mid, said := run', labels';
      DeliverLater(w, intact, run[|labels|].signed, run'[|labels'|].signed, events);
      run', labels' := Performs(w, intact, run', labels', i, env, events);
      JoinPhases(run, mid, run', ids, i, env, events);
      OnlyThese(said, i, env, events);
      OnlyJoin(labels, said, labels', ids - {i}, {i}, events);
      assert ids - {i} + {i} == ids;
    }
  }

  lemma JoinPhases(run: seq<Net>, mid: seq<Net>, run': seq<Net>, ids: set<Id>, i: Id, env: Env, events: seq<Event>)
    requires run != [] && mid != [] && run' != [] && i in ids && ids <= run[|run| - 1].books.Keys
    requires Continued(run, mid, ids - {i}, env, events) && Continued(mid, run', {i}, env, events)
    ensures Continued(run, run', ids, env, events)
  {
    hide After, SentOver;
  }

  // ---------------------------------------------------------------------
  // Certificates
  // ---------------------------------------------------------------------

  ghost function HonestIds(w: World): set<Id> { Members(w.set_) - w.byzantine }

  ghost function FreshNet(w: World): Net { Net(map i | i in HonestIds(w) :: Fresh(i), {}) }

  lemma StartsLoose(w: World, intact: bool)
    ensures LooseRun(w, intact, [FreshNet(w)], []) && FreshNet(w).books.Keys == HonestIds(w)
  {
    hide MacroFin.Fresh;
  }

  function Everyone(set_: ValidatorSet): set<nat> { set k {:trigger set_[k]} | 0 <= k < |set_| }

  lemma EveryoneCount(set_: ValidatorSet)
    ensures |Everyone(set_)| == |set_|
  {
    IntervalSize(0, |set_|, Everyone(set_));
  }

  // Positions of all but one validator: a quorum.
  function AllBut(set_: ValidatorSet, j: nat): set<nat> { Everyone(set_) - {j} }

  lemma OthersOnly(set_: ValidatorSet, at: nat)
    requires Sized(set_) && at < |set_|
    ensures |AllBut(set_, at)| >= QuorumThreshold(|set_|)
    ensures forall k :: k in AllBut(set_, at) ==> k < |set_| && set_[k] != set_[at]
  {
    EveryoneCount(set_);
    SplitIsGood(set_);
    assert at in Everyone(set_);
  }

  // The listed validators have signed `cp`.
  ghost predicate AllSigned(signed: set<MSig>, ids: set<Id>, cp: Checkpoint) {
    forall i :: i in ids ==> PartialSig(i, cp) in signed
  }

  // A certificate by validators of whom the honest ones have signed.
  lemma CertificateArrives(w: World, intact: bool, signed: set<MSig>, flags: set<nat>, cp: Checkpoint, ids: set<Id>)
    requires GoodWorld(w) && (forall k :: k in flags ==> k < |w.set_|) && |flags| >= QuorumThreshold(|w.set_|)
    requires forall k :: k in flags && Honest(w, w.set_[k]) ==> w.set_[k] in ids
    requires AllSigned(signed, ids, cp)
    ensures var qc := Certify(w.set_, flags, cp);
            VerifyMacroQc(w.set_, qc, cp) && qc.hash == cp.hash && LooseDeliverable(w, intact, signed, QcReceived(qc))
  {
    var qc := Certify(w.set_, flags, cp);
    AnySignersAccepted(w.set_, flags, cp);
    hide MacroQcs.Signers, MacroQcs.VerifyMacroQc, Certify;
    forall x | x in qc.agg.sig.parts ensures Available(w, signed, x) {
      var k :| k in flags && w.set_[k] == x.signer;
    }
  }
}
