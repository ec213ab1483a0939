/** How many signers a delivered certificate has to name for macro agreement: 2f + 1,
    and not one less. */
module MacroThreshold {
  import opened Validators
  import opened Worlds
  import opened Signatures
  import opened MacroQcs
  import opened MacroFin
  import opened MacroInvariant
  import opened MacroSteps
  import opened MacroNetwork
  import opened MacroResponses
  import opened MacroLimits

  // Two honest nodes of the run have diverging chains.
  ghost predicate Diverges(w: World, need: nat, run: seq<Net>, labels: seq<Label>, s: nat, t: nat, i: Id, j: Id) {
    && GoodWorld(w) && Run(w, need, run, labels) && s < |run| && t < |run|
    && i in run[s].books && j in run[t].books && Prefix(run[s].books[i]) && Prefix(run[t].books[j])
    && !Agree(ChainOf(run[s].books[i]), ChainOf(run[t].books[j]))
  }

  // That happens in no run of these validators.
  ghost predicate Agreement(set_: ValidatorSet, need: nat) {
    forall w: World, run: seq<Net>, labels: seq<Label>, s: nat, t: nat, i: Id, j: Id ::
      w.set_ == set_ ==> !Diverges(w, need, run, labels, s, t, i, j)
  }

  // ---------------------------------------------------------------------
  // A node that builds a candidate of height 0 and signs it at the deadline
  // ---------------------------------------------------------------------

  function Cand(c: nat): Checkpoint { Build(0, 0, Zero, OfRing([c])) }

  function Built(i: Id, c: nat): Book {
    Fresh(i).(candidate := map[0 := Cand(c)], beacons := map[0 := 0], timers := Timers(map[], map[0 := 0], 1))
  }

  function Voted(i: Id, c: nat): Book {
    Built(i, c).(timers := Timers(map[], map[], 1), modeB := {0}, locks := map[i := (0, Cand(c).hash)],
                 partials := map[Cand(c).hash := {i}], sigs := map[(Cand(c).hash, i) := PartialSig(i, Cand(c))])
  }

  lemma OnePush(b: Book, env: Env, h: nat)
    ensures OnLocalMicroQcs(b, env, [h]) == PushMicro(b, env, h)
  {
    hide MacroFin.PushMicro;
    assert [h][..0] == [];
    var none: seq<Action> := [];
    assert none + PushMicro(b, env, h).actions == PushMicro(b, env, h).actions;
  }

  lemma Builds(i: Id, c: nat, set_: ValidatorSet, q: Id)
    requires i != q
    ensures var s := Handle(Fresh(i), AnyEnv(set_, q), MicroQcs([c])); s.book == Built(i, c) && Sent(s.actions) == {}
  {
    var b, env := Fresh(i), AnyEnv(set_, q);
    OnePush(b, env, c);
    assert b.ring + [c] == [c];
    var d := NewCandidate(b, env, [c]);
    assert TurnOf(env, i, 0) == Pass;
    var s := Announce(d, env, Pass);
    var t := ArmModeB(s.book, env);
    assert PushMicro(b, env, c).book == t.book;
    assert PushMicro(b, env, c).actions == s.actions + t.actions;
    assert s.actions + t.actions == [ScheduleTimer(0, 2 * env.delay)];
    assert Sent(s.actions + t.actions) == {};
    assert d.candidate == map[0 := Cand(c)] && d.beacons == map[0 := 0];
    assert t.book.timers == Timers(map[], map[0 := 0], 1);
  }

  lemma Votes(i: Id, c: nat, set_: ValidatorSet, q: Id)
    ensures var s := Handle(Built(i, c), AnyEnv(set_, q), TimerFired(0));
            s.book == Voted(i, c) && Sent(s.actions) == {PartialSig(i, Cand(c))}
  {
    var b, env := Built(i, c), AnyEnv(set_, q);
    assert HeightFor(b.timers.backup, 0) == None;
    HeightForOne(0, 0);
    var d := Expire(b, 0);
    assert d.timers == Timers(map[], map[], 1) && d.modeB == {0};
    assert TryLock(d.locks, i, 0, Cand(c).hash) == Some(map[i := (0, Cand(c).hash)]);
    assert PartialsOf(d.partials, Cand(c).hash) + {i} == {i};
    var s := ModeBVote(d, env, 0);
    assert s.book == Voted(i, c);
  }

  lemma VotedInv(i: Id, c: nat, set_: ValidatorSet)
    requires i in set_
    ensures BookInv(Voted(i, c), set_) && CandidateHeight(Voted(i, c), Cand(c).hash) == Some(0)
  {
    var b := Voted(i, c);
    assert LinkAt(b.candidate, 0) == Zero;
    assert CandidatesOk(b.candidate, 0, b.lastHash);
    assert SigsOk(set_, b.sigs);
    var hs := HeightsOf(b.candidate, Cand(c).hash);
    assert hs == {0};
    assert Minimum(hs) in hs;
  }

  // ---------------------------------------------------------------------
  // A run in which two groups sign different candidates
  // ---------------------------------------------------------------------

  // Validators before position f are faulty, the next f sign candidate 1, the
  // f after those candidate 2.
  function Split(set_: ValidatorSet): World {
    World(set_, Members(set_[..MaxFaulty(|set_|)]))
  }

  function Choice(set_: ValidatorSet, k: nat): nat {
    if k < 2 * MaxFaulty(|set_|) then 1 else 2
  }

  ghost predicate Sized(set_: ValidatorSet) {
    Distinct(set_) && |set_| % 3 == 1 && |set_| >= 4
  }

  lemma SplitIsGood(set_: ValidatorSet)
    requires Sized(set_)
    ensures GoodWorld(Split(set_)) && |set_| == 3 * MaxFaulty(|set_|) + 1 && MaxFaulty(|set_|) > 0
    ensures forall k :: 0 <= k < |set_| ==> (Honest(Split(set_), set_[k]) <==> k >= MaxFaulty(|set_|))
  {
    var f := MaxFaulty(|set_|);
    DistinctSize(set_[..f]);
    forall k | 0 <= k < |set_| ensures set_[k] in Members(set_[..f]) <==> k < f {
      if k < f { assert set_[..f][k] == set_[k]; }
    }
  }

  // The state in which the validators at positions f .. f + m - 1 have voted.
  ghost function BookAt(set_: ValidatorSet, m: nat, i: Id): Book {
    match IndexOf(set_, i)
    case None => Fresh(i)
    case Some(k) => if k < MaxFaulty(|set_|) + m then Voted(i, Choice(set_, k)) else Fresh(i)
  }

  ghost function SignedAt(set_: ValidatorSet, m: nat): set<MSig>
    requires MaxFaulty(|set_|) + m <= |set_|
  {
    set k | MaxFaulty(|set_|) <= k < MaxFaulty(|set_|) + m :: PartialSig(set_[k], Cand(Choice(set_, k)))
  }

  ghost function NetAt(set_: ValidatorSet, m: nat): Net
    requires MaxFaulty(|set_|) + m <= |set_|
  {
    Net(map i | i in Members(set_) && Honest(Split(set_), i) :: BookAt(set_, m, i), SignedAt(set_, m))
  }

  lemma PositionIs(set_: ValidatorSet, k: nat)
    requires Distinct(set_) && k < |set_|
    ensures IndexOf(set_, set_[k]) == Some(k)
  {
  }

  lemma StartNet(set_: ValidatorSet)
    requires Sized(set_)
    ensures Init(Split(set_), NetAt(set_, 0))
  {
    var w, n := Split(set_), NetAt(set_, 0);
    SplitIsGood(set_);
    forall i | i in n.books ensures n.books[i] == Fresh(i) {
      var k := IndexOf(set_, i).value;
      assert set_[k] == i && Honest(w, set_[k]);
    }
  }

  lemma NextSigned(set_: ValidatorSet, m: nat)
    requires MaxFaulty(|set_|) + m < |set_|
    ensures var k := MaxFaulty(|set_|) + m;
            SignedAt(set_, m + 1) == SignedAt(set_, m) + {PartialSig(set_[k], Cand(Choice(set_, k)))}
  {
    hide Cand, Choice;
  }

  lemma NextBook(set_: ValidatorSet, m: nat, j: Id)
    requires Sized(set_) && MaxFaulty(|set_|) + m < |set_| && j in set_
    ensures var k := MaxFaulty(|set_|) + m;
            BookAt(set_, m + 1, j) == if j == set_[k] then Voted(j, Choice(set_, k)) else BookAt(set_, m, j)
    ensures BookAt(set_, m, set_[MaxFaulty(|set_|) + m]) == Fresh(set_[MaxFaulty(|set_|) + m])
  {
    hide Voted, MacroFin.Fresh, Choice;
    PositionIs(set_, MaxFaulty(|set_|) + m);
    var k := IndexOf(set_, j).value;
  }

  lemma NextNet(set_: ValidatorSet, m: nat)
    requires Sized(set_) && MaxFaulty(|set_|) + m < |set_|
    ensures var k := MaxFaulty(|set_|) + m;
            var i := set_[k];
            var c := Choice(set_, k);
            && i in NetAt(set_, m).books && NetAt(set_, m).books[i] == Fresh(i)
            && NetAt(set_, m + 1)
               == Net(NetAt(set_, m).books[i := Voted(i, c)], NetAt(set_, m).signed + {PartialSig(i, Cand(c))})
  {
    hide Voted, MacroFin.Fresh, Choice, BookAt, SignedAt, Cand;
    var k := MaxFaulty(|set_|) + m;
    var i, c := set_[k], Choice(set_, k);
    SplitIsGood(set_);
    NextBook(set_, m, i);
    var x, y := NetAt(set_, m).books[i := Voted(i, c)], NetAt(set_, m + 1).books;
    forall j | j in y ensures j in x && x[j] == y[j] { NextBook(set_, m, j); }
    assert x == y;
    NextSigned(set_, m);
  }

  // Two steps of one node, the first of which sends no signature.
  lemma TwoSteps(w: World, need: nat, n: Net, i: Id, e1: Event, e2: Event, env: Env, b: Book, c: Book, sig: MSig)
    returns (n1: Net, n2: Net)
    requires i in n.books && env.set_ == w.set_ && Deliverable(w, need, n.signed, e1)
    requires Deliverable(w, need, n.signed, e2)
    requires Handle(n.books[i], env, e1).book == b && Sent(Handle(n.books[i], env, e1).actions) == {}
    requires Handle(b, env, e2).book == c && Sent(Handle(b, env, e2).actions) == {sig}
    ensures NodeStep(w, need, n, n1, Label(i, env, e1)) && NodeStep(w, need, n1, n2, Label(i, env, e2))
    ensures n2 == Net(n.books[i := c], n.signed + {sig})
  {
    hide MacroFin.Handle, Deliverable, Sent;
    n1 := Net(n.books[i := b], n.signed);
    assert n.signed + {} == n.signed;
    n2 := Net(n1.books[i := c], n1.signed + {sig});
    assert n1.books[i := c] == n.books[i := c];
  }

  lemma {:induction false} VotingRun(set_: ValidatorSet, need: nat, m: nat) returns (run: seq<Net>, labels: seq<Label>)
    requires Sized(set_) && MaxFaulty(|set_|) + m <= |set_|
    ensures Run(Split(set_), need, run, labels) && run[|labels|] == NetAt(set_, m)
  {
    hide Run, MacroFin.Handle, NetAt, NodeStep, Built, Voted, Cand, MacroFin.Fresh, Sent;
    var w, env := Split(set_), AnyEnv(set_, set_[0]);
    if m == 0 {
      run, labels := [NetAt(set_, 0)], [];
      StartNet(set_);
      RunStart(w, need, NetAt(set_, 0));
    } else {
      run, labels := VotingRun(set_, need, m - 1);
      var k := MaxFaulty(|set_|) + m - 1;
      var i, c, n := set_[k], Choice(set_, k), NetAt(set_, m - 1);
      SplitIsGood(set_);
      NextNet(set_, m - 1);
      assert i != set_[0];
      Builds(i, c, set_, set_[0]);
      Votes(i, c, set_, set_[0]);
      var n1, n2 := TwoSteps(w, need, n, i, MicroQcs([c]), TimerFired(0), env, Built(i, c), Voted(i, c),
                             PartialSig(i, Cand(c)));
      RunShape(w, need, run, labels);
      RunExtend(w, need, run, labels, Label(i, env, MicroQcs([c])), n1);
      RunExtend(w, need, run + [n1], labels + [Label(i, env, MicroQcs([c]))], Label(i, env, TimerFired(0)), n2);
      run, labels := run + [n1] + [n2], labels + [Label(i, env, MicroQcs([c]))] + [Label(i, env, TimerFired(0))];
    }
  }

  lemma RunStart(w: World, need: nat, n: Net)
    requires Init(w, n)
    ensures Run(w, need, [n], [])
  {
  }

  // ---------------------------------------------------------------------
  // The two certificates
  // ---------------------------------------------------------------------

  // The faulty validators and one of the groups: 2f of them.
  ghost function Group(set_: ValidatorSet, c: nat): set<nat> {
    set k | 0 <= k < 3 * MaxFaulty(|set_|) && (k < MaxFaulty(|set_|) || Choice(set_, k) == c)
  }

  lemma GroupSize(set_: ValidatorSet, c: nat)
    requires Sized(set_) && (c == 1 || c == 2)
    ensures |Group(set_, c)| == 2 * MaxFaulty(|set_|)
  {
    var f := MaxFaulty(|set_|);
    var start := if c == 1 then f else 2 * f;
    var low, high := set k | k in Group(set_, c) && k < f, set k | k in Group(set_, c) && k >= f;
    IntervalSize(0, f, low);
    IntervalSize(start, f, high);
    assert Group(set_, c) == low + high;
  }

  lemma GroupQc(set_: ValidatorSet, need: nat, c: nat)
    requires Sized(set_) && (c == 1 || c == 2) && need <= 2 * MaxFaulty(|set_|)
    ensures var qc, m := Certify(set_, Group(set_, c), Cand(c)), 2 * MaxFaulty(|set_|);
            && VerifyMacroQc(set_, qc, Cand(c)) && qc.hash == Cand(c).hash
            && Deliverable(Split(set_), need, SignedAt(set_, m), QcReceived(qc))
  {
    var f := MaxFaulty(|set_|);
    var w, flags, m := Split(set_), Group(set_, c), 2 * f;
    SplitIsGood(set_);
    GroupSize(set_, c);
    assert 0 in flags;
    AnySignersAccepted(set_, flags, Cand(c));
    var qc := Certify(set_, flags, Cand(c));
    hide MacroQcs.Signers, MacroQcs.VerifyMacroQc, Certify;
    forall x | x in qc.agg.sig.parts ensures Available(w, SignedAt(set_, m), x) {
      var k :| k in flags && set_[k] == x.signer;
      if k >= f { assert x == PartialSig(set_[k], Cand(Choice(set_, k))); }
    }
  }

  lemma AdoptsFirst(b: Book, env: Env, cp: Checkpoint, qc: MacroQc)
    requires BookInv(b, env.set_) && b.nextHeight == 0 && b.candidate == map[0 := cp] && b.emitted == {}
    requires CandidateHeight(b, qc.hash) == Some(0) && VerifyMacroQc(env.set_, qc, cp)
    ensures Prefix(OnMacroQc(b, env, qc).book) && ChainOf(OnMacroQc(b, env, qc).book) == [cp]
  {
    hide BookInv, MacroFin.CandidateHeight, MacroQcs.VerifyMacroQc, MacroFin.OnMacroQc, Persisted, Reported;
    VerifiedQcAdopts(b, env, qc);
    OneLink(OnMacroQc(b, env, qc).book, cp);
  }

  lemma GroupAdopts(set_: ValidatorSet, c: nat, i: Id, q: Id)
    requires Sized(set_) && (c == 1 || c == 2) && i in set_
    requires VerifyMacroQc(set_, Certify(set_, Group(set_, c), Cand(c)), Cand(c))
    ensures var s := Handle(Voted(i, c), AnyEnv(set_, q), QcReceived(Certify(set_, Group(set_, c), Cand(c))));
            Prefix(s.book) && ChainOf(s.book) == [Cand(c)]
  {
    hide BookInv, MacroFin.CandidateHeight, MacroQcs.VerifyMacroQc, MacroFin.OnMacroQc, Group, Prefix, ChainOf, Cand;
    VotedInv(i, c, set_);
    AdoptsFirst(Voted(i, c), AnyEnv(set_, q), Cand(c), Certify(set_, Group(set_, c), Cand(c)));
  }

  lemma OneLink(d: Book, cp: Checkpoint)
    requires d.nextHeight == 1 && d.candidate == map[0 := cp]
    ensures Prefix(d) && ChainOf(d) == [cp]
  {
  }

  // From the state in which both groups have voted, one node of each adopts.
  lemma BothAdopt(set_: ValidatorSet, need: nat, n: Net, i: Id, j: Id) returns (l1: Label, l2: Label, n1: Net, n2: Net)
    requires Sized(set_) && need <= 2 * MaxFaulty(|set_|) && n.signed == SignedAt(set_, 2 * MaxFaulty(|set_|))
    requires i != j && i in set_ && j in set_ && i in n.books && j in n.books
    requires n.books[i] == Voted(i, 1) && n.books[j] == Voted(j, 2)
    ensures NodeStep(Split(set_), need, n, n1, l1) && NodeStep(Split(set_), need, n1, n2, l2)
    ensures i in n2.books && j in n2.books && Prefix(n2.books[i]) && Prefix(n2.books[j])
    ensures ChainOf(n2.books[i]) == [Cand(1)] && ChainOf(n2.books[j]) == [Cand(2)]
  {
    hide MacroFin.Handle, NodeStep, Cand, Voted, SignedAt, Group, Certify, MacroQcs.VerifyMacroQc, Prefix, ChainOf;
    var w, env, x, y := Split(set_), AnyEnv(set_, set_[0]), Certify(set_, Group(set_, 1), Cand(1)),
                        Certify(set_, Group(set_, 2), Cand(2));
    GroupQc(set_, need, 1);
    GroupQc(set_, need, 2);
    GroupAdopts(set_, 1, i, set_[0]);
    GroupAdopts(set_, 2, j, set_[0]);
    l1, l2 := Label(i, env, QcReceived(x)), Label(j, env, QcReceived(y));
    n1 := AdoptStep(w, need, n, l1);
    StillDeliverable(w, need, n.signed, n1.signed, y);
    n2 := AdoptStep(w, need, n1, l2);
  }

  lemma StillDeliverable(w: World, need: nat, signed: set<MSig>, more: set<MSig>, qc: MacroQc)
    requires Deliverable(w, need, signed, QcReceived(qc)) && signed <= more
    ensures Deliverable(w, need, more, QcReceived(qc))
  {
    hide Names;
  }

  // Two nodes of different groups, each adopting its group's certificate.
  lemma SplitRun(set_: ValidatorSet, need: nat)
    requires Sized(set_) && need <= 2 * MaxFaulty(|set_|)
    ensures !Agreement(set_, need)
  {
    hide Run, NodeStep, Cand, Voted, SignedAt, Prefix, ChainOf, Agree;
    var w, f := Split(set_), MaxFaulty(|set_|);
    SplitIsGood(set_);
    var run, labels := VotingRun(set_, need, 2 * f);
    RunShape(w, need, run, labels);
    VotedAt(set_, f);
    VotedAt(set_, 2 * f);
    var i, j := set_[f], set_[2 * f];
    assert i != j;
    var l1, l2, n1, n2 := BothAdopt(set_, need, run[|labels|], i, j);
    RunExtend(w, need, run, labels, l1, n1);
    RunExtend(w, need, run + [n1], labels + [l1], l2, n2);
    Differ();
    Exhibit(w, need, run + [n1] + [n2], labels + [l1] + [l2], i, j);
  }

  lemma Exhibit(w: World, need: nat, run: seq<Net>, labels: seq<Label>, i: Id, j: Id)
    requires GoodWorld(w) && Run(w, need, run, labels) && |run| == |labels| + 1
    requires var n := run[|labels|];
             && i in n.books && j in n.books && Prefix(n.books[i]) && Prefix(n.books[j])
             && !Agree(ChainOf(n.books[i]), ChainOf(n.books[j]))
    ensures !Agreement(w.set_, need)
  {
    hide Run, Agree, ChainOf, Prefix, GoodWorld;
    assert Diverges(w, need, run, labels, |labels|, |labels|, i, j);
  }

  lemma Differ()
    ensures !Agree([Cand(1)], [Cand(2)])
  {
    assert [1][0] != [2][0];
    assert Hashes([Cand(1)])[0] == Cand(1).hash && Hashes([Cand(2)])[0] == Cand(2).hash;
  }

  lemma VotedAt(set_: ValidatorSet, k: nat)
    requires Sized(set_) && MaxFaulty(|set_|) <= k < 3 * MaxFaulty(|set_|)
    ensures set_[k] in NetAt(set_, 2 * MaxFaulty(|set_|)).books
    ensures NetAt(set_, 2 * MaxFaulty(|set_|)).books[set_[k]] == Voted(set_[k], Choice(set_, k))
  {
    SplitIsGood(set_);
    PositionIs(set_, k);
  }

  lemma AdoptStep(w: World, need: nat, n: Net, l: Label) returns (n': Net)
    requires l.node in n.books && l.env.set_ == w.set_ && Deliverable(w, need, n.signed, l.event)
    ensures NodeStep(w, need, n, n', l) && n.signed <= n'.signed
    ensures n'.books == n.books[l.node := Handle(n.books[l.node], l.env, l.event).book]
    ensures n'.signed == n.signed + Sent(Handle(n.books[l.node], l.env, l.event).actions)
  {
    hide MacroFin.Handle, Deliverable;
    var s := Handle(n.books[l.node], l.env, l.event);
    n' := Net(n.books[l.node := s.book], n.signed + Sent(s.actions));
  }

  /** Macro agreement holds in all runs in which delivered certificates name at least
      `need` validators exactly when `need` is a quorum; verify_macro_qc demands one. */
  lemma AgreementThreshold(set_: ValidatorSet, need: nat)
    requires Sized(set_)
    ensures Agreement(set_, need) <==> need >= QuorumThreshold(|set_|)
  {
    if need < QuorumThreshold(|set_|) {
      SplitIsGood(set_);
      SplitRun(set_, need);
    } else {
      hide Run;
      forall w: World, run: seq<Net>, labels: seq<Label>, s: nat, t: nat, i: Id, j: Id | w.set_ == set_
        ensures !Diverges(w, need, run, labels, s, t, i, j)
      {
        if Diverges(w, need, run, labels, s, t, i, j) {
          MacroAgreement(w, need, run, labels, s, t, i, j);
        }
      }
    }
  }
}
