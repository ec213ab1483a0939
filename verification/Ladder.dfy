/** Why the order needs complete views: the host indexes a certified vertex whether or not
    its parents have arrived, and a wave commits on what is there. */
module Ladder {
  import opened Validators
  import opened Worlds
  import opened Certificates
  import opened VertexCert
  import opened VertexNetwork
  import opened HostViews
  import opened Stories
  import opened Dag
  import opened Commit
  import opened Linearize
  import opened CertifiedDag
  import opened Grid
  import opened GridSteps
  import opened GridRuns

  // Of four honest validators three draw seven rounds, every vertex naming the three of the
  // round before; the fourth lags behind.
  const RUNGS: Plan := Plan(1, 6, (r: nat, i: Id) => r <= 6 && i <= 2, (r: nat, i: Id, j: nat) => j)
  const THREE: Cast := Cast(RUNGS, {}, {0, 1, 2})

  lemma ThreePlay()
    ensures Playable(THREE) && GoodWorld(WorldFor(THREE)) && |WorldFor(THREE).set_| == 4
    ensures forall i: Id :: Honest(WorldFor(THREE), i) <==> i <= 3
  {
    WorldIsGood(1, {});
    forall r: nat, i: Id | i <= 2 ensures Picks(RUNGS, r, i) == {0, 1, 2} {
      PicksAre(r, i);
    }
  }

  lemma PicksAre(r: nat, i: Id)
    ensures Picks(RUNGS, r, i) == {0, 1, 2}
  {
    var picks := Picks(RUNGS, r, i);
    forall j | 0 <= j <= 2 ensures j in picks { assert RUNGS.pick(r, i, j) == j; }
  }

  function Rung(round: nat, i: Id): Vertex { Placed(RUNGS, round, i) }

  lemma RungFields(r: nat, i: Id)
    ensures var v := Rung(r, i); v.round == r && v.author == i && v.hash == ContentHash(v)
  {
    PlacedFields(RUNGS, r, i);
  }

  lemma RungNames(r: nat, i: Id, j: Id)
    requires j <= 2
    ensures Rung(r, j).hash in Rung(r + 1, i).parents
  {
    HasParent(RUNGS, r + 1, i, j);
  }

  lemma RungParent(r: nat, i: Id, h: Hash) returns (j: Id)
    requires h in Rung(r, i).parents
    ensures r > 0 && j <= 2 && h == Rung(r - 1, j).hash
  {
    j := ParentIs(RUNGS, r, i, h);
  }

  // ---------------------------------------------------------------------
  // Commits
  // ---------------------------------------------------------------------

  ghost predicate ByFirst(rule: Rule, wave: nat) {
    rule.leader(wave) == 0 && rule.shortcut >= 1
  }

  lemma RungSupports(vs: seq<Vertex>, r: nat, i: Id)
    requires Drawn(RUNGS, vs) && Rung(r + 1, i) in vs
    ensures Supports(Ingested(vs), Rung(r, 0).hash, r + 1, i)
  {
    hide Ingested, Drawn, Placed;
    RungFields(r + 1, i);
    Shown(RUNGS, vs, r + 1, i);
    ReachesSelf(Ingested(vs), Rung(r, 0).hash);
    RungNames(r, i, 0);
  }

  lemma RungEnough(vs: seq<Vertex>, r: nat, window: nat)
    requires Drawn(RUNGS, vs) && window >= 1 && Rung(r + 1, 0) in vs && Rung(r + 1, 1) in vs && Rung(r + 1, 2) in vs
    ensures Enough(Ingested(vs), 4, Rung(r, 0).hash, r, window)
  {
    hide Rung, Ingested, Supports, Drawn;
    var s := SupportersExist(Ingested(vs), Rung(r, 0).hash, r, window);
    var three: set<Id> := {0, 1, 2};
    forall a | a in three ensures a in s {
      RungSupports(vs, r, a);
      assert Supporter(Ingested(vs), Rung(r, 0).hash, r, window, a);
    }
    SubsetSize(three, s);
  }

  lemma RungCommits(vs: seq<Vertex>, rule: Rule, wave: nat)
    requires Drawn(RUNGS, vs) && ByFirst(rule, wave)
    requires var r := FirstRound(wave);
             Rung(r, 0) in vs && Rung(r + 1, 0) in vs && Rung(r + 1, 1) in vs && Rung(r + 1, 2) in vs
    ensures Commits(rule, 4, Ingested(vs), wave, false, Rung(FirstRound(wave), 0).hash)
  {
    hide Placed, Ingested, Enough, Drawn;
    var r := FirstRound(wave);
    var at := VerticesAt(Ingested(vs), r);
    RungFields(r, 0);
    Shown(RUNGS, vs, r, 0);
    FirstByFinds(at, 0);
    ShownIs(RUNGS, vs, r, FirstBy(at, 0).value);
    RungEnough(vs, r, rule.shortcut);
  }

  lemma AllRungsCommit(vs: seq<Vertex>, rule: Rule, wave: nat)
    requires DrawnBelow(RUNGS, 6, vs) && ByFirst(rule, wave) && wave <= 1
    ensures Commits(rule, 4, Ingested(vs), wave, false, Rung(FirstRound(wave), 0).hash)
  {
    hide Placed, Ingested;
    var r := FirstRound(wave);
    DrawnHas(RUNGS, 6, vs, r, 0);
    DrawnHas(RUNGS, 6, vs, r + 1, 0);
    DrawnHas(RUNGS, 6, vs, r + 1, 1);
    DrawnHas(RUNGS, 6, vs, r + 1, 2);
    RungCommits(vs, rule, wave);
  }

  // ---------------------------------------------------------------------
  // A view without all ancestors
  // ---------------------------------------------------------------------

  // The anchor of wave 1 and its supporters.
  function Few(): seq<Vertex> { [Rung(4, 0), Rung(5, 0), Rung(5, 1), Rung(5, 2)] }

  // One vertex of round 3.
  function Top(): seq<Vertex> { [Rung(3, 0)] }

  lemma BothDrawn()
    ensures Drawn(RUNGS, Few()) && Drawn(RUNGS, Top())
    ensures forall v :: v in Few() ==> v.round >= 4
    ensures forall v :: v in Top() ==> v.round == 3
  {
    hide Placed;
    RungFields(3, 0);
    RungFields(4, 0);
    RungFields(5, 0);
    RungFields(5, 1);
    RungFields(5, 2);
  }

  // A vertex of a round that is not indexed is not known by its hash.
  lemma NotIndexed(vs: seq<Vertex>, r: nat, i: Id)
    requires Drawn(RUNGS, vs) && forall v :: v in vs ==> v.round != r
    ensures ParentsOf(Ingested(vs), Rung(r, i).hash) == []
  {
    hide Placed, Ingested, Drawn;
    DrawnSealed(RUNGS, vs);
    IngestedHashes(vs, Rung(r, i).hash);
    RungFields(r, i);
    assert Rung(r, i).hash !in Ingested(vs).byHash;
  }

  ghost function Near(r: nat): set<Hash>
    requires r > 0
  {
    {Rung(r, 0).hash, Rung(r - 1, 0).hash, Rung(r - 1, 1).hash, Rung(r - 1, 2).hash}
  }

  lemma NearIsClosed(vs: seq<Vertex>, r: nat)
    requires Drawn(RUNGS, vs) && r > 0 && Rung(r, 0) in vs && (forall v :: v in vs ==> v.round != r - 1)
    ensures Closed(Ingested(vs), Near(r))
  {
    hide Rung, Ingested, Drawn;
    var view := Ingested(vs);
    ShownRung(vs, r);
    forall g, h | g in Near(r) && h in ParentsOf(view, g) ensures h in Near(r) {
      if g == Rung(r, 0).hash {
        var j := RungParent(r, 0, h);
      } else {
        var j := if g == Rung(r - 1, 0).hash then 0 else if g == Rung(r - 1, 1).hash then 1 else 2;
        NotIndexed(vs, r - 1, j);
      }
    }
  }

  lemma ShownRung(vs: seq<Vertex>, r: nat)
    requires Drawn(RUNGS, vs) && Rung(r, 0) in vs
    ensures ParentsOf(Ingested(vs), Rung(r, 0).hash) == Rung(r, 0).parents
  {
    hide Ingested, Drawn, Placed;
    Shown(RUNGS, vs, r, 0);
  }

  // Where only the top is indexed, nothing below its parents is reached.
  lemma StopsBelow(vs: seq<Vertex>, r: nat, low: nat, i: Id)
    requires Drawn(RUNGS, vs) && r > 0 && Rung(r, 0) in vs && low + 1 < r && (forall v :: v in vs ==> v.round != r - 1)
    ensures !Reaches(Ingested(vs), Rung(r, 0).hash, Rung(low, i).hash)
  {
    hide Rung, Ingested, Closed, Drawn;
    NearIsClosed(vs, r);
    RungFields(low, i);
    RungFields(r, 0);
    RungFields(r - 1, 0);
    RungFields(r - 1, 1);
    RungFields(r - 1, 2);
    if Reaches(Ingested(vs), Rung(r, 0).hash, Rung(low, i).hash) {
      var d: nat :| Walk(Ingested(vs), Rung(r, 0).hash, d, Rung(low, i).hash);
      ClosedContains(Ingested(vs), Near(r), Rung(r, 0).hash, d, Rung(low, i).hash);
    }
  }

  lemma AllReach(vs: seq<Vertex>)
    requires DrawnBelow(RUNGS, 6, vs)
    ensures Reaches(Ingested(vs), Rung(4, 0).hash, Rung(2, 0).hash)
  {
    hide Placed, Ingested, Reaches;
    var view := Ingested(vs);
    DrawnHas(RUNGS, 6, vs, 4, 0);
    DrawnHas(RUNGS, 6, vs, 3, 0);
    ShownRung(vs, 4);
    ShownRung(vs, 3);
    RungNames(3, 0, 0);
    RungNames(2, 0, 0);
    ReachesSelf(view, Rung(4, 0).hash);
    ReachesNext(view, Rung(4, 0).hash, Rung(4, 0).hash, Rung(3, 0).hash);
    ReachesNext(view, Rung(4, 0).hash, Rung(3, 0).hash, Rung(2, 0).hash);
  }

  // ---------------------------------------------------------------------
  // The run
  // ---------------------------------------------------------------------

  ghost predicate InRows(slots: seq<(nat, Id)>) {
    forall t :: 0 <= t < |slots| ==> slots[t].0 < 6 && slots[t].1 <= 2
  }

  // The three draw their rows; then the fourth starts and is delivered some certificates.
  lemma LateHost(slots: seq<(nat, Id)>) returns (s: Story)
    requires InRows(slots)
    ensures HonestRun(WorldFor(THREE), s.run, s.labels)
    ensures DrawnBelow(RUNGS, 6, Delivered(s.labels, 0)) && Delivered(s.labels, 3) == VerticesAtSlots(RUNGS, slots)
  {
    ThreePlay();
    hide Playable, Told, Among, Delivered, CertOut, RowVoted, VertexCert.Handle, RowOf, DrawnBelow, ActionSigs;
    hide GoodWorld, VerticesAtSlots;
    var s1 := Draw(THREE, 6);
    HasBelow(THREE, s1, 6, 0);
    var s2 := FourthStarts(s1);
    var s3 := SlotsArrive(s1, s2, slots);
    s := s3;
    SameDelivered(s1, s2, s3);
    ThreeHonest(s);
  }

  lemma ThreeHonest(s: Story)
    requires Told(WorldFor(THREE), s)
    ensures HonestRun(WorldFor(THREE), s.run, s.labels)
  {
    ThreePlay();
    hide Run, Posted, Playable;
  }

  lemma FourthStarts(s: Story) returns (s': Story)
    requires RowVoted(THREE, s, 6)
    ensures s'.run != [] && Told(WorldFor(THREE), s') && Among(s, s', {3}) && 3 in Now(s').books
    ensures Delivered(s'.labels, 3) == []
    ensures 3 in Now(s').books && Now(s').books[3] == Handle(FreshBook(3), EnvFor(THREE), Start).book
    ensures s'.labels == s.labels + [Label(3, EnvFor(THREE), Start)]
  {
    ThreePlay();
    hide Told, Among, AtWork, OwnOpen, VotesOut, CertOut, RowOf, Delivered, Playable, VertexCert.Handle, ActionSigs;
    hide Said;
    CastWorld(THREE);
    LagsBehind(THREE, s, 6, 3);
    s' := Take(WorldFor(THREE), s, 3, EnvFor(THREE), Start);
  }

  lemma SlotsArrive(s: Story, s': Story, slots: seq<(nat, Id)>) returns (t: Story)
    requires RowVoted(THREE, s, 6) && Among(s, s', {3}) && s'.run != [] && Told(WorldFor(THREE), s')
    requires 3 in Now(s').books
    requires InRows(slots)
    ensures t.run != [] && Told(WorldFor(THREE), t) && Among(s', t, {3}) && 3 in Now(t).books
    ensures Delivered(t.labels, 3) == Delivered(s'.labels, 3) + VerticesAtSlots(RUNGS, slots)
  {
    hide Told, Among, CertOut, RowOf, Delivered, Playable, VerticesAtSlots, RowVoted;
    ThreePlay();
    RungsOut(s, s');
    SlotsInRows(slots);
    t := DeliverList(THREE, s', 6, 3, slots);
  }

  lemma SlotsInRows(slots: seq<(nat, Id)>)
    requires InRows(slots)
    ensures forall t :: 0 <= t < |slots| ==> slots[t].0 < 6 && slots[t].1 in RowOf(THREE, slots[t].0)
  {
  }

  lemma RungsOut(s: Story, s': Story)
    requires RowVoted(THREE, s, 6) && Among(s, s', {3})
    ensures forall q: nat, k: Id :: q < 6 && k in RowOf(THREE, q) ==> CertOut(THREE, s', q, k)
  {
    hide Told, Among, AtWork, OwnOpen, VotesOut, CertOut, RowOf;
    CertsStay(THREE, s, s', {3});
  }

  lemma SameDelivered(a: Story, b: Story, c: Story)
    requires Among(a, b, {3}) && Among(b, c, {3})
    ensures Delivered(c.labels, 0) == Delivered(a.labels, 0)
  {
    hide Delivered, Said, Now;
  }

  /** Four honest validators, a run in which nothing is delivered that was not sent: two
      hosts commit the same wave by the shortcut and list its past in different orders, since
      one of them lacks parents. */
  lemma MissingParentsReorder(rule: Rule, key: SortKey)
    requires ByFirst(rule, 1) && Injective(key)
    ensures exists w: World, run: seq<Net>, labels: seq<Label>, i: Id, j: Id, a: Hash ::
              && HonestRun(w, run, labels) && Honest(w, i) && Honest(w, j)
              && Commits(rule, |w.set_|, HostView(labels, i), 1, false, a)
              && Commits(rule, |w.set_|, HostView(labels, j), 1, false, a)
              && Order(HostView(labels, i), key, a) != Order(HostView(labels, j), key, a)
  {
    hide Rung, Ingested, HonestRun, Commits, Order, Reaches, Injective, Drawn, DrawnBelow, Playable, Delivered;
    hide GoodWorld, Few, VerticesAtSlots;
    ThreePlay();
    BothDrawn();
    FewHas();
    var s := LateHost([(4, 0), (5, 0), (5, 1), (5, 2)]);
    FewSlots();
    var x, y, a := HostView(s.labels, 0), HostView(s.labels, 3), Rung(4, 0).hash;
    AllRungsCommit(Delivered(s.labels, 0), rule, 1);
    RungCommits(Few(), rule, 1);
    AllReach(Delivered(s.labels, 0));
    StopsBelow(Few(), 4, 2, 0);
    OrderSpec(x, key, a);
    OrderSpec(y, key, a);
    var w := WorldFor(THREE);
    assert HonestRun(w, s.run, s.labels) && Honest(w, 0) && Honest(w, 3);
    assert Commits(rule, |w.set_|, x, 1, false, a) && Commits(rule, |w.set_|, y, 1, false, a);
  }

  lemma FewHas()
    ensures Rung(4, 0) in Few() && Rung(5, 0) in Few() && Rung(5, 1) in Few() && Rung(5, 2) in Few()
    ensures Rung(3, 0) in Top()
  {
    hide Rung;
  }

  lemma FewSlots()
    ensures VerticesAtSlots(RUNGS, [(4, 0), (5, 0), (5, 1), (5, 2)]) == Few()
    ensures VerticesAtSlots(RUNGS, [(3, 0)]) == Top()
  {
    hide Placed;
    var none: seq<(nat, Id)> := [];
    SlotsAppend(none, 4, 0);
    assert none + [(4, 0)] == [(4, 0)];
    SlotsAppend([(4, 0)], 5, 0);
    assert [(4, 0)] + [(5, 0)] == [(4, 0), (5, 0)];
    SlotsAppend([(4, 0), (5, 0)], 5, 1);
    assert [(4, 0), (5, 0)] + [(5, 1)] == [(4, 0), (5, 0), (5, 1)];
    SlotsAppend([(4, 0), (5, 0), (5, 1)], 5, 2);
    assert [(4, 0), (5, 0), (5, 1)] + [(5, 2)] == [(4, 0), (5, 0), (5, 1), (5, 2)];
    SlotsAppend(none, 3, 0);
    assert none + [(3, 0)] == [(3, 0)];
  }

  lemma SlotsAppend(slots: seq<(nat, Id)>, r: nat, i: Id)
    ensures VerticesAtSlots(RUNGS, slots + [(r, i)]) == VerticesAtSlots(RUNGS, slots) + [Rung(r, i)]
  {
    hide Placed;
    assert (slots + [(r, i)])[..|slots|] == slots;
  }

  /** And a later vertex of an honest author does not reach an anchor committed by another
      host in the view of one that lacks its parents. */
  lemma MissingParentsHide(rule: Rule)
    requires ByFirst(rule, 0)
    ensures exists w: World, run: seq<Net>, labels: seq<Label>, i: Id, j: Id, a: Hash, v: Vertex ::
              && HonestRun(w, run, labels) && Honest(w, i) && Honest(w, j)
              && Commits(rule, |w.set_|, HostView(labels, i), 0, false, a)
              && v in VerticesAt(HostView(labels, j), 3) && Honest(w, v.author)
              && !Reaches(HostView(labels, j), v.hash, a)
  {
    hide Rung, Ingested, HonestRun, Commits, Reaches, Drawn, DrawnBelow, Playable, Delivered, GoodWorld, Top;
    hide VerticesAtSlots;
    ThreePlay();
    BothDrawn();
    FewHas();
    var s := LateHost([(3, 0)]);
    FewSlots();
    AllRungsCommit(Delivered(s.labels, 0), rule, 0);
    StopsBelow(Top(), 3, 0, 0);
    RungFields(3, 0);
    IngestedRounds(Top(), 3, Rung(3, 0));
    var w := WorldFor(THREE);
    assert HonestRun(w, s.run, s.labels) && Honest(w, 0) && Honest(w, 3);
    assert Commits(rule, |w.set_|, HostView(s.labels, 0), 0, false, Rung(0, 0).hash);
    assert Rung(3, 0) in VerticesAt(HostView(s.labels, 3), 3);
  }
}
