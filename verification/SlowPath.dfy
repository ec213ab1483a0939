/** How long the support window may be: an anchor that commits within two rounds cannot be
    bypassed, one that needs a third can, although nobody deviates. */
module SlowPath {
  import opened Validators
  import opened Worlds
  import opened Certificates
  import opened VertexNetwork
  import opened HostViews
  import opened Stories
  import opened Dag
  import opened Commit
  import opened Inevitability
  import opened CertifiedDag
  import opened Grid
  import opened GridSteps
  import opened GridRuns
  import Bypass

  // In the view that a host has at the end of a run, a vertex past the window, with parents
  // by a quorum of authors, that does not reach an anchor supported within the window.
  ghost predicate Escapes(w: World, run: seq<Net>, labels: seq<Label>, host: Id, from: nat, window: nat, anchor: Hash,
                          round: nat, v: Vertex) {
    && GoodWorld(w) && Run(w, run, labels)
    && var view := HostView(labels, host);
       && CompleteAbove(view, from) && Enough(view, |w.set_|, anchor, from, window)
       && round >= from + 3 && round > from + window && v in VerticesAt(view, round)
       && WellParented(view, |w.set_|, round, v)
       && !VertexReachesSpec(view, v, anchor)
  }

  // With n validators no such vertex exists.
  ghost predicate Safe(n: nat, window: nat) {
    forall w: World, run: seq<Net>, labels: seq<Label>, host: Id, from: nat, anchor: Hash, round: nat, v: Vertex ::
      |w.set_| == n ==> !Escapes(w, run, labels, host, from, window, anchor, round, v)
  }

  // ---------------------------------------------------------------------
  // Supporters spread over three rounds
  // ---------------------------------------------------------------------

  // The anchor is vertex 0 of round 0. Validators 0 to f - 1 support it in round 1, f to
  // 2f - 1 in round 2 and 2f in round 3. All other vertices name 2f + 1 that do not.
  function Spread(f: nat, r: nat, i: Id, j: nat): Id {
    if r == 1 then (if i < f then j else f + j)
    else if r == 2 then (if f <= i < 2 * f then j else f + j)
    else if r == 3 then (if i != 2 * f && j < f then j else f + j)
    else if r == 4 then (if j <= f then j else f + j)
    else j
  }

  function Thin(f: nat, top: nat): Plan {
    Plan(f, top, (r: nat, i: Id) => r <= top && i <= 3 * f, (r: nat, i: Id, j: nat) => Spread(f, r, i, j))
  }

  ghost function Players(f: nat, top: nat): Cast {
    Cast(Thin(f, top), {}, Members(WorldOf(f, {}).set_))
  }

  // Who is named.
  predicate Named(f: nat, r: nat, i: Id, k: Id) {
    if r == 1 then (if i < f then k <= 2 * f else f <= k <= 3 * f)
    else if r == 2 then (if f <= i < 2 * f then k <= 2 * f else f <= k <= 3 * f)
    else if r == 3 then (if i == 2 * f then f <= k <= 3 * f else k < f || 2 * f <= k <= 3 * f)
    else if r == 4 then k <= f || 2 * f < k <= 3 * f
    else k <= 2 * f
  }

  lemma SpreadPicks(f: nat, top: nat, r: nat, i: Id, k: Id)
    requires f > 0 && 0 < r && i <= 3 * f
    ensures k in Picks(Thin(f, top), r, i) <==> Named(f, r, i, k)
  {
    var p := Thin(f, top);
    if Named(f, r, i, k) {
      var j := if 0 <= k <= 2 * f && p.pick(r, i, k) == k then k else k - f;
      assert p.pick(r, i, j) == k;
    }
  }

  lemma ThinPlays(f: nat, top: nat)
    requires f > 0
    ensures Playable(Players(f, top))
  {
    var c := Players(f, top);
    WorldIsGood(f, {});
    DistinctSize(WorldOf(f, {}).set_);
    forall r: nat, i: Id, k: Id | 0 < r <= top && i in c.active && i !in Picks(c.plan, r, i) && k in Picks(c.plan, r, i)
      ensures k in Picks(c.plan, r, k)
    {
      SpreadPicks(f, top, r, i, k);
      SpreadPicks(f, top, r, i, i);
      SpreadPicks(f, top, r, k, k);
    }
    ThinStands(f, top);
    ThinOrdered(f, top);
  }

  lemma ThinStands(f: nat, top: nat)
    requires f > 0
    ensures ParentsStand(Thin(f, top))
  {
  }

  lemma ThinOrdered(f: nat, top: nat)
    requires f > 0
    ensures forall r: nat, i: Id :: 0 < r && i <= 3 * f ==> Ordered(Thin(f, top), r, i)
  {
  }

  function At(f: nat, top: nat, r: nat, i: Id): Vertex { Placed(Thin(f, top), r, i) }

  // What the view of one who has all rows below the top answers.
  lemma Here(f: nat, top: nat, vs: seq<Vertex>, r: nat, i: Id)
    requires f > 0 && DrawnBelow(Thin(f, top), top, vs) && r < top && i <= 3 * f
    ensures var v := At(f, top, r, i);
            && v in VerticesAt(Ingested(vs), r) && ParentsOf(Ingested(vs), v.hash) == v.parents
            && v.hash in Ingested(vs).byHash
            && v.round == r && v.author == i
  {
    hide Placed, Ingested;
    DrawnHas(Thin(f, top), top, vs, r, i);
    Shown(Thin(f, top), vs, r, i);
    PlacedFields(Thin(f, top), r, i);
  }

  lemma Names(f: nat, top: nat, r: nat, i: Id, j: nat)
    requires f > 0 && r > 0 && j <= 2 * f
    ensures At(f, top, r - 1, Spread(f, r, i, j)).hash in At(f, top, r, i).parents
  {
    hide Placed;
    HasParent(Thin(f, top), r, i, j);
  }

  function Start(f: nat, top: nat): Hash { At(f, top, 0, 0).hash }

  // A vertex whose parent reaches the anchor supports it.
  lemma Supporting(f: nat, top: nat, vs: seq<Vertex>, r: nat, i: Id, j: nat)
    requires f > 0 && DrawnBelow(Thin(f, top), top, vs) && 0 < r < top && i <= 3 * f && j <= 2 * f
    requires Reaches(Ingested(vs), At(f, top, r - 1, Spread(f, r, i, j)).hash, Start(f, top))
    ensures Supports(Ingested(vs), Start(f, top), r, i) && Reaches(Ingested(vs), At(f, top, r, i).hash, Start(f, top))
  {
    hide At, Ingested, Reaches, Start, DrawnBelow;
    var p := At(f, top, r - 1, Spread(f, r, i, j)).hash;
    Here(f, top, vs, r, i);
    Names(f, top, r, i, j);
    ReachesFirst(Ingested(vs), At(f, top, r, i).hash, p, Start(f, top));
    assert VertexReachesSpec(Ingested(vs), At(f, top, r, i), Start(f, top));
  }

  // The supporters of the three rounds.
  lemma ThreeRounds(f: nat, top: nat, vs: seq<Vertex>, i: Id)
    requires f > 0 && DrawnBelow(Thin(f, top), top, vs) && i <= 2 * f && top > 3
    ensures Supports(Ingested(vs), Start(f, top), if i < f then 1 else if i < 2 * f then 2 else 3, i)
  {
    hide At, Ingested, Reaches, Supports, DrawnBelow;
    ReachesSelf(Ingested(vs), Start(f, top));
    if i < f {
      Supporting(f, top, vs, 1, i, 0);
    } else {
      Supporting(f, top, vs, 1, 0, 0);
      if i < 2 * f {
        Supporting(f, top, vs, 2, i, 0);
      } else {
        Supporting(f, top, vs, 2, f, 0);
        Supporting(f, top, vs, 3, i, 0);
      }
    }
  }

  lemma StartCommits(f: nat, top: nat, vs: seq<Vertex>, window: nat)
    requires f > 0 && DrawnBelow(Thin(f, top), top, vs) && top > 3 && window >= 3
    ensures Enough(Ingested(vs), 3 * f + 1, Start(f, top), 0, window)
  {
    hide Start, Ingested, Supports, DrawnBelow;
    WorldIsGood(f, {});
    var s := SupportersExist(Ingested(vs), Start(f, top), 0, window);
    forall i: Id | 0 <= i < 2 * f + 1 ensures i in s {
      ThreeRounds(f, top, vs, i);
      assert Supporter(Ingested(vs), Start(f, top), 0, window, i);
    }
    HoldsInterval(0, 2 * f + 1, s);
  }

  // The places from which the anchor is not reached; from round 4 on all of them.
  ghost predicate Apart(f: nat, r: nat, i: Id) {
    && i <= 3 * f && (r <= 1 ==> i >= f) && (r == 2 ==> i < f || i >= 2 * f) && (r == 3 ==> i != 2 * f)
  }

  ghost function Elsewhere(f: nat, top: nat): set<Hash> {
    set r, i | 0 <= r < top && 0 <= i <= 3 * f && Apart(f, r, i) :: At(f, top, r, i).hash
  }

  lemma ApartStays(f: nat, r: nat, i: Id, j: nat)
    requires f > 0 && r > 0 && Apart(f, r, i) && j <= 2 * f
    ensures Apart(f, r - 1, Spread(f, r, i, j)) && Spread(f, r, i, j) <= 3 * f
  {
  }

  lemma ElsewhereIsClosed(f: nat, top: nat, vs: seq<Vertex>)
    requires f > 0 && DrawnBelow(Thin(f, top), top, vs)
    ensures Closed(Ingested(vs), Elsewhere(f, top))
  {
    hide Placed, Ingested, Apart, DrawnBelow;
    forall g, h | g in Elsewhere(f, top) && h in ParentsOf(Ingested(vs), g) ensures h in Elsewhere(f, top) {
      var r, i :| 0 <= r < top && 0 <= i <= 3 * f && Apart(f, r, i) && g == At(f, top, r, i).hash;
      Here(f, top, vs, r, i);
      var j := ParentIs(Thin(f, top), r, i, h);
      ApartStays(f, r, i, j);
    }
  }

  lemma TopMisses(f: nat, top: nat, vs: seq<Vertex>, r: nat, i: Id)
    requires f > 0 && DrawnBelow(Thin(f, top), top, vs) && 4 <= r < top && i <= 3 * f
    ensures !Reaches(Ingested(vs), At(f, top, r, i).hash, Start(f, top))
  {
    hide Placed, Ingested, Closed, DrawnBelow;
    ElsewhereIsClosed(f, top, vs);
    assert Apart(f, r, i);
    forall q, k | 0 <= q < top && 0 <= k <= 3 * f && Apart(f, q, k) ensures At(f, top, q, k).hash != Start(f, top) {
      PlacedFields(Thin(f, top), q, k);
      PlacedFields(Thin(f, top), 0, 0);
    }
    if Reaches(Ingested(vs), At(f, top, r, i).hash, Start(f, top)) {
      var d: nat :| Walk(Ingested(vs), At(f, top, r, i).hash, d, Start(f, top));
      ClosedContains(Ingested(vs), Elsewhere(f, top), At(f, top, r, i).hash, d, Start(f, top));
    }
  }

  // ---------------------------------------------------------------------
  // The run
  // ---------------------------------------------------------------------

  lemma ThinRun(f: nat, top: nat) returns (s: Story)
    requires f > 0
    ensures HonestRun(WorldOf(f, {}), s.run, s.labels) && DrawnBelow(Thin(f, top), top, Delivered(s.labels, 0))
  {
    ThinPlays(f, top);
    WorldIsGood(f, {});
    hide Playable, Told, RowVoted, DrawnBelow, Delivered, GoodWorld;
    s := Draw(Players(f, top), top);
    HasBelow(Players(f, top), s, top, 0);
    ThinTold(f, top, s);
  }

  lemma ThinTold(f: nat, top: nat, s: Story)
    requires RowVoted(Players(f, top), s, top) && GoodWorld(WorldOf(f, {}))
    ensures HonestRun(WorldOf(f, {}), s.run, s.labels)
  {
    hide Run, Posted, AtWork, OwnOpen, VotesOut, CertOut;
  }

  // The vertex of validator 0 in the last row that all have indexed.
  lemma TopEscapes(f: nat, window: nat) returns (run: seq<Net>, labels: seq<Label>, anchor: Hash, v: Vertex)
    requires f > 0 && window >= 3
    ensures HonestRun(WorldOf(f, {}), run, labels)
    ensures Escapes(WorldOf(f, {}), run, labels, 0, 0, window, anchor, window + 1, v)
  {
    hide Placed, Ingested, Run, Posted, Enough, Reaches, WellParented, Start, At, DrawnBelow, Delivered, Inv;
    hide CertifiedView;
    var top := window + 2;
    var s := ThinRun(f, top);
    var w, vs := WorldOf(f, {}), Delivered(s.labels, 0);
    run, labels, anchor, v := s.run, s.labels, Start(f, top), At(f, top, window + 1, 0);
    WorldIsGood(f, {});
    RunShape(w, s.run, s.labels);
    var t := |s.labels|;
    assert s.labels[..t] == s.labels;
    HostIsCertified(w, s.run, s.labels, 0, t);
    RunInv(w, s.run, s.labels, t);
    ThinStands(f, top);
    DrawnIsComplete(Thin(f, top), top, vs);
    StartCommits(f, top, vs, window);
    Here(f, top, vs, window + 1, 0);
    HonestWellParented(w, s.run[t], Ingested(vs), window + 1, v);
    TopMisses(f, top, vs, window + 1, 0);
    CertifiedIsIndexed(w, s.run[t], Ingested(vs));
    if VertexReachesSpec(Ingested(vs), v, Start(f, top)) {
      VertexReachesMeans(Ingested(vs), window + 1, v, Start(f, top));
    }
  }

  lemma NeverEscapes(w: World, run: seq<Net>, labels: seq<Label>, host: Id, from: nat, window: nat, anchor: Hash,
                     round: nat, v: Vertex)
    requires window <= 2
    ensures !Escapes(w, run, labels, host, from, window, anchor, round, v)
  {
    hide Run, Enough, VertexReachesSpec, WellParented, CompleteAbove, HostView;
    if Escapes(w, run, labels, host, from, window, anchor, round, v) {
      RunShape(w, run, labels);
      var t, view := |labels|, HostView(labels, host);
      assert labels[..t] == labels;
      RunInv(w, run, labels, t);
      HostIsCertified(w, run, labels, host, t);
      ExtendsItself(view);
      EnoughGrows(view, view, |w.set_|, anchor, from, window, 2);
      Bypass.CertifiedReaches(w, run[t], view, from, anchor, round, v);
      assert false;
    }
  }

  /** Over all runs and hosts: an anchor supported within the window is in the past of every
      later well-parented vertex exactly when the window has at most two rounds; the shortcut
      has two, the slow path four. */
  lemma WindowThreshold(n: nat, window: nat)
    requires n % 3 == 1 && n >= 4
    ensures Safe(n, window) <==> window <= 2
  {
    hide Escapes, HonestRun;
    if window <= 2 {
      forall w: World, run: seq<Net>, labels: seq<Label>, host: Id, from: nat, anchor: Hash, round: nat, v: Vertex |
               |w.set_| == n
        ensures !Escapes(w, run, labels, host, from, window, anchor, round, v)
      {
        NeverEscapes(w, run, labels, host, from, window, anchor, round, v);
      }
    } else {
      var f := n / 3;
      assert n == 3 * f + 1;
      WorldIsGood(f, {});
      var run, labels, anchor, v := TopEscapes(f, window);
    }
  }

  /** So the next wave's anchor need not contain the one that a wave committed by the slow
      path: in a run of honest validators in which nothing is delivered that was not sent,
      whoever leads the next wave, in the view of a host that lacks no parent. */
  lemma SlowCommitIsBypassed(f: nat, rule: Rule)
    requires f > 0 && rule.slow >= 3 && rule.leader(0) == 0 && rule.leader(1) <= 3 * f
    ensures exists w: World, run: seq<Net>, labels: seq<Label>, host: Id, a: Hash, b: Hash ::
              && |w.set_| == 3 * f + 1 && HonestRun(w, run, labels) && Honest(w, host)
              && var view := HostView(labels, host);
                 && CompleteAbove(view, 0) && Commits(rule, |w.set_|, view, 0, true, a)
                 && Anchor(rule, view, 1).Some? && Anchor(rule, view, 1).value.hash == b && !Reaches(view, b, a)
  {
    hide Placed, Ingested, HonestRun, Enough, Reaches, CompleteAbove, DrawnBelow, Delivered;
    var s := ThinRun(f, 5);
    var w, vs := WorldOf(f, {}), Delivered(s.labels, 0);
    WorldIsGood(f, {});
    ThinStands(f, 5);
    DrawnIsComplete(Thin(f, 5), 5, vs);
    StartCommits(f, 5, vs, rule.slow);
    AnchorAt(f, vs, rule, 0);
    AnchorAt(f, vs, rule, 1);
    TopMisses(f, 5, vs, 4, rule.leader(1));
    assert HonestRun(w, s.run, s.labels) && Honest(w, 0);
    assert Commits(rule, |w.set_|, HostView(s.labels, 0), 0, true, Start(f, 5));
  }

  lemma AnchorAt(f: nat, vs: seq<Vertex>, rule: Rule, wave: nat)
    requires f > 0 && DrawnBelow(Thin(f, 5), 5, vs) && wave <= 1 && rule.leader(wave) <= 3 * f
    ensures Anchor(rule, Ingested(vs), wave) == Some(At(f, 5, FirstRound(wave), rule.leader(wave)))
  {
    hide Placed, Ingested, Drawn, DrawnBelow;
    var r, i := FirstRound(wave), rule.leader(wave);
    BelowIsDrawn(Thin(f, 5), 5, vs);
    Here(f, 5, vs, r, i);
    FirstByFinds(VerticesAt(Ingested(vs), r), i);
    ShownIs(Thin(f, 5), vs, r, FirstBy(VerticesAt(Ingested(vs), r), i).value);
  }
}
