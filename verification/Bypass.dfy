/** Why the quorum of parent authors matters: a vertex that repeats a parent passes the
    length check of a voter and is certified, and can bypass a committed anchor. */
module Bypass {
  import opened Validators
  import opened Worlds
  import opened Certificates
  import opened VertexNetwork
  import opened HostViews
  import opened Stories
  import opened Dag
  import opened Commit
  import opened Inevitability
  import opened CertifiedDag
  import opened Grid
  import opened GridSteps
  import opened GridRuns

  // In the view that a host has at the end of a run, a committed anchor that a later vertex
  // with k parent authors does not reach.
  ghost predicate Bypassed(w: World, run: seq<Net>, labels: seq<Label>, host: Id, from: nat, anchor: Hash, round: nat,
                           v: Vertex, k: nat) {
    && GoodWorld(w) && Run(w, run, labels)
    && var view := HostView(labels, host);
       && CompleteAbove(view, from) && Enough(view, |w.set_|, anchor, from, 2)
       && round >= from + 3 && v in VerticesAt(view, round) && |AuthorsBefore(view, round, v)| >= k
       && !VertexReachesSpec(view, v, anchor)
  }

  // With n validators no vertex with k parent authors bypasses an anchor.
  ghost predicate Inevitable(n: nat, k: nat) {
    forall w: World, run: seq<Net>, labels: seq<Label>, host: Id, from: nat, anchor: Hash, round: nat, v: Vertex ::
      |w.set_| == n ==> !Bypassed(w, run, labels, host, from, anchor, round, v, k)
  }

  // ---------------------------------------------------------------------
  // 3f + 1 validators, of whom the last deviates
  // ---------------------------------------------------------------------

  // The anchor is vertex 0 of round 0. The first f vertices of round 1 name it. The f + 1
  // in the middle of round 2 name one of those; the 2f outer ones, and the other vertices
  // of round 1, name only vertices that do not reach it. In round 3 the last validator
  // names the outer ones, the first of them once more at the end.
  function Outer(f: nat, j: nat): Id {
    if j < f then j else if j < 2 * f then j + f + 1 else 0
  }

  function Aside(f: nat, r: nat, i: Id, j: nat): Id {
    if r == 1 then (if i < f then j else f + j)
    else if r == 2 then (if f <= i <= 2 * f then j else f + j)
    else if r == 3 && i == 3 * f then Outer(f, j)
    else j
  }

  function Detour(f: nat): Plan {
    Plan(f, 4, (r: nat, i: Id) => i <= 3 * f && (r <= 3 || (r == 4 && i < 3 * f)),
         (r: nat, i: Id, j: nat) => Aside(f, r, i, j))
  }

  ghost function Players(f: nat): Cast {
    Cast(Detour(f), {3 * f}, Members(WorldOf(f, {}).set_) - {3 * f})
  }

  lemma IdsBelow(n: nat, s: set<Id>)
    requires forall i: Id :: i in s <==> i < n
    ensures |s| == n
  {
    IntervalSize(0, n, s);
  }

  lemma AsidePicks(f: nat, r: nat, i: Id, k: Id)
    requires f > 0 && 0 < r && i < 3 * f
    ensures k in Picks(Detour(f), r, i) <==>
              if r == 1 then (if i < f then k <= 2 * f else f <= k <= 3 * f)
              else if r == 2 then (if f <= i <= 2 * f then k <= 2 * f else f <= k <= 3 * f)
              else k <= 2 * f
  {
    var p := Detour(f);
    var low := (r == 1 && i >= f) || (r == 2 && !(f <= i <= 2 * f));
    if low && f <= k <= 3 * f { assert p.pick(r, i, k - f) == k; }
    if !low && k <= 2 * f { assert p.pick(r, i, k) == k; }
  }

  lemma DetourPlays(f: nat)
    requires f > 0
    ensures Playable(Players(f))
  {
    var c := Players(f);
    WorldIsGood(f, {});
    IdsBelow(3 * f, c.active);
    forall r: nat, i: Id, k: Id | 0 < r <= 4 && i in c.active && i !in Picks(c.plan, r, i) && k in Picks(c.plan, r, i)
      ensures k in c.bad || k in Picks(c.plan, r, k)
    {
      AsidePicks(f, r, i, k);
      AsidePicks(f, r, i, i);
      if k < 3 * f { AsidePicks(f, r, k, k); }
    }
    DetourStands(f);
    DetourOrdered(f);
  }

  lemma DetourStands(f: nat)
    requires f > 0
    ensures ParentsStand(Detour(f))
  {
  }

  lemma DetourOrdered(f: nat)
    requires f > 0
    ensures forall r: nat, i: Id :: 0 < r <= 4 && i < 3 * f ==> Ordered(Detour(f), r, i)
  {
  }

  // What the view of one who has all rows below 4 answers.
  lemma Here(f: nat, vs: seq<Vertex>, r: nat, i: Id)
    requires f > 0 && DrawnBelow(Detour(f), 4, vs) && r <= 3 && i <= 3 * f
    ensures var v := Placed(Detour(f), r, i);
            && v in VerticesAt(Ingested(vs), r) && ParentsOf(Ingested(vs), v.hash) == v.parents
            && v.hash in Ingested(vs).byHash
            && v.round == r && v.author == i
  {
    hide Placed, Ingested;
    DrawnHas(Detour(f), 4, vs, r, i);
    Shown(Detour(f), vs, r, i);
    PlacedFields(Detour(f), r, i);
  }

  // ---------------------------------------------------------------------
  // The anchor commits
  // ---------------------------------------------------------------------

  function Start(f: nat): Hash { Placed(Detour(f), 0, 0).hash }

  lemma EarlySupports(f: nat, vs: seq<Vertex>, i: Id)
    requires f > 0 && DrawnBelow(Detour(f), 4, vs) && i < f
    ensures Supports(Ingested(vs), Start(f), 1, i)
  {
    hide Placed, Ingested, DrawnBelow;
    Here(f, vs, 1, i);
    HasParent(Detour(f), 1, i, 0);
    ReachesSelf(Ingested(vs), Start(f));
  }

  lemma MiddleSupports(f: nat, vs: seq<Vertex>, i: Id)
    requires f > 0 && DrawnBelow(Detour(f), 4, vs) && f <= i <= 2 * f
    ensures Supports(Ingested(vs), Start(f), 2, i)
  {
    hide Placed, Ingested, Reaches, DrawnBelow;
    var p, view := Detour(f), Ingested(vs);
    Here(f, vs, 2, i);
    Here(f, vs, 1, 0);
    HasParent(p, 2, i, 0);
    HasParent(p, 1, 0, 0);
    ReachesSelf(view, Start(f));
    ReachesFirst(view, Placed(p, 1, 0).hash, Start(f), Start(f));
    assert VertexReachesSpec(view, Placed(p, 2, i), Start(f));
  }

  lemma AnchorCommits(f: nat, vs: seq<Vertex>)
    requires f > 0 && DrawnBelow(Detour(f), 4, vs)
    ensures Enough(Ingested(vs), 3 * f + 1, Start(f), 0, 2)
  {
    hide Start, Ingested, Supports, DrawnBelow;
    WorldIsGood(f, {3 * f});
    var s := SupportersExist(Ingested(vs), Start(f), 0, 2);
    forall i: Id | 0 <= i < 2 * f + 1 ensures i in s {
      if i < f { EarlySupports(f, vs, i); } else { MiddleSupports(f, vs, i); }
      assert Supporter(Ingested(vs), Start(f), 0, 2, i);
    }
    HoldsInterval(0, 2 * f + 1, s);
  }

  // ---------------------------------------------------------------------
  // The last vertex does not reach it
  // ---------------------------------------------------------------------

  // The places of rounds 0 to 2 from which the anchor is not reached, and the last vertex.
  ghost predicate Apart(f: nat, r: nat, i: Id) {
    i <= 3 * f && (r <= 1 ==> i >= f) && (r == 2 ==> i < f || i > 2 * f) && (r == 3 ==> i == 3 * f)
  }

  ghost function Elsewhere(f: nat): set<Hash> {
    set r, i | 0 <= r <= 3 && 0 <= i <= 3 * f && Apart(f, r, i) :: Placed(Detour(f), r, i).hash
  }

  lemma ElsewhereIsClosed(f: nat, vs: seq<Vertex>)
    requires f > 0 && DrawnBelow(Detour(f), 4, vs)
    ensures Closed(Ingested(vs), Elsewhere(f))
  {
    hide Placed, Ingested, DrawnBelow;
    forall g, h | g in Elsewhere(f) && h in ParentsOf(Ingested(vs), g) ensures h in Elsewhere(f) {
      var r, i :| 0 <= r <= 3 && 0 <= i <= 3 * f && Apart(f, r, i) && g == Placed(Detour(f), r, i).hash;
      Here(f, vs, r, i);
      var j := ParentIs(Detour(f), r, i, h);
      assert Apart(f, r - 1, Detour(f).pick(r, i, j));
    }
  }

  lemma StartNotElsewhere(f: nat)
    requires f > 0
    ensures Start(f) !in Elsewhere(f)
  {
    hide Placed;
    forall r, i | 0 <= r <= 3 && 0 <= i <= 3 * f && Apart(f, r, i) ensures Placed(Detour(f), r, i).hash != Start(f) {
      PlacedFields(Detour(f), r, i);
      PlacedFields(Detour(f), 0, 0);
    }
  }

  function Last(f: nat): Vertex { Placed(Detour(f), 3, 3 * f) }

  lemma LastMisses(f: nat, vs: seq<Vertex>)
    requires f > 0 && DrawnBelow(Detour(f), 4, vs)
    ensures !VertexReachesSpec(Ingested(vs), Last(f), Start(f))
  {
    hide Placed, Ingested, Closed, DrawnBelow;
    PlacedFields(Detour(f), 3, 3 * f);
    PlacedFields(Detour(f), 0, 0);
    ElsewhereIsClosed(f, vs);
    StartNotElsewhere(f);
    forall h | h in Last(f).parents ensures !Reaches(Ingested(vs), h, Start(f)) {
      var j := ParentIs(Detour(f), 3, 3 * f, h);
      assert Apart(f, 2, Outer(f, j));
      if Reaches(Ingested(vs), h, Start(f)) {
        var d: nat :| Walk(Ingested(vs), h, d, Start(f));
        ClosedContains(Ingested(vs), Elsewhere(f), h, d, Start(f));
      }
    }
  }

  // Its parents have 2f authors.
  lemma LastAuthors(f: nat, vs: seq<Vertex>)
    requires f > 0 && DrawnBelow(Detour(f), 4, vs)
    ensures |AuthorsBefore(Ingested(vs), 3, Last(f))| == 2 * f
  {
    hide Placed, Ingested, DrawnBelow, AuthorsBefore, Last;
    var s := AuthorsBefore(Ingested(vs), 3, Last(f));
    forall a: Id ensures a in s <==> a <= 3 * f && (a < f || a > 2 * f) {
      if a in s { AuthorIsOuter(f, vs, a); }
      if a <= 3 * f && (a < f || a > 2 * f) { OuterIsAuthor(f, vs, a); }
    }
    OuterSize(f, s);
  }

  lemma AuthorIsOuter(f: nat, vs: seq<Vertex>, a: Id)
    requires f > 0 && DrawnBelow(Detour(f), 4, vs) && a in AuthorsBefore(Ingested(vs), 3, Last(f))
    ensures a <= 3 * f && (a < f || a > 2 * f)
  {
    hide Placed, Ingested, Drawn, DrawnBelow;
    var p := Detour(f);
    BelowIsDrawn(p, 4, vs);
    var u :| u in VerticesAt(Ingested(vs), 2) && u.hash in Last(f).parents && u.author == a;
    ShownIs(p, vs, 2, u);
    var j := ParentIs(p, 3, 3 * f, u.hash);
    PlacedFields(p, 2, a);
    PlacedFields(p, 2, Outer(f, j));
  }

  lemma OuterIsAuthor(f: nat, vs: seq<Vertex>, a: Id)
    requires f > 0 && DrawnBelow(Detour(f), 4, vs) && a <= 3 * f && (a < f || a > 2 * f)
    ensures a in AuthorsBefore(Ingested(vs), 3, Last(f))
  {
    hide Placed, Ingested, DrawnBelow;
    Here(f, vs, 2, a);
    HasParent(Detour(f), 3, 3 * f, if a < f then a else a - f - 1);
  }

  lemma OuterSize(f: nat, s: set<Id>)
    requires forall a: Id :: a in s <==> a <= 3 * f && (a < f || a > 2 * f)
    ensures |s| == 2 * f
  {
    var low, high := set a | a in s && a < f, set a | a in s && a > 2 * f;
    IntervalSize(0, f, low);
    IntervalSize(2 * f + 1, f, high);
    assert s == low + high;
  }

  // The run in which all this happens, and the view of the first validator in it.
  lemma PlayersAre(f: nat)
    requires f > 0
    ensures Players(f).plan == Detour(f) && Detour(f).top == 4 && 0 in Players(f).active
  {
    WorldIsGood(f, {});
  }

  lemma DetourRun(f: nat) returns (s: Story)
    requires f > 0
    ensures Told(WorldOf(f, {3 * f}), s) && DrawnBelow(Detour(f), 4, Delivered(s.labels, 0))
  {
    DetourPlays(f);
    PlayersAre(f);
    hide Playable, Told, RowVoted, DrawnBelow, Delivered, Players, Detour;
    s := Draw(Players(f), 4);
    HasBelow(Players(f), s, 4, 0);
    DrawnTold(f, s);
  }

  lemma DrawnTold(f: nat, s: Story)
    requires RowVoted(Players(f), s, 4)
    ensures Told(WorldOf(f, {3 * f}), s)
  {
    hide Told;
  }

  /** With n = 3f + 1 validators there is a run in which nothing is delivered that was not
      sent, and in it a host that lacks no parent, in whose view an anchor commits by the
      two-round shortcut and a round-3 vertex with 2f + 1 parents, but 2f parent authors,
      does not reach it. Only that vertex's author deviates. */
  lemma AnchorIsBypassed(f: nat)
    requires f > 0
    ensures exists w: World, run: seq<Net>, labels: seq<Label>, host: Id, anchor: Hash, v: Vertex ::
              && |w.set_| == 3 * f + 1 && w.byzantine == {v.author} && Honest(w, host) && Posted(w, run, labels)
              && Bypassed(w, run, labels, host, 0, anchor, 3, v, 2 * f)
              && |v.parents| == 2 * f + 1 && |AuthorsBefore(HostView(labels, host), 3, v)| == 2 * f
  {
    hide Placed, Ingested, Run, Posted, CompleteAbove, Enough, VertexReachesSpec, AuthorsBefore, Start, DrawnBelow;
    hide Delivered;
    var s := DetourRun(f);
    var vs, w := Delivered(s.labels, 0), WorldOf(f, {3 * f});
    WorldIsGood(f, {3 * f});
    DetourStands(f);
    DrawnIsComplete(Detour(f), 4, vs);
    AnchorCommits(f, vs);
    LastMisses(f, vs);
    LastAuthors(f, vs);
    PlacedFields(Detour(f), 3, 3 * f);
    Here(f, vs, 3, 3 * f);
    assert Bypassed(w, s.run, s.labels, 0, 0, Start(f), 3, Last(f), 2 * f);
    assert Honest(w, 0);
  }

  lemma FewerAuthors(w: World, run: seq<Net>, labels: seq<Label>, host: Id, from: nat, anchor: Hash, round: nat,
                     v: Vertex, k: nat, l: nat)
    requires Bypassed(w, run, labels, host, from, anchor, round, v, k) && l <= k
    ensures Bypassed(w, run, labels, host, from, anchor, round, v, l)
  {
    hide Run, CompleteAbove, Enough, VertexReachesSpec, HostView;
  }

  /** Over all runs and hosts: parents by k authors make a committed anchor inevitable
      exactly when k is at least 2f + 1. */
  lemma BypassThreshold(n: nat, k: nat)
    requires n % 3 == 1 && n >= 4
    ensures Inevitable(n, k) <==> k >= QuorumThreshold(n)
  {
    hide Bypassed, Posted, AuthorsBefore, HostView;
    if k < QuorumThreshold(n) {
      var f := n / 3;
      assert n == 3 * f + 1;
      WorldIsGood(f, {});
      AnchorIsBypassed(f);
      var w: World, run: seq<Net>, labels: seq<Label>, host: Id, anchor: Hash, v: Vertex :|
        |w.set_| == 3 * f + 1 && Bypassed(w, run, labels, host, 0, anchor, 3, v, 2 * f);
      assert k <= 2 * f;
      FewerAuthors(w, run, labels, host, 0, anchor, 3, v, 2 * f, k);
    } else {
      forall w: World, run: seq<Net>, labels: seq<Label>, host: Id, from: nat, anchor: Hash, round: nat, v: Vertex |
               |w.set_| == n
        ensures !Bypassed(w, run, labels, host, from, anchor, round, v, k)
      {
        NeverBypassed(w, run, labels, host, from, anchor, round, v, k);
      }
    }
  }

  lemma NeverBypassed(w: World, run: seq<Net>, labels: seq<Label>, host: Id, from: nat, anchor: Hash, round: nat,
                      v: Vertex, k: nat)
    requires k >= QuorumThreshold(|w.set_|)
    ensures !Bypassed(w, run, labels, host, from, anchor, round, v, k)
  {
    hide Run, Enough, VertexReachesSpec, AuthorsBefore, CompleteAbove, HostView;
    if Bypassed(w, run, labels, host, from, anchor, round, v, k) {
      RunShape(w, run, labels);
      var t, view := |labels|, HostView(labels, host);
      assert labels[..t] == labels;
      RunInv(w, run, labels, t);
      HostIsCertified(w, run, labels, host, t);
      CertifiedReaches(w, run[t], view, from, anchor, round, v);
      assert false;
    }
  }

  // A well-parented vertex of a certified view reaches what the shortcut committed.
  lemma CertifiedReaches(w: World, n: Net, view: View, from: nat, anchor: Hash, round: nat, v: Vertex)
    requires GoodWorld(w) && Inv(w, n) && CertifiedView(w, n, view) && CompleteAbove(view, from)
    requires Enough(view, |w.set_|, anchor, from, 2)
    requires round >= from + 3 && v in VerticesAt(view, round) && WellParented(view, |w.set_|, round, v)
    ensures VertexReachesSpec(view, v, anchor)
  {
    hide Inv, Enough, VertexReachesSpec, WellParented, GoodDag, CompleteAbove;
    ExtendsItself(view);
    FiledRound(w, n, view, round, v);
    assert v.hash in view.byHash.Keys;
    hide CertifiedView, Extends;
    CertifiedIsGood(w, n, view, view, from);
    ShortcutIsInevitable(view, Members(w.set_), w.byzantine, view.byHash.Keys, anchor, from, round, v);
  }
}
