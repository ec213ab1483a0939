/** Why a shortcut commit cannot be bypassed: from the third round after the anchor
    on, every vertex with parents by a quorum of authors reaches it. */
module Inevitability {
  import opened Validators
  import opened Certificates
  import opened Dag
  import opened Commit

  // Vertices are stored under their round and hash.
  ghost predicate Indexed(view: View) {
    forall r: nat, v :: v in VerticesAt(view, r) ==>
      v.round == r && v.hash in view.byHash && view.byHash[v.hash] == v
  }

  // Authors of the vertices that `v` names as parents.
  ghost function AuthorsBefore(view: View, round: nat, v: Vertex): set<Id>
    requires round > 0
  {
    set u | u in VerticesAt(view, round - 1) && u.hash in v.parents :: u.author
  }

  ghost predicate WellParented(view: View, n: nat, round: nat, v: Vertex) {
    round > 0 && |AuthorsBefore(view, round, v)| >= QuorumThreshold(n)
  }

  // n = 3f + 1 authors, of whom at most f may build their vertices freely. Above round
  // `from`, the vertices in `part` have their parents in it, so that those of the other
  // authors are seen to be well parented.
  ghost predicate GoodDag(view: View, all: set<Id>, bad: set<Id>, part: set<Hash>, from: nat) {
    && Indexed(view) && OnePerSlot(view)
    && |all| % 3 == 1 && |bad| <= MaxFaulty(|all|)
    && (forall r: nat, v :: v in VerticesAt(view, r) ==> v.author in all)
    && (forall r: nat, v :: v in VerticesAt(view, r) && r > from && v.hash in part ==>
          && (forall p :: p in v.parents ==> p in part)
          && (v.author !in bad ==> WellParented(view, |all|, r, v)))
  }

  // A vertex of the view reaches what one of its parents reaches.
  lemma ParentReaches(view: View, round: nat, v: Vertex, u: Vertex, anchor: Hash)
    requires Indexed(view) && round > 0 && v in VerticesAt(view, round)
    requires u in VerticesAt(view, round - 1) && u.hash in v.parents && VertexReachesSpec(view, u, anchor)
    ensures VertexReachesSpec(view, v, anchor)
  {
    hide Reaches;
    if u.hash == anchor {
      ReachesSelf(view, anchor);
    } else {
      var p :| p in u.parents && Reaches(view, p, anchor);
      ReachesFirst(view, u.hash, p, anchor);
    }
    assert Reaches(view, u.hash, anchor);
  }

  ghost function SupportersAt(view: View, anchor: Hash, round: nat): set<Id> {
    set a | a in AuthorsAt(view, round) && Supports(view, anchor, round, a)
  }

  // f + 1 supporters in a round meet every quorum of parents.
  lemma SupportedRound(view: View, all: set<Id>, bad: set<Id>, part: set<Hash>, from: nat, anchor: Hash, round: nat,
                       v: Vertex)
    requires GoodDag(view, all, bad, part, from) && v in VerticesAt(view, round) && WellParented(view, |all|, round, v)
    requires |SupportersAt(view, anchor, round - 1)| > MaxFaulty(|all|)
    ensures VertexReachesSpec(view, v, anchor)
  {
    hide VertexReachesSpec;
    var a := Overlap(all, SupportersAt(view, anchor, round - 1), AuthorsBefore(view, round, v));
    var u :| u in VerticesAt(view, round - 1) && u.hash in v.parents && u.author == a;
    var x :| x in VerticesAt(view, round - 1) && x.author == a && VertexReachesSpec(view, x, anchor);
    assert u == x;
    ParentReaches(view, round, v, u, anchor);
  }

  ghost predicate RoundReaches(view: View, n: nat, part: set<Hash>, anchor: Hash, round: nat) {
    forall v :: v in VerticesAt(view, round) && v.hash in part && WellParented(view, n, round, v) ==>
      VertexReachesSpec(view, v, anchor)
  }

  // A quorum of parents includes one built by the rules.
  lemma NextRound(view: View, all: set<Id>, bad: set<Id>, part: set<Hash>, from: nat, anchor: Hash, round: nat)
    requires GoodDag(view, all, bad, part, from) && round > from && RoundReaches(view, |all|, part, anchor, round)
    ensures RoundReaches(view, |all|, part, anchor, round + 1)
  {
    hide VertexReachesSpec;
    forall v | v in VerticesAt(view, round + 1) && v.hash in part && WellParented(view, |all|, round + 1, v)
      ensures VertexReachesSpec(view, v, anchor)
    {
      var a := QuorumHasHonest(|all|, bad, AuthorsBefore(view, round + 1, v));
      var u :| u in VerticesAt(view, round) && u.hash in v.parents && u.author == a;
      assert WellParented(view, |all|, round, u);
      ParentReaches(view, round + 1, v, u, anchor);
    }
  }

  lemma {:induction false} LaterRounds(view: View, all: set<Id>, bad: set<Id>, part: set<Hash>, from: nat, anchor: Hash,
                                       first: nat, round: nat)
    requires GoodDag(view, all, bad, part, from) && from < first <= round
    requires RoundReaches(view, |all|, part, anchor, first)
    ensures RoundReaches(view, |all|, part, anchor, round)
  {
    hide GoodDag, RoundReaches;
    if first < round {
      LaterRounds(view, all, bad, part, from, anchor, first, round - 1);
      NextRound(view, all, bad, part, from, anchor, round - 1);
    }
  }

  // The supporters of a window of two rounds come from those two rounds.
  lemma TwoRounds(view: View, anchor: Hash, from: nat, s: set<Id>)
    requires AreSupporters(view, anchor, from, 2, s)
    ensures s <= SupportersAt(view, anchor, from + 1) + SupportersAt(view, anchor, from + 2)
  {
    hide VertexReachesSpec;
    forall a | a in s ensures a in SupportersAt(view, anchor, from + 1) + SupportersAt(view, anchor, from + 2) {
      var r: nat :| from < r <= from + 2 && Supports(view, anchor, r, a);
      assert r == from + 1 || r == from + 2;
      var v :| v in VerticesAt(view, r) && v.author == a && VertexReachesSpec(view, v, anchor);
      assert v.author in AuthorsAt(view, r);
    }
  }

  // Of 2f + 1 supporters in two rounds, one round has f + 1.
  lemma OneRoundSuffices(view: View, n: nat, anchor: Hash, from: nat)
    requires Enough(view, n, anchor, from, 2)
    ensures |SupportersAt(view, anchor, from + 1)| > MaxFaulty(n)
            || |SupportersAt(view, anchor, from + 2)| > MaxFaulty(n)
  {
    hide AreSupporters;
    var s :| AreSupporters(view, anchor, from, 2, s) && |s| >= QuorumThreshold(n);
    TwoRounds(view, anchor, from, s);
    var x, y := SupportersAt(view, anchor, from + 1), SupportersAt(view, anchor, from + 2);
    SubsetSize(s, x + y);
    assert |x + y| <= |x| + |y|;
  }

  lemma WholeRound(view: View, all: set<Id>, bad: set<Id>, part: set<Hash>, from: nat, anchor: Hash, round: nat)
    requires GoodDag(view, all, bad, part, from) && round > 0
    requires |SupportersAt(view, anchor, round - 1)| > MaxFaulty(|all|)
    ensures RoundReaches(view, |all|, part, anchor, round)
  {
    hide VertexReachesSpec, GoodDag, SupportersAt, WellParented;
    forall v | v in VerticesAt(view, round) && v.hash in part && WellParented(view, |all|, round, v)
      ensures VertexReachesSpec(view, v, anchor)
    {
      SupportedRound(view, all, bad, part, from, anchor, round, v);
    }
  }

  /** An anchor committed with the two-round window is reached by every well-parented
      vertex from the third round after it on whose own past above the anchor is
      complete, whoever's view the commit was seen in. */
  lemma ShortcutIsInevitable(view: View, all: set<Id>, bad: set<Id>, part: set<Hash>, anchor: Hash, from: nat,
                             round: nat, v: Vertex)
    requires GoodDag(view, all, bad, part, from) && Enough(view, |all|, anchor, from, 2)
    requires round >= from + 3 && v in VerticesAt(view, round) && v.hash in part && WellParented(view, |all|, round, v)
    ensures VertexReachesSpec(view, v, anchor)
  {
    hide GoodDag, Enough, SupportersAt, VertexReachesSpec, WellParented;
    OneRoundSuffices(view, |all|, anchor, from);
    if |SupportersAt(view, anchor, from + 1)| > MaxFaulty(|all|) {
      WholeRound(view, all, bad, part, from, anchor, from + 2);
      LaterRounds(view, all, bad, part, from, anchor, from + 2, round);
    } else {
      WholeRound(view, all, bad, part, from, anchor, from + 3);
      LaterRounds(view, all, bad, part, from, anchor, from + 3, round);
    }
  }

  lemma VertexReachesMeans(view: View, round: nat, v: Vertex, h: Hash)
    requires Indexed(view) && v in VerticesAt(view, round) && VertexReachesSpec(view, v, h)
    ensures Reaches(view, v.hash, h)
  {
    hide Reaches;
    if v.hash == h {
      ReachesSelf(view, h);
    } else {
      var p :| p in v.parents && Reaches(view, p, h);
      ReachesFirst(view, v.hash, p, h);
    }
  }

  /** Once a wave commits by the shortcut, every later anchor that is well parented and
      whose past above the committed one is complete has that one in its past. */
  lemma LaterAnchorContains(view: View, all: set<Id>, bad: set<Id>, part: set<Hash>, rule: Rule, wave: nat, later: nat,
                            anchor: Hash)
    requires GoodDag(view, all, bad, part, FirstRound(wave)) && rule.shortcut == 2 && wave < later
    requires Commits(rule, |all|, view, wave, false, anchor)
    requires Anchor(rule, view, later).Some? && Anchor(rule, view, later).value.hash in part
    requires WellParented(view, |all|, FirstRound(later), Anchor(rule, view, later).value)
    ensures Reaches(view, Anchor(rule, view, later).value.hash, anchor)
  {
    hide Enough, VertexReachesSpec, WellParented, Reaches, OnePerSlot;
    var v := Anchor(rule, view, later).value;
    FirstByFinds(VerticesAt(view, FirstRound(later)), rule.leader(later));
    ShortcutIsInevitable(view, all, bad, part, anchor, FirstRound(wave), FirstRound(later), v);
    VertexReachesMeans(view, FirstRound(later), v, anchor);
  }
}
