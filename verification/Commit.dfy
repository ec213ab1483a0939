/** The Bullshark commit rule (bullshark::commit): who supports an anchor, when a wave
    commits, and why a committed anchor is never bypassed. */
module Commit {
  import opened Validators
  import opened Certificates
  import opened Dag

  const ROUNDS_PER_WAVE: nat := 4

  function FirstRound(wave: nat): nat { wave * ROUNDS_PER_WAVE }

  datatype CommitPath = Shortcut | SlowPath
  datatype Decision = Decision(wave: nat, path: CommitPath, anchor: Hash)

  // Support windows in rounds, and the author the leader schedule picks.
  datatype Rule = Rule(shortcut: nat, slow: nat, leader: nat -> Id)

  // ---------------------------------------------------------------------
  // Supporters
  // ---------------------------------------------------------------------

  ghost predicate Supports(view: View, anchor: Hash, round: nat, a: Id) {
    exists v :: v in VerticesAt(view, round) && v.author == a && VertexReachesSpec(view, v, anchor)
  }

  // Authors of vertices of the rounds (from, from + window] that reach the anchor.
  ghost predicate Supporter(view: View, anchor: Hash, from: nat, window: nat, a: Id) {
    exists r: nat :: from < r <= from + window && Supports(view, anchor, r, a)
  }

  ghost predicate AreSupporters(view: View, anchor: Hash, from: nat, window: nat, s: set<Id>) {
    forall a :: a in s <==> Supporter(view, anchor, from, window, a)
  }

  method RoundSupporters(view: View, anchor: Hash, round: nat, before: set<Id>) returns (s: set<Id>)
    ensures forall a :: a in s <==> a in before || Supports(view, anchor, round, a)
  {
    hide VertexReachesSpec;
    s := before;
    var vs := VerticesAt(view, round);
    for i := 0 to |vs|
      invariant forall a :: a in s <==>
                  a in before || exists j :: 0 <= j < i && vs[j].author == a && VertexReachesSpec(view, vs[j], anchor)
    {
      var reaches := VertexReaches(view, vs[i], anchor);
      if reaches {
        s := s + {vs[i].author};
      }
    }
    forall a ensures a in s <==> a in before || Supports(view, anchor, round, a) {
      if Supports(view, anchor, round, a) {
        var v :| v in vs && v.author == a && VertexReachesSpec(view, v, anchor);
        var j :| 0 <= j < |vs| && vs[j] == v;
      }
    }
  }

  method CountSupporters(view: View, anchor: Hash, from: nat, window: nat) returns (s: set<Id>)
    ensures AreSupporters(view, anchor, from, window, s)
  {
    hide Supports;
    s := {};
    for offset := 1 to window + 1
      invariant AreSupporters(view, anchor, from, offset - 1, s)
    {
      s := RoundSupporters(view, anchor, from + offset, s);
      forall a ensures a in s <==> Supporter(view, anchor, from, offset, a) {
        SupporterNext(view, anchor, from, offset - 1, a);
      }
    }
  }

  lemma SupporterNext(view: View, anchor: Hash, from: nat, window: nat, a: Id)
    ensures Supporter(view, anchor, from, window + 1, a)
            <==> Supporter(view, anchor, from, window, a) || Supports(view, anchor, from + window + 1, a)
  {
    hide Supports;
    if Supporter(view, anchor, from, window + 1, a) && !Supports(view, anchor, from + window + 1, a) {
      var r: nat :| from < r <= from + window + 1 && Supports(view, anchor, r, a);
      assert r <= from + window;
    }
  }

  // ---------------------------------------------------------------------
  // The rule
  // ---------------------------------------------------------------------

  ghost predicate Enough(view: View, n: nat, anchor: Hash, from: nat, window: nat) {
    exists s :: AreSupporters(view, anchor, from, window, s) && |s| >= QuorumThreshold(n)
  }

  // The first vertex by the given author.
  function FirstBy(vs: seq<Vertex>, a: Id): Option<Vertex> {
    if vs == [] then None else if vs[0].author == a then Some(vs[0]) else FirstBy(vs[1..], a)
  }

  lemma {:induction false} FirstByFinds(vs: seq<Vertex>, a: Id)
    ensures FirstBy(vs, a).Some? <==> exists v :: v in vs && v.author == a
    ensures FirstBy(vs, a).Some? ==> FirstBy(vs, a).value in vs && FirstBy(vs, a).value.author == a
  {
    if vs != [] {
      FirstByFinds(vs[1..], a);
      assert vs == [vs[0]] + vs[1..];
    }
  }

  // The vertex a wave would commit.
  function Anchor(rule: Rule, view: View, wave: nat): Option<Vertex> {
    FirstBy(VerticesAt(view, FirstRound(wave)), rule.leader(wave))
  }

  lemma SupportersUnique(view: View, anchor: Hash, from: nat, window: nat, s: set<Id>, t: set<Id>)
    requires AreSupporters(view, anchor, from, window, s) && AreSupporters(view, anchor, from, window, t)
    ensures s == t
  {
    hide Supporter;
  }

  /** A wave commits exactly when its anchor is in the view and 2f + 1 authors of the
      shortcut window, or after the timeout of the slow window, reach it. */
  method TryCommitWave(wave: nat, rule: Rule, set_: ValidatorSet, view: View, timedOut: bool)
    returns (r: Option<Decision>)
    ensures r.Some? <==>
              && set_ != [] && Anchor(rule, view, wave).Some?
              && var a := Anchor(rule, view, wave).value.hash;
                 || Enough(view, |set_|, a, FirstRound(wave), rule.shortcut)
                 || (timedOut && Enough(view, |set_|, a, FirstRound(wave), rule.slow))
    ensures r.Some? ==> r.value.wave == wave && r.value.anchor == Anchor(rule, view, wave).value.hash
    ensures r.Some? ==>
              (r.value.path == Shortcut <==> Enough(view, |set_|, r.value.anchor, FirstRound(wave), rule.shortcut))
  {
    hide AreSupporters;
    if set_ == [] {
      return None;
    }
    var anchor := Anchor(rule, view, wave);
    if anchor == None {
      return None;
    }
    var a, from, need := anchor.value.hash, FirstRound(wave), QuorumThreshold(|set_|);
    var fast := CountSupporters(view, a, from, rule.shortcut);
    EnoughMeans(view, |set_|, a, from, rule.shortcut, fast);
    if |fast| >= need {
      return Some(Decision(wave, Shortcut, a));
    }
    if timedOut {
      var slow := CountSupporters(view, a, from, rule.slow);
      EnoughMeans(view, |set_|, a, from, rule.slow, slow);
      if |slow| >= need {
        return Some(Decision(wave, SlowPath, a));
      }
    }
    return None;
  }

  lemma EnoughMeans(view: View, n: nat, anchor: Hash, from: nat, window: nat, s: set<Id>)
    requires AreSupporters(view, anchor, from, window, s)
    ensures Enough(view, n, anchor, from, window) <==> |s| >= QuorumThreshold(n)
  {
    hide AreSupporters;
    if Enough(view, n, anchor, from, window) {
      var t :| AreSupporters(view, anchor, from, window, t) && |t| >= QuorumThreshold(n);
      SupportersUnique(view, anchor, from, window, s, t);
    }
  }

  // ---------------------------------------------------------------------
  // Commits are stable
  // ---------------------------------------------------------------------

  // The view only gained vertices.
  ghost predicate Extends(x: View, y: View) {
    && (forall h :: h in x.byHash ==> h in y.byHash && y.byHash[h] == x.byHash[h])
    && (forall r: nat, v :: v in VerticesAt(x, r) ==> v in VerticesAt(y, r))
  }

  ghost predicate OnePerSlot(view: View) {
    forall r: nat, u, v :: u in VerticesAt(view, r) && v in VerticesAt(view, r) && u.author == v.author ==> u == v
  }

  lemma {:induction false} WalkExtends(x: View, y: View, from: Hash, d: nat, h: Hash)
    requires Extends(x, y) && Walk(x, from, d, h)
    ensures Walk(y, from, d, h)
  {
    if d > 0 {
      var g :| Walk(x, from, d - 1, g) && h in ParentsOf(x, g);
      WalkExtends(x, y, from, d - 1, g);
      assert ParentsOf(y, g) == ParentsOf(x, g);
    }
  }

  lemma ReachesExtends(x: View, y: View, v: Vertex, h: Hash)
    requires Extends(x, y) && VertexReachesSpec(x, v, h)
    ensures VertexReachesSpec(y, v, h)
  {
    if v.hash != h {
      var p :| p in v.parents && Reaches(x, p, h);
      var d: nat :| Walk(x, p, d, h);
      WalkExtends(x, y, p, d, h);
    }
  }

  /** Supporters only grow with the view and the window. */
  lemma SupporterGrows(x: View, y: View, anchor: Hash, from: nat, small: nat, large: nat, a: Id)
    requires Extends(x, y) && small <= large && Supporter(x, anchor, from, small, a)
    ensures Supporter(y, anchor, from, large, a)
  {
    hide VertexReachesSpec;
    var r: nat :| from < r <= from + small && Supports(x, anchor, r, a);
    var v :| v in VerticesAt(x, r) && v.author == a && VertexReachesSpec(x, v, anchor);
    ReachesExtends(x, y, v, anchor);
    assert Supports(y, anchor, r, a);
  }

  // All authors that could support are in a finite set, so supporters form one.
  ghost function AuthorsAt(view: View, round: nat): set<Id> {
    set v | v in VerticesAt(view, round) :: v.author
  }

  lemma {:induction false} SupportersExist(view: View, anchor: Hash, from: nat, window: nat) returns (s: set<Id>)
    ensures AreSupporters(view, anchor, from, window, s)
  {
    hide VertexReachesSpec;
    if window == 0 {
      s := {};
    } else {
      var r := from + window;
      var before := SupportersExist(view, anchor, from, window - 1);
      s := before + set a | a in AuthorsAt(view, r) && Supports(view, anchor, r, a);
      forall a ensures a in s <==> Supporter(view, anchor, from, window, a) {
        SupporterNext(view, anchor, from, window - 1, a);
      }
    }
  }

  lemma EnoughGrows(x: View, y: View, n: nat, anchor: Hash, from: nat, small: nat, large: nat)
    requires Extends(x, y) && small <= large && Enough(x, n, anchor, from, small)
    ensures Enough(y, n, anchor, from, large)
  {
    hide Supporter, Extends;
    var s :| AreSupporters(x, anchor, from, small, s) && |s| >= QuorumThreshold(n);
    var t := SupportersExist(y, anchor, from, large);
    forall a | a in s ensures a in t {
      SupporterGrows(x, y, anchor, from, small, large, a);
    }
    SubsetSize(s, t);
  }

  // What TryCommitWave's answer is, as a predicate.
  ghost predicate Commits(rule: Rule, n: nat, view: View, wave: nat, timedOut: bool, anchor: Hash) {
    && n > 0 && Anchor(rule, view, wave).Some? && Anchor(rule, view, wave).value.hash == anchor
    && (|| Enough(view, n, anchor, FirstRound(wave), rule.shortcut)
        || (timedOut && Enough(view, n, anchor, FirstRound(wave), rule.slow)))
  }

  /** A wave that commits on a view commits the same anchor on an extension of it exactly
      when the leader's first vertex there is still the anchor. */
  lemma CommitStable(rule: Rule, n: nat, x: View, y: View, wave: nat, timedOut: bool, later: bool, anchor: Hash)
    requires Extends(x, y) && (timedOut ==> later)
    requires Commits(rule, n, x, wave, timedOut, anchor)
    ensures Commits(rule, n, y, wave, later, anchor)
            <==> Anchor(rule, y, wave).Some? && Anchor(rule, y, wave).value.hash == anchor
  {
    hide Enough;
    var r := FirstRound(wave);
    if Enough(x, n, anchor, r, rule.shortcut) {
      EnoughGrows(x, y, n, anchor, r, rule.shortcut, rule.shortcut);
    } else {
      EnoughGrows(x, y, n, anchor, r, rule.slow, rule.slow);
    }
  }

  lemma {:induction false} FirstByAppend(vs: seq<Vertex>, v: Vertex, author: Id)
    requires FirstBy(vs, author).Some?
    ensures FirstBy(vs + [v], author) == FirstBy(vs, author)
  {
    assert (vs + [v])[0] == vs[0];
    if vs[0].author != author {
      FirstByAppend(vs[1..], v, author);
      assert (vs + [v])[1..] == vs[1..] + [v];
    }
  }

  lemma ExtendsItself(view: View)
    ensures Extends(view, view)
  {
  }

  lemma IngestExtends(view: View, v: Vertex)
    requires v.hash in view.byHash ==> view.byHash[v.hash] == v
    ensures Extends(view, Ingest(view, v))
  {
    forall r: nat, u | u in VerticesAt(view, r) ensures u in VerticesAt(Ingest(view, v), r) { IngestAt(view, v, r); }
  }

  /** Indexing one more certified vertex, whoever made it, never undoes a commit. */
  lemma IngestKeepsCommit(rule: Rule, n: nat, view: View, v: Vertex, wave: nat, timedOut: bool, anchor: Hash)
    requires v.hash in view.byHash ==> view.byHash[v.hash] == v
    requires Commits(rule, n, view, wave, timedOut, anchor)
    ensures Commits(rule, n, Ingest(view, v), wave, timedOut, anchor)
  {
    hide Enough;
    IngestExtends(view, v);
    IngestAt(view, v, FirstRound(wave));
    var vs := VerticesAt(view, FirstRound(wave));
    if FirstRound(wave) == v.round { FirstByAppend(vs, v, rule.leader(wave)); } else { assert vs + [] == vs; }
    CommitStable(rule, n, view, Ingest(view, v), wave, timedOut, timedOut, anchor);
  }
}
