/** The DAG that runs of vertex certification produce has the shape the commit rule
    relies on. */
module CertifiedDag {
  import opened Validators
  import opened Worlds
  import opened Signatures
  import opened Certificates
  import opened VertexNetwork
  import opened VertexSafety
  import opened Dag
  import opened Commit
  import opened Inevitability
  import opened Linearize
  import Waves

  // A certified vertex, filed under its round and content hash.
  ghost predicate Filed(w: World, n: Net, view: View, round: nat, v: Vertex) {
    && v.round == round && v.hash == ContentHash(v) && Certifiable(w, n.signed, SigningBytes(v))
    && v.hash in view.byHash && view.byHash[v.hash] == v
  }

  // A view holding certified vertices; parents may be missing.
  ghost predicate CertifiedView(w: World, n: Net, view: View) {
    && (forall r: nat, v :: v in VerticesAt(view, r) ==> Filed(w, n, view, r, v))
    && (forall h :: h in view.byHash ==>
          view.byHash[h].hash == h && view.byHash[h] in VerticesAt(view, view.byHash[h].round))
  }

  // No parent of a vertex above the round is missing.
  ghost predicate CompleteAbove(view: View, round: nat) {
    forall r: nat, v, p :: v in VerticesAt(view, r) && r > round && p in v.parents ==> p in view.byHash
  }

  // What a certified vertex names was certified in the round before.
  lemma ParentRounds(w: World, n: Net, view: View, r: nat, v: Vertex, p: Hash)
    requires FewFaulty(w) && Inv(w, n) && CertifiedView(w, n, view) && v in VerticesAt(view, r) && p in v.parents
    ensures r > 0 && p.OfBody? && p.body.round == r - 1
    ensures p in view.byHash ==> view.byHash[p] in VerticesAt(view, r - 1) && view.byHash[p].hash == p
  {
    hide Inv, Certifiable;
    CertifiableIsJustified(w, n, SigningBytes(v));
    assert CertifiedAt(w, n.signed, p, r - 1);
    if p in view.byHash {
      var u := view.byHash[p];
      assert u.hash == ContentHash(u);
    }
  }

  lemma CertifiedOnePerSlot(w: World, n: Net, view: View)
    requires GoodWorld(w) && Inv(w, n) && CertifiedView(w, n, view)
    ensures OnePerSlot(view)
  {
    hide Inv, Certifiable;
    forall r: nat, u, v | u in VerticesAt(view, r) && v in VerticesAt(view, r) && u.author == v.author ensures u == v {
      CertifiableUnique(w, n, SigningBytes(u), SigningBytes(v));
    }
  }

  // An honest author's certified vertex names parents by a quorum of authors, in their order.
  lemma HonestParentAuthors(w: World, n: Net, body: Body)
    requires FewFaulty(w) && Inv(w, n) && Certifiable(w, n.signed, body)
    requires Honest(w, body.author) && body.round > 0
    ensures |ParentAuthors(body)| >= QuorumThreshold(|w.set_|)
    ensures InAuthorOrder(body.parents)
  {
    CertifiableIsJustified(w, n, body);
    hide Certifiable;
    assert ProposalsOk(w, body.author, n.books[body.author], n.signed);
  }

  lemma ParentAuthorsPresent(w: World, n: Net, view: View, r: nat, v: Vertex)
    requires FewFaulty(w) && Inv(w, n) && CertifiedView(w, n, view) && v in VerticesAt(view, r) && r > 0
    requires forall p :: p in v.parents ==> p in view.byHash
    ensures ParentAuthors(SigningBytes(v)) <= AuthorsBefore(view, r, v)
  {
    hide Certifiable, Inv;
    forall a | a in ParentAuthors(SigningBytes(v)) ensures a in AuthorsBefore(view, r, v) {
      var h :| h in v.parents && h.OfBody? && h.body.author == a;
      ParentRounds(w, n, view, r, v, h);
      var u := view.byHash[h];
      assert u in VerticesAt(view, r - 1) && u.hash == ContentHash(u);
    }
  }

  lemma HonestWellParented(w: World, n: Net, view: View, r: nat, v: Vertex)
    requires FewFaulty(w) && Inv(w, n) && CertifiedView(w, n, view)
    requires v in VerticesAt(view, r) && r > 0 && Honest(w, v.author)
    requires forall p :: p in v.parents ==> p in view.byHash
    ensures WellParented(view, |w.set_|, r, v)
  {
    assert Filed(w, n, view, r, v);
    hide Inv, Certifiable, CertifiedView;
    HonestParentAuthors(w, n, SigningBytes(v));
    ParentAuthorsPresent(w, n, view, r, v);
    SubsetSize(ParentAuthors(SigningBytes(v)), AuthorsBefore(view, r, v));
  }

  lemma CertifiedAuthors(w: World, n: Net, view: View, r: nat, v: Vertex)
    requires FewFaulty(w) && Inv(w, n) && CertifiedView(w, n, view) && v in VerticesAt(view, r)
    ensures v.author in w.set_
  {
    hide Inv, Certifiable;
    CertifiableIsJustified(w, n, SigningBytes(v));
  }

  lemma CertifiedIsIndexed(w: World, n: Net, view: View)
    requires CertifiedView(w, n, view)
    ensures Indexed(view)
  {
    hide Certifiable;
  }

  // A vertex of the larger view that the smaller one has by hash.
  lemma SmallerHas(w: World, n: Net, small: View, view: View, r: nat, v: Vertex)
    requires CertifiedView(w, n, small) && CertifiedView(w, n, view) && Extends(small, view)
    requires v in VerticesAt(view, r) && v.hash in small.byHash
    ensures v in VerticesAt(small, r) && small.byHash[v.hash] == v
  {
    hide Certifiable;
    assert Filed(w, n, view, r, v);
    assert small.byHash[v.hash] in VerticesAt(small, v.round);
  }

  /** A certified view has one vertex per slot, and its part that a complete smaller view
      holds is built by the rules. */
  lemma CertifiedIsGood(w: World, n: Net, small: View, view: View, from: nat)
    requires GoodWorld(w) && Inv(w, n) && CertifiedView(w, n, small) && CertifiedView(w, n, view)
    requires Extends(small, view) && CompleteAbove(small, from)
    ensures GoodDag(view, Members(w.set_), w.byzantine, small.byHash.Keys, from) && |Members(w.set_)| == |w.set_|
  {
    hide Inv, CertifiedView, Indexed, OnePerSlot, WellParented, Extends;
    CertifiedIsIndexed(w, n, view);
    CertifiedOnePerSlot(w, n, view);
    DistinctSize(w.set_);
    forall r: nat, v | v in VerticesAt(view, r) ensures v.author in Members(w.set_) {
      CertifiedAuthors(w, n, view, r, v);
    }
    forall r: nat, v | v in VerticesAt(view, r) && r > from && v.hash in small.byHash.Keys
      ensures forall p :: p in v.parents ==> p in small.byHash.Keys
      ensures v.author !in w.byzantine ==> WellParented(view, |w.set_|, r, v)
    {
      SmallerHas(w, n, small, view, r, v);
      CertifiedAuthors(w, n, view, r, v);
      ParentsKept(small, view, v);
      if v.author !in w.byzantine { HonestWellParented(w, n, view, r, v); }
    }
  }

  lemma ParentsKept(small: View, view: View, v: Vertex)
    requires Extends(small, view) && forall p :: p in v.parents ==> p in small.byHash
    ensures forall p :: p in v.parents ==> p in view.byHash
  {
  }

  // ---------------------------------------------------------------------
  // Across nodes
  // ---------------------------------------------------------------------

  // What two nodes know together.
  ghost function Merged(x: View, y: View): View {
    View(x.byHash + y.byHash,
         map r | r in x.byRound.Keys + y.byRound.Keys :: VerticesAt(x, r) + VerticesAt(y, r))
  }

  lemma MergedAt(x: View, y: View, r: nat)
    ensures VerticesAt(Merged(x, y), r) == VerticesAt(x, r) + VerticesAt(y, r)
  {
  }

  // Content addressing: a hash names the same vertex in both views.
  lemma SameVertex(w: World, n: Net, x: View, y: View, h: Hash)
    requires CertifiedView(w, n, x) && CertifiedView(w, n, y) && h in x.byHash && h in y.byHash
    ensures x.byHash[h] == y.byHash[h]
  {
    hide Certifiable;
    var u, v := x.byHash[h], y.byHash[h];
    assert u.hash == ContentHash(u) && v.hash == ContentHash(v);
  }

  lemma UnionExtends(x: View, y: View)
    requires forall h :: h in x.byHash && h in y.byHash ==> x.byHash[h] == y.byHash[h]
    ensures Extends(x, Merged(x, y)) && Extends(y, Merged(x, y))
  {
    var m := Merged(x, y);
    assert m.byHash == x.byHash + y.byHash;
    hide Merged;
    forall r: nat ensures VerticesAt(m, r) == VerticesAt(x, r) + VerticesAt(y, r) { MergedAt(x, y, r); }
  }

  lemma MergedExtends(w: World, n: Net, x: View, y: View)
    requires CertifiedView(w, n, x) && CertifiedView(w, n, y)
    ensures Extends(x, Merged(x, y)) && Extends(y, Merged(x, y))
  {
    hide CertifiedView, Merged;
    forall h | h in x.byHash && h in y.byHash ensures x.byHash[h] == y.byHash[h] { SameVertex(w, n, x, y, h); }
    UnionExtends(x, y);
  }

  lemma FiledExtends(w: World, n: Net, x: View, m: View, round: nat, v: Vertex)
    requires Extends(x, m) && Filed(w, n, x, round, v)
    ensures Filed(w, n, m, round, v)
  {
    hide Certifiable;
  }

  lemma MergedFiled(w: World, n: Net, x: View, y: View, r: nat, v: Vertex)
    requires CertifiedView(w, n, x) && CertifiedView(w, n, y) && v in VerticesAt(Merged(x, y), r)
    requires Extends(x, Merged(x, y)) && Extends(y, Merged(x, y))
    ensures Filed(w, n, Merged(x, y), r, v)
  {
    hide Filed, Extends, Merged;
    MergedAt(x, y, r);
    var z := if v in VerticesAt(x, r) then x else y;
    FiledExtends(w, n, z, Merged(x, y), r, v);
  }

  lemma MergedKept(w: World, n: Net, x: View, y: View, h: Hash)
    requires CertifiedView(w, n, x) && CertifiedView(w, n, y) && h in Merged(x, y).byHash
    ensures var m := Merged(x, y); m.byHash[h].hash == h && m.byHash[h] in VerticesAt(m, m.byHash[h].round)
  {
    hide Filed;
    var m := Merged(x, y);
    var v := m.byHash[h];
    assert v == if h in y.byHash then y.byHash[h] else x.byHash[h];
    MergedAt(x, y, v.round);
  }

  lemma MergedIsCertified(w: World, n: Net, x: View, y: View)
    requires CertifiedView(w, n, x) && CertifiedView(w, n, y)
    ensures CertifiedView(w, n, Merged(x, y))
  {
    hide Filed, Extends;
    var m := Merged(x, y);
    MergedExtends(w, n, x, y);
    forall r: nat, v | v in VerticesAt(m, r) ensures Filed(w, n, m, r, v) {
      MergedFiled(w, n, x, y, r, v);
    }
    forall h | h in m.byHash ensures m.byHash[h].hash == h && m.byHash[h] in VerticesAt(m, m.byHash[h].round) {
      MergedKept(w, n, x, y, h);
    }
  }

  lemma MergedParents(w: World, n: Net, x: View, y: View, g: Hash)
    requires CertifiedView(w, n, x) && CertifiedView(w, n, y) && g in y.byHash
    ensures ParentsOf(Merged(x, y), g) == ParentsOf(y, g)
  {
    hide CertifiedView;
    if g in x.byHash { SameVertex(w, n, x, y, g); }
  }

  // Every link lowers the round by one.
  lemma {:induction false} WalkRounds(w: World, n: Net, view: View, from: Hash, r: nat, d: nat, h: Hash)
    requires GoodWorld(w) && Inv(w, n) && CertifiedView(w, n, view)
    requires from.OfBody? && from.body.round == r && Walk(view, from, d, h)
    ensures d <= r && h.OfBody? && h.body.round == r - d
  {
    hide Inv, CertifiedView;
    if d > 0 {
      var g :| Walk(view, from, d - 1, g) && h in ParentsOf(view, g);
      WalkRounds(w, n, view, from, r, d - 1, g);
      StoredRound(w, n, view, g);
      ParentRounds(w, n, view, view.byHash[g].round, view.byHash[g], h);
    }
  }

  lemma StoredRound(w: World, n: Net, view: View, g: Hash)
    requires CertifiedView(w, n, view) && g in view.byHash
    ensures view.byHash[g].hash == g == ContentHash(view.byHash[g])
    ensures view.byHash[g] in VerticesAt(view, view.byHash[g].round)
  {
    hide Certifiable;
    assert Filed(w, n, view, view.byHash[g].round, view.byHash[g]);
  }

  // A walk in what two nodes know that starts in a view complete above some round stays
  // in it down to that round.
  lemma {:induction false} WalkStays(w: World, n: Net, x: View, y: View, round: nat, from: Hash, r: nat, d: nat,
                                     h: Hash)
    requires GoodWorld(w) && Inv(w, n) && CertifiedView(w, n, x) && CertifiedView(w, n, y)
    requires CertifiedView(w, n, Merged(x, y))
    requires CompleteAbove(y, round) && from in y.byHash && from.OfBody? && from.body.round == r && d + round <= r
    requires Walk(Merged(x, y), from, d, h)
    ensures Walk(y, from, d, h) && h in y.byHash
  {
    hide CertifiedView, Merged, Inv;
    if d > 0 {
      var g :| Walk(Merged(x, y), from, d - 1, g) && h in ParentsOf(Merged(x, y), g);
      WalkStays(w, n, x, y, round, from, r, d - 1, g);
      WalkRounds(w, n, Merged(x, y), from, r, d - 1, g);
      MergedParents(w, n, x, y, g);
      StoredRound(w, n, y, g);
    }
  }

  /** In every run: if a wave commits by the two-round shortcut in one node's view, which
      may lack any parents, then in every view that lacks none above the anchor's round the
      anchor is in the causal past of every honest author's vertex from the third round
      after it on. */
  lemma CommittedAnchorIsKeptEverywhere(w: World, run: seq<Net>, labels: seq<Label>, t: nat, x: View, y: View,
                                        rule: Rule, wave: nat, anchor: Hash, round: nat, v: Vertex)
    requires GoodWorld(w) && Run(w, run, labels) && t < |run|
    requires CertifiedView(w, run[t], x) && CertifiedView(w, run[t], y) && CompleteAbove(y, FirstRound(wave))
    requires rule.shortcut == 2 && Commits(rule, |w.set_|, x, wave, false, anchor)
    requires round >= FirstRound(wave) + 3 && v in VerticesAt(y, round) && Honest(w, v.author)
    ensures Reaches(y, v.hash, anchor)
  {
    hide Run;
    RunInv(w, run, labels, t);
    KeptInNet(w, run[t], x, y, rule, wave, anchor, round, v);
  }

  lemma KeptInNet(w: World, n: Net, x: View, y: View, rule: Rule, wave: nat, anchor: Hash, round: nat, v: Vertex)
    requires GoodWorld(w) && Inv(w, n)
    requires CertifiedView(w, n, x) && CertifiedView(w, n, y) && CompleteAbove(y, FirstRound(wave))
    requires rule.shortcut == 2 && Commits(rule, |w.set_|, x, wave, false, anchor)
    requires round >= FirstRound(wave) + 3 && v in VerticesAt(y, round) && Honest(w, v.author)
    ensures Reaches(y, v.hash, anchor)
  {
    var from, m := FirstRound(wave), Merged(x, y);
    FiledRound(w, n, y, round, v);
    var u := AnchorIs(w, n, x, rule, wave, false, anchor);
    assert anchor.OfBody? && anchor.body.round == from && v.hash.OfBody? && v.hash.body.round == round;
    assert v.hash in y.byHash;
    hide Inv, CertifiedView, Walk, Commits, Enough, Filed, GoodDag, Merged, WellParented, CompleteAbove;
    hide VertexReachesSpec, Extends;
    MergedIsCertified(w, n, x, y);
    MergedExtends(w, n, x, y);
    MergedAt(x, y, round);
    CertifiedIsGood(w, n, y, m, from);
    InLarger(w, n, y, m, rule, wave, x, anchor, round, v);
    ShortcutIsInevitable(m, Members(w.set_), w.byzantine, y.byHash.Keys, anchor, from, round, v);
    KnownToo(w, n, x, y, from, anchor, round, v);
  }

  // What a vertex of one node's view reaches in what both know, it reaches there.
  lemma KnownToo(w: World, n: Net, x: View, y: View, from: nat, anchor: Hash, round: nat, v: Vertex)
    requires GoodWorld(w) && Inv(w, n) && CertifiedView(w, n, x) && CertifiedView(w, n, y)
    requires CertifiedView(w, n, Merged(x, y))
    requires CompleteAbove(y, from) && v.hash in y.byHash && v.hash.OfBody? && v.hash.body.round == round
    requires anchor.OfBody? && anchor.body.round == from
    requires v in VerticesAt(Merged(x, y), round) && VertexReachesSpec(Merged(x, y), v, anchor)
    ensures Reaches(y, v.hash, anchor)
  {
    hide Inv, CertifiedView, Walk, Merged, CompleteAbove, VertexReachesSpec;
    var m := Merged(x, y);
    CertifiedIsIndexed(w, n, m);
    VertexReachesMeans(m, round, v, anchor);
    var d: nat :| Walk(m, v.hash, d, anchor);
    WalkRounds(w, n, m, v.hash, round, d, anchor);
    WalkStays(w, n, x, y, from, v.hash, round, d, anchor);
  }

  lemma InLarger(w: World, n: Net, y: View, m: View, rule: Rule, wave: nat, x: View, anchor: Hash, round: nat,
                 v: Vertex)
    requires GoodWorld(w) && Inv(w, n) && CertifiedView(w, n, y) && CertifiedView(w, n, m)
    requires Extends(x, m) && Extends(y, m) && CompleteAbove(y, FirstRound(wave)) && rule.shortcut == 2
    requires Commits(rule, |w.set_|, x, wave, false, anchor)
    requires round > FirstRound(wave) && v in VerticesAt(y, round) && v in VerticesAt(m, round) && Honest(w, v.author)
    ensures Enough(m, |w.set_|, anchor, FirstRound(wave), 2) && WellParented(m, |w.set_|, round, v)
  {
    hide Inv, CertifiedView, Enough, Filed, WellParented;
    EnoughGrows(x, m, |w.set_|, anchor, FirstRound(wave), 2, 2);
    ParentsKept(y, m, v);
    HonestWellParented(w, n, m, round, v);
  }

  /** The same in one view. */
  lemma CommittedAnchorIsKept(w: World, run: seq<Net>, labels: seq<Label>, t: nat, view: View,
                              rule: Rule, wave: nat, anchor: Hash, round: nat, v: Vertex)
    requires GoodWorld(w) && Run(w, run, labels) && t < |run| && CertifiedView(w, run[t], view)
    requires CompleteAbove(view, FirstRound(wave))
    requires rule.shortcut == 2 && Commits(rule, |w.set_|, view, wave, false, anchor)
    requires round >= FirstRound(wave) + 3 && v in VerticesAt(view, round) && Honest(w, v.author)
    ensures Reaches(view, v.hash, anchor)
  {
    hide Run, CertifiedView, CompleteAbove, Commits;
    CommittedAnchorIsKeptEverywhere(w, run, labels, t, view, view, rule, wave, anchor, round, v);
  }

  // ---------------------------------------------------------------------
  // One order for all
  // ---------------------------------------------------------------------

  lemma ViewStays(w: World, n: Net, m: Net, view: View)
    requires CertifiedView(w, n, view) && n.signed <= m.signed
    ensures CertifiedView(w, m, view)
  {
    forall r: nat, v | v in VerticesAt(view, r) ensures Filed(w, m, view, r, v) {
      assert Filed(w, n, view, r, v);
      CertifiableGrows(w, n.signed, m.signed, SigningBytes(v));
    }
  }

  lemma CertifiedIsAddressed(w: World, n: Net, view: View)
    requires CertifiedView(w, n, view)
    ensures ContentAddressed(view)
  {
    forall h | h in view.byHash ensures h == ContentHash(view.byHash[h]) {
      assert Filed(w, n, view, view.byHash[h].round, view.byHash[h]);
    }
  }

  // Nothing that the anchor reaches is missing when no parent is.
  lemma {:induction false} CompleteWalk(w: World, n: Net, view: View, from: Hash, d: nat, h: Hash)
    requires CertifiedView(w, n, view) && CompleteAbove(view, 0) && GoodWorld(w) && Inv(w, n)
    requires from in view.byHash && Walk(view, from, d, h)
    ensures h in view.byHash
  {
    hide CertifiedView, Inv;
    if d > 0 {
      var g :| Walk(view, from, d - 1, g) && h in ParentsOf(view, g);
      CompleteWalk(w, n, view, from, d - 1, g);
      StoredRound(w, n, view, g);
      ParentRounds(w, n, view, view.byHash[g].round, view.byHash[g], h);
    }
  }

  lemma CompleteHoldsClosure(w: World, n: Net, view: View, anchor: Hash)
    requires CertifiedView(w, n, view) && CompleteAbove(view, 0) && GoodWorld(w) && Inv(w, n) && anchor in view.byHash
    ensures HoldsClosure(view, anchor)
  {
    hide CertifiedView, Walk, Inv, CompleteAbove;
    forall h | Reaches(view, anchor, h) ensures h in view.byHash {
      var d: nat :| Walk(view, anchor, d, h);
      CompleteWalk(w, n, view, anchor, d, h);
    }
  }

  // The anchor a wave commits is a certified vertex by the wave's leader.
  lemma AnchorIs(w: World, n: Net, view: View, rule: Rule, wave: nat, timedOut: bool, anchor: Hash) returns (v: Vertex)
    requires CertifiedView(w, n, view) && Commits(rule, |w.set_|, view, wave, timedOut, anchor)
    ensures v.hash == anchor && v.round == FirstRound(wave) && v.author == rule.leader(wave)
    ensures Filed(w, n, view, v.round, v)
  {
    hide Enough, Filed, Certifiable;
    v := Anchor(rule, view, wave).value;
    FirstByFinds(VerticesAt(view, FirstRound(wave)), rule.leader(wave));
    FiledRound(w, n, view, FirstRound(wave), v);
  }

  lemma FiledRound(w: World, n: Net, view: View, round: nat, v: Vertex)
    requires CertifiedView(w, n, view) && v in VerticesAt(view, round)
    ensures Filed(w, n, view, round, v) && v.round == round
  {
  }

  lemma SameAnchor(w: World, n: Net, x: View, y: View, rule: Rule, wave: nat, a: Hash, b: Hash, early: bool, late: bool)
    requires GoodWorld(w) && Inv(w, n) && CertifiedView(w, n, x) && CertifiedView(w, n, y)
    requires Commits(rule, |w.set_|, x, wave, early, a) && Commits(rule, |w.set_|, y, wave, late, b)
    ensures a == b && a in x.byHash && a in y.byHash
  {
    hide Inv, CertifiedView, Commits, Certifiable;
    var u := AnchorIs(w, n, x, rule, wave, early, a);
    var v := AnchorIs(w, n, y, rule, wave, late, b);
    CertifiableUnique(w, n, SigningBytes(u), SigningBytes(v));
  }

  /** One anchor for all: whenever two nodes commit the same wave, by either path, on
      certified views taken at any two times of a run, they commit the same anchor. They
      list its causal past in the same order if they know the same parents of all it
      reaches, for example if neither view lacks anything of it. */
  lemma SameWaveSameOrder(w: World, run: seq<Net>, labels: seq<Label>, s: nat, t: nat, x: View, y: View,
                          rule: Rule, key: SortKey, wave: nat, a: Hash, b: Hash, early: bool, late: bool)
    requires GoodWorld(w) && Run(w, run, labels) && s < |run| && t < |run| && Injective(key)
    requires CertifiedView(w, run[s], x) && CertifiedView(w, run[t], y)
    requires Commits(rule, |w.set_|, x, wave, early, a) && Commits(rule, |w.set_|, y, wave, late, b)
    ensures a == b
    ensures AgreeOn(x, y, a) || (HoldsClosure(x, a) && HoldsClosure(y, a)) ==> Order(x, key, a) == Order(y, key, b)
  {
    hide Inv, CertifiedView, Commits, Run, Injective, Order, ContentAddressed, HoldsClosure, AgreeOn;
    var m := if s < t then t else s;
    SignedGrows(w, run, labels, s, m);
    SignedGrows(w, run, labels, t, m);
    RunInv(w, run, labels, m);
    ViewStays(w, run[s], run[m], x);
    ViewStays(w, run[t], run[m], y);
    SameAnchor(w, run[m], x, y, rule, wave, a, b, early, late);
    CertifiedIsAddressed(w, run[m], x);
    CertifiedIsAddressed(w, run[m], y);
    if AgreeOn(x, y, a) { OrderAgrees(x, y, key, a); }
    if HoldsClosure(x, a) && HoldsClosure(y, a) { CompleteViewsAgree(x, y, key, a); }
  }

  /** Views that lack no parent hold the closure of every anchor. */
  lemma CompleteViewsHold(w: World, run: seq<Net>, labels: seq<Label>, t: nat, view: View, rule: Rule, wave: nat,
                          timedOut: bool, a: Hash)
    requires GoodWorld(w) && Run(w, run, labels) && t < |run| && CertifiedView(w, run[t], view)
    requires CompleteAbove(view, 0)
    requires Commits(rule, |w.set_|, view, wave, timedOut, a)
    ensures HoldsClosure(view, a)
  {
    hide Inv, CertifiedView, Commits, Run, CompleteAbove, HoldsClosure, Certifiable;
    RunInv(w, run, labels, t);
    var v := AnchorIs(w, run[t], view, rule, wave, timedOut, a);
    CompleteHoldsClosure(w, run[t], view, a);
  }

  lemma SameAuthors(w: World, n: Net, m: Net, x: View, y: View, order: seq<Hash>)
    requires CertifiedView(w, n, x) && CertifiedView(w, m, y)
    requires forall h :: h in order ==> h in x.byHash && h in y.byHash
    ensures Waves.Authors(x, order) == Waves.Authors(y, order)
  {
    hide CertifiedView;
    forall h | h in order ensures x.byHash[h] == y.byHash[h] {
      StoredRound(w, n, x, h);
      StoredRound(w, m, y, h);
    }
  }

  /** Two nodes that commit a wave on views that lack nothing of its anchor's past make the
      same micro certificate of it, over the same order and with the same flags. */
  lemma SameMicroCertificate(w: World, run: seq<Net>, labels: seq<Label>, s: nat, t: nat, x: View, y: View,
                             env: Waves.Env, wave: nat, early: bool, late: bool)
    requires GoodWorld(w) && Run(w, run, labels) && s < |run| && t < |run| && Injective(env.key) && env.set_ == w.set_
    requires CertifiedView(w, run[s], x) && CertifiedView(w, run[t], y)
    requires Waves.Decided(env, x, wave, early).Some? && Waves.Decided(env, y, wave, late).Some?
    requires var a, b := Waves.Decided(env, x, wave, early).value, Waves.Decided(env, y, wave, late).value;
             HoldsClosure(x, a) && HoldsClosure(y, b)
    ensures var a, b := Waves.Decided(env, x, wave, early).value, Waves.Decided(env, y, wave, late).value;
            Waves.MicroOf(env, x, Order(x, env.key, a)) == Waves.MicroOf(env, y, Order(y, env.key, b))
  {
    hide CertifiedView, Run, Injective, Order, Waves.Authors, Enough, Reaches;
    var a, b := Waves.Decided(env, x, wave, early).value, Waves.Decided(env, y, wave, late).value;
    SameWaveSameOrder(w, run, labels, s, t, x, y, env.rule, env.key, wave, a, b, early, late);
    OrderSpec(x, env.key, a);
    OrderSpec(y, env.key, b);
    SameAuthors(w, run[s], run[t], x, y, Order(x, env.key, a));
  }
}
