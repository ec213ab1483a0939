/** DAGs of 3f + 1 validators, drawn round by round, and what a host that has indexed some
    of their vertices answers. */
module Grid {
  import opened Validators
  import opened Worlds
  import opened Certificates
  import opened Dag
  import opened CertifiedDag

  // Which slots hold a vertex, and which slot of the round before the j-th of its 2f + 1
  // parents is in.
  datatype Plan = Plan(f: nat, top: nat, stands: (nat, Id) -> bool, pick: (nat, Id, nat) -> Id)

  function Placed(p: Plan, round: nat, i: Id): Vertex {
    var parents :=
      if round == 0 then []
      else seq(2 * p.f + 1, j requires 0 <= j <= 2 * p.f => Placed(p, round - 1, p.pick(round, i, j)).hash);
    SealHash(Vertex(round, i, parents, [], Zero))
  }

  function WorldOf(f: nat, bad: set<Id>): World { World(seq(3 * f + 1, i => i), bad) }

  lemma WorldIsGood(f: nat, bad: set<Id>)
    requires |bad| <= f
    ensures var w := WorldOf(f, bad); GoodWorld(w) && |w.set_| == 3 * f + 1 && QuorumThreshold(3 * f + 1) == 2 * f + 1
    ensures forall i: Id :: i in WorldOf(f, bad).set_ <==> i <= 3 * f
  {
    var s := WorldOf(f, bad).set_;
    assert MaxFaulty(3 * f + 1) == f;
    forall i: Id | i <= 3 * f ensures i in s { assert s[i] == i; }
  }

  lemma PlacedFields(p: Plan, r: nat, i: Id)
    ensures var v := Placed(p, r, i); v.round == r && v.author == i && v.hash == ContentHash(v) && v.blobs == []
    ensures r == 0 ==> Placed(p, r, i).parents == []
    ensures r > 0 ==> |Placed(p, r, i).parents| == 2 * p.f + 1
    ensures r > 0 ==> forall j :: 0 <= j <= 2 * p.f ==>
              Placed(p, r, i).parents[j] == Placed(p, r - 1, p.pick(r, i, j)).hash
  {
  }

  lemma HasParent(p: Plan, r: nat, i: Id, j: nat)
    requires r > 0 && j <= 2 * p.f
    ensures Placed(p, r - 1, p.pick(r, i, j)).hash in Placed(p, r, i).parents
  {
    hide Placed;
    PlacedFields(p, r, i);
    assert Placed(p, r, i).parents[j] in Placed(p, r, i).parents;
  }

  lemma ParentIs(p: Plan, r: nat, i: Id, h: Hash) returns (j: nat)
    requires h in Placed(p, r, i).parents
    ensures r > 0 && j <= 2 * p.f && h == Placed(p, r - 1, p.pick(r, i, j)).hash
  {
    hide Placed;
    PlacedFields(p, r, i);
    j :| 0 <= j < |Placed(p, r, i).parents| && Placed(p, r, i).parents[j] == h;
  }

  // ---------------------------------------------------------------------
  // Views
  // ---------------------------------------------------------------------

  // Vertices of the plan, in any order.
  ghost predicate Drawn(p: Plan, vs: seq<Vertex>) {
    forall v :: v in vs ==> p.stands(v.round, v.author) && v == Placed(p, v.round, v.author)
  }

  // All of the plan below a round, and nothing else.
  ghost predicate DrawnBelow(p: Plan, top: nat, vs: seq<Vertex>) {
    forall v :: v in vs <==> v.round < top && p.stands(v.round, v.author) && v == Placed(p, v.round, v.author)
  }

  lemma BelowIsDrawn(p: Plan, top: nat, vs: seq<Vertex>)
    requires DrawnBelow(p, top, vs)
    ensures Drawn(p, vs)
  {
    hide Placed;
  }

  lemma DrawnSealed(p: Plan, vs: seq<Vertex>)
    requires Drawn(p, vs)
    ensures Sealed(vs)
  {
    hide Placed;
    forall v | v in vs ensures v.hash == ContentHash(v) { PlacedFields(p, v.round, v.author); }
  }

  // What the view answers about a vertex it holds.
  lemma Shown(p: Plan, vs: seq<Vertex>, r: nat, i: Id)
    requires Drawn(p, vs) && Placed(p, r, i) in vs
    ensures Placed(p, r, i) in VerticesAt(Ingested(vs), r)
    ensures Placed(p, r, i).hash in Ingested(vs).byHash
    ensures ParentsOf(Ingested(vs), Placed(p, r, i).hash) == Placed(p, r, i).parents
  {
    hide Placed, Ingested;
    DrawnSealed(p, vs);
    PlacedFields(p, r, i);
    IngestedRounds(vs, r, Placed(p, r, i));
    IngestedFinds(vs, Placed(p, r, i));
  }

  lemma ShownIs(p: Plan, vs: seq<Vertex>, r: nat, v: Vertex)
    requires Drawn(p, vs) && v in VerticesAt(Ingested(vs), r)
    ensures v in vs && v.round == r && p.stands(r, v.author) && v == Placed(p, r, v.author)
  {
    hide Placed, Ingested;
    IngestedRounds(vs, r, v);
  }

  lemma DrawnHas(p: Plan, top: nat, vs: seq<Vertex>, r: nat, i: Id)
    requires DrawnBelow(p, top, vs) && r < top && p.stands(r, i)
    ensures Drawn(p, vs) && Placed(p, r, i) in vs
  {
    hide Placed;
    PlacedFields(p, r, i);
  }

  // Parents of what stands stand.
  ghost predicate ParentsStand(p: Plan) {
    forall r: nat, i: Id, j: nat :: p.stands(r, i) && r > 0 && j <= 2 * p.f ==> p.stands(r - 1, p.pick(r, i, j))
  }

  /** Whoever has indexed all of a plan below a round lacks no parent. */
  lemma DrawnIsComplete(p: Plan, top: nat, vs: seq<Vertex>)
    requires ParentsStand(p) && DrawnBelow(p, top, vs)
    ensures CompleteAbove(Ingested(vs), 0)
  {
    hide Placed, Ingested;
    var view := Ingested(vs);
    forall r: nat, v, h | v in VerticesAt(view, r) && r > 0 && h in v.parents ensures h in view.byHash {
      IngestedRounds(vs, r, v);
      var j := ParentIs(p, r, v.author, h);
      DrawnHas(p, top, vs, r - 1, p.pick(r, v.author, j));
      Shown(p, vs, r - 1, p.pick(r, v.author, j));
    }
  }
}
