/** A node's view of the certified DAG (consensus::ports::DagView) and paths through
    parent links. */
module Dag {
  import opened Validators
  import opened Certificates

  // What `vertex` and `vertices_at_round` answer.
  datatype View = View(byHash: map<Hash, Vertex>, byRound: map<nat, seq<Vertex>>)

  function VerticesAt(view: View, round: nat): seq<Vertex> {
    if round in view.byRound then view.byRound[round] else []
  }

  // The host indexes a certified vertex by its hash and at the end of its round.
  function Ingest(view: View, v: Vertex): View {
    View(view.byHash[v.hash := v], view.byRound[v.round := VerticesAt(view, v.round) + [v]])
  }

  lemma IngestAt(view: View, v: Vertex, round: nat)
    ensures VerticesAt(Ingest(view, v), round) == VerticesAt(view, round) + if round == v.round then [v] else []
  {
  }

  function ParentsOf(view: View, h: Hash): seq<Hash> {
    if h in view.byHash then view.byHash[h].parents else []
  }

  // ---------------------------------------------------------------------
  // A host's index
  // ---------------------------------------------------------------------

  ghost predicate Sealed(vs: seq<Vertex>) {
    forall v :: v in vs ==> v.hash == ContentHash(v)
  }

  // The view of a host that has indexed the vertices in this order.
  function Ingested(vs: seq<Vertex>): View {
    if vs == [] then View(map[], map[]) else Ingest(Ingested(vs[..|vs| - 1]), vs[|vs| - 1])
  }

  lemma {:induction false} IngestedRounds(vs: seq<Vertex>, r: nat, v: Vertex)
    ensures v in VerticesAt(Ingested(vs), r) <==> v in vs && v.round == r
  {
    if vs != [] {
      var m := |vs| - 1;
      IngestedRounds(vs[..m], r, v);
      IngestAt(Ingested(vs[..m]), vs[m], r);
      assert vs == vs[..m] + [vs[m]];
    }
  }

  lemma {:induction false} IngestedHashes(vs: seq<Vertex>, h: Hash)
    requires Sealed(vs)
    ensures h in Ingested(vs).byHash <==> exists v :: v in vs && v.hash == h
    ensures h in Ingested(vs).byHash ==> Ingested(vs).byHash[h] in vs && Ingested(vs).byHash[h].hash == h
  {
    if vs != [] {
      var m := |vs| - 1;
      IngestedHashes(vs[..m], h);
      assert vs == vs[..m] + [vs[m]];
    }
  }

  lemma SameHashSame(u: Vertex, v: Vertex)
    requires u.hash == ContentHash(u) && v.hash == ContentHash(v) && u.hash == v.hash
    ensures u == v
  {
  }

  lemma IngestedFinds(vs: seq<Vertex>, v: Vertex)
    requires Sealed(vs) && v in vs
    ensures v.hash in Ingested(vs).byHash && Ingested(vs).byHash[v.hash] == v
    ensures ParentsOf(Ingested(vs), v.hash) == v.parents
  {
    IngestedHashes(vs, v.hash);
    SameHashSame(Ingested(vs).byHash[v.hash], v);
  }

  // ---------------------------------------------------------------------
  // Paths
  // ---------------------------------------------------------------------

  // `h` is reached from `from` over exactly `d` parent links; only the hashes
  // that a link leaves have to be in the view.
  ghost predicate Walk(view: View, from: Hash, d: nat, h: Hash) {
    if d == 0 then h == from
    else exists g :: Walk(view, from, d - 1, g) && h in ParentsOf(view, g)
  }

  ghost predicate Reaches(view: View, from: Hash, h: Hash) {
    exists d: nat :: Walk(view, from, d, h)
  }

  // A vertex, in the view or not, reaches a hash.
  ghost predicate VertexReachesSpec(view: View, start: Vertex, target: Hash) {
    start.hash == target || exists p :: p in start.parents && Reaches(view, p, target)
  }

  lemma ReachesSelf(view: View, h: Hash)
    ensures Reaches(view, h, h)
  {
    assert Walk(view, h, 0, h);
  }

  lemma ReachesNext(view: View, from: Hash, g: Hash, h: Hash)
    requires Reaches(view, from, g) && h in ParentsOf(view, g)
    ensures Reaches(view, from, h)
  {
    var d: nat :| Walk(view, from, d, g);
    assert Walk(view, from, d + 1, h);
  }

  lemma {:induction false} WalkJoin(view: View, a: Hash, d: nat, b: Hash, e: nat, c: Hash)
    requires Walk(view, a, d, b) && Walk(view, b, e, c)
    ensures Walk(view, a, d + e, c)
    decreases e
  {
    if e > 0 {
      var g :| Walk(view, b, e - 1, g) && c in ParentsOf(view, g);
      WalkJoin(view, a, d, b, e - 1, g);
    }
  }

  lemma ReachesJoin(view: View, a: Hash, b: Hash, c: Hash)
    requires Reaches(view, a, b) && Reaches(view, b, c)
    ensures Reaches(view, a, c)
  {
    var d: nat :| Walk(view, a, d, b);
    var e: nat :| Walk(view, b, e, c);
    WalkJoin(view, a, d, b, e, c);
  }

  // Reaching starts with a parent, for a hash whose vertex is in the view.
  lemma ReachesFirst(view: View, h: Hash, p: Hash, t: Hash)
    requires p in ParentsOf(view, h) && Reaches(view, p, t)
    ensures Reaches(view, h, t)
  {
    assert Walk(view, h, 0, h);
    assert Walk(view, h, 1, p);
    ReachesJoin(view, h, p, t);
  }

  // A set closed under parents contains everything its members reach.
  ghost predicate Closed(view: View, s: set<Hash>) {
    forall h, p :: h in s && p in ParentsOf(view, h) ==> p in s
  }

  lemma {:induction false} ClosedContains(view: View, s: set<Hash>, from: Hash, d: nat, h: Hash)
    requires Closed(view, s) && from in s && Walk(view, from, d, h)
    ensures h in s
  {
    if d > 0 {
      var g :| Walk(view, from, d - 1, g) && h in ParentsOf(view, g);
      ClosedContains(view, s, from, d - 1, g);
    }
  }

  // Every hash a search can meet.
  ghost function Universe(view: View, roots: set<Hash>): set<Hash> {
    roots + set h, p | h in view.byHash && p in view.byHash[h].parents :: p
  }

  // ---------------------------------------------------------------------
  // The search of commit::vertex_reaches
  // ---------------------------------------------------------------------

  // Hashes already taken from the queue have all their parents marked.
  ghost predicate Expanded(view: View, done: set<Hash>, visited: set<Hash>) {
    forall h :: h in done ==> Members(ParentsOf(view, h)) <= visited
  }

  ghost predicate Rooted(view: View, roots: set<Hash>, h: Hash) {
    exists r :: r in roots && Reaches(view, r, h)
  }

  ghost predicate AllRooted(view: View, roots: set<Hash>, visited: set<Hash>) {
    forall h :: h in visited ==> Rooted(view, roots, h)
  }

  ghost predicate Searching(view: View, roots: set<Hash>, visited: set<Hash>, queue: seq<Hash>, done: set<Hash>) {
    && roots <= visited <= Universe(view, roots) && visited == done + Members(queue)
    && Expanded(view, done, visited) && AllRooted(view, roots, visited)
  }

  method PushParents(view: View, h: Hash, parents: seq<Hash>, visited: set<Hash>, queue: seq<Hash>)
    returns (visited': set<Hash>, queue': seq<Hash>)
    ensures visited' == visited + Members(parents)
    ensures Members(queue') == Members(queue) + (Members(parents) - visited)
    ensures visited' == visited ==> queue' == queue
  {
    visited', queue' := visited, queue;
    for i := 0 to |parents|
      invariant visited' == visited + Members(parents[..i])
      invariant Members(queue') == Members(queue) + (Members(parents[..i]) - visited)
      invariant visited' == visited ==> queue' == queue
    {
      assert Members(parents[..i + 1]) == Members(parents[..i]) + {parents[i]};
      if parents[i] !in visited' {
        visited' := visited' + {parents[i]};
        assert Members(queue' + [parents[i]]) == Members(queue') + {parents[i]};
        queue' := queue' + [parents[i]];
      }
    }
    assert parents[..|parents|] == parents;
  }

  lemma SearchStart(view: View, parents: seq<Hash>)
    ensures Searching(view, Members(parents), Members(parents), parents, {})
  {
    forall h | h in Members(parents) ensures Rooted(view, Members(parents), h) { ReachesSelf(view, h); }
  }

  lemma SearchStep(view: View, roots: set<Hash>, visited: set<Hash>, queue: seq<Hash>, done: set<Hash>,
                   visited': set<Hash>, queue': seq<Hash>)
    requires Searching(view, roots, visited, queue, done) && queue != []
    requires var ps := ParentsOf(view, queue[0]);
             && visited' == visited + Members(ps)
             && Members(queue') == Members(queue[1..]) + (Members(ps) - visited)
    ensures Searching(view, roots, visited', queue', done + {queue[0]})
  {
    hide Reaches, Universe, Rooted;
    var h, ps := queue[0], ParentsOf(view, queue[0]);
    assert Members(queue) == {h} + Members(queue[1..]);
    forall p | p in Members(ps) ensures p in Universe(view, roots) && Rooted(view, roots, p) {
      RootedNext(view, roots, h, p);
    }
    assert visited' == (done + {h}) + Members(queue');
    assert Expanded(view, done + {h}, visited');
  }

  lemma RootedNext(view: View, roots: set<Hash>, h: Hash, p: Hash)
    requires Rooted(view, roots, h) && p in ParentsOf(view, h)
    ensures Rooted(view, roots, p) && p in Universe(view, roots)
  {
    hide Reaches;
    var r :| r in roots && Reaches(view, r, h);
    ReachesNext(view, r, h, p);
  }

  lemma SearchDone(view: View, roots: set<Hash>, visited: set<Hash>, done: set<Hash>, target: Hash)
    requires Searching(view, roots, visited, [], done) && target !in done
    ensures forall r :: r in roots ==> !Reaches(view, r, target)
  {
    assert Closed(view, done) by {
      forall h, p | h in done && p in ParentsOf(view, h) ensures p in done {
        assert p in Members(ParentsOf(view, h));
      }
    }
    hide Walk;
    forall r | r in roots ensures !Reaches(view, r, target) {
      if Reaches(view, r, target) {
        var d: nat :| Walk(view, r, d, target);
        ClosedContains(view, done, r, d, target);
      }
    }
  }

  /** The breadth-first search answers exactly whether a parent path exists, and
      ends on every finite view, cyclic ones included. */
  method VertexReaches(view: View, start: Vertex, target: Hash) returns (r: bool)
    ensures r <==> VertexReachesSpec(view, start, target)
  {
    if start.hash == target {
      return true;
    }
    hide Reaches, Universe;
    var queue := start.parents;
    var visited := Members(start.parents);
    ghost var roots, done: set<Hash> := visited, {};
    SearchStart(view, start.parents);
    while queue != []
      invariant Searching(view, roots, visited, queue, done) && target !in done
      decreases |Universe(view, roots) - visited|, |queue|
    {
      var h := queue[0];
      assert h in Members(queue);
      if h == target {
        assert Rooted(view, roots, h);
        return true;
      }
      var visited', queue' := PushParents(view, h, ParentsOf(view, h), visited, queue[1..]);
      SearchStep(view, roots, visited, queue, done, visited', queue');
      Shrinks(Universe(view, roots), visited, visited');
      visited, queue := visited', queue';
      done := done + {h};
    }
    SearchDone(view, roots, visited, done, target);
    return false;
  }

  lemma Shrinks(all: set<Hash>, visited: set<Hash>, visited': set<Hash>)
    requires visited <= visited' <= all
    ensures visited' == visited || |all - visited'| < |all - visited|
  {
    if visited' != visited {
      var x :| x in visited' && x !in visited;
      SubsetSize(all - visited', (all - visited) - {x});
    }
  }
}
