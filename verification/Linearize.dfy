/** The order in which a committed anchor's causal past is listed
    (bullshark::linearize). */
module Linearize {
  import opened Validators
  import opened Certificates
  import opened Dag

  // The bytes of a hash read as a number; different hashes differ in it.
  type SortKey = Hash -> nat

  ghost predicate Injective(key: SortKey) {
    forall g, h :: key(g) == key(h) ==> g == h
  }

  // ---------------------------------------------------------------------
  // Sorted parents
  // ---------------------------------------------------------------------

  predicate NonDecreasing(key: SortKey, s: seq<Hash>) {
    forall i, j :: 0 <= i < j < |s| ==> key(s[i]) <= key(s[j])
  }

  predicate StrictlyBy(key: SortKey, s: seq<Hash>) {
    forall i, j :: 0 <= i < j < |s| ==> key(s[i]) < key(s[j])
  }

  function Insert(key: SortKey, h: Hash, s: seq<Hash>): seq<Hash> {
    if s == [] || key(h) <= key(s[0]) then [h] + s else [s[0]] + Insert(key, h, s[1..])
  }

  function SortBy(key: SortKey, s: seq<Hash>): seq<Hash> {
    if s == [] then [] else Insert(key, s[0], SortBy(key, s[1..]))
  }

  lemma MembersCons(h: Hash, s: seq<Hash>)
    ensures Members([h] + s) == {h} + Members(s)
  {
  }

  lemma {:induction false} InsertMembers(key: SortKey, h: Hash, s: seq<Hash>)
    ensures Members(Insert(key, h, s)) == {h} + Members(s)
  {
    if s == [] || key(h) <= key(s[0]) {
      MembersCons(h, s);
    } else {
      InsertMembers(key, h, s[1..]);
      MembersCons(s[0], Insert(key, h, s[1..]));
      MembersCons(s[0], s[1..]);
      assert s == [s[0]] + s[1..];
    }
  }

  lemma NonDecreasingCons(key: SortKey, x: Hash, r: seq<Hash>)
    requires NonDecreasing(key, r) && forall y :: y in Members(r) ==> key(x) <= key(y)
    ensures NonDecreasing(key, [x] + r)
  {
    forall i | 0 <= i < |r| ensures key(x) <= key(r[i]) {
      assert r[i] in Members(r);
    }
  }

  lemma {:induction false} InsertSpec(key: SortKey, h: Hash, s: seq<Hash>)
    requires NonDecreasing(key, s)
    ensures NonDecreasing(key, Insert(key, h, s))
    ensures Members(Insert(key, h, s)) == {h} + Members(s)
  {
    InsertMembers(key, h, s);
    if s != [] && key(h) > key(s[0]) {
      InsertSpec(key, h, s[1..]);
      InsertMembers(key, h, s[1..]);
      NonDecreasingCons(key, s[0], Insert(key, h, s[1..]));
    } else {
      NonDecreasingCons(key, h, s);
    }
  }

  lemma {:induction false} SortSpec(key: SortKey, s: seq<Hash>)
    ensures NonDecreasing(key, SortBy(key, s)) && Members(SortBy(key, s)) == Members(s)
  {
    if s != [] {
      SortSpec(key, s[1..]);
      InsertSpec(key, s[0], SortBy(key, s[1..]));
      assert s == [s[0]] + s[1..];
      MembersCons(s[0], s[1..]);
    }
  }

  // What `if visited.insert(p) { queue.push(p) }` pushes along a list.
  function Unvisited(s: seq<Hash>, visited: set<Hash>): seq<Hash> {
    if s == [] then []
    else if s[0] in visited then Unvisited(s[1..], visited)
    else [s[0]] + Unvisited(s[1..], visited + {s[0]})
  }

  lemma {:induction false} UnvisitedMembers(s: seq<Hash>, visited: set<Hash>)
    ensures Members(Unvisited(s, visited)) == Members(s) - visited
  {
    if s != [] {
      var t := s[1..];
      assert s == [s[0]] + t;
      MembersCons(s[0], t);
      if s[0] in visited {
        UnvisitedMembers(t, visited);
      } else {
        UnvisitedMembers(t, visited + {s[0]});
        MembersCons(s[0], Unvisited(t, visited + {s[0]}));
      }
    }
  }

  lemma StrictlyCons(key: SortKey, h: Hash, r: seq<Hash>, t: seq<Hash>)
    requires Injective(key) && StrictlyBy(key, r) && Members(r) <= Members(t) - {h}
    requires forall i :: 0 <= i < |t| ==> key(h) <= key(t[i])
    ensures StrictlyBy(key, [h] + r)
  {
    forall i | 0 <= i < |r| ensures key(h) < key(r[i]) {
      assert r[i] in Members(r);
      var j :| 0 <= j < |t| && t[j] == r[i];
    }
  }

  lemma {:induction false} UnvisitedStrictly(key: SortKey, s: seq<Hash>, visited: set<Hash>)
    requires Injective(key) && NonDecreasing(key, s)
    ensures StrictlyBy(key, Unvisited(s, visited))
  {
    if s != [] {
      var t := s[1..];
      if s[0] in visited {
        UnvisitedStrictly(key, t, visited);
      } else {
        UnvisitedStrictly(key, t, visited + {s[0]});
        UnvisitedMembers(t, visited + {s[0]});
        StrictlyCons(key, s[0], Unvisited(t, visited + {s[0]}), t);
      }
    }
  }

  lemma {:induction false} StrictlyUnique(key: SortKey, a: seq<Hash>, b: seq<Hash>)
    requires StrictlyBy(key, a) && StrictlyBy(key, b) && Members(a) == Members(b)
    ensures a == b
  {
    DistinctSize(a);
    DistinctSize(b);
    if a != [] {
      assert a[0] in Members(b);
      assert b[0] in Members(a);
      assert a[0] == b[0];
      assert Members(a[1..]) == Members(a) - {a[0]};
      assert Members(b[1..]) == Members(b) - {b[0]};
      StrictlyUnique(key, a[1..], b[1..]);
      assert a == [a[0]] + a[1..] && b == [b[0]] + b[1..];
    }
  }

  // The parents that a step pushes.
  function NewParents(key: SortKey, parents: seq<Hash>, visited: set<Hash>): seq<Hash> {
    Unvisited(SortBy(key, parents), visited)
  }

  lemma NewParentsSpec(key: SortKey, parents: seq<Hash>, visited: set<Hash>)
    requires Injective(key)
    ensures Members(NewParents(key, parents, visited)) == Members(parents) - visited
    ensures StrictlyBy(key, NewParents(key, parents, visited)) && Distinct(NewParents(key, parents, visited))
  {
    SortSpec(key, parents);
    UnvisitedMembers(SortBy(key, parents), visited);
    UnvisitedStrictly(key, SortBy(key, parents), visited);
  }

  /** Only which parents there are matters, not the order they are listed in. */
  lemma SameParentsSamePush(key: SortKey, a: seq<Hash>, b: seq<Hash>, visited: set<Hash>)
    requires Injective(key) && Members(a) == Members(b)
    ensures NewParents(key, a, visited) == NewParents(key, b, visited)
  {
    NewParentsSpec(key, a, visited);
    NewParentsSpec(key, b, visited);
    StrictlyUnique(key, NewParents(key, a, visited), NewParents(key, b, visited));
  }

  // ---------------------------------------------------------------------
  // The traversal as a function
  // ---------------------------------------------------------------------

  ghost function AllParents(view: View): set<Hash> {
    set h, p | h in view.byHash && p in view.byHash[h].parents :: p
  }

  lemma ParentIsCounted(view: View, h: Hash)
    ensures Members(ParentsOf(view, h)) <= AllParents(view)
  {
  }

  lemma PushShrinks(view: View, key: SortKey, h: Hash, visited: set<Hash>)
    requires Injective(key)
    ensures var push := NewParents(key, ParentsOf(view, h), visited);
            push == [] || |AllParents(view) - (visited + Members(push))| < |AllParents(view) - visited|
  {
    var push := NewParents(key, ParentsOf(view, h), visited);
    NewParentsSpec(key, ParentsOf(view, h), visited);
    ParentIsCounted(view, h);
    if push != [] {
      assert push[0] in Members(push);
      SubsetSize(AllParents(view) - (visited + Members(push)), (AllParents(view) - visited) - {push[0]});
    }
  }

  ghost function Traverse(view: View, key: SortKey, queue: seq<Hash>, visited: set<Hash>): seq<Hash>
    requires Injective(key)
    decreases |AllParents(view) - visited|, |queue|
  {
    if queue == [] then []
    else
      var push := NewParents(key, ParentsOf(view, queue[0]), visited);
      PushShrinks(view, key, queue[0], visited);
      [queue[0]] + Traverse(view, key, queue[1..] + push, visited + Members(push))
  }

  ghost function Order(view: View, key: SortKey, anchor: Hash): seq<Hash>
    requires Injective(key)
  {
    Traverse(view, key, [anchor], {anchor})
  }

  // ---------------------------------------------------------------------
  // Distances
  // ---------------------------------------------------------------------

  // `h` is `d` links away from the anchor and no closer.
  ghost predicate AtDistance(view: View, a: Hash, h: Hash, d: nat) {
    Walk(view, a, d, h) && forall e: nat :: e < d ==> !Walk(view, a, e, h)
  }

  // `all` is what has been listed (its first `k` entries) and what is queued,
  // `ds` how far each is from the anchor.
  ghost predicate Depths(view: View, a: Hash, all: seq<Hash>, ds: seq<nat>) {
    && |ds| == |all| > 0 && all[0] == a
    && (forall j :: 0 <= j < |all| ==> AtDistance(view, a, all[j], ds[j]))
    && (forall i, j :: 0 <= i < j < |ds| ==> ds[i] <= ds[j])
  }

  ghost predicate Listed(view: View, all: seq<Hash>, k: nat) {
    k <= |all| && forall j :: 0 <= j < k ==> Members(ParentsOf(view, all[j])) <= Members(all)
  }

  ghost predicate Frontier(ds: seq<nat>, k: nat) {
    k < |ds| ==> ds[|ds| - 1] <= ds[k] + 1
  }

  // Everything as near as the next entry is already listed or queued.
  lemma {:induction false} NearIsKnown(view: View, a: Hash, all: seq<Hash>, ds: seq<nat>, k: nat, e: nat, h: Hash)
    requires Depths(view, a, all, ds) && Listed(view, all, k) && k < |all|
    requires e <= ds[k] && Walk(view, a, e, h)
    ensures h in Members(all)
  {
    if e > 0 {
      var g :| Walk(view, a, e - 1, g) && h in ParentsOf(view, g);
      NearIsKnown(view, a, all, ds, k, e - 1, g);
      ParentIsKnown(view, a, all, ds, k, e - 1, g, h);
    }
  }

  // The parents of anything nearer than the next entry are known.
  lemma ParentIsKnown(view: View, a: Hash, all: seq<Hash>, ds: seq<nat>, k: nat, e: nat, g: Hash, h: Hash)
    requires Depths(view, a, all, ds) && Listed(view, all, k) && k < |all|
    requires e < ds[k] && Walk(view, a, e, g) && g in Members(all) && h in ParentsOf(view, g)
    ensures h in Members(all)
  {
    hide Walk;
    var j :| 0 <= j < |all| && all[j] == g;
    assert AtDistance(view, a, all[j], ds[j]);
    assert ds[j] <= e;
    assert j < k;
    assert h in Members(ParentsOf(view, all[j]));
  }

  lemma PushedDistance(view: View, a: Hash, all: seq<Hash>, ds: seq<nat>, k: nat, h: Hash)
    requires Depths(view, a, all, ds) && Listed(view, all, k) && k < |all|
    requires h in ParentsOf(view, all[k]) && h !in Members(all)
    ensures AtDistance(view, a, h, ds[k] + 1)
  {
    assert AtDistance(view, a, all[k], ds[k]);
    assert Walk(view, a, ds[k] + 1, h);
    forall e: nat | e < ds[k] + 1 ensures !Walk(view, a, e, h) {
      if Walk(view, a, e, h) {
        NearIsKnown(view, a, all, ds, k, e, h);
      }
    }
  }

  lemma PushKeepsDepths(view: View, a: Hash, all: seq<Hash>, ds: seq<nat>, k: nat, push: seq<Hash>)
    requires Depths(view, a, all, ds) && Listed(view, all, k) && Frontier(ds, k) && k < |all|
    requires Members(push) == Members(ParentsOf(view, all[k])) - Members(all)
    ensures var next := ds + seq(|push|, _ => ds[k] + 1);
            Depths(view, a, all + push, next) && Frontier(next, k + 1)
  {
    hide Walk, AtDistance;
    var next, more := ds + seq(|push|, _ => ds[k] + 1), all + push;
    forall j | 0 <= j < |more| ensures AtDistance(view, a, more[j], next[j]) {
      if j >= |all| {
        assert more[j] == push[j - |all|] && push[j - |all|] in Members(push);
        PushedDistance(view, a, all, ds, k, more[j]);
      }
    }
  }

  lemma PushKeepsListed(view: View, all: seq<Hash>, k: nat, push: seq<Hash>)
    requires Listed(view, all, k) && k < |all| && Distinct(all) && Distinct(push)
    requires Members(push) == Members(ParentsOf(view, all[k])) - Members(all)
    ensures Listed(view, all + push, k + 1) && Distinct(all + push)
    ensures Members(all + push) == Members(all) + Members(push)
  {
    var more := all + push;
    assert Members(more) == Members(all) + Members(push);
    forall i, j | 0 <= i < j < |more| ensures more[i] != more[j] {
      if i < |all| <= j {
        assert more[i] in Members(all);
        assert more[j] in Members(push);
      }
    }
  }

  // ---------------------------------------------------------------------
  // closure_of_anchor
  // ---------------------------------------------------------------------

  // Each hash is its distance from the anchor away, near ones first.
  ghost predicate NearFirst(view: View, a: Hash, order: seq<Hash>) {
    exists ds :: Depths(view, a, order, ds)
  }

  lemma ListedAll(view: View, a: Hash, order: seq<Hash>, h: Hash)
    requires a in Members(order) && Listed(view, order, |order|) && Reaches(view, a, h)
    ensures h in Members(order)
  {
    var d: nat :| Walk(view, a, d, h);
    assert Closed(view, Members(order)) by {
      forall g, p | g in Members(order) && p in ParentsOf(view, g) ensures p in Members(order) {
        var j :| 0 <= j < |order| && order[j] == g;
        assert p in Members(ParentsOf(view, order[j]));
      }
    }
    ClosedContains(view, Members(order), a, d, h);
  }

  lemma DepthsReached(view: View, a: Hash, order: seq<Hash>, ds: seq<nat>, h: Hash)
    requires Depths(view, a, order, ds) && h in Members(order)
    ensures Reaches(view, a, h)
  {
    var j :| 0 <= j < |order| && order[j] == h;
    assert AtDistance(view, a, order[j], ds[j]);
  }

  // ---------------------------------------------------------------------
  // Breadth first, parents in ascending order
  // ---------------------------------------------------------------------

  // Entry u is the first listed one that names h as a parent.
  ghost predicate Via(view: View, all: seq<Hash>, u: nat, h: Hash) {
    u < |all| && h in ParentsOf(view, all[u]) && forall i :: 0 <= i < u ==> h !in ParentsOf(view, all[i])
  }

  // Everything but the anchor stands behind the entry it is first reached through.
  ghost predicate Discovered(view: View, order: seq<Hash>) {
    forall i :: 0 < i < |order| ==> FoundEarlier(view, order, i)
  }

  ghost predicate FoundEarlier(view: View, order: seq<Hash>, i: nat)
    requires i < |order|
  {
    exists u: nat :: u < i && Via(view, order, u, order[i])
  }

  // What is first reached through an earlier entry comes first; what is first reached
  // through the same entry comes in ascending order of the hash bytes.
  ghost predicate Ascends(view: View, key: SortKey, order: seq<Hash>) {
    forall i, j, u, v :: 0 < i < j < |order| && Via(view, order, u, order[i]) && Via(view, order, v, order[j]) ==>
      u < v || (u == v && key(order[i]) < key(order[j]))
  }

  ghost predicate BreadthFirst(view: View, key: SortKey, anchor: Hash, order: seq<Hash>) {
    && order != [] && order[0] == anchor && Distinct(order) && (forall h :: h in order <==> Reaches(view, anchor, h))
    && Discovered(view, order) && Ascends(view, key, order)
  }

  lemma ViaOnce(view: View, all: seq<Hash>, u: nat, v: nat, h: Hash)
    requires Via(view, all, u, h) && Via(view, all, v, h)
    ensures u == v
  {
  }

  lemma ViaPrefix(view: View, all: seq<Hash>, more: seq<Hash>, u: nat, h: Hash)
    requires u < |all| && u < |more| && all[..u + 1] == more[..u + 1]
    ensures Via(view, all, u, h) <==> Via(view, more, u, h)
  {
    forall i | 0 <= i <= u ensures all[i] == more[i] { assert all[..u + 1][i] == more[..u + 1][i]; }
  }

  // Where each entry was found: the first k entries have been listed.
  ghost predicate Found(view: View, key: SortKey, all: seq<Hash>, k: nat, us: seq<nat>) {
    && |us| == |all| && k <= |all|
    && (forall i :: 0 < i < |all| ==> us[i] < i && us[i] < k && Via(view, all, us[i], all[i]))
    && (forall i, j :: 0 < i < j < |all| ==> us[i] < us[j] || (us[i] == us[j] && key(all[i]) < key(all[j])))
  }

  lemma FoundNext(view: View, key: SortKey, all: seq<Hash>, k: nat, us: seq<nat>, push: seq<Hash>)
    requires Found(view, key, all, k, us) && Listed(view, all, k) && k < |all|
    requires Members(push) == Members(ParentsOf(view, all[k])) - Members(all) && StrictlyBy(key, push)
    ensures Found(view, key, all + push, k + 1, us + seq(|push|, _ => k))
  {
    hide Via, Listed;
    var more, next := all + push, us + seq(|push|, _ => k);
    forall i | 0 < i < |more| ensures next[i] < i && next[i] < k + 1 && Via(view, more, next[i], more[i]) {
      if i < |all| {
        assert more[..us[i] + 1] == all[..us[i] + 1];
        ViaPrefix(view, all, more, us[i], all[i]);
      } else {
        PushedVia(view, all, k, push, i - |all|);
      }
    }
    forall i, j | 0 < i < j < |more| ensures next[i] < next[j] || (next[i] == next[j] && key(more[i]) < key(more[j])) {
      FoundLater(view, key, all, k, us, push, i, j);
    }
  }

  lemma FoundLater(view: View, key: SortKey, all: seq<Hash>, k: nat, us: seq<nat>, push: seq<Hash>, i: nat, j: nat)
    requires Found(view, key, all, k, us) && k < |all| && StrictlyBy(key, push) && 0 < i < j < |all + push|
    ensures var more, next := all + push, us + seq(|push|, _ => k);
            next[i] < next[j] || (next[i] == next[j] && key(more[i]) < key(more[j]))
  {
    hide Via;
    if i >= |all| { assert key(push[i - |all|]) < key(push[j - |all|]); }
  }

  lemma PushedVia(view: View, all: seq<Hash>, k: nat, push: seq<Hash>, j: nat)
    requires Listed(view, all, k) && k < |all| && j < |push|
    requires Members(push) == Members(ParentsOf(view, all[k])) - Members(all)
    ensures Via(view, all + push, k, push[j])
  {
    assert push[j] in Members(push);
    forall i | 0 <= i < k ensures push[j] !in ParentsOf(view, (all + push)[i]) {
      assert Members(ParentsOf(view, all[i])) <= Members(all);
    }
  }

  lemma {:induction false} FoundAll(view: View, key: SortKey, a: Hash, order: seq<Hash>, queue: seq<Hash>,
                                    visited: set<Hash>, ds: seq<nat>, us: seq<nat>)
    returns (vs: seq<nat>)
    requires Injective(key) && Sweep(view, a, order, queue, visited, ds)
    requires Found(view, key, order + queue, |order|, us)
    ensures var all := order + Traverse(view, key, queue, visited); Found(view, key, all, |all|, vs)
    decreases |AllParents(view) - visited|, |queue|
  {
    hide Sweep, NewParents, AllParents, Injective, Found, Listed, Traverse;
    if queue == [] {
      TraverseEnds(view, key, visited);
      assert order + [] == order;
      vs := us;
    } else {
      var push := NewParents(key, ParentsOf(view, queue[0]), visited);
      TraverseNext(view, key, queue, visited);
      var next := SweepStep(view, key, a, order, queue, visited, ds);
      var later := FoundStep(view, key, a, order, queue, visited, ds, us);
      PushShrinks(view, key, queue[0], visited);
      vs := FoundAll(view, key, a, order + [queue[0]], queue[1..] + push, visited + Members(push), next, later);
      var rest := Traverse(view, key, queue[1..] + push, visited + Members(push));
      assert order + ([queue[0]] + rest) == (order + [queue[0]]) + rest;
    }
  }

  lemma TraverseEnds(view: View, key: SortKey, visited: set<Hash>)
    requires Injective(key)
    ensures Traverse(view, key, [], visited) == []
  {
  }

  lemma TraverseNext(view: View, key: SortKey, queue: seq<Hash>, visited: set<Hash>)
    requires Injective(key) && queue != []
    ensures var push := NewParents(key, ParentsOf(view, queue[0]), visited);
            Traverse(view, key, queue, visited)
            == [queue[0]] + Traverse(view, key, queue[1..] + push, visited + Members(push))
  {
  }

  lemma FoundStep(view: View, key: SortKey, a: Hash, order: seq<Hash>, queue: seq<Hash>, visited: set<Hash>,
                  ds: seq<nat>, us: seq<nat>)
    returns (later: seq<nat>)
    requires Injective(key) && queue != [] && Sweep(view, a, order, queue, visited, ds)
    requires Found(view, key, order + queue, |order|, us)
    ensures var push := NewParents(key, ParentsOf(view, queue[0]), visited);
            Found(view, key, (order + [queue[0]]) + (queue[1..] + push), |order| + 1, later)
  {
    hide Sweep, NewParents, Found, Listed;
    var all, push := order + queue, NewParents(key, ParentsOf(view, queue[0]), visited);
    NewParentsSpec(key, ParentsOf(view, queue[0]), visited);
    SweepLists(view, a, order, queue, visited, ds);
    assert all[|order|] == queue[0];
    FoundNext(view, key, all, |order|, us, push);
    assert (order + [queue[0]]) + (queue[1..] + push) == all + push;
    later := us + seq(|push|, _ => |order|);
  }

  lemma SweepLists(view: View, a: Hash, order: seq<Hash>, queue: seq<Hash>, visited: set<Hash>, ds: seq<nat>)
    requires Sweep(view, a, order, queue, visited, ds)
    ensures Listed(view, order + queue, |order|) && visited == Members(order + queue)
  {
  }

  lemma FoundIsBreadthFirst(view: View, key: SortKey, order: seq<Hash>, us: seq<nat>)
    requires Found(view, key, order, |order|, us)
    ensures Discovered(view, order) && Ascends(view, key, order)
  {
    forall i: nat | 0 < i < |order| ensures FoundEarlier(view, order, i) {
      assert us[i] < i && Via(view, order, us[i], order[i]);
    }
    forall i, j, u, v | 0 < i < j < |order| && Via(view, order, u, order[i]) && Via(view, order, v, order[j])
      ensures u < v || (u == v && key(order[i]) < key(order[j]))
    {
      ViaOnce(view, order, u, us[i], order[i]);
      ViaOnce(view, order, v, us[j], order[j]);
    }
  }

  /** The listing is breadth first: what is reached through an earlier entry comes before
      what is reached through a later one, and the parents that one entry adds come in
      ascending order. */
  lemma OrderIsBreadthFirst(view: View, key: SortKey, a: Hash)
    requires Injective(key)
    ensures BreadthFirst(view, key, a, Order(view, key, a))
  {
    hide Traverse, Reaches, Injective, Sweep, Found, Discovered, Ascends;
    OrderSpec(view, key, a);
    SweepStart(view, a);
    FoundStart(view, key, a);
    var us := FoundAll(view, key, a, [], [a], {a}, [0], [0]);
    var order := Order(view, key, a);
    assert [] + Traverse(view, key, [a], {a}) == order;
    FoundIsBreadthFirst(view, key, order, us);
  }

  lemma FoundStart(view: View, key: SortKey, a: Hash)
    ensures Found(view, key, [] + [a], 0, [0])
  {
  }

  // Two such listings that agree on a prefix agree on the next entry.
  lemma SameNext(view: View, key: SortKey, a: Hash, x: seq<Hash>, y: seq<Hash>, k: nat)
    requires BreadthFirst(view, key, a, x) && BreadthFirst(view, key, a, y)
    requires 0 < k < |x| && k < |y| && x[..k] == y[..k]
    ensures x[k] == y[k]
  {
    hide BreadthFirst;
    if x[k] != y[k] {
      var u, v, j := OneBefore(view, key, a, x, y, k);
      var w, z, i := OneBefore(view, key, a, y, x, k);
      ViaOnce(view, x, u, z, x[k]);
      ViaOnce(view, x, v, w, y[k]);
    }
  }

  // The next entry of x comes before that of y in x.
  lemma OneBefore(view: View, key: SortKey, a: Hash, x: seq<Hash>, y: seq<Hash>, k: nat)
    returns (u: nat, v: nat, j: nat)
    requires BreadthFirst(view, key, a, x) && BreadthFirst(view, key, a, y)
    requires 0 < k < |x| && k < |y| && x[..k] == y[..k] && x[k] != y[k]
    ensures u < k && v < k && Via(view, x, u, x[k]) && Via(view, x, v, y[k])
    ensures Via(view, y, u, x[k]) && Via(view, y, v, y[k])
    ensures u < v || (u == v && key(x[k]) < key(y[k]))
  {
    hide Reaches, Via;
    j := Later(x, y, k);
    assert FoundEarlier(view, x, k) && FoundEarlier(view, y, k);
    u :| u < k && Via(view, x, u, x[k]);
    v :| v < k && Via(view, y, v, y[k]);
    assert x[..u + 1] == x[..k][..u + 1] && y[..u + 1] == y[..k][..u + 1];
    assert x[..v + 1] == x[..k][..v + 1] && y[..v + 1] == y[..k][..v + 1];
    ViaPrefix(view, x, y, u, x[k]);
    ViaPrefix(view, y, x, v, y[k]);
    assert 0 < k < j < |x| && Via(view, x, u, x[k]) && Via(view, x, v, x[j]);
  }

  // The entry of the one comes later in the other.
  lemma Later(x: seq<Hash>, y: seq<Hash>, k: nat) returns (i: nat)
    requires k < |x| && k < |y| && x[..k] == y[..k] && x[k] != y[k] && Distinct(y) && y[k] in x
    ensures k < i < |x| && x[i] == y[k]
  {
    i :| 0 <= i < |x| && x[i] == y[k];
    assert forall j :: 0 <= j < k ==> x[j] == x[..k][j] && y[j] == y[..k][j];
  }

  lemma {:induction false} SamePrefix(view: View, key: SortKey, a: Hash, x: seq<Hash>, y: seq<Hash>, k: nat)
    requires BreadthFirst(view, key, a, x) && BreadthFirst(view, key, a, y) && k <= |x| && k <= |y|
    ensures x[..k] == y[..k]
  {
    hide BreadthFirst;
    if k > 0 {
      SamePrefix(view, key, a, x, y, k - 1);
      if k > 1 { SameNext(view, key, a, x, y, k - 1); } else { SameFirst(view, key, a, x, y); }
      assert x[..k] == x[..k - 1] + [x[k - 1]] && y[..k] == y[..k - 1] + [y[k - 1]];
    }
  }

  lemma SameFirst(view: View, key: SortKey, a: Hash, x: seq<Hash>, y: seq<Hash>)
    requires BreadthFirst(view, key, a, x) && BreadthFirst(view, key, a, y)
    ensures x != [] && y != [] && x[0] == y[0] && |x| == |y|
  {
    hide Reaches, Discovered, Ascends;
    DistinctSize(x);
    DistinctSize(y);
    assert Members(x) == Members(y);
  }

  /** That determines the listing. */
  lemma BreadthFirstUnique(view: View, key: SortKey, a: Hash, x: seq<Hash>, y: seq<Hash>)
    requires BreadthFirst(view, key, a, x) && BreadthFirst(view, key, a, y)
    ensures x == y
  {
    hide BreadthFirst;
    SameFirst(view, key, a, x, y);
    SamePrefix(view, key, a, x, y, |x|);
    assert x[..|x|] == x && y[..|y|] == y;
  }

  method SortParents(key: SortKey, parents: seq<Hash>) returns (r: seq<Hash>)
    ensures r == SortBy(key, parents)
  {
    r := [];
    var i := |parents|;
    while i > 0
      invariant 0 <= i <= |parents| && r == SortBy(key, parents[i..])
    {
      i := i - 1;
      assert parents[i..][1..] == parents[i + 1..];
      r := Insert(key, parents[i], r);
    }
    assert parents[0..] == parents;
  }

  method PushUnvisited(sorted: seq<Hash>, visited: set<Hash>, queue: seq<Hash>)
    returns (visited': set<Hash>, queue': seq<Hash>)
    ensures queue' == queue + Unvisited(sorted, visited)
    ensures visited' == visited + Members(Unvisited(sorted, visited))
  {
    visited', queue' := visited, queue;
    for i := 0 to |sorted|
      invariant queue' + Unvisited(sorted[i..], visited') == queue + Unvisited(sorted, visited)
      invariant visited' + Members(Unvisited(sorted[i..], visited')) == visited + Members(Unvisited(sorted, visited))
    {
      var p := sorted[i];
      assert sorted[i..][0] == p && sorted[i..][1..] == sorted[i + 1..];
      if p !in visited' {
        MembersCons(p, Unvisited(sorted[i + 1..], visited' + {p}));
        assert (queue' + [p]) + Unvisited(sorted[i + 1..], visited' + {p})
               == queue' + Unvisited(sorted[i..], visited');
        visited', queue' := visited' + {p}, queue' + [p];
      }
    }
  }

  /** Terminates on every finite view; lists exactly the hashes reachable from the
      anchor, each once, the anchor first and never a nearer one after a farther, breadth
      first and in ascending order of the hashes that one entry adds. */
  method ClosureOfAnchor(view: View, key: SortKey, anchor: Hash) returns (order: seq<Hash>)
    requires Injective(key)
    ensures order == Order(view, key, anchor)
    ensures order != [] && order[0] == anchor && Distinct(order)
    ensures forall h :: h in order <==> Reaches(view, anchor, h)
    ensures NearFirst(view, anchor, order) && BreadthFirst(view, key, anchor, order)
  {
    hide Traverse, NewParents, SortBy, Unvisited, Reaches, NearFirst, AllParents, Injective, BreadthFirst;
    order := [];
    var queue, visited := [anchor], {anchor};
    while queue != []
      invariant order + Traverse(view, key, queue, visited) == Order(view, key, anchor)
      decreases |AllParents(view) - visited|, |queue|
    {
      var h := queue[0];
      var sorted := SortParents(key, ParentsOf(view, h));
      var visited', queue' := PushUnvisited(sorted, visited, queue[1..]);
      TraverseStep(view, key, queue, visited, visited', queue');
      PushShrinks(view, key, h, visited);
      order, queue, visited := order + [h], queue', visited';
    }
    TraverseDone(view, key, visited);
    OrderSpec(view, key, anchor);
    OrderIsBreadthFirst(view, key, anchor);
  }

  lemma OrderSpec(view: View, key: SortKey, a: Hash)
    requires Injective(key)
    ensures var order := Order(view, key, a);
            && order != [] && order[0] == a && Distinct(order) && NearFirst(view, a, order)
            && forall h :: h in order <==> Reaches(view, a, h)
  {
    hide Sweep, Traverse, Reaches, NearFirst, Injective;
    SweepStart(view, a);
    assert [] + Traverse(view, key, [a], {a}) == Order(view, key, a);
    SweepAll(view, key, a, [], [a], {a}, [0]);
  }

  lemma {:induction false} SweepAll(view: View, key: SortKey, a: Hash, order: seq<Hash>, queue: seq<Hash>,
                                    visited: set<Hash>, ds: seq<nat>)
    requires Injective(key) && Sweep(view, a, order, queue, visited, ds)
    ensures var all := order + Traverse(view, key, queue, visited);
            && all != [] && all[0] == a && Distinct(all) && NearFirst(view, a, all)
            && forall h :: h in all <==> Reaches(view, a, h)
    decreases |AllParents(view) - visited|, |queue|
  {
    hide Sweep, NewParents, Reaches, NearFirst, AllParents, Injective;
    if queue == [] {
      assert order + [] == order;
      Finished(view, a, order, visited, ds);
    } else {
      var push := NewParents(key, ParentsOf(view, queue[0]), visited);
      var next := SweepStep(view, key, a, order, queue, visited, ds);
      PushShrinks(view, key, queue[0], visited);
      SweepAll(view, key, a, order + [queue[0]], queue[1..] + push, visited + Members(push), next);
      var rest := Traverse(view, key, queue[1..] + push, visited + Members(push));
      assert order + ([queue[0]] + rest) == (order + [queue[0]]) + rest;
    }
  }

  // The state of the traversal: everything listed or queued is marked, once, with
  // its distance.
  ghost predicate Sweep(view: View, a: Hash, order: seq<Hash>, queue: seq<Hash>, visited: set<Hash>, ds: seq<nat>) {
    var all := order + queue;
    && Depths(view, a, all, ds) && Listed(view, all, |order|) && Frontier(ds, |order|)
    && Distinct(all) && visited == Members(all)
  }

  lemma SweepStart(view: View, a: Hash)
    ensures Sweep(view, a, [], [a], {a}, [0])
  {
    assert [] + [a] == [a];
    assert Walk(view, a, 0, a);
  }

  lemma SweepStep(view: View, key: SortKey, a: Hash, order: seq<Hash>, queue: seq<Hash>, visited: set<Hash>,
                  ds: seq<nat>)
    returns (next: seq<nat>)
    requires Injective(key) && queue != [] && Sweep(view, a, order, queue, visited, ds)
    ensures var push := NewParents(key, ParentsOf(view, queue[0]), visited);
            Sweep(view, a, order + [queue[0]], queue[1..] + push, visited + Members(push), next)
  {
    hide Depths, Listed, Frontier, NewParents;
    var all, push := order + queue, NewParents(key, ParentsOf(view, queue[0]), visited);
    assert |ds| == |all| by { DepthsSize(view, a, all, ds); }
    next := ds + seq(|push|, _ => ds[|order|] + 1);
    assert all[|order|] == queue[0];
    NewParentsSpec(key, ParentsOf(view, queue[0]), visited);
    PushKeepsDepths(view, a, all, ds, |order|, push);
    PushKeepsListed(view, all, |order|, push);
    assert (order + [queue[0]]) + (queue[1..] + push) == all + push;
  }

  lemma DepthsSize(view: View, a: Hash, all: seq<Hash>, ds: seq<nat>)
    requires Depths(view, a, all, ds)
    ensures |ds| == |all|
  {
  }

  lemma TraverseDone(view: View, key: SortKey, visited: set<Hash>)
    requires Injective(key)
    ensures Traverse(view, key, [], visited) == []
  {
  }

  lemma TraverseStep(view: View, key: SortKey, queue: seq<Hash>, visited: set<Hash>, visited': set<Hash>,
                     queue': seq<Hash>)
    requires Injective(key) && queue != []
    requires var push := Unvisited(SortBy(key, ParentsOf(view, queue[0])), visited);
             queue' == queue[1..] + push && visited' == visited + Members(push)
    ensures Traverse(view, key, queue, visited) == [queue[0]] + Traverse(view, key, queue', visited')
    ensures queue' == queue[1..] + NewParents(key, ParentsOf(view, queue[0]), visited)
    ensures visited' == visited + Members(NewParents(key, ParentsOf(view, queue[0]), visited))
  {
  }

  lemma Finished(view: View, a: Hash, order: seq<Hash>, visited: set<Hash>, ds: seq<nat>)
    requires Sweep(view, a, order, [], visited, ds)
    ensures order != [] && order[0] == a && Distinct(order) && NearFirst(view, a, order)
    ensures forall h :: h in order <==> Reaches(view, a, h)
  {
    hide Reaches;
    assert order + [] == order;
    assert order[0] == a;
    assert a in Members(order);
    forall h ensures h in order <==> Reaches(view, a, h) {
      if h in order { DepthsReached(view, a, order, ds, h); }
      if Reaches(view, a, h) { ListedAll(view, a, order, h); }
    }
  }

  // ---------------------------------------------------------------------
  // The same order on different views
  // ---------------------------------------------------------------------

  // The views know the same parents of everything the anchor reaches.
  ghost predicate AgreeOn(x: View, y: View, anchor: Hash) {
    forall h :: Reaches(x, anchor, h) ==> Members(ParentsOf(x, h)) == Members(ParentsOf(y, h))
  }

  ghost predicate AllReached(x: View, anchor: Hash, queue: seq<Hash>) {
    forall i :: 0 <= i < |queue| ==> Reaches(x, anchor, queue[i])
  }

  lemma PushReached(x: View, key: SortKey, anchor: Hash, queue: seq<Hash>, visited: set<Hash>)
    requires Injective(key) && AllReached(x, anchor, queue) && queue != []
    ensures AllReached(x, anchor, queue[1..] + NewParents(key, ParentsOf(x, queue[0]), visited))
  {
    hide Reaches, NewParents;
    var push := NewParents(key, ParentsOf(x, queue[0]), visited);
    NewParentsSpec(key, ParentsOf(x, queue[0]), visited);
    forall i | 0 <= i < |push| ensures Reaches(x, anchor, push[i]) {
      assert push[i] in Members(push);
      ReachesNext(x, anchor, queue[0], push[i]);
    }
  }

  lemma {:induction false} TraverseAgrees(x: View, y: View, key: SortKey, anchor: Hash, queue: seq<Hash>,
                                          visited: set<Hash>)
    requires Injective(key) && AgreeOn(x, y, anchor) && AllReached(x, anchor, queue)
    ensures Traverse(x, key, queue, visited) == Traverse(y, key, queue, visited)
    decreases |AllParents(x) - visited|, |queue|
  {
    hide Reaches, NewParents, AllParents;
    if queue != [] {
      var h := queue[0];
      var push := NewParents(key, ParentsOf(x, h), visited);
      assert Reaches(x, anchor, h);
      SameParentsSamePush(key, ParentsOf(x, h), ParentsOf(y, h), visited);
      PushShrinks(x, key, h, visited);
      PushReached(x, key, anchor, queue, visited);
      TraverseAgrees(x, y, key, anchor, queue[1..] + push, visited + Members(push));
    }
  }

  /** Views that agree on the anchor's closure give the same order, in whatever
      order they list the parents of a vertex. */
  lemma OrderAgrees(x: View, y: View, key: SortKey, anchor: Hash)
    requires Injective(key) && AgreeOn(x, y, anchor)
    ensures Order(x, key, anchor) == Order(y, key, anchor)
  {
    ReachesSelf(x, anchor);
    TraverseAgrees(x, y, key, anchor, [anchor], {anchor});
  }

  // Vertices are stored under their content hash.
  ghost predicate ContentAddressed(view: View) {
    forall h :: h in view.byHash ==> h == ContentHash(view.byHash[h])
  }

  ghost predicate HoldsClosure(view: View, anchor: Hash) {
    forall h :: Reaches(view, anchor, h) ==> h in view.byHash
  }

  lemma {:induction false} SameWalks(x: View, y: View, anchor: Hash, d: nat, h: Hash)
    requires ContentAddressed(x) && ContentAddressed(y) && HoldsClosure(x, anchor) && HoldsClosure(y, anchor)
    requires Walk(x, anchor, d, h)
    ensures Walk(y, anchor, d, h)
  {
    if d > 0 {
      var g :| Walk(x, anchor, d - 1, g) && h in ParentsOf(x, g);
      SameWalks(x, y, anchor, d - 1, g);
      assert Reaches(x, anchor, g) && Reaches(y, anchor, g);
      assert ParentsOf(x, g) == ParentsOf(y, g);
    }
  }

  /** Content addressing makes the agreement automatic: any two complete views
      linearize an anchor the same way. */
  lemma CompleteViewsAgree(x: View, y: View, key: SortKey, anchor: Hash)
    requires Injective(key) && ContentAddressed(x) && ContentAddressed(y)
    requires HoldsClosure(x, anchor) && HoldsClosure(y, anchor)
    ensures Order(x, key, anchor) == Order(y, key, anchor)
  {
    forall h | Reaches(x, anchor, h) ensures Members(ParentsOf(x, h)) == Members(ParentsOf(y, h)) {
      var d: nat :| Walk(x, anchor, d, h);
      SameWalks(x, y, anchor, d, h);
      assert Reaches(y, anchor, h);
    }
    OrderAgrees(x, y, key, anchor);
  }
}
