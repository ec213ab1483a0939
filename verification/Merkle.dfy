/** Commitments to erasure shards (erasure::commit): a binary hash tree whose odd last
    node is paired with itself. */
module Merkle {

  // A hash is the constructor of what was hashed under its domain tag, so
  // hashing is injective and the three tags never collide.
  datatype Digest<T> = Leaf(shard: seq<T>) | Node(left: Digest<T>, right: Digest<T>) | Committed(root: Digest<T>)

  // One layer up.
  function Pairs<T>(layer: seq<Digest<T>>): (r: seq<Digest<T>>)
    ensures |r| == (|layer| + 1) / 2
  {
    if layer == [] then []
    else if |layer| == 1 then [Node(layer[0], layer[0])]
    else [Node(layer[0], layer[1])] + Pairs(layer[2..])
  }

  function RootOf<T>(layer: seq<Digest<T>>): Digest<T>
    requires layer != []
    decreases |layer|
  {
    if |layer| == 1 then layer[0] else RootOf(Pairs(layer))
  }

  function Leaves<T>(shards: seq<seq<T>>): (r: seq<Digest<T>>)
    ensures |r| == |shards|
  {
    seq(|shards|, i requires 0 <= i < |shards| => Leaf(shards[i]))
  }

  function Commitment<T>(shards: seq<seq<T>>): Digest<T>
    requires shards != []
  {
    Committed(RootOf(Leaves(shards)))
  }

  method NextLayer<T>(layer: seq<Digest<T>>) returns (next: seq<Digest<T>>)
    ensures next == Pairs(layer)
  {
    next := [];
    var i := 0;
    while i < |layer|
      invariant 0 <= i <= |layer|
      invariant next + Pairs(layer[i..]) == Pairs(layer)
    {
      if i + 1 < |layer| {
        assert layer[i..][2..] == layer[i + 2..];
        next := next + [Node(layer[i], layer[i + 1])];
        i := i + 2;
      } else {
        assert layer[i..] == [layer[i]];
        next := next + [Node(layer[i], layer[i])];
        i := i + 1;
      }
    }
  }

  method BinaryMerkleRoot<T>(leaves: seq<Digest<T>>) returns (root: Digest<T>)
    requires leaves != []
    ensures root == RootOf(leaves)
  {
    var layer := leaves;
    while |layer| > 1
      invariant layer != [] && RootOf(layer) == RootOf(leaves)
      decreases |layer|
    {
      layer := NextLayer(layer);
    }
    return layer[0];
  }

  method RsMerkleCommitment<T>(shards: seq<seq<T>>) returns (r: Digest<T>)
    requires shards != []
    ensures r == Commitment(shards)
  {
    var root := BinaryMerkleRoot(Leaves(shards));
    return Committed(root);
  }

  // ---------------------------------------------------------------------
  // Where a leaf is
  // ---------------------------------------------------------------------

  // Layers above one of this size.
  function Depth(n: nat): nat {
    if n <= 1 then 0 else Depth((n + 1) / 2) + 1
  }

  // The node at a position of a level below the root, counted from the left.
  function NodeAt<T>(root: Digest<T>, level: nat, i: nat): Digest<T> {
    if level == 0 then root
    else match NodeAt(root, level - 1, i / 2)
      case Node(left, right) => if i % 2 == 0 then left else right
      case other => other
  }

  lemma {:induction false} PairsAt<T>(layer: seq<Digest<T>>, j: nat)
    requires 2 * j < |layer|
    ensures Pairs(layer)[j] == Node(layer[2 * j], layer[if 2 * j + 1 < |layer| then 2 * j + 1 else 2 * j])
    decreases |layer|
  {
    if j > 0 { PairsAt(layer[2..], j - 1); }
  }

  /** Following the bits of a leaf's index from the root leads to that leaf: shards are
      committed to in their order. */
  lemma {:induction false} PathToLeaf<T>(layer: seq<Digest<T>>, i: nat)
    requires i < |layer|
    ensures NodeAt(RootOf(layer), Depth(|layer|), i) == layer[i]
    decreases |layer|
  {
    if |layer| > 1 {
      PathToLeaf(Pairs(layer), i / 2);
      PairsAt(layer, i / 2);
    }
  }

  lemma CommittedAt<T>(shards: seq<seq<T>>, i: nat)
    requires i < |shards|
    ensures Commitment(shards).Committed?
    ensures NodeAt(Commitment(shards).root, Depth(|shards|), i) == Leaf(shards[i])
  {
    PathToLeaf(Leaves(shards), i);
  }

  lemma {:induction false} PairsInjective<T>(a: seq<Digest<T>>, b: seq<Digest<T>>)
    requires |a| == |b| && Pairs(a) == Pairs(b)
    ensures a == b
    decreases |a|
  {
    if |a| == 1 {
      assert Pairs(a)[0] == Pairs(b)[0];
    } else if |a| > 1 {
      assert Pairs(a)[0] == Pairs(b)[0];
      assert Pairs(a)[1..] == Pairs(a[2..]) && Pairs(b)[1..] == Pairs(b[2..]);
      PairsInjective(a[2..], b[2..]);
      assert a == [a[0], a[1]] + a[2..] && b == [b[0], b[1]] + b[2..];
    }
  }

  /** The root determines the leaves, given how many there are. */
  lemma {:induction false} RootInjective<T>(a: seq<Digest<T>>, b: seq<Digest<T>>)
    requires |a| == |b| > 0 && RootOf(a) == RootOf(b)
    ensures a == b
    decreases |a|
  {
    if |a| > 1 {
      RootInjective(Pairs(a), Pairs(b));
      PairsInjective(a, b);
    }
  }

  /** A commitment determines the shards, given how many there are. */
  lemma CommitmentInjective<T>(a: seq<seq<T>>, b: seq<seq<T>>)
    requires |a| == |b| > 0 && Commitment(a) == Commitment(b)
    ensures a == b
  {
    RootInjective(Leaves(a), Leaves(b));
    forall i | 0 <= i < |a| ensures a[i] == b[i] {
      assert Leaves(a)[i] == Leaves(b)[i];
    }
  }

  /** It does not determine how many there are: repeating an odd last leaf leaves
      the root as it was. */
  lemma RepeatedLast<T>(a: seq<Digest<T>>)
    requires |a| % 2 == 1 && |a| > 1
    ensures RootOf(a + [a[|a| - 1]]) == RootOf(a)
  {
    PairsRepeat(a);
  }

  lemma {:induction false} PairsRepeat<T>(a: seq<Digest<T>>)
    requires |a| % 2 == 1
    ensures Pairs(a + [a[|a| - 1]]) == Pairs(a)
    decreases |a|
  {
    var b := a + [a[|a| - 1]];
    if |a| == 1 {
      assert b[2..] == [];
    } else {
      PairsRepeat(a[2..]);
      assert b[2..] == a[2..] + [a[|a| - 1]];
    }
  }

  // ---------------------------------------------------------------------
  // Exactly when roots agree
  // ---------------------------------------------------------------------

  // A list of m blocks: while there are several, an odd last one is repeated and then
  // every two become one.
  function Padded<X>(s: seq<X>, block: nat, m: nat): seq<X>
    requires m > 0 && |s| == m * block
    decreases m
  {
    if m == 1 then s
    else if m % 2 == 0 then Halves(m, block); Padded(s, 2 * block, m / 2)
    else Halves(m + 1, block); Padded(s + s[|s| - block..], 2 * block, (m + 1) / 2)
  }

  lemma Halves(m: nat, block: nat)
    requires m % 2 == 0
    ensures (m / 2) * (2 * block) == m * block && (m > 0 ==> m * block >= block && (m - 1) * block == m * block - block)
  {
    var k := m / 2;
    assert m == 2 * k;
    assert k * (2 * block) == (2 * k) * block;
  }

  function Power2(h: nat): nat { if h == 0 then 1 else 2 * Power2(h - 1) }

  // The leaves of a tree from left to right.
  function Frontier<T>(d: Digest<T>): seq<seq<T>> {
    match d
    case Leaf(shard) => [shard]
    case Node(left, right) => Frontier(left) + Frontier(right)
    case Committed(root) => []
  }

  predicate Perfect<T>(d: Digest<T>, h: nat) {
    if h == 0 then d.Leaf? else d.Node? && Perfect(d.left, h - 1) && Perfect(d.right, h - 1)
  }

  predicate AllPerfect<T>(layer: seq<Digest<T>>, h: nat) {
    forall i :: 0 <= i < |layer| ==> Perfect(layer[i], h)
  }

  function Flat<T>(layer: seq<Digest<T>>): seq<seq<T>> {
    if layer == [] then [] else Frontier(layer[0]) + Flat(layer[1..])
  }

  lemma {:induction false} PerfectSize<T>(d: Digest<T>, h: nat)
    requires Perfect(d, h)
    ensures |Frontier(d)| == Power2(h)
  {
    if h > 0 {
      PerfectSize(d.left, h - 1);
      PerfectSize(d.right, h - 1);
    }
  }

  lemma {:induction false} FlatSize<T>(layer: seq<Digest<T>>, h: nat)
    requires AllPerfect(layer, h)
    ensures |Flat(layer)| == |layer| * Power2(h)
  {
    if layer != [] {
      PerfectSize(layer[0], h);
      FlatSize(layer[1..], h);
      assert |layer| * Power2(h) == Power2(h) + (|layer| - 1) * Power2(h);
    }
  }

  lemma {:induction false} PairsPerfect<T>(layer: seq<Digest<T>>, h: nat)
    requires AllPerfect(layer, h)
    ensures AllPerfect(Pairs(layer), h + 1)
    decreases |layer|
  {
    if |layer| >= 2 {
      PairsPerfect(layer[2..], h);
      assert Pairs(layer) == [Node(layer[0], layer[1])] + Pairs(layer[2..]);
    }
  }

  // The leaves that pairing repeats: those of an odd last node.
  function Repeated<T>(layer: seq<Digest<T>>): seq<seq<T>> {
    if |layer| % 2 == 1 then Frontier(layer[|layer| - 1]) else []
  }

  // One layer up, the leaves are the same but for those.
  lemma {:induction false} PairsFlat<T>(layer: seq<Digest<T>>)
    requires layer != []
    ensures Flat(Pairs(layer)) == Flat(layer) + Repeated(layer)
    decreases |layer|
  {
    if |layer| == 1 {
      FlatOne(layer[0]);
      FlatOne(Node(layer[0], layer[0]));
      assert layer == [layer[0]];
    } else if |layer| == 2 {
      FlatTwo(layer);
      FlatOne(Node(layer[0], layer[1]));
      assert layer[2..] == [];
      assert Pairs(layer) == [Node(layer[0], layer[1])];
      PairFlat(layer[0], layer[1], [], []);
    } else {
      var rest := layer[2..];
      hide Frontier;
      FlatTwo(layer);
      PairsFlat(rest);
      assert Repeated(rest) == Repeated(layer);
      FlatFirst(Node(layer[0], layer[1]), Pairs(rest));
      PairFlat(layer[0], layer[1], Flat(rest), Repeated(layer));
    }
  }

  lemma FlatFirst<T>(d: Digest<T>, rest: seq<Digest<T>>)
    ensures Flat([d] + rest) == Frontier(d) + Flat(rest)
  {
    assert ([d] + rest)[1..] == rest;
  }

  lemma PairFlat<T>(a: Digest<T>, b: Digest<T>, x: seq<seq<T>>, y: seq<seq<T>>)
    ensures Frontier(Node(a, b)) + (x + y) == (Frontier(a) + Frontier(b) + x) + y
  {
  }

  lemma FlatOne<T>(d: Digest<T>)
    ensures Flat([d]) == Frontier(d)
  {
    assert [d][1..] == [];
  }

  lemma FlatTwo<T>(layer: seq<Digest<T>>)
    requires |layer| >= 2
    ensures Flat(layer) == Frontier(layer[0]) + Frontier(layer[1]) + Flat(layer[2..])
  {
    assert layer[1..][0] == layer[1] && layer[1..][1..] == layer[2..];
  }

  // The leaves of the last node are the last of all.
  lemma {:induction false} FlatEnds<T>(layer: seq<Digest<T>>)
    requires layer != []
    ensures var last := Frontier(layer[|layer| - 1]);
            |Flat(layer)| >= |last| && Flat(layer)[|Flat(layer)| - |last|..] == last
  {
    if |layer| == 1 {
      FlatOne(layer[0]);
      assert layer == [layer[0]];
    } else {
      FlatEnds(layer[1..]);
    }
  }

  // What padding does in one level.
  lemma PadLevel<T>(layer: seq<Digest<T>>, h: nat)
    requires |layer| > 1 && AllPerfect(layer, h)
    ensures |Flat(layer)| == |layer| * Power2(h) && |Flat(Pairs(layer))| == |Pairs(layer)| * Power2(h + 1)
    ensures Padded(Flat(layer), Power2(h), |layer|) == Padded(Flat(Pairs(layer)), Power2(h + 1), |Pairs(layer)|)
  {
    hide Flat, Pairs, AllPerfect, Frontier;
    FlatSize(layer, h);
    PairsPerfect(layer, h);
    FlatSize(Pairs(layer), h + 1);
    PairsFlat(layer);
    var s, m, block := Flat(layer), |layer|, Power2(h);
    if m % 2 == 0 {
      Halves(m, block);
      assert s + [] == s;
    } else {
      Halves(m + 1, block);
      LastBlock(layer, h);
    }
  }

  lemma LastBlock<T>(layer: seq<Digest<T>>, h: nat)
    requires layer != [] && AllPerfect(layer, h) && |Flat(layer)| == |layer| * Power2(h)
    ensures |Flat(layer)| >= Power2(h) && Flat(layer)[|Flat(layer)| - Power2(h)..] == Frontier(layer[|layer| - 1])
  {
    PerfectSize(layer[|layer| - 1], h);
    FlatEnds(layer);
  }

  lemma {:induction false} RootPadded<T>(layer: seq<Digest<T>>, h: nat) returns (top: nat)
    requires layer != [] && AllPerfect(layer, h)
    ensures Perfect(RootOf(layer), top) && |Flat(layer)| == |layer| * Power2(h)
    ensures Frontier(RootOf(layer)) == Padded(Flat(layer), Power2(h), |layer|)
    decreases |layer|
  {
    hide Pairs, Frontier, Power2, Flat;
    FlatSize(layer, h);
    if |layer| == 1 {
      top := h;
      FlatOne(layer[0]);
      assert layer == [layer[0]];
    } else {
      PairsPerfect(layer, h);
      PadLevel(layer, h);
      top := RootPadded(Pairs(layer), h + 1);
    }
  }

  lemma {:induction false} PerfectUnique<T>(x: Digest<T>, y: Digest<T>, h: nat)
    requires Perfect(x, h) && Perfect(y, h) && Frontier(x) == Frontier(y)
    ensures x == y
  {
    if h > 0 {
      PerfectSize(x.left, h - 1);
      PerfectSize(y.left, h - 1);
      var k := Power2(h - 1);
      assert Frontier(x)[..k] == Frontier(x.left) && Frontier(x)[k..] == Frontier(x.right);
      assert Frontier(y)[..k] == Frontier(y.left) && Frontier(y)[k..] == Frontier(y.right);
      PerfectUnique(x.left, y.left, h - 1);
      PerfectUnique(x.right, y.right, h - 1);
    }
  }

  lemma {:induction false} Power2Grows(g: nat, h: nat)
    requires g < h
    ensures 0 < Power2(g) < Power2(h)
  {
    if g == 0 {
      Power2Positive(h - 1);
    } else {
      Power2Grows(g - 1, h - 1);
    }
  }

  lemma {:induction false} Power2Positive(h: nat)
    ensures Power2(h) > 0
  {
    if h > 0 { Power2Positive(h - 1); }
  }

  lemma {:induction false} LeavesFlat<T>(shards: seq<seq<T>>)
    ensures Flat(Leaves(shards)) == shards && AllPerfect(Leaves(shards), 0)
  {
    if shards != [] {
      LeavesFlat(shards[1..]);
      assert Leaves(shards)[1..] == Leaves(shards[1..]);
    }
  }

  lemma RootFrontier<T>(shards: seq<seq<T>>) returns (top: nat)
    requires shards != []
    ensures Perfect(RootOf(Leaves(shards)), top) && Frontier(RootOf(Leaves(shards))) == Padded(shards, 1, |shards|)
  {
    LeavesFlat(shards);
    top := RootPadded(Leaves(shards), 0);
  }

  lemma SameFrontier<T>(x: Digest<T>, y: Digest<T>, g: nat, h: nat)
    requires Perfect(x, g) && Perfect(y, h) && Frontier(x) == Frontier(y)
    ensures x == y
  {
    PerfectSize(x, g);
    PerfectSize(y, h);
    if g < h { Power2Grows(g, h); }
    if h < g { Power2Grows(h, g); }
    PerfectUnique(x, y, g);
  }

  /** Two lists of shards have the same root exactly when padding them level by level gives
      the same list, and the same commitment under the same condition. */
  lemma RootsAgree<T>(a: seq<seq<T>>, b: seq<seq<T>>)
    requires a != [] && b != []
    ensures RootOf(Leaves(a)) == RootOf(Leaves(b)) <==> Padded(a, 1, |a|) == Padded(b, 1, |b|)
    ensures Commitment(a) == Commitment(b) <==> Padded(a, 1, |a|) == Padded(b, 1, |b|)
  {
    hide Padded, RootOf, Perfect, Frontier, Leaves;
    var g := RootFrontier(a);
    var h := RootFrontier(b);
    if Padded(a, 1, |a|) == Padded(b, 1, |b|) { SameFrontier(RootOf(Leaves(a)), RootOf(Leaves(b)), g, h); }
  }
}
