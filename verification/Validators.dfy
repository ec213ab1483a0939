/** Validator identities, the fixed validator set and its quorum arithmetic. */
module Validators {

  datatype Option<+T> = None | Some(value: T)

  // A validator id is its 32 bytes read as one big-endian number, so `<` on
  // ids is the byte order that the ordered maps of the source iterate in.
  type Id = nat

  // The entries of the validator set, in set order. Public keys are
  // identified with the ids they belong to.
  type ValidatorSet = seq<Id>

  predicate Distinct<T(==)>(s: seq<T>) {
    forall i, j :: 0 <= i < j < |s| ==> s[i] != s[j]
  }

  function Members<T>(s: seq<T>): set<T> {
    set x | x in s
  }

  lemma {:induction false} DistinctSize<T>(s: seq<T>)
    requires Distinct(s)
    ensures |Members(s)| == |s|
  {
    if s != [] {
      var front, last := s[..|s| - 1], s[|s| - 1];
      DistinctSize(front);
      assert last !in front;
      assert Members(s) == Members(front) + {last};
    }
  }

  lemma SubsetSize<T>(a: set<T>, b: set<T>)
    requires a <= b
    ensures |a| <= |b|
    ensures |a| == |b| ==> a == b
  {
    assert b == a + (b - a);
  }

  lemma {:induction false} IntervalSize(low: nat, n: nat, s: set<nat>)
    requires forall x :: x in s <==> low <= x < low + n
    ensures |s| == n
  {
    if n > 0 {
      IntervalSize(low, n - 1, s - {low + n - 1});
    } else {
      assert s == {};
    }
  }

  lemma {:induction false} HoldsInterval(low: nat, n: nat, s: set<nat>)
    requires forall x :: low <= x < low + n ==> x in s
    ensures |s| >= n
  {
    if n > 0 { HoldsInterval(low, n - 1, s - {low + n - 1}); }
  }

  function MaxFaulty(n: nat): nat {
    if n == 0 then 0 else (n - 1) / 3
  }

  function QuorumThreshold(n: nat): nat {
    2 * MaxFaulty(n) + 1
  }

  // Position of `id` in the validator set.
  function IndexOf(set_: ValidatorSet, id: Id): (r: Option<nat>)
    ensures r.Some? <==> id in set_
    ensures r.Some? ==> r.value < |set_| && set_[r.value] == id
  {
    if set_ == [] then None
    else if set_[0] == id then Some(0)
    else match IndexOf(set_[1..], id)
      case None => None
      case Some(i) => Some(i + 1)
  }

  lemma Overlap(all: set<Id>, a: set<Id>, b: set<Id>) returns (i: Id)
    requires a <= all && b <= all && |a| + |b| > |all|
    ensures i in a && i in b
  {
    SubsetSize(a + b, all);
    assert |a + b| + |a * b| == |a| + |b|;
    i :| i in a * b;
  }

  /** Two quorums of a set of 3f + 1 validators share a validator outside any
      group of at most f: both thresholds are 2f + 1 because n = 3f + 1. */
  lemma QuorumsShareHonest(all: set<Id>, bad: set<Id>, a: set<Id>, b: set<Id>) returns (i: Id)
    requires |all| % 3 == 1 && |bad| <= MaxFaulty(|all|)
    requires a <= all && b <= all
    requires |a| >= QuorumThreshold(|all|) && |b| >= QuorumThreshold(|all|)
    ensures i in a && i in b && i !in bad
  {
    SubsetSize(a + b, all);
    assert |a + b| + |a * b| == |a| + |b|;
    if a * b <= bad {
      SubsetSize(a * b, bad);
      assert false;
    }
    i :| i in a * b && i !in bad;
  }

  /** A quorum has a member outside any group of at most f. */
  lemma QuorumHasHonest(n: nat, bad: set<Id>, a: set<Id>) returns (i: Id)
    requires |bad| <= MaxFaulty(n) && |a| >= QuorumThreshold(n)
    ensures i in a && i !in bad
  {
    if a <= bad {
      SubsetSize(a, bad);
      assert false;
    }
    i :| i in a && i !in bad;
  }

  // ---------------------------------------------------------------------
  // Ascending order of a finite set of numbers (ordered-map key order).
  // ---------------------------------------------------------------------

  lemma {:induction false} MinimumBelow(s: set<nat>, x: nat)
    requires x in s
    ensures exists m :: m in s && forall y :: y in s ==> m <= y
    decreases x
  {
    if y :| y in s && y < x {
      MinimumBelow(s, y);
    }
  }

  function Minimum(s: set<nat>): (m: nat)
    requires s != {}
    ensures m in s && forall x :: x in s ==> m <= x
  {
    var any :| any in s;
    MinimumBelow(s, any);
    var m :| m in s && forall x :: x in s ==> m <= x;
    m
  }

  lemma MaximumExists(s: set<nat>)
    requires s != {}
    ensures exists m :: m in s && forall x :: x in s ==> x <= m
  {
    var m :| m in s;
    if s != {m} {
      var rest := s - {m};
      MaximumExists(rest);
      var r :| r in rest && forall x :: x in rest ==> x <= r;
      var greatest := if m < r then r else m;
      forall x | x in s ensures x <= greatest {
        assert x == m || x in rest;
      }
      assert greatest in s;
    }
  }

  function Maximum(s: set<nat>): (m: nat)
    requires s != {}
    ensures m in s && forall x :: x in s ==> x <= m
  {
    MaximumExists(s);
    var m :| m in s && forall x :: x in s ==> x <= m;
    m
  }

  predicate Ascending(s: seq<nat>) {
    forall i, j :: 0 <= i < j < |s| ==> s[i] < s[j]
  }

  lemma AscendingExtend(a: seq<nat>, x: nat, b: seq<nat>)
    requires Ascending(a) && forall i :: 0 <= i < |a| ==> x < a[i]
    requires Ascending(b) && forall i :: 0 <= i < |b| ==> b[i] < x
    ensures Ascending([x] + a) && Ascending(b + [x])
  {
  }

  // The elements of `s` in ascending order.
  function Sorted(s: set<nat>): seq<nat> {
    if s == {} then [] else var m := Minimum(s); [m] + Sorted(s - {m})
  }

  lemma {:induction false} SortedSpec(s: set<nat>)
    ensures Ascending(Sorted(s)) && |Sorted(s)| == |s|
    ensures forall x :: x in Sorted(s) <==> x in s
  {
    if s != {} {
      var m := Minimum(s);
      var rest := Sorted(s - {m});
      SortedSpec(s - {m});
      assert forall i :: 0 <= i < |rest| ==> rest[i] in rest;
      AscendingExtend(rest, m, []);
    }
  }

  lemma AscendingDistinct(s: seq<nat>)
    requires Ascending(s)
    ensures Distinct(s)
  {
  }

  lemma NotEmpty(a: seq<nat>, b: seq<nat>)
    requires a != [] && forall x :: x in a ==> x in b
    ensures b != []
  {
    assert a[0] in b;
  }

  /** There is one ascending listing of a set. */
  lemma {:induction false} AscendingUnique(a: seq<nat>, b: seq<nat>)
    requires Ascending(a) && Ascending(b) && forall x :: x in a <==> x in b
    ensures a == b
  {
    if b != [] { NotEmpty(b, a); }
    if a != [] {
      NotEmpty(a, b);
      assert a[0] in b && b[0] in a;
      assert a[0] == b[0];
      forall x ensures x in a[1..] <==> x in b[1..] {
        if x in a[1..] { assert x in b && x != a[0]; }
        if x in b[1..] { assert x in a && x != b[0]; }
      }
      AscendingUnique(a[1..], b[1..]);
      assert a == [a[0]] + a[1..] && b == [b[0]] + b[1..];
    }
  }
}
