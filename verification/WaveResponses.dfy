/** What an attempt for one wave is bound to do: exactly when a micro certificate is
    broadcast, a timer cancelled or armed, and an error returned. */
module WaveResponses {
  import opened Validators
  import opened Certificates
  import opened Bitmaps
  import opened Dag
  import opened Commit
  import opened Linearize
  import opened Waves

  // ---------------------------------------------------------------------
  // When a wave is decided
  // ---------------------------------------------------------------------

  // A vertex reaches its own hash and whatever its parents do.
  ghost predicate ReachesFrom(view: View, v: Vertex, h: Hash) {
    v.hash == h || exists p :: p in v.parents && Reaches(view, p, h)
  }

  // The author has a vertex of rounds 4 * wave + 1 to 4 * wave + window that reaches it.
  ghost predicate Backs(view: View, wave: nat, window: nat, h: Hash, a: Id) {
    exists r: nat, v ::
      4 * wave < r <= 4 * wave + window && v in VerticesAt(view, r) && v.author == a && ReachesFrom(view, v, h)
  }

  ghost predicate AllBack(view: View, wave: nat, window: nat, h: Hash, who: set<Id>) {
    forall a :: a in who ==> Backs(view, wave, window, h, a)
  }

  ghost predicate QuorumBacks(view: View, n: nat, wave: nat, window: nat, h: Hash) {
    exists who :: |who| >= 2 * ((n - 1) / 3) + 1 && AllBack(view, wave, window, h, who)
  }

  // The first vertex of round 4 * wave by the wave's leader.
  predicate Leads(env: Env, view: View, wave: nat, i: nat) {
    var vs, leader := VerticesAt(view, 4 * wave), env.rule.leader(wave);
    i < |vs| && vs[i].author == leader && forall j :: 0 <= j < i ==> vs[j].author != leader
  }

  lemma {:induction false} FirstByIs(vs: seq<Vertex>, a: Id, i: nat)
    requires i < |vs| && vs[i].author == a && forall j :: 0 <= j < i ==> vs[j].author != a
    ensures FirstBy(vs, a) == Some(vs[i])
  {
    if i > 0 { FirstByIs(vs[1..], a, i - 1); }
  }

  lemma {:induction false} FirstByAt(vs: seq<Vertex>, a: Id) returns (i: nat)
    requires FirstBy(vs, a).Some?
    ensures i < |vs| && vs[i].author == a && forall j :: 0 <= j < i ==> vs[j].author != a
  {
    if vs[0].author == a {
      i := 0;
    } else {
      i := FirstByAt(vs[1..], a);
      i := i + 1;
    }
  }

  lemma BacksIs(view: View, wave: nat, window: nat, h: Hash, a: Id)
    ensures Backs(view, wave, window, h, a) <==> Supporter(view, h, FirstRound(wave), window, a)
  {
    hide Reaches;
    if Backs(view, wave, window, h, a) {
      var r: nat, v :| 4 * wave < r <= 4 * wave + window && v in VerticesAt(view, r) && v.author == a
                       && ReachesFrom(view, v, h);
      assert Supports(view, h, r, a);
    }
    if Supporter(view, h, FirstRound(wave), window, a) {
      var r: nat :| FirstRound(wave) < r <= FirstRound(wave) + window && Supports(view, h, r, a);
      var v :| v in VerticesAt(view, r) && v.author == a && VertexReachesSpec(view, v, h);
      assert ReachesFrom(view, v, h);
    }
  }

  lemma QuorumIs(view: View, n: nat, wave: nat, window: nat, h: Hash)
    requires n > 0
    ensures QuorumBacks(view, n, wave, window, h) <==> Enough(view, n, h, FirstRound(wave), window)
  {
    hide Backs, Supporter;
    var s := SupportersExist(view, h, FirstRound(wave), window);
    forall a: Id ensures Backs(view, wave, window, h, a) <==> Supporter(view, h, FirstRound(wave), window, a) {
      BacksIs(view, wave, window, h, a);
    }
    assert AllBack(view, wave, window, h, s);
    EnoughMeans(view, n, h, FirstRound(wave), window, s);
    if QuorumBacks(view, n, wave, window, h) {
      var who :| |who| >= 2 * ((n - 1) / 3) + 1 && AllBack(view, wave, window, h, who);
      assert who <= s;
      SubsetSize(who, s);
    }
  }

  /** A wave is decided on exactly the first vertex of its first round by its leader, once
      2f + 1 authors of the shortcut window reach it, or after the timeout of the slow one. */
  lemma DecidedMeans(env: Env, view: View, wave: nat, timedOut: bool, h: Hash)
    requires env.set_ != []
    ensures Decided(env, view, wave, timedOut) == Some(h) <==>
              && (exists i: nat :: Leads(env, view, wave, i) && VerticesAt(view, 4 * wave)[i].hash == h)
              && (|| QuorumBacks(view, |env.set_|, wave, env.rule.shortcut, h)
                  || (timedOut && QuorumBacks(view, |env.set_|, wave, env.rule.slow, h)))
  {
    hide QuorumBacks, Enough, FirstBy;
    QuorumIs(view, |env.set_|, wave, env.rule.shortcut, h);
    QuorumIs(view, |env.set_|, wave, env.rule.slow, h);
    var vs, leader := VerticesAt(view, 4 * wave), env.rule.leader(wave);
    assert FirstRound(wave) == 4 * wave;
    if FirstBy(vs, leader).Some? {
      var i := FirstByAt(vs, leader);
      FirstByIs(vs, leader, i);
      assert Leads(env, view, wave, i);
      forall j: nat | Leads(env, view, wave, j) ensures i == j {}
    } else {
      forall i: nat | i < |vs| && vs[i].author == leader ensures exists v :: v in vs && v.author == leader {
        assert vs[i] in vs;
      }
      FirstByFinds(vs, leader);
    }
  }

  // ---------------------------------------------------------------------
  // What an attempt does
  // ---------------------------------------------------------------------

  // The authors of what the anchor reaches, as far as the view holds it.
  ghost function PastAuthors(view: View, anchor: Hash): set<Id> {
    set h | h in view.byHash && Reaches(view, anchor, h) :: view.byHash[h].author
  }

  // The certificate lists the past and flags exactly the validators among its authors.
  ghost predicate Certifies(env: Env, view: View, anchor: Hash, order: seq<Hash>, qc: MicroQc) {
    && qc.order == order && |qc.bitmap| == (|env.set_| + 7) / 8
    && forall i :: 0 <= i < |env.set_| ==> (GetBit(qc.bitmap, i) <==> env.set_[i] in PastAuthors(view, anchor))
  }

  // There is one to broadcast: 2f + 1 authors, and nothing broadcast over the same past.
  ghost predicate Due(b: Waves, env: Env, view: View, anchor: Hash, order: seq<Hash>) {
    && env.set_ != [] && order !in b.emitted
    && |PastAuthors(view, anchor)| >= 2 * ((|env.set_| - 1) / 3) + 1
  }

  lemma AuthorsOfPast(view: View, key: SortKey, anchor: Hash, order: seq<Hash>)
    requires BreadthFirst(view, key, anchor, order)
    ensures Authors(view, order) == PastAuthors(view, anchor)
  {
    hide Reaches, Discovered, Ascends;
    forall x ensures x in Authors(view, order) <==> x in PastAuthors(view, anchor) {
      if x in Authors(view, order) {
        var h :| h in order && h in view.byHash && view.byHash[h].author == x;
      }
      if x in PastAuthors(view, anchor) {
        var h :| h in view.byHash && Reaches(view, anchor, h) && view.byHash[h].author == x;
        assert h in order;
      }
    }
  }

  lemma OrderIs(view: View, key: SortKey, anchor: Hash, order: seq<Hash>)
    requires Injective(key) && BreadthFirst(view, key, anchor, order)
    ensures Order(view, key, anchor) == order
  {
    hide BreadthFirst, Order, Injective;
    OrderIsBreadthFirst(view, key, anchor);
    BreadthFirstUnique(view, key, anchor, order, Order(view, key, anchor));
  }

  /** When a wave commits, its certificate is broadcast exactly if it is due, as the last
      action, and noted; its timer is cancelled exactly if one waits. */
  lemma CommitAnnounces(b: Waves, env: Env, view: View, wave: nat, timedOut: bool, anchor: Hash, order: seq<Hash>)
    requires Injective(env.key) && wave !in b.committed && Decided(env, view, wave, timedOut) == Some(anchor)
    requires BreadthFirst(view, env.key, anchor, order)
    ensures var s := TryEmit(b, env, view, wave, timedOut);
            && s.ok && s.book.committed == b.committed + {wave}
            && (forall id :: CancelTimer(id) in s.actions <==> wave in b.slow && b.slow[wave] == id)
            && (forall a :: a in s.actions ==> !a.ScheduleTimer?)
            && (Due(b, env, view, anchor, order) <==> exists qc :: BroadcastMicroQc(qc) in s.actions)
            && (forall qc :: BroadcastMicroQc(qc) in s.actions ==> Certifies(env, view, anchor, order, qc))
            && s.book.emitted == if Due(b, env, view, anchor, order) then b.emitted + {order} else b.emitted
  {
    hide Decided, Injective, Order, BreadthFirst, PastAuthors, SignerBits, GetBit;
    OrderIs(view, env.key, anchor, order);
    AuthorsOfPast(view, env.key, anchor, order);
    var s := TryEmit(b, env, view, wave, timedOut);
    assert s == Announce(b, env, view, wave, anchor);
    if Due(b, env, view, anchor, order) {
      var qc := MicroOf(env, view, order).value;
      FlagsMean(env, view, anchor, qc.bitmap);
      assert s.actions[|s.actions| - 1] == BroadcastMicroQc(qc);
    }
    if wave in b.slow { assert s.actions[0] == CancelTimer(b.slow[wave]); }
  }

  lemma FlagsMean(env: Env, view: View, anchor: Hash, bitmap: seq<bv8>)
    requires bitmap == SignerBits(env.set_, PastAuthors(view, anchor), |env.set_|)
    ensures |bitmap| == (|env.set_| + 7) / 8
    ensures forall i :: 0 <= i < |env.set_| ==> (GetBit(bitmap, i) <==> env.set_[i] in PastAuthors(view, anchor))
  {
    hide PastAuthors;
    SignerBitsMeans(env.set_, PastAuthors(view, anchor), |env.set_|);
    forall i | 0 <= i < |env.set_| ensures GetBit(bitmap, i) <==> env.set_[i] in PastAuthors(view, anchor) {
      assert GetBit(bitmap, i) <==> i in Bits(bitmap, |env.set_|);
    }
  }

  /** A wave that does not commit gets a slow-path timer, under a new id and with the
      configured delay, exactly when its anchor is there and it has none yet; an attempt by
      the timer itself never arms another. Without validators that is an error. */
  lemma WaveWaits(b: Waves, env: Env, view: View, wave: nat, timedOut: bool)
    requires Injective(env.key) && wave !in b.committed && Decided(env, view, wave, timedOut) == None
    ensures var s := TryEmit(b, env, view, wave, timedOut);
            var tries := !timedOut && wave !in b.slow;
            && (s.ok <==> !(tries && env.set_ == []))
            && s.book.committed == b.committed && s.book.emitted == b.emitted
            && if tries && env.set_ != [] && Anchor(env.rule, view, wave).Some?
               then && s.actions == [ScheduleTimer(b.nextTimer, env.delayNanos)] && s.book.nextTimer == b.nextTimer + 1
                    && s.book.slow == b.slow[wave := b.nextTimer] && s.book.byTimer == b.byTimer[b.nextTimer := wave]
               else s.actions == [] && s.book == b
  {
    hide Decided, Injective;
  }

  /** A committed wave stays as it is. */
  lemma CommittedRests(b: Waves, env: Env, view: View, wave: nat, timedOut: bool)
    requires Injective(env.key) && wave in b.committed
    ensures TryEmit(b, env, view, wave, timedOut) == WStep(b, [], true)
  {
  }
}
