/** Wave bookkeeping of Bullshark (bullshark::on_certified_vertex and on_timer_fired):
    which waves commit, which slow-path timers wait, and which micro certificates are
    broadcast. */
module Waves {
  import opened Validators
  import opened Certificates
  import opened Bitmaps
  import opened Dag
  import opened Linearize
  import opened Commit

  datatype Env = Env(set_: ValidatorSet, rule: Rule, key: SortKey, delayNanos: nat)

  // The checkpoint hash is a function of the listed hashes and stands for them.
  datatype MicroQc = MicroQc(order: seq<Hash>, bitmap: seq<bv8>)

  datatype Action = ScheduleTimer(id: nat, delayNanos: nat) | CancelTimer(id: nat) | BroadcastMicroQc(qc: MicroQc)

  datatype Waves = Waves(committed: set<nat>, slow: map<nat, nat>, byTimer: map<nat, nat>, nextTimer: nat,
                         emitted: set<seq<Hash>>)

  // `ok` is false when the handler returns an error.
  datatype WStep = WStep(book: Waves, actions: seq<Action>, ok: bool)

  const FRESH: Waves := Waves({}, map[], map[], 0, {})

  // ---------------------------------------------------------------------
  // The micro certificate of an order
  // ---------------------------------------------------------------------

  ghost function Authors(view: View, order: seq<Hash>): set<Id> {
    set h | h in order && h in view.byHash :: view.byHash[h].author
  }

  function SignerBits(set_: ValidatorSet, authors: set<Id>, k: nat): (r: seq<bv8>)
    requires k <= |set_|
    ensures |r| == ByteCount(|set_|)
  {
    if k == 0 then Zeros(|set_|)
    else
      var rest := SignerBits(set_, authors, k - 1);
      if set_[k - 1] in authors then SetBit(rest, k - 1) else rest
  }

  lemma {:induction false} SignerBitsMeans(set_: ValidatorSet, authors: set<Id>, k: nat)
    requires k <= |set_|
    ensures Bits(SignerBits(set_, authors, k), |set_|) == set i | 0 <= i < k && set_[i] in authors
  {
    if k == 0 {
      ZerosEmpty(|set_|);
    } else {
      SignerBitsMeans(set_, authors, k - 1);
      SetBitSets(SignerBits(set_, authors, k - 1), |set_|, k - 1);
    }
  }

  ghost function MicroOf(env: Env, view: View, order: seq<Hash>): Option<MicroQc> {
    var authors := Authors(view, order);
    if env.set_ == [] || |authors| < QuorumThreshold(|env.set_|) then None
    else Some(MicroQc(order, SignerBits(env.set_, authors, |env.set_|)))
  }

  // ---------------------------------------------------------------------
  // The handlers
  // ---------------------------------------------------------------------

  // The anchor that the commit rule decides on.
  ghost function Decided(env: Env, view: View, wave: nat, timedOut: bool): Option<Hash> {
    var a := Anchor(env.rule, view, wave);
    if a.Some? && Commits(env.rule, |env.set_|, view, wave, timedOut, a.value.hash) then Some(a.value.hash) else None
  }

  // The wave is committed and its timer, if one waits, is cancelled.
  function Close(b: Waves, wave: nat): Waves {
    b.(committed := b.committed + {wave}, slow := b.slow - {wave},
       byTimer := if wave in b.slow then b.byTimer - {b.slow[wave]} else b.byTimer)
  }

  function Cancels(b: Waves, wave: nat): seq<Action> {
    if wave in b.slow then [CancelTimer(b.slow[wave])] else []
  }

  ghost function Announce(b: Waves, env: Env, view: View, wave: nat, anchor: Hash): WStep
    requires Injective(env.key)
  {
    var c, order := Close(b, wave), Order(view, env.key, anchor);
    var qc := MicroOf(env, view, order);
    if order in c.emitted || qc == None then WStep(c, Cancels(b, wave), true)
    else WStep(c.(emitted := c.emitted + {order}), Cancels(b, wave) + [BroadcastMicroQc(qc.value)], true)
  }

  function Wait(b: Waves, env: Env, wave: nat): WStep {
    WStep(b.(slow := b.slow[wave := b.nextTimer], byTimer := b.byTimer[b.nextTimer := wave],
             nextTimer := b.nextTimer + 1),
          [ScheduleTimer(b.nextTimer, env.delayNanos)], true)
  }

  ghost function TryEmit(b: Waves, env: Env, view: View, wave: nat, timedOut: bool): WStep
    requires Injective(env.key)
  {
    if wave in b.committed then WStep(b, [], true)
    else match Decided(env, view, wave, timedOut)
      case Some(anchor) => Announce(b, env, view, wave, anchor)
      case None =>
        if timedOut || wave in b.slow then WStep(b, [], true)
        else if env.set_ == [] then WStep(b, [], false)
        else if Anchor(env.rule, view, wave).Some? then Wait(b, env, wave)
        else WStep(b, [], true)
  }

  // The first k waves in turn.
  ghost function CertLoop(b: Waves, env: Env, view: View, k: nat): WStep
    requires Injective(env.key)
  {
    if k == 0 then WStep(b, [], true)
    else
      var s := CertLoop(b, env, view, k - 1);
      if !s.ok then s
      else
        var t := TryEmit(s.book, env, view, k - 1, false);
        WStep(t.book, if t.ok then s.actions + t.actions else [], t.ok)
  }

  ghost function OnCertifiedVertex(b: Waves, env: Env, view: View, round: nat): WStep
    requires Injective(env.key)
  {
    CertLoop(b, env, view, round / ROUNDS_PER_WAVE + 1)
  }

  ghost function OnTimerFired(b: Waves, env: Env, view: View, id: nat): WStep
    requires Injective(env.key)
  {
    if id !in b.byTimer then WStep(b, [], true)
    else
      var wave := b.byTimer[id];
      TryEmit(b.(byTimer := b.byTimer - {id}, slow := b.slow - {wave}), env, view, wave, true)
  }

  // ---------------------------------------------------------------------
  // In place
  // ---------------------------------------------------------------------

  method BuildBitmap(set_: ValidatorSet, authors: set<Id>) returns (bitmap: seq<bv8>)
    ensures bitmap == SignerBits(set_, authors, |set_|)
    ensures Bits(bitmap, |set_|) == set i | 0 <= i < |set_| && set_[i] in authors
  {
    bitmap := Zeros(|set_|);
    for i := 0 to |set_|
      invariant bitmap == SignerBits(set_, authors, i)
    {
      if set_[i] in authors {
        bitmap := bitmap[i / 8 := bitmap[i / 8] | Mask(i % 8)];
      }
    }
    SignerBitsMeans(set_, authors, |set_|);
  }

  method CollectAuthors(view: View, order: seq<Hash>) returns (authors: set<Id>)
    ensures authors == Authors(view, order)
  {
    authors := {};
    for i := 0 to |order|
      invariant authors == Authors(view, order[..i])
    {
      if order[i] in view.byHash {
        authors := authors + {view.byHash[order[i]].author};
      }
      AuthorsNext(view, order, i);
    }
    assert order[..|order|] == order;
  }

  lemma AuthorsNext(view: View, order: seq<Hash>, i: nat)
    requires i < |order|
    ensures Authors(view, order[..i + 1]) ==
            Authors(view, order[..i]) + if order[i] in view.byHash then {view.byHash[order[i]].author} else {}
  {
    assert order[..i + 1] == order[..i] + [order[i]];
  }

  class WaveBook {
    var committed: set<nat>
    var slow: map<nat, nat>
    var byTimer: map<nat, nat>
    var nextTimer: nat
    var emitted: set<seq<Hash>>

    ghost function State(): Waves
      reads this
    {
      Waves(committed, slow, byTimer, nextTimer, emitted)
    }

    constructor ()
      ensures State() == FRESH
    {
      committed, slow, byTimer, nextTimer, emitted := {}, map[], map[], 0, {};
    }

    // The wave commits: its timer is dropped and the order, if new, is certified.
    method Emit(env: Env, view: View, wave: nat, anchor: Hash) returns (actions: seq<Action>)
      requires Injective(env.key)
      modifies this
      ensures WStep(State(), actions, true) == Announce(old(State()), env, view, wave, anchor)
    {
      actions := [];
      committed := committed + {wave};
      if wave in slow {
        actions := [CancelTimer(slow[wave])];
        byTimer := byTimer - {slow[wave]};
      }
      slow := slow - {wave};
      var order := ClosureOfAnchor(view, env.key, anchor);
      if order in emitted {
        return;
      }
      var authors := CollectAuthors(view, order);
      if env.set_ == [] || |authors| < QuorumThreshold(|env.set_|) {
        return;
      }
      var bitmap := BuildBitmap(env.set_, authors);
      emitted := emitted + {order};
      actions := actions + [BroadcastMicroQc(MicroQc(order, bitmap))];
    }

    method TryEmitForWave(env: Env, view: View, wave: nat, timedOut: bool) returns (actions: seq<Action>, ok: bool)
      requires Injective(env.key)
      modifies this
      ensures WStep(State(), actions, ok) == TryEmit(old(State()), env, view, wave, timedOut)
    {
      hide Enough, Announce, Injective;
      actions, ok := [], true;
      if wave in committed {
        return;
      }
      var decision := TryCommitWave(wave, env.rule, env.set_, view, timedOut);
      if decision.Some? {
        actions := Emit(env, view, wave, decision.value.anchor);
        return;
      }
      if timedOut || wave in slow {
        return;
      }
      if env.set_ == [] {
        ok := false;
        return;
      }
      if Anchor(env.rule, view, wave).Some? {
        slow := slow[wave := nextTimer];
        byTimer := byTimer[nextTimer := wave];
        actions := [ScheduleTimer(nextTimer, env.delayNanos)];
        nextTimer := nextTimer + 1;
      }
    }

    method OnCertified(env: Env, view: View, round: nat) returns (actions: seq<Action>, ok: bool)
      requires Injective(env.key)
      modifies this
      ensures WStep(State(), actions, ok) == OnCertifiedVertex(old(State()), env, view, round)
    {
      hide TryEmit, Injective;
      actions, ok := [], true;
      for w := 0 to round / ROUNDS_PER_WAVE + 1
        invariant ok && WStep(State(), actions, ok) == CertLoop(old(State()), env, view, w)
      {
        var more;
        more, ok := TryEmitForWave(env, view, w, false);
        if !ok {
          FailsAt(old(State()), env, view, w + 1, round / ROUNDS_PER_WAVE + 1);
          actions := [];
          return;
        }
        actions := actions + more;
      }
    }

    method OnFired(env: Env, view: View, id: nat) returns (actions: seq<Action>, ok: bool)
      requires Injective(env.key)
      modifies this
      ensures WStep(State(), actions, ok) == OnTimerFired(old(State()), env, view, id)
    {
      hide TryEmit, Injective;
      if id !in byTimer {
        return [], true;
      }
      var wave := byTimer[id];
      byTimer := byTimer - {id};
      slow := slow - {wave};
      actions, ok := TryEmitForWave(env, view, wave, true);
    }
  }

  // An error ends the loop.
  lemma {:induction false} FailsAt(b: Waves, env: Env, view: View, k: nat, m: nat)
    requires Injective(env.key) && k <= m && !CertLoop(b, env, view, k).ok
    ensures CertLoop(b, env, view, m) == CertLoop(b, env, view, k)
  {
    hide TryEmit, Injective;
    if k < m { FailsAt(b, env, view, k, m - 1); }
  }

  // ---------------------------------------------------------------------
  // What the bookkeeping guarantees
  // ---------------------------------------------------------------------

  // The two timer maps are inverse to each other, of ids already allocated, and only
  // waves that have not committed wait.
  ghost predicate Paired(b: Waves) {
    && (forall w :: w in b.slow ==> w !in b.committed && b.slow[w] in b.byTimer && b.byTimer[b.slow[w]] == w)
    && (forall id :: id in b.byTimer ==> id < b.nextTimer && b.byTimer[id] in b.slow && b.slow[b.byTimer[id]] == id)
  }

  // What an attempt for one wave did.
  ghost predicate Attempted(b: Waves, env: Env, view: View, wave: nat, timedOut: bool, s: WStep) {
    && Paired(s.book) && b.emitted <= s.book.emitted && b.nextTimer <= s.book.nextTimer
    && s.book.committed == b.committed + (if Decided(env, view, wave, timedOut).Some? then {wave} else {})
    && (forall w :: w != wave ==> (w in s.book.slow <==> w in b.slow))
    && (wave in s.book.committed || wave in s.book.slow || timedOut || !s.ok || Anchor(env.rule, view, wave) == None)
  }

  lemma TryEmitDoes(b: Waves, env: Env, view: View, wave: nat, timedOut: bool)
    requires Injective(env.key) && Paired(b) && wave !in b.committed
    ensures Attempted(b, env, view, wave, timedOut, TryEmit(b, env, view, wave, timedOut))
  {
    hide Commits, Order, MicroOf, Injective;
  }

  // What a loop over the first k waves did.
  ghost predicate Swept(b: Waves, env: Env, view: View, k: nat, s: WStep) {
    && Paired(s.book)
    && s.book.committed == b.committed + (set w | 0 <= w < k && Decided(env, view, w, false).Some?)
    && forall w :: 0 <= w < k ==> w in s.book.committed || w in s.book.slow || Anchor(env.rule, view, w) == None
  }

  lemma SweptNext(b: Waves, env: Env, view: View, k: nat, s: WStep, t: WStep)
    requires Swept(b, env, view, k, s) && k !in s.book.committed && Attempted(s.book, env, view, k, false, t) && t.ok
    ensures Swept(b, env, view, k + 1, t)
  {
    hide Decided, Anchor;
    forall w | 0 <= w < k + 1 ensures w in t.book.committed || w in t.book.slow || Anchor(env.rule, view, w) == None {
      if w < k { assert w in s.book.slow <==> w in t.book.slow; }
    }
  }

  lemma SweptSkip(b: Waves, env: Env, view: View, k: nat, s: WStep, t: WStep)
    requires Swept(b, env, view, k, s) && k in s.book.committed && t.book == s.book
    ensures Swept(b, env, view, k + 1, t)
  {
    hide Anchor, Decided;
    assert k in b.committed;
  }

  lemma {:induction false} LoopDoes(b: Waves, env: Env, view: View, k: nat)
    requires Injective(env.key) && Paired(b) && env.set_ != []
    ensures CertLoop(b, env, view, k).ok && Swept(b, env, view, k, CertLoop(b, env, view, k))
  {
    hide TryEmit, Swept, Attempted, Paired, Injective;
    if k == 0 {
      SweptStart(b, env, view);
    } else {
      LoopDoes(b, env, view, k - 1);
      var s := CertLoop(b, env, view, k - 1);
      SweptPaired(b, env, view, k - 1, s);
      NoError(s.book, env, view, k - 1, false);
      var t := TryEmit(s.book, env, view, k - 1, false);
      if k - 1 in s.book.committed {
        SweptSkip(b, env, view, k - 1, s, t);
      } else {
        TryEmitDoes(s.book, env, view, k - 1, false);
        SweptNext(b, env, view, k - 1, s, t);
      }
      SweptActions(b, env, view, k, t, CertLoop(b, env, view, k));
    }
  }

  lemma SweptStart(b: Waves, env: Env, view: View)
    requires Paired(b)
    ensures Swept(b, env, view, 0, WStep(b, [], true))
  {
  }

  lemma SweptPaired(b: Waves, env: Env, view: View, k: nat, s: WStep)
    requires Swept(b, env, view, k, s)
    ensures Paired(s.book)
  {
  }

  lemma SweptActions(b: Waves, env: Env, view: View, k: nat, s: WStep, t: WStep)
    requires Swept(b, env, view, k, s) && s.book == t.book
    ensures Swept(b, env, view, k, t)
  {
  }

  lemma NoError(b: Waves, env: Env, view: View, wave: nat, timedOut: bool)
    requires Injective(env.key) && env.set_ != []
    ensures TryEmit(b, env, view, wave, timedOut).ok
    ensures wave in b.committed ==> TryEmit(b, env, view, wave, timedOut).book == b
  {
    hide Commits, Order, MicroOf, Injective;
  }

  /** After a certificate of some round, of the waves up to that round exactly those are
      newly committed that the commit rule decides, and every other one whose anchor has
      arrived has a slow-path timer of its own. */
  lemma CertificateSweeps(b: Waves, env: Env, view: View, round: nat, wave: nat)
    requires Injective(env.key) && Paired(b) && env.set_ != []
    ensures var s := OnCertifiedVertex(b, env, view, round);
            && s.ok && Paired(s.book)
            && (wave in s.book.committed
                <==> wave in b.committed || (wave <= round / 4 && Decided(env, view, wave, false).Some?))
            && (wave <= round / 4 && wave !in s.book.committed && Anchor(env.rule, view, wave).Some?
                ==> wave in s.book.slow)
  {
    hide CertLoop, Decided, Anchor, Injective, Paired;
    LoopDoes(b, env, view, round / ROUNDS_PER_WAVE + 1);
  }

  /** A slow-path timer decides its wave once more, now over the wider window, and is
      spent; any other timer id is ignored. */
  lemma TimerDecides(b: Waves, env: Env, view: View, id: nat)
    requires Injective(env.key) && Paired(b)
    ensures var s := OnTimerFired(b, env, view, id);
            && s.ok && Paired(s.book) && id !in s.book.byTimer
            && s.book.committed
               == b.committed
                  + if id in b.byTimer && Decided(env, view, b.byTimer[id], true).Some? then {b.byTimer[id]} else {}
  {
    hide Commits, Order, MicroOf, Injective;
    if id in b.byTimer {
      var wave := b.byTimer[id];
      var c := b.(byTimer := b.byTimer - {id}, slow := b.slow - {wave});
      TryEmitDoes(c, env, view, wave, true);
    }
  }

  // ---------------------------------------------------------------------
  // Broadcasts
  // ---------------------------------------------------------------------

  ghost function OrderOf(a: Action): seq<seq<Hash>> {
    if a.BroadcastMicroQc? then [a.qc.order] else []
  }

  // The orders of the certificates broadcast by a list of actions.
  ghost function Orders(actions: seq<Action>): seq<seq<Hash>> {
    if actions == [] then [] else OrderOf(actions[0]) + Orders(actions[1..])
  }

  lemma {:induction false} OrdersAppend(a: seq<Action>, b: seq<Action>)
    ensures Orders(a + b) == Orders(a) + Orders(b)
  {
    hide OrderOf;
    if a == [] {
      assert a + b == b;
    } else {
      OrdersAppend(a[1..], b);
      assert (a + b)[1..] == a[1..] + b;
    }
  }

  // The list broadcasts each new order once and notes it.
  ghost predicate Fresh(b: Waves, actions: seq<Action>, c: Waves) {
    && Distinct(Orders(actions)) && Members(Orders(actions)) !! b.emitted
    && c.emitted == b.emitted + Members(Orders(actions))
  }

  lemma FreshJoin(b: Waves, a: seq<Action>, c: Waves, more: seq<Action>, d: Waves)
    requires Fresh(b, a, c) && Fresh(c, more, d)
    ensures Fresh(b, a + more, d)
  {
    OrdersAppend(a, more);
    var x, y := Orders(a), Orders(more);
    forall i | 0 <= i < |x| ensures x[i] in Members(x) {}
    forall i | 0 <= i < |y| ensures y[i] in Members(y) {}
  }

  lemma FreshNone(b: Waves, c: Waves)
    requires c.emitted == b.emitted
    ensures Fresh(b, [], c)
  {
  }

  lemma FreshOne(b: Waves, a: Action, c: Waves)
    requires if a.BroadcastMicroQc? then a.qc.order !in b.emitted && c.emitted == b.emitted + {a.qc.order}
             else c.emitted == b.emitted
    ensures Fresh(b, [a], c)
  {
    assert [a][1..] == [];
    assert Orders([a]) == OrderOf(a);
  }

  lemma AnnounceFresh(b: Waves, env: Env, view: View, wave: nat, anchor: Hash)
    requires Injective(env.key)
    ensures var s := Announce(b, env, view, wave, anchor); Fresh(b, s.actions, s.book)
  {
    hide Order, SignerBits, Authors, Injective, Fresh;
    var s, c := Announce(b, env, view, wave, anchor), Close(b, wave);
    var head := Cancels(b, wave);
    FreshNone(b, c);
    if head != [] { FreshOne(b, head[0], c); }
    FreshNone(c, c);
    if s.actions != head {
      FreshOne(c, s.actions[|head|], s.book);
      FreshJoin(b, head, c, [s.actions[|head|]], s.book);
    }
  }

  lemma TryEmitFresh(b: Waves, env: Env, view: View, wave: nat, timedOut: bool)
    requires Injective(env.key)
    ensures var s := TryEmit(b, env, view, wave, timedOut); Fresh(b, s.actions, s.book)
  {
    hide Announce, Injective, Fresh, Decided;
    FreshNone(b, b);
    var d := Decided(env, view, wave, timedOut);
    if d.Some? { AnnounceFresh(b, env, view, wave, d.value); }
    FreshOne(b, ScheduleTimer(b.nextTimer, env.delayNanos), Wait(b, env, wave).book);
  }

  lemma {:induction false} LoopFresh(b: Waves, env: Env, view: View, k: nat)
    requires Injective(env.key) && env.set_ != []
    ensures var s := CertLoop(b, env, view, k); s.ok && Fresh(b, s.actions, s.book)
  {
    hide TryEmit, Injective, Fresh;
    if k == 0 {
      FreshNone(b, b);
    } else {
      LoopFresh(b, env, view, k - 1);
      var s := CertLoop(b, env, view, k - 1);
      NoError(s.book, env, view, k - 1, false);
      TryEmitFresh(s.book, env, view, k - 1, false);
      var t := TryEmit(s.book, env, view, k - 1, false);
      FreshJoin(b, s.actions, s.book, t.actions, t.book);
    }
  }

  datatype Event = Certified(view: View, round: nat) | Fired(view: View, id: nat)

  ghost function Handle(b: Waves, env: Env, e: Event): WStep
    requires Injective(env.key)
  {
    match e
    case Certified(view, round) => OnCertifiedVertex(b, env, view, round)
    case Fired(view, id) => OnTimerFired(b, env, view, id)
  }

  // All that happens over a list of events, whatever the views then show.
  ghost function After(env: Env, events: seq<Event>): WStep
    requires Injective(env.key)
  {
    if events == [] then WStep(FRESH, [], true)
    else
      var m := |events| - 1;
      var s := After(env, events[..m]);
      var t := Handle(s.book, env, events[m]);
      WStep(t.book, s.actions + t.actions, t.ok)
  }

  lemma HandleFresh(b: Waves, env: Env, e: Event)
    requires Injective(env.key) && env.set_ != []
    ensures var s := Handle(b, env, e); Fresh(b, s.actions, s.book)
  {
    hide TryEmit, Injective, CertLoop;
    match e
    case Certified(view, round) => LoopFresh(b, env, view, round / ROUNDS_PER_WAVE + 1);
    case Fired(view, id) =>
      if id in b.byTimer {
        var wave := b.byTimer[id];
        TryEmitFresh(b.(byTimer := b.byTimer - {id}, slow := b.slow - {wave}), env, view, wave, true);
      }
  }

  /** Over every list of events, by certificates and timers alike, no checkpoint is
      broadcast twice, and the book notes exactly those that were. */
  lemma {:induction false} EmittedOnce(env: Env, events: seq<Event>)
    requires Injective(env.key) && env.set_ != []
    ensures Distinct(Orders(After(env, events).actions))
    ensures After(env, events).book.emitted == Members(Orders(After(env, events).actions))
  {
    hide Handle, Injective;
    if events != [] {
      var m := |events| - 1;
      var s := After(env, events[..m]);
      EmittedOnce(env, events[..m]);
      HandleFresh(s.book, env, events[m]);
      var t := Handle(s.book, env, events[m]);
      OrdersAppend(s.actions, t.actions);
      FreshJoin(FRESH, s.actions, s.book, t.actions, t.book);
    }
  }

  /** A broadcast certificate lists the closure of the decided anchor and flags exactly
      the validators that authored a vertex of it, 2f + 1 authors at least. */
  lemma BroadcastMeans(b: Waves, env: Env, view: View, wave: nat, timedOut: bool, qc: MicroQc)
    requires Injective(env.key) && BroadcastMicroQc(qc) in TryEmit(b, env, view, wave, timedOut).actions
    ensures Decided(env, view, wave, timedOut).Some? && wave !in b.committed
    ensures qc.order == Order(view, env.key, Decided(env, view, wave, timedOut).value)
    ensures |qc.bitmap| == ByteCount(|env.set_|) && |Authors(view, qc.order)| >= QuorumThreshold(|env.set_|)
    ensures Bits(qc.bitmap, |env.set_|) == set i | 0 <= i < |env.set_| && env.set_[i] in Authors(view, qc.order)
  {
    hide Commits, Order, Injective, Authors;
    SignerBitsMeans(env.set_, Authors(view, qc.order), |env.set_|);
  }
}
