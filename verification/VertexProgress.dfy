/** Progress of one node and of the network: when the fallback timer that a node names
    will fire, given what the other layers do to its id, and that proposing, certifying
    and advancing terminate exactly when a quorum has more than one member. */
module VertexProgress {
  import opened Validators
  import opened Worlds
  import opened Signatures
  import opened Certificates
  import opened VertexCert
  import opened VertexInvariant
  import opened VertexNetwork
  import opened Timers

  // ---------------------------------------------------------------------
  // The fallback timer and what runs at the host
  // ---------------------------------------------------------------------

  // What a list of actions does to the host's timers.
  ghost function OpsOf(actions: seq<Action>): seq<Op> {
    if actions == [] then []
    else OpsOf(actions[..|actions| - 1]) + OpOf(actions[|actions| - 1])
  }

  ghost function OpOf(a: Action): seq<Op> {
    match a
    case ScheduleTimer(id, _) => [Schedule(id)]
    case CancelTimer(id) => [Cancel(id)]
    case _ => []
  }

  lemma {:induction false} OpsAppend(a: seq<Action>, b: seq<Action>)
    ensures OpsOf(a + b) == OpsOf(a) + OpsOf(b)
  {
    hide OpOf;
    if b == [] {
      assert a + b == a;
    } else {
      OpsAppend(a, b[..|b| - 1]);
      assert (a + b)[..|a + b| - 1] == a + b[..|b| - 1];
    }
  }

  lemma OpsOne(a: Action)
    ensures OpsOf([a]) == OpOf(a)
  {
    assert [a][..0] == [];
  }

  // The step leaves the named timer alone.
  ghost predicate Leaves(b: Book, s: Step) {
    OpsOf(s.actions) == [] && s.book.roundTimer == b.roundTimer && s.book.nextTimer == b.nextTimer
  }

  // Or the last thing it does to timers is to schedule one under a new id, which the
  // book then names.
  ghost predicate Rearms(b: Book, s: Step) {
    var ops := OpsOf(s.actions);
    && s.book.roundTimer.Some? && b.nextTimer <= s.book.roundTimer.value < s.book.nextTimer
    && ops != [] && ops[|ops| - 1] == Schedule(s.book.roundTimer.value)
  }

  // Or, with a quorum in the current round, the named timer has fired in vain.
  ghost predicate Spends(b: Book, e: Event, s: Step, set_: ValidatorSet) {
    && e.TimerFired? && b.roundTimer == Some(e.id) && CertifiedCount(b, b.currentRound) >= QuorumThreshold(|set_|)
    && s.book.roundTimer == None && s.book.nextTimer == b.nextTimer && OpsOf(s.actions) == []
  }

  ghost predicate Named(b: Book) {
    b.roundTimer.Some? ==> b.roundTimer.value < b.nextTimer
  }

  lemma JoinArms(b: Book, s: Step, t: Step)
    requires (Leaves(b, s) || Rearms(b, s)) && (Leaves(s.book, t) || Rearms(s.book, t)) && Named(b)
    ensures var j := Step(t.book, s.actions + t.actions, true); Leaves(b, j) || Rearms(b, j)
    ensures Rearms(b, s) || Rearms(s.book, t) ==> Rearms(b, Step(t.book, s.actions + t.actions, true))
  {
    OpsAppend(s.actions, t.actions);
    var x, y := OpsOf(s.actions), OpsOf(t.actions);
    if y == [] { assert x + y == x; }
  }

  lemma ProposeArms(b: Book, env: Env, round: nat, parents: seq<Hash>)
    ensures Rearms(b, Propose(b, env, round, parents))
  {
    var p := MakeProposal(b, env, round, parents);
    var cancel := if b.roundTimer.Some? then [CancelTimer(b.roundTimer.value)] else [];
    var sched, send := ScheduleTimer(b.nextTimer, RoundDelay(env, 0)), BroadcastProposal(p);
    assert [sched, send] == [sched] + [send];
    OpsAppend(cancel, [sched, send]);
    OpsAppend([sched], [send]);
    OpsOne(sched);
    OpsOne(send);
  }

  lemma {:induction false} AdvanceArms(b: Book, env: Env)
    requires Named(b)
    ensures var s := AdvanceLoop(b, env); Leaves(b, s) || Rearms(b, s)
    decreases |AheadOf(b)|
  {
    hide Leaves, Rearms;
    if CertifiedCount(b, b.currentRound) >= Need(env) {
      ProposeArms(b, env, b.currentRound + 1, ValuesInOrder(b.certified[b.currentRound], Need(env)));
      var s := ProposeNext(b, env);
      RearmedNamed(b, s);
      AdvanceArms(s.book, env);
      JoinArms(b, s, AdvanceLoop(s.book, env));
    } else {
      LeavesNone(b, b);
    }
  }

  lemma RearmedNamed(b: Book, s: Step)
    requires Rearms(b, s)
    ensures Named(s.book)
  {
  }

  lemma LeavesNone(b: Book, c: Book)
    requires c.roundTimer == b.roundTimer && c.nextTimer == b.nextTimer
    ensures Leaves(b, Step(c, [], true))
  {
  }

  // The timer fields are all that these relations see of a book.
  lemma SameTimers(b: Book, b': Book, s: Step, s': Step)
    requires b'.roundTimer == b.roundTimer && b'.nextTimer == b.nextTimer && s'.actions == s.actions
    requires s'.book.roundTimer == s.book.roundTimer && s'.book.nextTimer == s.book.nextTimer
    requires Leaves(b, s) || Rearms(b, s)
    ensures Leaves(b', s') || Rearms(b', s')
  {
  }

  lemma MaybeAdvanceArms(b: Book, env: Env)
    requires Named(b)
    ensures var s := MaybeAdvance(b, env); Leaves(b, s) || Rearms(b, s)
  {
    hide Leaves, Rearms;
    if b.started {
      AdvanceArms(b, env);
      SameTimers(b, b, AdvanceLoop(b, env), MaybeAdvance(b, env));
    } else {
      LeavesNone(b, b);
    }
  }

  lemma FinalizeArms(b: Book, env: Env, h: Hash)
    requires Named(b)
    ensures var s := TryFinalize(b, env, h); Leaves(b, s) || Rearms(b, s)
  {
    hide Leaves, Rearms, AdvanceLoop;
    if Ready(b, env, h) && OwnCertificate(b, env, h).Some? {
      var cv := OwnCertificate(b, env, h).value;
      var c := RecordCert(b.(emitted := b.emitted + {h}), cv.vertex);
      MaybeAdvanceArms(c, env);
      Announces(b, c, cv, MaybeAdvance(c, env));
    } else {
      LeavesNone(b, b);
      SameTimers(b, b, Step(b, [], true), TryFinalize(b, env, h));
    }
  }

  lemma Announces(b: Book, c: Book, cv: CertifiedVertex, s: Step)
    requires c.roundTimer == b.roundTimer && c.nextTimer == b.nextTimer && (Leaves(c, s) || Rearms(c, s))
    ensures var t := Step(s.book, [BroadcastCert(cv)] + s.actions, true); Leaves(b, t) || Rearms(b, t)
  {
    OpsAppend([BroadcastCert(cv)], s.actions);
    OpsOne(BroadcastCert(cv));
    assert [] + OpsOf(s.actions) == OpsOf(s.actions);
  }

  lemma TimerArms(b: Book, env: Env, id: nat)
    ensures var s := OnTimerFired(b, env, id);
            if b.roundTimer != Some(id) then Leaves(b, s)
            else Rearms(b, s) || Spends(b, TimerFired(id), s, env.set_)
  {
    var s := OnTimerFired(b, env, id);
    if s.actions != [] {
      var p, last := CurrentProposal(b.mine, b.currentRound), s.actions[|s.actions| - 1];
      OpsOne(last);
      if p.Some? {
        var send := BroadcastProposal(p.value);
        assert s.actions == [send] + [last];
        OpsAppend([send], [last]);
        OpsOne(send);
      } else {
        assert s.actions == [last];
      }
    }
  }

  lemma ProposalArms(b: Book, env: Env, p: Proposal)
    ensures Leaves(b, OnVertexProposal(b, env, p))
  {
    ProposalCases(b, env, p);
    var s := OnVertexProposal(b, env, p);
    if s.actions != [] {
      assert s.actions == [s.actions[0]];
      OpsOne(s.actions[0]);
    }
  }

  lemma StoredTimers(b: Book, bp: Partial)
    ensures Stored(b, bp).roundTimer == b.roundTimer && Stored(b, bp).nextTimer == b.nextTimer
  {
  }

  /** A step leaves the timer that the book names alone, or names a new one, which is the
      last it schedules; a timer that fires stays without a successor only when a quorum is
      recorded for the current round. */
  lemma HandleArms(b: Book, env: Env, e: Event)
    requires Named(b)
    ensures var s := Handle(b, env, e);
            && Named(s.book) && (Leaves(b, s) || Rearms(b, s) || Spends(b, e, s, env.set_))
            && (e.TimerFired? && b.roundTimer == Some(e.id) ==> !Leaves(b, s))
  {
    hide Leaves, Rearms, AdvanceLoop, TryFinalize;
    match e {
      case Start =>
        if !b.started {
          ProposeArms(b.(started := true), env, 0, []);
          SameTimers(b.(started := true), b, Genesis(b, env), Genesis(b, env));
        } else {
          LeavesNone(b, b);
        }
      case ProposalReceived(p) => ProposalArms(b, env, p);
      case PartialReceived(bp) =>
        PartialCases(b, env, bp);
        StoredTimers(b, bp);
        var s := OnVertexPartial(b, env, bp);
        if Accepts(b, env, bp) {
          FinalizeArms(Stored(b, bp), env, bp.vertexHash);
          SameTimers(Stored(b, bp), b, s, s);
        } else {
          RefusedLeaves(b, env, bp);
        }
      case CertReceived(cv) =>
        MaybeAdvanceArms(RecordCert(b, cv.vertex), env);
        SameTimers(RecordCert(b, cv.vertex), b, MaybeAdvance(RecordCert(b, cv.vertex), env), Handle(b, env, e));
      case TimerFired(id) => TimerArms(b, env, id);
    }
    ArmedNamed(b, env, e, Handle(b, env, e));
  }

  lemma RefusedLeaves(b: Book, env: Env, bp: Partial)
    requires !Accepts(b, env, bp)
    ensures Leaves(b, OnVertexPartial(b, env, bp))
  {
    PartialCases(b, env, bp);
  }

  lemma ArmedNamed(b: Book, env: Env, e: Event, s: Step)
    requires Named(b) && (Leaves(b, s) || Rearms(b, s) || Spends(b, e, s, env.set_))
    requires e.TimerFired? && b.roundTimer == Some(e.id) ==> Rearms(b, s) || Spends(b, e, s, env.set_)
    ensures Named(s.book)
    ensures e.TimerFired? && b.roundTimer == Some(e.id) ==> !Leaves(b, s)
  {
  }

  // ---------------------------------------------------------------------
  // One task at a time
  // ---------------------------------------------------------------------

  // The tasks after the timer operations of a step.
  ghost function TasksAfter(tasks: Tasks, actions: seq<Action>): Tasks { DoAll(tasks, Own, OpsOf(actions)) }

  lemma TasksAppend(tasks: Tasks, a: seq<Action>, b: seq<Action>)
    ensures TasksAfter(tasks, a + b) == TasksAfter(TasksAfter(tasks, a), b)
  {
    OpsAppend(a, b);
    DoAppend(tasks, Own, OpsOf(a), OpsOf(b));
  }

  lemma TasksOne(tasks: Tasks, a: Action)
    ensures TasksAfter(tasks, [a]) == DoAll(tasks, Own, OpOf(a))
    ensures a.ScheduleTimer? ==> TasksAfter(tasks, [a]) == tasks[a.id := Own]
    ensures a.CancelTimer? ==> TasksAfter(tasks, [a]) == tasks - {a.id}
    ensures !a.ScheduleTimer? && !a.CancelTimer? ==> TasksAfter(tasks, [a]) == tasks
  {
    OpsOne(a);
    var ops := OpOf(a);
    if ops != [] { assert ops[..0] == []; }
  }

  lemma ProposeOne(b: Book, env: Env, round: nat, parents: seq<Hash>, tasks: Tasks)
    requires OneOwn(tasks, b.roundTimer)
    ensures var s := Propose(b, env, round, parents); OneOwn(TasksAfter(tasks, s.actions), s.book.roundTimer)
  {
    hide TasksAfter;
    var p := MakeProposal(b, env, round, parents);
    var none: seq<Action> := [];
    var cancel := if b.roundTimer.Some? then [CancelTimer(b.roundTimer.value)] else none;
    var sched, send := ScheduleTimer(b.nextTimer, RoundDelay(env, 0)), BroadcastProposal(p);
    assert [sched, send] == [sched] + [send];
    TasksAppend(tasks, cancel, [sched, send]);
    var left := TasksAfter(tasks, cancel);
    if b.roundTimer.Some? { TasksOne(tasks, cancel[0]); } else { TasksNone(tasks); }
    assert OneOwn(left, None);
    TasksAppend(left, [sched], [send]);
    TasksOne(left, sched);
    TasksOne(left[b.nextTimer := Own], send);
  }

  lemma TasksNone(tasks: Tasks)
    ensures TasksAfter(tasks, []) == tasks
  {
  }

  lemma {:induction false} AdvanceOne(b: Book, env: Env, tasks: Tasks)
    requires OneOwn(tasks, b.roundTimer)
    ensures var s := AdvanceLoop(b, env); OneOwn(TasksAfter(tasks, s.actions), s.book.roundTimer)
    decreases |AheadOf(b)|
  {
    hide TasksAfter, OneOwn;
    if CertifiedCount(b, b.currentRound) >= Need(env) {
      ProposeOne(b, env, b.currentRound + 1, ValuesInOrder(b.certified[b.currentRound], Need(env)), tasks);
      var s := ProposeNext(b, env);
      AdvanceOne(s.book, env, TasksAfter(tasks, s.actions));
      TasksAppend(tasks, s.actions, AdvanceLoop(s.book, env).actions);
    } else {
      TasksNone(tasks);
    }
  }

  lemma MaybeAdvanceOne(b: Book, env: Env, tasks: Tasks)
    requires OneOwn(tasks, b.roundTimer)
    ensures var s := MaybeAdvance(b, env); OneOwn(TasksAfter(tasks, s.actions), s.book.roundTimer)
  {
    hide TasksAfter, OneOwn;
    if b.started { AdvanceOne(b, env, tasks); } else { TasksNone(tasks); }
  }

  lemma FinalizeOne(b: Book, env: Env, h: Hash, tasks: Tasks)
    requires OneOwn(tasks, b.roundTimer)
    ensures var s := TryFinalize(b, env, h); OneOwn(TasksAfter(tasks, s.actions), s.book.roundTimer)
  {
    hide TasksAfter, OneOwn, VertexCert.MaybeAdvance;
    if Ready(b, env, h) && OwnCertificate(b, env, h).Some? {
      var cv := OwnCertificate(b, env, h).value;
      var c := RecordCert(b.(emitted := b.emitted + {h}), cv.vertex);
      MaybeAdvanceOne(c, env, tasks);
      TasksAppend(tasks, [BroadcastCert(cv)], MaybeAdvance(c, env).actions);
      TasksOne(tasks, BroadcastCert(cv));
    } else {
      TasksNone(tasks);
    }
  }

  // The timer that the book names has fired.
  lemma FiredOne(b: Book, env: Env, id: nat, tasks: Tasks)
    requires OneOwn(tasks, if b.roundTimer == Some(id) then None else b.roundTimer)
    ensures var s := OnTimerFired(b, env, id); OneOwn(TasksAfter(tasks, s.actions), s.book.roundTimer)
  {
    hide TasksAfter;
    var s := OnTimerFired(b, env, id);
    if s.actions == [] {
      TasksNone(tasks);
    } else {
      var m := |s.actions| - 1;
      assert s.actions == s.actions[..m] + [s.actions[m]];
      TasksAppend(tasks, s.actions[..m], [s.actions[m]]);
      if m > 0 {
        assert s.actions[..m] == [s.actions[0]];
        TasksOne(tasks, s.actions[0]);
      } else {
        TasksNone(tasks);
      }
      TasksOne(tasks, s.actions[m]);
    }
  }

  lemma LeavesOne(b: Book, s: Step, tasks: Tasks)
    requires OneOwn(tasks, b.roundTimer) && Leaves(b, s)
    ensures OneOwn(TasksAfter(tasks, s.actions), s.book.roundTimer)
  {
  }

  /** After every step the only task of the layer that can be running is the one its book
      names. */
  lemma HandleOne(b: Book, env: Env, e: Event, tasks: Tasks)
    requires OneOwn(tasks, if e.TimerFired? && b.roundTimer == Some(e.id) then None else b.roundTimer)
    ensures var s := Handle(b, env, e); OneOwn(TasksAfter(tasks, s.actions), s.book.roundTimer)
  {
    hide TasksAfter, OneOwn, AdvanceLoop, TryFinalize;
    match e {
      case Start =>
        if !b.started { ProposeOne(b.(started := true), env, 0, [], tasks); } else { TasksNone(tasks); }
      case ProposalReceived(p) =>
        ProposalArms(b, env, p);
        LeavesOne(b, OnVertexProposal(b, env, p), tasks);
      case PartialReceived(bp) =>
        PartialCases(b, env, bp);
        StoredTimers(b, bp);
        if Accepts(b, env, bp) {
          FinalizeOne(Stored(b, bp), env, bp.vertexHash, tasks);
        } else {
          RefusedLeaves(b, env, bp);
          LeavesOne(b, OnVertexPartial(b, env, bp), tasks);
        }
      case CertReceived(cv) => MaybeAdvanceOne(RecordCert(b, cv.vertex), env, tasks);
      case TimerFired(id) => FiredOne(b, env, id, tasks);
    }
  }

  // ---------------------------------------------------------------------
  // Whole runs
  // ---------------------------------------------------------------------

  // Tasks running at node `i`'s host after the first `t` steps. A task that fires ends.
  ghost function TasksAt(run: seq<Net>, labels: seq<Label>, others: seq<Others>, i: Id, t: nat): Tasks
    requires t <= |labels| < |run| && |others| == |labels|
  {
    if t == 0 then map[]
    else
      var l, o, tasks := labels[t - 1], others[t - 1], TasksAt(run, labels, others, i, t - 1);
      if l.node != i || i !in run[t - 1].books then tasks
      else
        var left := if l.event.TimerFired? then tasks - {l.event.id} else tasks;
        var mid := DoAll(left, Other, o.before);
        DoAll(DoAll(mid, Own, OpsOf(Handle(run[t - 1].books[i], l.env, l.event).actions)), Other, o.after)
  }

  // What the other layers have done since the timer that the book names was armed.
  ghost function Since(run: seq<Net>, labels: seq<Label>, others: seq<Others>, i: Id, t: nat): seq<Op>
    requires t <= |labels| < |run| && |others| == |labels|
  {
    if t == 0 then []
    else
      var l, o, ops := labels[t - 1], others[t - 1], Since(run, labels, others, i, t - 1);
      if l.node != i || i !in run[t - 1].books || i !in run[t].books then ops
      else if run[t].books[i].roundTimer == run[t - 1].books[i].roundTimer then ops + o.before + o.after
      else o.after
  }

  ghost predicate TimerOk(b: Book, tasks: Tasks, since: seq<Op>) {
    Named(b) && (b.roundTimer.Some? ==> Fate(tasks, b.roundTimer.value, since))
  }

  // One step of the node among those of the other layers.
  lemma StepTimer(b: Book, env: Env, e: Event, tasks: Tasks, since: seq<Op>, o: Others)
    requires TimerOk(b, tasks, since)
    ensures var s := Handle(b, env, e);
            var left := if e.TimerFired? then tasks - {e.id} else tasks;
            var after := DoAll(DoAll(DoAll(left, Other, o.before), Own, OpsOf(s.actions)), Other, o.after);
            TimerOk(s.book, after, if s.book.roundTimer == b.roundTimer then since + o.before + o.after else o.after)
  {
    hide VertexCert.Handle, Fate;
    HandleArms(b, env, e);
    var s := Handle(b, env, e);
    var left := if e.TimerFired? then tasks - {e.id} else tasks;
    var mid := DoAll(left, Other, o.before);
    var own := DoAll(mid, Own, OpsOf(s.actions));
    if s.book.roundTimer.Some? {
      var x := s.book.roundTimer.value;
      if Rearms(b, s) {
        JustArmed(mid, OpsOf(s.actions), x);
        OthersAct(own, x, [], o.after);
        assert [] + o.after == o.after;
      } else {
        if e.TimerFired? { OtherEnds(tasks, x, since, e.id); }
        OthersAct(left, x, since, o.before);
        assert own == mid;
        OthersAct(own, x, since + o.before, o.after);
      }
    }
  }

  lemma {:induction false} TimerAt(w: World, run: seq<Net>, labels: seq<Label>, others: seq<Others>, i: Id, t: nat)
    requires Run(w, run, labels) && |others| == |labels| && t <= |labels| && i in run[t].books
    ensures TimerOk(run[t].books[i], TasksAt(run, labels, others, i, t), Since(run, labels, others, i, t))
  {
    hide VertexCert.Handle, TimerOk;
    if t == 0 {
      StartTimer(w, run, labels, i);
    } else {
      var l, o := labels[t - 1], others[t - 1];
      assert NodeStep(w, run[t - 1], run[t - 1 + 1], l.node, l.env, l.event);
      TimerAt(w, run, labels, others, i, t - 1);
      if l.node == i {
        StepTimer(run[t - 1].books[i], l.env, l.event, TasksAt(run, labels, others, i, t - 1),
                  Since(run, labels, others, i, t - 1), o);
      }
    }
  }

  lemma StepOne(b: Book, env: Env, e: Event, tasks: Tasks, o: Others)
    requires OneOwn(tasks, b.roundTimer)
    ensures var s := Handle(b, env, e);
            var left := if e.TimerFired? then tasks - {e.id} else tasks;
            OneOwn(DoAll(DoAll(DoAll(left, Other, o.before), Own, OpsOf(s.actions)), Other, o.after), s.book.roundTimer)
  {
    hide VertexCert.Handle;
    var s := Handle(b, env, e);
    var left := if e.TimerFired? then tasks - {e.id} else tasks;
    var timer := if e.TimerFired? && b.roundTimer == Some(e.id) then None else b.roundTimer;
    OthersOne(left, timer, o.before);
    HandleOne(b, env, e, DoAll(left, Other, o.before));
    OthersOne(TasksAfter(DoAll(left, Other, o.before), s.actions), s.book.roundTimer, o.after);
  }

  lemma {:induction false} OneAt(w: World, run: seq<Net>, labels: seq<Label>, others: seq<Others>, i: Id, t: nat)
    requires Run(w, run, labels) && |others| == |labels| && t <= |labels| && i in run[t].books
    ensures OneOwn(TasksAt(run, labels, others, i, t), run[t].books[i].roundTimer)
  {
    hide VertexCert.Handle, OneOwn;
    if t == 0 {
      NothingRuns(run[0].books[i].roundTimer);
    } else {
      var l, o := labels[t - 1], others[t - 1];
      assert NodeStep(w, run[t - 1], run[t - 1 + 1], l.node, l.env, l.event);
      OneAt(w, run, labels, others, i, t - 1);
      if l.node == i { StepOne(run[t - 1].books[i], l.env, l.event, TasksAt(run, labels, others, i, t - 1), o); }
    }
  }

  lemma NothingRuns(timer: Option<nat>)
    ensures OneOwn(map[], timer)
  {
  }

  lemma StartTimer(w: World, run: seq<Net>, labels: seq<Label>, i: Id)
    requires Run(w, run, labels) && i in run[0].books
    ensures TimerOk(run[0].books[i], map[], [])
  {
  }

  // Hosts start a node before they deliver anything to it.
  ghost predicate StartsFirst(run: seq<Net>, labels: seq<Label>) {
    forall t :: 0 <= t < |labels| < |run| && labels[t].node in run[t].books ==>
      run[t].books[labels[t].node].started || labels[t].event.Start?
  }

  ghost predicate Awake(b: Book, set_: ValidatorSet) {
    if b.started then b.roundTimer.Some? && CertifiedCount(b, b.currentRound) < QuorumThreshold(|set_|)
    else b.certified == map[]
  }

  lemma {:induction false} AwakeAt(w: World, run: seq<Net>, labels: seq<Label>, i: Id, t: nat)
    requires Distinct(w.set_) && Run(w, run, labels) && StartsFirst(run, labels) && t <= |labels|
    requires i in run[t].books
    ensures Awake(run[t].books[i], w.set_)
  {
    hide VertexCert.Handle, Awake, BookInv, NodeInv, Deliverable;
    if t == 0 {
      FreshAwake(w, run, labels, i);
    } else {
      var l := labels[t - 1];
      assert NodeStep(w, run[t - 1], run[t - 1 + 1], l.node, l.env, l.event);
      AwakeAt(w, run, labels, i, t - 1);
      RunInv(w, run, labels, t - 1);
      if l.node == i { StaysAwake(run[t - 1].books[i], l.env, l.event); }
    }
  }

  lemma FreshAwake(w: World, run: seq<Net>, labels: seq<Label>, i: Id)
    requires Run(w, run, labels) && i in run[0].books
    ensures Awake(run[0].books[i], w.set_)
  {
  }

  lemma StaysAwake(b: Book, env: Env, e: Event)
    requires BookInv(b, env.set_) && Distinct(env.set_) && Awake(b, env.set_) && (b.started || e.Start?)
    ensures Awake(Handle(b, env, e).book, env.set_)
  {
    hide BookInv, VertexCert.Handle;
    HandleRests(b, env, e);
    StaysStarted(b, env, e);
  }

  lemma StaysStarted(b: Book, env: Env, e: Event)
    requires b.started || e.Start?
    ensures Handle(b, env, e).book.started
  {
    match e
    case Start =>
    case ProposalReceived(p) => ProposalCases(b, env, p);
    case PartialReceived(bp) =>
      PartialCases(b, env, bp);
      var c, h := Stored(b, bp), bp.vertexHash;
      if Accepts(b, env, bp) && Ready(c, env, h) && OwnCertificate(c, env, h).Some? {
        AdvanceStops(RecordCert(c.(emitted := c.emitted + {h}), OwnCertificate(c, env, h).value.vertex), env);
      }
    case CertReceived(cv) => AdvanceStops(RecordCert(b, cv.vertex), env);
    case TimerFired(id) =>
  }

  /** In every state of every run in which hosts start nodes first, a started node names a
      timer and its current round is short of a quorum of certificates. That timer will
      fire exactly when no other layer of the host has cancelled its id since it was armed
      without scheduling it again, and is the node's own exactly when no other layer has
      used that id at all since then. No other task of the layer is running. */
  lemma NamedTimerIsPending(w: World, run: seq<Net>, labels: seq<Label>, others: seq<Others>, i: Id, t: nat)
    requires Distinct(w.set_) && Run(w, run, labels) && StartsFirst(run, labels) && t <= |labels|
    requires |others| == |labels|
    requires i in run[t].books && run[t].books[i].started
    ensures var b, tasks := run[t].books[i], TasksAt(run, labels, others, i, t);
            var since := Since(run, labels, others, i, t);
            && b.roundTimer.Some? && CertifiedCount(b, b.currentRound) < QuorumThreshold(|w.set_|)
            && var x := b.roundTimer.value;
               && (x in tasks <==> LastOn(since, x) == None || LastOn(since, x).value.Schedule?)
               && (x in tasks && tasks[x] == Own <==> forall o :: o in since ==> o.id != x)
               && (forall k :: k in tasks && tasks[k] == Own ==> k == x)
  {
    AwakeAt(w, run, labels, i, t);
    OneAt(w, run, labels, others, i, t);
    TimerAt(w, run, labels, others, i, t);
  }

  // ---------------------------------------------------------------------
  // propose_round ends in try_finalize, which may call maybe_advance, which
  // may call propose_round again.
  // ---------------------------------------------------------------------

  // A call of propose_round.
  datatype Call = Call(book: Book, round: nat, parents: seq<Hash>)

  // Such a call is made by a started node for a round it has not proposed yet.
  ghost predicate GoodCall(x: Call, set_: ValidatorSet) {
    && Core(x.book, set_) && x.book.started && x.round >= x.book.currentRound
    && NewRound(x.book, x.round) && NewKey(x.book, x.round)
  }

  // The book after certifying own vertex `h`.
  function Certified(c: Book, h: Hash): Book
    requires h in c.mine
  {
    RecordCert(c.(emitted := c.emitted + {h}), c.mine[h].vertex)
  }

  // Before call `x` returns, it makes call `y`: the vertex it proposes is ready
  // at once, and its certificate completes a quorum in the current round.
  ghost predicate Nests(env: Env, x: Call, y: Call) {
    var c, h := Propose(x.book, env, x.round, x.parents).book,
                MakeProposal(x.book, env, x.round, x.parents).vertex.hash;
    && Ready(c, env, h) && OwnCertificate(c, env, h).Some?
    && y.book == Certified(c, h) && y.book.started
    && CertifiedCount(y.book, y.book.currentRound) >= Need(env)
    && y.round == y.book.currentRound + 1
    && y.parents == ValuesInOrder(y.book.certified[y.book.currentRound], Need(env))
  }

  lemma NotReadyAlone(b: Book, env: Env, round: nat, parents: seq<Hash>)
    requires Core(b, env.set_) && b.started && |env.set_| >= 4
    requires round >= b.currentRound && NewRound(b, round) && NewKey(b, round)
    ensures var c := Propose(b, env, round, parents).book;
            Core(c, env.set_) && !Ready(c, env, MakeProposal(b, env, round, parents).vertex.hash)
  {
    ProposeMine(b, env, round, parents);
    ProposeCollect(b, env, round, parents);
    ProposeKeys(b, env, round, parents);
  }

  /** With at least four validators a fresh proposal cannot certify itself, so no
      call of propose_round leads to another; what is left of advancing is the
      loop of AdvanceLoop, which terminates. */
  lemma NeverNests(env: Env, x: Call, y: Call)
    requires GoodCall(x, env.set_) && |env.set_| >= 4
    ensures !Nests(env, x, y)
  {
    NotReadyAlone(x.book, env, x.round, x.parents);
  }

  lemma ReadyAlone(b: Book, env: Env, round: nat, parents: seq<Hash>)
    requires Core(b, env.set_) && Distinct(env.set_) && b.started && |env.set_| <= 3
    requires round >= b.currentRound && NewRound(b, round) && NewKey(b, round)
    ensures var c, h := Propose(b, env, round, parents).book, MakeProposal(b, env, round, parents).vertex.hash;
            && Core(c, env.set_) && c.started && c.currentRound == round
            && Ready(c, env, h) && OwnCertificate(c, env, h).Some? && c.mine[h].vertex.round == round
  {
    hide VertexInvariant.MineOk, VertexInvariant.CollectOk, VertexInvariant.SeenOk, VertexInvariant.VotedOk;
    hide VertexInvariant.NewRound, VertexInvariant.NewKey, VertexCert.OwnCertificate;
    ProposeMine(b, env, round, parents);
    ProposeCollect(b, env, round, parents);
    ProposeKeys(b, env, round, parents);
    var c, h := Propose(b, env, round, parents).book, MakeProposal(b, env, round, parents).vertex.hash;
    assert Core(c, env.set_);
    EmittedIsMine(b, env.set_, h);
    OwnCertificateVerifies(c, env, h);
  }

  lemma EmittedIsMine(b: Book, set_: ValidatorSet, h: Hash)
    requires CollectOk(b, set_)
    ensures h in b.emitted ==> h in b.mine
  {
  }

  lemma CertifiedKeeps(c: Book, set_: ValidatorSet, h: Hash)
    requires Core(c, set_) && h in c.mine && c.mine[h].vertex.round == c.currentRound
    ensures var d := Certified(c, h);
            && Core(d, set_) && d.started == c.started && d.currentRound == c.currentRound
            && CertifiedCount(d, d.currentRound) >= 1 && NewRound(d, d.currentRound + 1)
            && NewKey(d, d.currentRound + 1)
  {
    var d := Certified(c, h);
    assert d == c.(emitted := d.emitted, certified := d.certified);
    var m := d.certified[d.currentRound];
    assert c.mine[h].vertex.author in m.Keys;
    assert |m| == |m.Keys|;
  }

  // With a quorum of one, proposing a round leads straight to the next one.
  lemma NextTurn(env: Env, x: Call) returns (y: Call)
    requires GoodCall(x, env.set_) && Distinct(env.set_) && |env.set_| <= 3
    ensures GoodCall(y, env.set_) && Nests(env, x, y) && y.round == x.round + 1
  {
    ReadyAlone(x.book, env, x.round, x.parents);
    var c, h := Propose(x.book, env, x.round, x.parents).book,
                MakeProposal(x.book, env, x.round, x.parents).vertex.hash;
    CertifiedKeeps(c, env.set_, h);
    var d := Certified(c, h);
    y := Call(d, d.currentRound + 1, ValuesInOrder(d.certified[d.currentRound], Need(env)));
  }

  ghost predicate NestedCalls(env: Env, calls: seq<Call>) {
    forall k :: 0 <= k < |calls| - 1 ==> Nests(env, calls[k], calls[k + 1])
  }

  /** With at most three validators a quorum is one: every proposal certifies itself
      at once, and a call of propose_round nests calls to any depth. */
  lemma {:induction false} NestsForever(env: Env, x: Call, depth: nat) returns (calls: seq<Call>)
    requires GoodCall(x, env.set_) && Distinct(env.set_) && |env.set_| <= 3
    ensures |calls| == depth + 1 && calls[0] == x && NestedCalls(env, calls)
    decreases depth
  {
    hide GoodCall, Nests;
    if depth == 0 {
      calls := [x];
    } else {
      var y := NextTurn(env, x);
      var rest := NestsForever(env, y, depth - 1);
      calls := [x] + rest;
    }
  }
}
