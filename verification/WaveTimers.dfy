/** The slow-path timers of waves in the host's registry, among what other layers do to
    it. */
module WaveTimers {
  import opened Validators
  import opened Certificates
  import opened Dag
  import opened Commit
  import opened Linearize
  import opened Timers
  import Waves

  ghost function WaveOp(a: Waves.Action): seq<Op> {
    match a
    case ScheduleTimer(id, _) => [Schedule(id)]
    case CancelTimer(id) => [Cancel(id)]
    case BroadcastMicroQc(_) => []
  }

  ghost function WaveOps(actions: seq<Waves.Action>): seq<Op> {
    if actions == [] then []
    else WaveOps(actions[..|actions| - 1]) + WaveOp(actions[|actions| - 1])
  }

  lemma {:induction false} WaveOpsAppend(a: seq<Waves.Action>, b: seq<Waves.Action>)
    ensures WaveOps(a + b) == WaveOps(a) + WaveOps(b)
  {
    hide WaveOp;
    if b == [] {
      assert a + b == a;
    } else {
      WaveOpsAppend(a, b[..|b| - 1]);
      assert (a + b)[..|a + b| - 1] == a + b[..|b| - 1];
    }
  }

  lemma WaveOpsOne(a: Waves.Action)
    ensures WaveOps([a]) == WaveOp(a)
  {
    assert [a][..0] == [];
  }

  // The timer of a wave that still waits under the same id is left alone; any other
  // waiting wave's timer has been scheduled, under a new id.
  ghost predicate Kept(b: Waves.Waves, ops: seq<Op>, c: Waves.Waves) {
    && Waves.Paired(c) && b.nextTimer <= c.nextTimer
    && forall w :: w in c.slow ==>
         if w in b.slow && b.slow[w] == c.slow[w] then LastOn(ops, c.slow[w]) == None
         else LastOn(ops, c.slow[w]) == Some(Schedule(c.slow[w])) && c.slow[w] >= b.nextTimer
  }

  lemma KeptJoin(b: Waves.Waves, p: seq<Op>, c: Waves.Waves, q: seq<Op>, d: Waves.Waves)
    requires Waves.Paired(b) && Kept(b, p, c) && Kept(c, q, d)
    ensures Kept(b, p + q, d)
  {
    forall w | w in d.slow
      ensures if w in b.slow && b.slow[w] == d.slow[w] then LastOn(p + q, d.slow[w]) == None
              else LastOn(p + q, d.slow[w]) == Some(Schedule(d.slow[w])) && d.slow[w] >= b.nextTimer
    {
      LastAppend(p, q, d.slow[w]);
    }
  }

  lemma KeptSame(b: Waves.Waves)
    requires Waves.Paired(b)
    ensures Kept(b, [], b)
  {
  }

  lemma WaitKept(b: Waves.Waves, env: Waves.Env, wave: nat)
    requires Waves.Paired(b) && wave !in b.slow && wave !in b.committed
    ensures var s := Waves.Wait(b, env, wave); Kept(b, WaveOps(s.actions), s.book)
  {
    WaveOpsOne(Waves.ScheduleTimer(b.nextTimer, env.delayNanos));
    assert [Schedule(b.nextTimer)][..0] == [];
  }

  lemma CloseKept(b: Waves.Waves, wave: nat)
    requires Waves.Paired(b) && wave !in b.committed
    ensures Kept(b, WaveOps(Waves.Cancels(b, wave)), Waves.Close(b, wave))
  {
    if wave in b.slow {
      WaveOpsOne(Waves.CancelTimer(b.slow[wave]));
      assert [Cancel(b.slow[wave])][..0] == [];
    }
  }

  // Only the timer fields matter.
  lemma KeptFields(b: Waves.Waves, ops: seq<Op>, c: Waves.Waves, d: Waves.Waves)
    requires Kept(b, ops, c) && d == c.(emitted := d.emitted)
    ensures Kept(b, ops, d)
  {
  }

  lemma BroadcastMute(head: seq<Waves.Action>, qc: Waves.MicroQc)
    ensures WaveOps(head + [Waves.BroadcastMicroQc(qc)]) == WaveOps(head)
  {
    WaveOpsAppend(head, [Waves.BroadcastMicroQc(qc)]);
    WaveOpsOne(Waves.BroadcastMicroQc(qc));
    assert WaveOps(head) + [] == WaveOps(head);
  }

  lemma AnnounceKept(b: Waves.Waves, env: Waves.Env, view: View, wave: nat, anchor: Hash)
    requires Injective(env.key) && Waves.Paired(b) && wave !in b.committed
    ensures var s := Waves.Announce(b, env, view, wave, anchor); Kept(b, WaveOps(s.actions), s.book)
  {
    hide Order, Waves.MicroOf, Injective, Kept, Waves.Close, Waves.Cancels, WaveOps, Waves.Paired;
    var c, head := Waves.Close(b, wave), Waves.Cancels(b, wave);
    var qc := Waves.MicroOf(env, view, Order(view, env.key, anchor));
    CloseKept(b, wave);
    if qc.Some? {
      BroadcastMute(head, qc.value);
      KeptFields(b, WaveOps(head), c, Waves.Announce(b, env, view, wave, anchor).book);
    }
  }

  lemma TryEmitKept(b: Waves.Waves, env: Waves.Env, view: View, wave: nat, timedOut: bool)
    requires Injective(env.key) && Waves.Paired(b)
    ensures var s := Waves.TryEmit(b, env, view, wave, timedOut); Kept(b, WaveOps(s.actions), s.book)
  {
    hide Injective, Kept, Waves.Announce, Waves.Decided, Waves.Wait;
    KeptSame(b);
    if wave !in b.committed {
      var d := Waves.Decided(env, view, wave, timedOut);
      if d.Some? { AnnounceKept(b, env, view, wave, d.value); }
      if wave !in b.slow { WaitKept(b, env, wave); }
    }
  }

  lemma {:induction false} LoopKept(b: Waves.Waves, env: Waves.Env, view: View, k: nat)
    requires Injective(env.key) && Waves.Paired(b) && env.set_ != []
    ensures var s := Waves.CertLoop(b, env, view, k); s.ok && Kept(b, WaveOps(s.actions), s.book)
  {
    hide Waves.TryEmit, Injective, Kept;
    if k == 0 {
      KeptSame(b);
    } else {
      LoopKept(b, env, view, k - 1);
      var s := Waves.CertLoop(b, env, view, k - 1);
      KeptPaired(b, WaveOps(s.actions), s.book);
      Waves.NoError(s.book, env, view, k - 1, false);
      TryEmitKept(s.book, env, view, k - 1, false);
      var t := Waves.TryEmit(s.book, env, view, k - 1, false);
      WaveOpsAppend(s.actions, t.actions);
      KeptJoin(b, WaveOps(s.actions), s.book, WaveOps(t.actions), t.book);
    }
  }

  lemma KeptPaired(b: Waves.Waves, ops: seq<Op>, c: Waves.Waves)
    requires Kept(b, ops, c)
    ensures Waves.Paired(c)
  {
  }

  lemma FiredKept(b: Waves.Waves, env: Waves.Env, view: View, id: nat)
    requires Injective(env.key) && Waves.Paired(b) && id in b.byTimer
    ensures var s := Waves.OnTimerFired(b, env, view, id);
            Kept(b, WaveOps(s.actions), s.book)
                && forall w :: w in s.book.slow ==> w in b.slow && s.book.slow[w] == b.slow[w] != id
  {
    hide Injective, Order, Waves.MicroOf, Commits;
    var wave := b.byTimer[id];
    var c := b.(byTimer := b.byTimer - {id}, slow := b.slow - {wave});
    TryEmitKept(c, env, view, wave, true);
  }

  // ---------------------------------------------------------------------
  // Any list of events
  // ---------------------------------------------------------------------

  // One event of the waves among what the other layers do; a task that fires ends.
  ghost function TasksAfter(env: Waves.Env, events: seq<Waves.Event>, others: seq<Others>): Tasks
    requires Injective(env.key) && |others| == |events|
  {
    if events == [] then map[]
    else
      var m := |events| - 1;
      var tasks, e, o := TasksAfter(env, events[..m], others[..m]), events[m], others[m];
      var left := if e.Fired? then tasks - {e.id} else tasks;
      DoAll(DoAll(DoAll(left, Other, o.before), Own,
                  WaveOps(Waves.Handle(Waves.After(env, events[..m]).book, env, e).actions)), Other, o.after)
  }

  // What the other layers have done since the timer that the wave waits for was armed.
  ghost function SinceWave(env: Waves.Env, events: seq<Waves.Event>, others: seq<Others>, wave: nat): seq<Op>
    requires Injective(env.key) && |others| == |events|
  {
    if events == [] then []
    else
      var m := |events| - 1;
      var b, c := Waves.After(env, events[..m]).book, Waves.After(env, events).book;
      if wave in b.slow && wave in c.slow && b.slow[wave] == c.slow[wave]
      then SinceWave(env, events[..m], others[..m], wave) + others[m].before + others[m].after
      else others[m].after
  }

  lemma StepKept(b: Waves.Waves, env: Waves.Env, e: Waves.Event)
    requires Injective(env.key) && Waves.Paired(b) && env.set_ != []
    ensures var s := Waves.Handle(b, env, e);
            Kept(b, WaveOps(s.actions), s.book)
            && (e.Fired? ==> forall w :: w in s.book.slow && w in b.slow && s.book.slow[w] == b.slow[w] ==>
                 b.slow[w] != e.id)
  {
    hide Injective, Waves.CertLoop, Kept, Waves.TryEmit;
    match e
    case Certified(view, round) => LoopKept(b, env, view, round / 4 + 1);
    case Fired(view, id) =>
      if id in b.byTimer {
        FiredKept(b, env, view, id);
      } else {
        KeptSame(b);
      }
  }

  // One step for one waiting wave.
  lemma StepFate(b: Waves.Waves, env: Waves.Env, e: Waves.Event, wave: nat, tasks: Tasks, since: seq<Op>, o: Others)
    requires Injective(env.key) && Waves.Paired(b) && env.set_ != []
    requires wave in b.slow ==> Fate(tasks, b.slow[wave], since)
    requires wave in Waves.Handle(b, env, e).book.slow
    ensures var s := Waves.Handle(b, env, e);
            var left := if e.Fired? then tasks - {e.id} else tasks;
            var after := DoAll(DoAll(DoAll(left, Other, o.before), Own, WaveOps(s.actions)), Other, o.after);
            var same := wave in b.slow && b.slow[wave] == s.book.slow[wave];
            Fate(after, s.book.slow[wave], if same then since + o.before + o.after else o.after)
  {
    hide Injective, Waves.Handle, Fate;
    StepKept(b, env, e);
    var s := Waves.Handle(b, env, e);
    var x := s.book.slow[wave];
    var left := if e.Fired? then tasks - {e.id} else tasks;
    var mid := DoAll(left, Other, o.before);
    if wave in b.slow && b.slow[wave] == x {
      if e.Fired? { OtherEnds(tasks, x, since, e.id); }
      OthersAct(left, x, since, o.before);
      OwnerActs(mid, x, since + o.before, WaveOps(s.actions));
      OthersAct(DoAll(mid, Own, WaveOps(s.actions)), x, since + o.before, o.after);
    } else {
      JustArmed(mid, WaveOps(s.actions), x);
      OthersAct(DoAll(mid, Own, WaveOps(s.actions)), x, [], o.after);
      assert [] + o.after == o.after;
    }
  }

  lemma {:induction false} AfterPaired(env: Waves.Env, events: seq<Waves.Event>)
    requires Injective(env.key) && env.set_ != []
    ensures Waves.Paired(Waves.After(env, events).book)
  {
    hide Injective, Waves.Handle, Kept;
    if events != [] {
      var m := |events| - 1;
      AfterPaired(env, events[..m]);
      var b := Waves.After(env, events[..m]).book;
      StepKept(b, env, events[m]);
      KeptPaired(b, WaveOps(Waves.Handle(b, env, events[m]).actions), Waves.Handle(b, env, events[m]).book);
    }
  }

  lemma {:induction false} WaveFate(env: Waves.Env, events: seq<Waves.Event>, others: seq<Others>, wave: nat)
    requires Injective(env.key) && env.set_ != [] && |others| == |events|
    requires wave in Waves.After(env, events).book.slow
    ensures Fate(TasksAfter(env, events, others), Waves.After(env, events).book.slow[wave],
                 SinceWave(env, events, others, wave))
  {
    hide Injective, Waves.Handle, Fate, Waves.Paired;
    if events != [] {
      var m := |events| - 1;
      var b := Waves.After(env, events[..m]).book;
      AfterPaired(env, events[..m]);
      if wave in b.slow { WaveFate(env, events[..m], others[..m], wave); }
      StepFate(b, env, events[m], wave, TasksAfter(env, events[..m], others[..m]),
               SinceWave(env, events[..m], others[..m], wave), others[m]);
    }
  }

  /** Over every list of events, whatever the other layers of the host do: the slow-path
      timer that a wave waits for will fire exactly when no other layer has cancelled its id
      since it was armed without scheduling it again, and is the wave's own exactly when no
      other layer has used that id at all since then. */
  lemma WaveTimerIsPending(env: Waves.Env, events: seq<Waves.Event>, others: seq<Others>, wave: nat)
    requires Injective(env.key) && env.set_ != [] && |others| == |events|
    requires wave in Waves.After(env, events).book.slow
    ensures var x, tasks := Waves.After(env, events).book.slow[wave], TasksAfter(env, events, others);
            var since := SinceWave(env, events, others, wave);
            && (x in tasks <==> LastOn(since, x) == None || LastOn(since, x).value.Schedule?)
            && (x in tasks && tasks[x] == Own <==> forall o :: o in since ==> o.id != x)
  {
    WaveFate(env, events, others, wave);
  }
}
