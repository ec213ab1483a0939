/** The host's timer registry (apps/node/src/timer.rs): one table of running tasks, keyed
    by the timer id alone, for all the layers that schedule and cancel. */
module Timers {
  import opened Validators

  // Who scheduled a running task.
  datatype Owner = Own | Other

  datatype Op = Schedule(id: nat) | Cancel(id: nat)

  type Tasks = map<nat, Owner>

  // Scheduling aborts the running task of the same id, whoever's it is, and so does
  // cancelling.
  function Do(tasks: Tasks, who: Owner, op: Op): Tasks {
    match op
    case Schedule(id) => tasks[id := who]
    case Cancel(id) => tasks - {id}
  }

  function DoAll(tasks: Tasks, who: Owner, ops: seq<Op>): Tasks {
    if ops == [] then tasks else Do(DoAll(tasks, who, ops[..|ops| - 1]), who, ops[|ops| - 1])
  }

  // The last operation that names the id.
  function LastOn(ops: seq<Op>, id: nat): (r: Option<Op>)
    ensures r == None <==> forall o :: o in ops ==> o.id != id
    ensures r.Some? ==> r.value in ops && r.value.id == id
  {
    if ops == [] then None
    else if ops[|ops| - 1].id == id then Some(ops[|ops| - 1])
    else LastOn(ops[..|ops| - 1], id)
  }

  lemma {:induction false} LastAppend(a: seq<Op>, b: seq<Op>, id: nat)
    ensures LastOn(a + b, id) == if LastOn(b, id).Some? then LastOn(b, id) else LastOn(a, id)
  {
    if b == [] {
      assert a + b == a;
    } else {
      LastAppend(a, b[..|b| - 1], id);
      assert (a + b)[..|a + b| - 1] == a + b[..|b| - 1];
    }
  }

  lemma {:induction false} DoAppend(tasks: Tasks, who: Owner, a: seq<Op>, b: seq<Op>)
    ensures DoAll(tasks, who, a + b) == DoAll(DoAll(tasks, who, a), who, b)
  {
    if b == [] {
      assert a + b == a;
    } else {
      DoAppend(tasks, who, a, b[..|b| - 1]);
      assert (a + b)[..|a + b| - 1] == a + b[..|b| - 1];
    }
  }

  /** What is running under an id after a list of operations depends on the last of them
      that names it. */
  lemma {:induction false} LastDecides(tasks: Tasks, who: Owner, ops: seq<Op>, id: nat)
    ensures var after, last := DoAll(tasks, who, ops), LastOn(ops, id);
            && (last == None ==> (id in after <==> id in tasks) && (id in tasks ==> after[id] == tasks[id]))
            && (last.Some? ==> (id in after <==> last.value.Schedule?) && (id in after ==> after[id] == who))
  {
    if ops != [] { LastDecides(tasks, who, ops[..|ops| - 1], id); }
  }

  // A task that its owner armed, and what the other layers did since: `since` are their
  // operations, in order.
  ghost predicate Fate(tasks: Tasks, id: nat, since: seq<Op>) {
    && (id in tasks <==> LastOn(since, id) == None || LastOn(since, id).value.Schedule?)
    && (id in tasks ==> (tasks[id] == Own <==> LastOn(since, id) == None))
  }

  // More operations of other layers.
  lemma OthersAct(tasks: Tasks, id: nat, since: seq<Op>, ops: seq<Op>)
    requires Fate(tasks, id, since)
    ensures Fate(DoAll(tasks, Other, ops), id, since + ops)
  {
    LastDecides(tasks, Other, ops, id);
    LastAppend(since, ops, id);
  }

  lemma JustArmed(tasks: Tasks, ops: seq<Op>, id: nat)
    requires LastOn(ops, id) == Some(Schedule(id))
    ensures Fate(DoAll(tasks, Own, ops), id, [])
  {
    LastDecides(tasks, Own, ops, id);
  }

  // The owner itself does other things.
  lemma OwnerActs(tasks: Tasks, id: nat, since: seq<Op>, ops: seq<Op>)
    requires Fate(tasks, id, since) && LastOn(ops, id) == None
    ensures Fate(DoAll(tasks, Own, ops), id, since)
  {
    LastDecides(tasks, Own, ops, id);
  }

  lemma OtherEnds(tasks: Tasks, id: nat, since: seq<Op>, fired: nat)
    requires Fate(tasks, id, since) && fired != id
    ensures Fate(tasks - {fired}, id, since)
  {
  }

  // The owner's tasks are none but this one.
  ghost predicate OneOwn(tasks: Tasks, timer: Option<nat>) {
    forall k :: k in tasks && tasks[k] == Own ==> timer == Some(k)
  }

  lemma OthersOne(tasks: Tasks, timer: Option<nat>, ops: seq<Op>)
    requires OneOwn(tasks, timer)
    ensures OneOwn(DoAll(tasks, Other, ops), timer)
  {
    var after := DoAll(tasks, Other, ops);
    forall k | k in after && after[k] == Own ensures timer == Some(k) { LastDecides(tasks, Other, ops, k); }
  }

  // What the other layers of the same host do to timers around a step: in the order of
  // the state machine they come after vertex certification and around the waves for
  // certificates, and before or after them for timers.
  datatype Others = Others(before: seq<Op>, after: seq<Op>)
}
