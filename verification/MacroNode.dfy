/** The macro-finality state of one validator, updated in place by its handlers
    (macro_fin::mod over macro_fin::book). Every handler is proved to do what the
    function of the same name in MacroFin says. */
module MacroNode {
  import opened Validators
  import opened Signatures
  import opened MacroQcs
  import Spec = MacroFin

  type Env = Spec.Env
  type Action = Spec.Action

  class MacroBook {
    const selfId: Id
    var ring: seq<nat>
    var nextHeight: nat
    var lastHash: MHash
    var candidate: map<nat, Checkpoint>
    var beacons: map<nat, nat>
    var partials: map<MHash, set<Id>>
    var emitted: set<MHash>
    var chain: Spec.TwoChain
    var locks: Spec.Locks
    var suppressed: nat
    var proposed: set<nat>
    var modeB: set<nat>
    var timers: Spec.Timers
    var subnetAggs: map<MHash, map<nat, SubnetAgg>>
    var subnetPartials: map<(MHash, nat), set<Id>>
    var votes: map<Id, seq<Spec.Vote>>
    var sigs: SigBook
    var seen: map<(nat, Id), seq<Spec.Proposal>>
    var rejected: nat
    var unfinalized: nat
    var leakNotified: bool

    function State(): Spec.Book
      reads this
    {
      Spec.Book(selfId, ring, nextHeight, lastHash, candidate, beacons, partials, emitted, chain, locks, suppressed,
                proposed, modeB, timers, subnetAggs, subnetPartials, votes, sigs, seen, rejected, unfinalized,
                leakNotified)
    }

    constructor (id: Id)
      ensures State() == Spec.Fresh(id)
    {
      selfId := id;
      ring, nextHeight, lastHash := [], 0, Zero;
      candidate, beacons, partials, emitted := map[], map[], map[], {};
      chain, locks := Spec.TwoChain(map[], None, None), map[];
      suppressed, proposed, modeB := 0, {}, {};
      timers := Spec.Timers(map[], map[], 0);
      subnetAggs, subnetPartials, votes, sigs, seen := map[], map[], map[], map[], map[];
      rejected, unfinalized, leakNotified := 0, 0, false;
    }

    // -------------------------------------------------------------------
    // Adoption
    // -------------------------------------------------------------------

    method NoteInactivityLeak(env: Env, finalized: bool) returns (actions: seq<Action>)
      modifies this`unfinalized, this`leakNotified
      ensures var leak := Spec.NoteLeak(old(unfinalized), old(leakNotified), env.leakTrigger, finalized);
              unfinalized == leak.windows && leakNotified == leak.notified && actions == leak.actions
    {
      actions := [];
      if finalized {
        unfinalized, leakNotified := 0, false;
        return;
      }
      if unfinalized < Spec.MAX_WINDOWS { unfinalized := unfinalized + 1; } else { unfinalized := Spec.MAX_WINDOWS; }
      if unfinalized >= env.leakTrigger && !leakNotified {
        leakNotified := true;
        actions := [Spec.NotifyLeak(unfinalized)];
      }
    }

    // The end of an adoption: the leak counter, and the height that became final.
    method Finish(env: Env) returns (actions: seq<Action>)
      modifies this`chain, this`unfinalized, this`leakNotified
      ensures Spec.MStep(State(), actions) == Spec.Finish(old(State()), env)
    {
      var newly := Spec.NewlyFinalized(chain);
      actions := NoteInactivityLeak(env, newly.Some?);
      if newly.Some? {
        chain := Spec.MarkFinalized(chain, newly.value);
        if newly.value in candidate {
          actions := actions + [Spec.SetStatus(candidate[newly.value].hash, Spec.Finalized)];
        }
      }
    }

    method MoveHead(cp: Checkpoint, hash: MHash)
      modifies this`emitted, this`chain, this`lastHash
      ensures State() == old(State()).(emitted := old(emitted) + {hash}, chain := Spec.Adopt(old(chain), cp),
                                       lastHash := cp.hash)
    {
      hide Spec.Adopt;
      emitted := emitted + {hash};
      chain := Spec.Adopt(chain, cp);
      lastHash := cp.hash;
    }

    method LeaveHeight(height: nat)
      modifies this`nextHeight, this`proposed, this`timers
      ensures State() == old(State()).(nextHeight := height + 1, proposed := old(proposed) + {height},
                timers := old(timers).(backup := old(timers).backup - {height}, modeB := old(timers).modeB - {height}))
    {
      nextHeight := height + 1;
      proposed := proposed + {height};
      timers := timers.(backup := timers.backup - {height}, modeB := timers.modeB - {height});
    }

    method Advance(cp: Checkpoint, hash: MHash, height: nat)
      modifies this`emitted, this`chain, this`lastHash, this`nextHeight, this`proposed, this`timers
      ensures State() == Spec.Advance(old(State()), cp, hash, height)
    {
      hide Spec.Adopt;
      MoveHead(cp, hash);
      LeaveHeight(height);
    }

    method Adopt(env: Env, cp: Checkpoint, qc: MacroQc, height: nat, head: seq<Action>) returns (actions: seq<Action>)
      modifies this`emitted, this`chain, this`lastHash, this`nextHeight, this`proposed, this`timers
      modifies this`unfinalized, this`leakNotified
      ensures Spec.MStep(State(), actions) == Spec.Adoption(old(State()), env, cp, qc, height, head)
    {
      hide Spec.Advance, Spec.Finish;
      Advance(cp, qc.hash, height);
      var rest := Finish(env);
      actions := head + [Spec.Persist(cp), Spec.PersistQc(qc), Spec.SetStatus(cp.hash, Spec.Justified)] + rest;
    }

    // -------------------------------------------------------------------
    // on_local_micro_qcs
    // -------------------------------------------------------------------

    method NewCandidate(env: Env, window: seq<nat>) returns (cp: Checkpoint)
      modifies this`ring, this`candidate, this`beacons
      ensures State() == Spec.NewCandidate(old(State()), env, window)
      ensures nextHeight in candidate && candidate[nextHeight] == cp
    {
      cp := Build(nextHeight, 0, lastHash, OfRing(window));
      ring := [];
      candidate := candidate[nextHeight := cp];
      beacons := beacons[nextHeight := env.beacon];
    }

    method PushMicro(env: Env, h: nat) returns (actions: seq<Action>)
      modifies this`ring, this`candidate, this`beacons, this`proposed, this`timers
      ensures Spec.MStep(State(), actions) == Spec.PushMicro(old(State()), env, h)
    {
      hide Spec.NewCandidate, Spec.Announce, Spec.ArmModeB, Spec.TurnOf;
      actions := [];
      if |ring| + 1 < env.window {
        ring := ring + [h];
        return;
      }
      var cp := NewCandidate(env, ring + [h]);
      var first := Announce(env, cp);
      var second := ArmModeB(env);
      actions := first + second;
    }

    method Announce(env: Env, cp: Checkpoint) returns (actions: seq<Action>)
      requires nextHeight in candidate && candidate[nextHeight] == cp
      modifies this`proposed, this`timers
      ensures Spec.MStep(State(), actions) == Spec.Announce(old(State()), env, Spec.TurnOf(env, selfId, nextHeight))
    {
      actions := [];
      if env.primary(env.beacon, nextHeight) == selfId {
        var sig := Signed(selfId, MACRO_PROPOSER_SIG, ProposerMsg(selfId, cp.hash));
        actions := [Spec.SendProposal(Spec.Proposal(cp, selfId, env.prove(env.beacon, cp.height), sig))];
        proposed := proposed + {nextHeight};
      } else if env.backup(env.beacon, nextHeight) == selfId {
        actions := [Spec.ScheduleTimer(timers.next, env.delay)];
        timers := timers.(backup := timers.backup[nextHeight := timers.next], next := timers.next + 1);
      }
    }

    method ArmModeB(env: Env) returns (actions: seq<Action>)
      modifies this`timers
      ensures Spec.MStep(State(), actions) == Spec.ArmModeB(old(State()), env)
    {
      actions := [];
      if !env.forceKe {
        actions := [Spec.ScheduleTimer(timers.next, 2 * env.delay)];
        timers := timers.(modeB := timers.modeB[nextHeight := timers.next], next := timers.next + 1);
      }
    }

    method OnLocalMicroQcs(env: Env, hashes: seq<nat>) returns (actions: seq<Action>)
      modifies this
      ensures Spec.MStep(State(), actions) == Spec.OnLocalMicroQcs(old(State()), env, hashes)
    {
      hide Spec.PushMicro;
      actions := [];
      for k := 0 to |hashes|
        invariant Spec.MStep(State(), actions) == Spec.OnLocalMicroQcs(old(State()), env, hashes[..k])
      {
        assert hashes[..k + 1][..k] == hashes[..k];
        var more := PushMicro(env, hashes[k]);
        actions := actions + more;
      }
      assert hashes[..|hashes|] == hashes;
    }

    // -------------------------------------------------------------------
    // on_macro_proposal
    // -------------------------------------------------------------------

    method OnMacroProposal(env: Env, p: Spec.Proposal) returns (actions: seq<Action>)
      modifies this
      ensures Spec.MStep(State(), actions) == Spec.OnMacroProposal(old(State()), env, p)
    {
      hide Spec.VerifyProposal, Spec.ConsiderVote;
      actions := [];
      var height, key := p.cp.height, (p.cp.height, p.proposer);
      if height !in beacons {
        beacons := beacons[height := env.beacon];
      }
      assert State() == Spec.NoteBeacon(old(State()), env, height);
      var beacon := beacons[height];
      if !Spec.VerifyProposal(env, p, beacon) {
        rejected := rejected + 1;
        return;
      }
      var before := if key in seen then seen[key] else [];
      if exists q :: q in before && q.cp.hash != p.cp.hash {
        actions := [Spec.EmitEvidence(p.proposer, Spec.MacroEquivocation(before[0], p))];
        return;
      }
      if before != [] {
        return;
      }
      seen := seen[key := [p]];
      actions := ConsiderVote(env, p, beacon);
    }

    method ConsiderVote(env: Env, p: Spec.Proposal, beacon: nat) returns (actions: seq<Action>)
      modifies this
      ensures Spec.MStep(State(), actions) == Spec.ConsiderVote(old(State()), env, p, beacon)
    {
      hide Spec.CastVote, Spec.AnnounceVote, Spec.TryLock;
      actions := [];
      var height := p.cp.height;
      var mode := if height in modeB then ModeBLeaderless else if env.modeA then ModeASubnet else Mode0Flat;
      if mode != ModeBLeaderless && p.proposer != env.primary(beacon, height)
          && p.proposer != env.backup(beacon, height) {
        return;
      }
      if p.cp.parent != lastHash {
        return;
      }
      if height !in candidate || candidate[height].root != p.cp.root || candidate[height].hash != p.cp.hash {
        return;
      }
      var lock := Spec.TryLock(locks, selfId, height, p.cp.hash);
      if lock == None {
        suppressed := suppressed + 1;
        return;
      }
      CastVote(p.cp, lock.value);
      actions := AnnounceVote(env, p.cp, mode, beacon);
    }

    method LockOn(cp: Checkpoint, lock: Spec.Locks)
      modifies this`locks, this`proposed, this`timers
      ensures State() == old(State()).(locks := lock, proposed := old(proposed) + {cp.height},
                                       timers := old(timers).(backup := old(timers).backup - {cp.height}))
    {
      locks := lock;
      proposed := proposed + {cp.height};
      timers := timers.(backup := timers.backup - {cp.height});
    }

    method RecordVote(cp: Checkpoint)
      modifies this`chain, this`candidate, this`votes
      ensures State() == old(State()).(chain := Spec.Adopt(old(chain), cp),
                                       candidate := old(candidate)[cp.height := cp],
                votes := old(votes)[selfId := Spec.VotesOf(old(votes), selfId) + [Spec.MakeVote(old(State()), cp)]])
    {
      hide Spec.Adopt, Spec.VotesOf;
      chain := Spec.Adopt(chain, cp);
      candidate := candidate[cp.height := cp];
      var source := if cp.height == 0 then 0 else cp.height - 1;
      var vote := Spec.Vote(source, cp.height, cp.hash,
                            Signed(selfId, MACRO_VOTE, VoteMsg(source, cp.height, cp.hash)));
      votes := votes[selfId := Spec.VotesOf(votes, selfId) + [vote]];
    }

    method StoreOwnPartial(cp: Checkpoint)
      modifies this`partials, this`sigs
      ensures State()
              == old(State()).(partials := old(partials)[cp.hash := Spec.PartialsOf(old(partials), cp.hash) + {selfId}],
                               sigs := old(sigs)[(cp.hash, selfId) := PartialSig(selfId, cp)])
    {
      hide Spec.PartialsOf;
      partials := partials[cp.hash := Spec.PartialsOf(partials, cp.hash) + {selfId}];
      sigs := sigs[(cp.hash, selfId) := PartialSig(selfId, cp)];
    }

    method CastVote(cp: Checkpoint, lock: Spec.Locks)
      modifies this`locks, this`proposed, this`timers, this`chain, this`candidate, this`partials, this`votes, this`sigs
      ensures State() == Spec.CastVote(old(State()), cp, lock)
    {
      hide Spec.Adopt, Spec.PartialsOf, Spec.VotesOf, Spec.MakeVote, MacroQcs.PartialSig;
      LockOn(cp, lock);
      assert Spec.MakeVote(State(), cp) == Spec.MakeVote(old(State()), cp) by { SameVote(State(), old(State()), cp); }
      RecordVote(cp);
      StoreOwnPartial(cp);
    }

    method AnnounceVote(env: Env, cp: Checkpoint, mode: Mode, beacon: nat) returns (actions: seq<Action>)
      modifies this`subnetPartials
      ensures Spec.MStep(State(), actions) == Spec.AnnounceVote(old(State()), env, cp, mode, beacon)
    {
      hide Spec.AggregateActions, Spec.SelfCheck;
      var subnet := env.subnet(beacon, selfId);
      var bp := BlsPartial(if mode == ModeASubnet then subnet else 0, selfId, cp.hash, PartialSig(selfId, cp));
      actions := Spec.SelfCheck(votes, selfId) + [Spec.SendPartial(bp), Spec.SetStatus(cp.hash, Spec.SoftConfirmed)];
      var extra: seq<Action> := [];
      if mode == ModeASubnet {
        subnetPartials := subnetPartials[(cp.hash, subnet) :=
          (if (cp.hash, subnet) in subnetPartials then subnetPartials[(cp.hash, subnet)] else {}) + {selfId}];
        extra := SendAggregate(env, beacon, cp.hash, subnet);
      }
      actions := actions + extra;
    }

    // Builds the subnet aggregate and sends it if this node is the aggregator.
    method SendAggregate(env: Env, beacon: nat, hash: MHash, subnet: nat) returns (actions: seq<Action>)
      ensures actions == Spec.AggregateActions(State(), env, beacon, hash, subnet)
    {
      hide MacroQcs.BuildAggregate;
      var signers := if (hash, subnet) in subnetPartials then subnetPartials[(hash, subnet)] else {};
      var agg := TryBuildAggregate(hash, subnet, signers, env.set_, (v: Id) => env.subnet(beacon, v) == subnet, sigs);
      actions := [];
      var members := Spec.SubnetMembers(env, beacon, subnet);
      if agg.Some? && members != {} && Minimum(members) == selfId {
        actions := [Spec.SendSubnetAgg(agg.value)];
      }
    }

    // -------------------------------------------------------------------
    // on_bls_partial
    // -------------------------------------------------------------------

    method TryModeA(env: Env, hash: MHash, height: nat) returns (actions: seq<Action>)
      requires height in candidate
      modifies this
      ensures Spec.MStep(State(), actions) == Spec.TryModeA(old(State()), env, hash, height)
    {
      hide Spec.Adoption, MacroQcs.ModeAQc;
      actions := [];
      var beacon := if height in beacons then beacons[height] else env.beacon;
      if height in modeB || selfId != env.primary(beacon, height) {
        return;
      }
      var qc := TryFinalizeModeA(hash, if hash in subnetAggs then subnetAggs[hash] else map[], env.set_, sigs);
      if qc == None || hash in emitted {
        return;
      }
      actions := Adopt(env, candidate[height], qc.value, height, [Spec.SendQc(qc.value)]);
    }

    method SubnetPath(env: Env, bp: BlsPartial, height: nat) returns (actions: seq<Action>)
      requires height in candidate
      modifies this
      ensures Spec.MStep(State(), actions) == Spec.SubnetPath(old(State()), env, bp, height)
    {
      hide Spec.TryModeA, Spec.AggregateActions;
      var key := (bp.hash, bp.subnet);
      subnetPartials := subnetPartials[key := (if key in subnetPartials then subnetPartials[key] else {})
                                       + {bp.validator}];
      partials := partials[bp.hash := Spec.PartialsOf(partials, bp.hash) + {bp.validator}];
      var beacon := if height in beacons then beacons[height] else env.beacon;
      actions := SendAggregate(env, beacon, bp.hash, bp.subnet);
      if selfId == env.primary(beacon, height) {
        var more := TryModeA(env, bp.hash, height);
        actions := actions + more;
      }
    }

    method FlatPath(env: Env, bp: BlsPartial, height: nat, mode: Mode) returns (actions: seq<Action>)
      requires height in candidate
      modifies this
      ensures Spec.MStep(State(), actions) == Spec.FlatPath(old(State()), env, bp, height, mode)
    {
      hide Spec.Adoption, MacroQcs.Mode0Qc;
      actions := [];
      if mode == Mode0Flat && bp.subnet != 0 {
        return;
      }
      partials := partials[bp.hash := Spec.PartialsOf(partials, bp.hash) + {bp.validator}];
      assert State() == Spec.AddPartial(old(State()), bp.hash, bp.validator);
      var signers := partials[bp.hash];
      assert bp.validator in signers;
      if Minimum(signers) != selfId {
        return;
      }
      var qc := TryFinalizeMode0(bp.hash, signers, sigs, env.set_, mode);
      if qc.Some? {
        actions := Adopt(env, candidate[height], qc.value, height, [Spec.SendQc(qc.value)]);
      }
    }

    method OnBlsPartial(env: Env, bp: BlsPartial) returns (actions: seq<Action>)
      modifies this
      ensures Spec.MStep(State(), actions) == Spec.OnBlsPartial(old(State()), env, bp)
    {
      hide Spec.SubnetPath, Spec.FlatPath, MacroQcs.VerifyPartial, Spec.CandidateHeight, Spec.ActiveMode;
      actions := [];
      var found := Spec.CandidateHeight(State(), bp.hash);
      if found == None {
        return;
      }
      CandidateFound(State(), bp.hash);
      if !VerifyPartial(env.set_, bp, candidate[found.value]) {
        rejected := rejected + 1;
        return;
      }
      actions := AcceptPartial(env, bp, found.value);
    }

    // Stores a verified partial, and counts it while its checkpoint is open.
    method AcceptPartial(env: Env, bp: BlsPartial, height: nat) returns (actions: seq<Action>)
      requires height in candidate && Spec.CandidateHeight(State(), bp.hash) == Some(height)
      requires VerifyPartial(env.set_, bp, candidate[height])
      modifies this
      ensures Spec.MStep(State(), actions) == Spec.OnBlsPartial(old(State()), env, bp)
    {
      hide Spec.SubnetPath, Spec.FlatPath, MacroQcs.VerifyPartial, Spec.CandidateHeight, Spec.ActiveMode;
      actions := [];
      StoreSig(bp);
      if bp.hash !in emitted {
        actions := Count(env, bp, height);
      }
    }

    method StoreSig(bp: BlsPartial)
      modifies this`sigs
      ensures State() == old(State()).(sigs := old(sigs)[(bp.hash, bp.validator) := bp.sig])
    {
      sigs := sigs[(bp.hash, bp.validator) := bp.sig];
    }

    method Count(env: Env, bp: BlsPartial, height: nat) returns (actions: seq<Action>)
      requires height in candidate
      modifies this
      ensures var mode := Spec.ActiveMode(old(State()), env, height);
              Spec.MStep(State(), actions) == if mode == ModeASubnet then Spec.SubnetPath(old(State()), env, bp, height)
                                              else Spec.FlatPath(old(State()), env, bp, height, mode)
    {
      hide Spec.SubnetPath, Spec.FlatPath;
      var mode := if height in modeB then ModeBLeaderless else if env.modeA then ModeASubnet else Mode0Flat;
      if mode == ModeASubnet {
        actions := SubnetPath(env, bp, height);
      } else {
        actions := FlatPath(env, bp, height, mode);
      }
    }

    // -------------------------------------------------------------------
    // on_macro_qc_received, on_subnet_aggregate, on_timer_fired
    // -------------------------------------------------------------------

    method OnMacroQc(env: Env, qc: MacroQc) returns (actions: seq<Action>)
      modifies this
      ensures Spec.MStep(State(), actions) == Spec.OnMacroQc(old(State()), env, qc)
    {
      hide Spec.Adoption, MacroQcs.VerifyMacroQc, Spec.CandidateHeight;
      actions := [];
      if qc.hash in emitted {
        return;
      }
      var found := Spec.CandidateHeight(State(), qc.hash);
      if found == None {
        return;
      }
      CandidateFound(State(), qc.hash);
      if !VerifyMacroQc(env.set_, qc, candidate[found.value]) {
        rejected := rejected + 1;
        return;
      }
      actions := Adopt(env, candidate[found.value], qc, found.value, []);
    }

    method OnSubnetAggregate(env: Env, agg: SubnetAgg) returns (actions: seq<Action>)
      modifies this
      ensures Spec.MStep(State(), actions) == Spec.OnSubnetAggregate(old(State()), env, agg)
    {
      hide Spec.TryModeA, MacroQcs.VerifySubnetAgg, Spec.CandidateHeight;
      actions := [];
      var found := Spec.CandidateHeight(State(), agg.hash);
      if found == None {
        return;
      }
      CandidateFound(State(), agg.hash);
      actions := CheckAggregate(env, agg, found.value);
    }

    method CheckAggregate(env: Env, agg: SubnetAgg, height: nat) returns (actions: seq<Action>)
      requires height in candidate && Spec.CandidateHeight(State(), agg.hash) == Some(height)
      modifies this
      ensures Spec.MStep(State(), actions) == Spec.OnSubnetAggregate(old(State()), env, agg)
    {
      hide Spec.TryModeA, MacroQcs.VerifySubnetAgg, Spec.CandidateHeight;
      actions := [];
      if !VerifySubnetAgg(env.set_, agg, candidate[height], sigs) {
        rejected := rejected + 1;
        return;
      }
      StoreAggregate(agg);
      actions := TryModeA(env, agg.hash, height);
    }

    method StoreAggregate(agg: SubnetAgg)
      modifies this`subnetAggs
      ensures var aggs := if agg.hash in old(subnetAggs) then old(subnetAggs)[agg.hash] else map[];
              State() == old(State()).(subnetAggs := old(subnetAggs)[agg.hash := aggs[agg.subnet := agg]])
    {
      var aggs := if agg.hash in subnetAggs then subnetAggs[agg.hash] else map[];
      subnetAggs := subnetAggs[agg.hash := aggs[agg.subnet := agg]];
    }

    method BackupPropose(env: Env, height: nat) returns (actions: seq<Action>)
      modifies this`timers, this`proposed
      ensures Spec.MStep(State(), actions) == Spec.BackupPropose(old(State()), env, height)
    {
      actions := [];
      timers := timers.(backup := timers.backup - {height});
      if height in proposed || height !in candidate {
        return;
      }
      var beacon := if height in beacons then beacons[height] else env.beacon;
      if env.backup(beacon, height) == selfId {
        var cp := candidate[height];
        var sig := Signed(selfId, MACRO_PROPOSER_SIG, ProposerMsg(selfId, cp.hash));
        actions := [Spec.SendProposal(Spec.Proposal(cp, selfId, env.prove(beacon, cp.height), sig))];
        proposed := proposed + {height};
      }
    }

    method ModeBVote(env: Env, height: nat) returns (actions: seq<Action>)
      modifies this`locks, this`partials, this`sigs
      ensures Spec.MStep(State(), actions) == Spec.ModeBVote(old(State()), env, height)
    {
      hide Spec.TryLock;
      actions := [];
      if height !in modeB || height !in candidate {
        return;
      }
      var cp := candidate[height];
      var lock := Spec.TryLock(locks, selfId, height, cp.hash);
      if lock.Some? {
        locks := lock.value;
        StoreOwnPartial(cp);
        actions := [Spec.SendPartial(BlsPartial(0, selfId, cp.hash, PartialSig(selfId, cp)))];
      }
    }

    method ModeBDeadline(env: Env, height: nat) returns (actions: seq<Action>)
      modifies this
      ensures Spec.MStep(State(), actions) == Spec.ModeBDeadline(old(State()), env, height)
    {
      hide Spec.ModeBVote;
      timers := timers.(modeB := timers.modeB - {height});
      if !(height in candidate && candidate[height].hash in emitted) {
        modeB := modeB + {height};
      }
      actions := ModeBVote(env, height);
    }

    method OnTimerFired(env: Env, id: nat) returns (actions: seq<Action>)
      modifies this
      ensures Spec.MStep(State(), actions) == Spec.OnTimerFired(old(State()), env, id)
    {
      hide Spec.BackupPropose, Spec.ModeBDeadline, Spec.HeightFor;
      actions := [];
      var x, y := Spec.HeightFor(timers.backup, id), Spec.HeightFor(timers.modeB, id);
      if x.Some? {
        actions := BackupPropose(env, x.value);
      } else if y.Some? {
        actions := ModeBDeadline(env, y.value);
      }
    }
  }

  lemma SameVote(b: Spec.Book, c: Spec.Book, cp: Checkpoint)
    requires b.selfId == c.selfId
    ensures Spec.MakeVote(b, cp) == Spec.MakeVote(c, cp)
  {
  }

  lemma CandidateFound(b: Spec.Book, hash: MHash)
    requires Spec.CandidateHeight(b, hash).Some?
    ensures Spec.CandidateHeight(b, hash).value in b.candidate
  {
  }
}
