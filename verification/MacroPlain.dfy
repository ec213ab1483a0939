/** Macro finality when every checkpoint on the wire is in epoch 0, as nodes build
    them: then a hash stands for one checkpoint, and what a node assembles verifies. */
module MacroPlain {
  import opened Validators
  import opened Signatures
  import opened MacroQcs
  import opened MacroFin
  import opened MacroInvariant
  import opened MacroSteps

  ghost predicate PlainSig(sigs: SigBook, k: SigKey)
    requires k in sigs
  {
    exists cp :: Plain(cp) && cp.hash == k.0 && sigs[k] == PartialSig(k.1, cp)
  }

  ghost predicate PlainCandidates(cands: map<nat, Checkpoint>) {
    forall h :: h in cands ==> cands[h].epoch == 0
  }

  ghost predicate PlainSigs(sigs: SigBook) {
    forall k :: k in sigs ==> PlainSig(sigs, k)
  }

  ghost predicate AllPlain(b: Book) {
    PlainCandidates(b.candidate) && PlainSigs(b.sigs)
  }

  ghost predicate PlainWire(e: Event) {
    e.ProposalReceived? ==> e.proposal.cp.epoch == 0
  }

  lemma PlainSame(x: Checkpoint, y: Checkpoint)
    requires Plain(x) && Plain(y) && x.hash == y.hash
    ensures x == y
  {
  }

  lemma AddPlainSig(sigs: SigBook, v: Id, cp: Checkpoint)
    requires PlainSigs(sigs) && Plain(cp)
    ensures PlainSigs(sigs[(cp.hash, v) := PartialSig(v, cp)])
  {
    var more := sigs[(cp.hash, v) := PartialSig(v, cp)];
    forall k | k in more ensures PlainSig(more, k) {
      if k != (cp.hash, v) { assert PlainSig(sigs, k); }
    }
  }

  // ---------------------------------------------------------------------
  // Every handler keeps it
  // ---------------------------------------------------------------------

  lemma AdoptionPlain(b: Book, env: Env, cp: Checkpoint, qc: MacroQc, height: nat, head: seq<Action>)
    ensures var c := Adoption(b, env, cp, qc, height, head).book; c.candidate == b.candidate && c.sigs == b.sigs
  {
  }

  lemma PushMicroPlain(b: Book, env: Env, h: nat)
    requires AllPlain(b)
    ensures AllPlain(PushMicro(b, env, h).book)
  {
    hide AllPlain, MacroFin.NewCandidate, MacroFin.Announce, MacroFin.ArmModeB, MacroFin.TurnOf;
    var ring := b.ring + [h];
    if |ring| >= env.window {
      var c, turn := NewCandidate(b, env, ring), TurnOf(env, b.selfId, b.nextHeight);
      NewCandidatePlain(b, env, ring);
      AnnouncePlain(c, env, turn);
      ArmPlain(Announce(c, env, turn).book, env);
    } else {
      SamePlain(b, b.(ring := ring));
    }
  }

  lemma NewCandidatePlain(b: Book, env: Env, ring: seq<nat>)
    requires AllPlain(b)
    ensures AllPlain(NewCandidate(b, env, ring)) && b.nextHeight in NewCandidate(b, env, ring).candidate
    ensures NewCandidate(b, env, ring).nextHeight == b.nextHeight
  {
    hide PlainSigs;
  }

  lemma AnnouncePlain(b: Book, env: Env, turn: Turn)
    requires AllPlain(b) && b.nextHeight in b.candidate
    ensures AllPlain(Announce(b, env, turn).book)
  {
    hide PlainSigs, PlainCandidates;
  }

  lemma ArmPlain(b: Book, env: Env)
    requires AllPlain(b)
    ensures AllPlain(ArmModeB(b, env).book)
  {
    hide PlainSigs, PlainCandidates;
  }

  lemma {:induction false} MicroQcsPlain(b: Book, env: Env, hashes: seq<nat>)
    requires AllPlain(b)
    ensures AllPlain(OnLocalMicroQcs(b, env, hashes).book)
  {
    hide AllPlain, MacroFin.PushMicro;
    if hashes != [] {
      var m := |hashes| - 1;
      MicroQcsPlain(b, env, hashes[..m]);
      PushMicroPlain(OnLocalMicroQcs(b, env, hashes[..m]).book, env, hashes[m]);
    }
  }

  lemma VotePlain(b: Book, env: Env, cp: Checkpoint, locks: Locks, mode: Mode, beacon: nat)
    requires AllPlain(b) && Plain(cp)
    ensures AllPlain(AnnounceVote(CastVote(b, cp, locks), env, cp, mode, beacon).book)
  {
    hide PlainSigs, MacroFin.Adopt, MacroFin.MakeVote;
    CastVoteIs(b, cp, locks);
    AnnounceCore(CastVote(b, cp, locks), env, cp, mode, beacon);
    AddPlainSig(b.sigs, b.selfId, cp);
  }

  lemma ConsiderPlain(b: Book, env: Env, p: Proposal, beacon: nat)
    requires BookInv(b, env.set_) && LinkIntact(p.cp) && p.cp.epoch == 0 && AllPlain(b)
    ensures AllPlain(ConsiderVote(b, env, p, beacon).book)
  {
    hide BookInv, AllPlain, MacroFin.Acceptable, MacroFin.CastVote, MacroFin.AnnounceVote, MacroFin.TryLock;
    hide MacroFin.ActiveMode;
    var lock := TryLock(b.locks, b.selfId, p.cp.height, p.cp.hash);
    if Acceptable(b, env, p, beacon) && lock.Some? {
      AcceptableNext(b, env, p, beacon);
      VotePlain(b, env, p.cp, lock.value, ActiveMode(b, env, p.cp.height), beacon);
    } else {
      SamePlain(b, b.(suppressed := b.suppressed + 1));
    }
  }

  lemma SamePlain(b: Book, c: Book)
    requires AllPlain(b) && c.candidate == b.candidate && c.sigs == b.sigs
    ensures AllPlain(c)
  {
  }

  lemma ProposalPlain(b: Book, env: Env, p: Proposal)
    requires BookInv(b, env.set_) && LinkIntact(p.cp) && p.cp.epoch == 0 && AllPlain(b)
    ensures AllPlain(OnMacroProposal(b, env, p).book)
  {
    hide BookInv, AllPlain, MacroFin.ConsiderVote, MacroFin.VerifyProposal;
    var c, key := NoteBeacon(b, env, p.cp.height), (p.cp.height, p.proposer);
    var beacon := BeaconFor(c, env, p.cp.height);
    var d := c.(seen := c.seen[key := [p]]);
    SameInv(b, d, env.set_);
    SamePlain(b, c);
    SamePlain(b, c.(rejected := c.rejected + 1));
    SamePlain(b, d);
    ConsiderPlain(d, env, p, beacon);
  }

  // Storing a partial verified against a candidate.
  lemma StorePlain(b: Book, env: Env, bp: BlsPartial, h: nat)
    requires BookInv(b, env.set_) && AllPlain(b) && h in b.candidate && VerifyPartial(env.set_, bp, b.candidate[h])
    ensures PlainSigs(b.sigs[(bp.hash, bp.validator) := bp.sig])
  {
    CandidateSound(b, env.set_, h);
    hide BookInv, PlainSigs, PlainSig;
    AddPlainSig(b.sigs, bp.validator, b.candidate[h]);
  }

  lemma TryModeAPlain(b: Book, env: Env, hash: MHash, height: nat)
    requires height in b.candidate
    ensures var c := TryModeA(b, env, hash, height).book; c.candidate == b.candidate && c.sigs == b.sigs
  {
    hide MacroFin.Adoption, MacroQcs.ModeAQc;
    var qc := ModeAQc(hash, if hash in b.subnetAggs then b.subnetAggs[hash] else map[], env.set_, b.sigs);
    if qc.Some? { AdoptionPlain(b, env, b.candidate[height], qc.value, height, [SendQc(qc.value)]); }
  }

  lemma SubnetPathPlain(b: Book, env: Env, bp: BlsPartial, height: nat)
    requires height in b.candidate
    ensures var c := SubnetPath(b, env, bp, height).book; c.candidate == b.candidate && c.sigs == b.sigs
  {
    hide MacroFin.TryModeA, MacroFin.AggregateActions;
    TryModeAPlain(AddPartial(AddSubnetPartial(b, bp.hash, bp.subnet, bp.validator), bp.hash, bp.validator), env,
                  bp.hash, height);
  }

  lemma FlatPathPlain(b: Book, env: Env, bp: BlsPartial, height: nat, mode: Mode)
    requires height in b.candidate
    ensures var c := FlatPath(b, env, bp, height, mode).book; c.candidate == b.candidate && c.sigs == b.sigs
  {
    hide MacroFin.Adoption, MacroQcs.Mode0Qc;
    var c := AddPartial(b, bp.hash, bp.validator);
    var qc := Mode0Qc(bp.hash, PartialsOf(c.partials, bp.hash), c.sigs, env.set_, mode);
    if qc.Some? { AdoptionPlain(c, env, c.candidate[height], qc.value, height, [SendQc(qc.value)]); }
  }

  lemma PartialPlain(b: Book, env: Env, bp: BlsPartial)
    requires BookInv(b, env.set_) && AllPlain(b)
    ensures AllPlain(OnBlsPartial(b, env, bp).book)
  {
    hide BookInv, PlainSigs, MacroFin.SubnetPath, MacroFin.FlatPath, MacroFin.ActiveMode, MacroQcs.VerifyPartial;
    hide MacroFin.CandidateHeight;
    var found := CandidateHeight(b, bp.hash);
    if found.Some? {
      CandidateIs(b, bp.hash);
      var h, c := found.value, b.(sigs := b.sigs[(bp.hash, bp.validator) := bp.sig]);
      if VerifyPartial(env.set_, bp, b.candidate[h]) {
        StorePlain(b, env, bp, h);
        SubnetPathPlain(c, env, bp, h);
        FlatPathPlain(c, env, bp, h, ActiveMode(c, env, h));
      }
    }
  }

  lemma QcPlain(b: Book, env: Env, qc: MacroQc)
    requires AllPlain(b)
    ensures AllPlain(OnMacroQc(b, env, qc).book)
  {
    hide PlainSigs, MacroFin.Adoption, MacroQcs.VerifyMacroQc, MacroFin.CandidateHeight;
    if CandidateHeight(b, qc.hash).Some? {
      CandidateIs(b, qc.hash);
      var h := CandidateHeight(b, qc.hash).value;
      AdoptionPlain(b, env, b.candidate[h], qc, h, []);
    }
  }

  lemma SubnetPlain(b: Book, env: Env, agg: SubnetAgg)
    requires AllPlain(b)
    ensures AllPlain(OnSubnetAggregate(b, env, agg).book)
  {
    hide AllPlain, MacroFin.TryModeA, MacroFin.StoreAgg, MacroQcs.VerifySubnetAgg, MacroFin.CandidateHeight;
    if CandidateHeight(b, agg.hash).Some? {
      CandidateIs(b, agg.hash);
      var h, c := CandidateHeight(b, agg.hash).value, StoreAgg(b, agg);
      StoreAggPlain(b, agg);
      SamePlain(b, b.(rejected := b.rejected + 1));
      TryModeAPlain(c, env, agg.hash, h);
      SamePlain(b, TryModeA(c, env, agg.hash, h).book);
    }
  }

  lemma StoreAggPlain(b: Book, agg: SubnetAgg)
    ensures var c := StoreAgg(b, agg); c.candidate == b.candidate && c.sigs == b.sigs
  {
  }

  lemma ModeBVotePlain(b: Book, env: Env, h: nat, set_: ValidatorSet)
    requires BookInv(b, set_) && AllPlain(b)
    ensures AllPlain(ModeBVote(b, env, h).book)
  {
    hide BookInv, PlainSigs, MacroFin.TryLock, MacroFin.OwnPartial;
    if h in b.candidate {
      CandidateSound(b, set_, h);
      AddPlainSig(b.sigs, b.selfId, b.candidate[h]);
    }
  }

  lemma ExpireInv(b: Book, set_: ValidatorSet, h: nat)
    requires BookInv(b, set_)
    ensures BookInv(Expire(b, h), set_)
  {
    TimersHeld(b, set_);
    DropBackup(b.timers, b.nextHeight, h);
    hide BookInv, TimersOk;
    TimersInv(b, Expire(b, h), set_);
  }

  lemma DeadlinePlain(b: Book, env: Env, h: nat)
    requires BookInv(b, env.set_) && AllPlain(b)
    ensures AllPlain(ModeBDeadline(b, env, h).book)
  {
    hide BookInv, AllPlain, MacroFin.ModeBVote;
    SamePlain(b, Expire(b, h));
    hide MacroFin.Expire;
    ExpireInv(b, env.set_, h);
    ModeBVotePlain(Expire(b, h), env, h, env.set_);
  }

  lemma BackupPlain(b: Book, env: Env, h: nat)
    requires AllPlain(b)
    ensures AllPlain(BackupPropose(b, env, h).book)
  {
    hide PlainSigs;
  }

  lemma TimerPlain(b: Book, env: Env, id: nat)
    requires BookInv(b, env.set_) && AllPlain(b)
    ensures AllPlain(OnTimerFired(b, env, id).book)
  {
    hide BookInv, AllPlain, MacroFin.BackupPropose, MacroFin.ModeBDeadline;
    var x, y := HeightFor(b.timers.backup, id), HeightFor(b.timers.modeB, id);
    if x.Some? {
      BackupPlain(b, env, x.value);
    } else if y.Some? {
      DeadlinePlain(b, env, y.value);
    }
  }

  /** With epoch 0 on the wire, candidates and stored signatures stay in epoch 0. */
  lemma HandlePlain(b: Book, env: Env, e: Event)
    requires BookInv(b, env.set_) && Wire(e) && PlainWire(e) && AllPlain(b)
    ensures AllPlain(Handle(b, env, e).book)
  {
    hide BookInv, AllPlain;
    match e
    case MicroQcs(hashes) => MicroQcsPlain(b, env, hashes);
    case ProposalReceived(p) => ProposalPlain(b, env, p);
    case PartialReceived(bp) => PartialPlain(b, env, bp);
    case QcReceived(qc) => QcPlain(b, env, qc);
    case SubnetReceived(agg) => SubnetPlain(b, env, agg);
    case TimerFired(id) => TimerPlain(b, env, id);
  }

  // Then stored signatures under the hash of a plain checkpoint are over it.
  lemma PlainOver(set_: ValidatorSet, qc: MacroQc, sigs: SigBook, cp: Checkpoint)
    requires PlainSigs(sigs) && Plain(cp) && SelfMade(set_, qc, cp.hash, sigs)
    ensures OverCheckpoint(set_, qc, sigs, cp)
  {
    hide Quorum;
    forall v | v in Signers(set_, qc) ensures sigs[(cp.hash, v)] == PartialSig(v, cp) {
      assert PlainSig(sigs, (cp.hash, v));
      var c :| Plain(c) && c.hash == cp.hash && sigs[(cp.hash, v)] == PartialSig(v, c);
      PlainSame(c, cp);
    }
  }
}
