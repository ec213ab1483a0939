/** Each macro-finality handler, step by step: what it adopts and what it signs. */
module MacroSteps {
  import opened Validators
  import opened Signatures
  import opened MacroQcs
  import opened MacroFin
  import opened MacroInvariant

  // Signatures over checkpoints that a list of actions sends.
  ghost function Sent(actions: seq<Action>): set<MSig> {
    set a | a in actions && a.SendPartial? :: a.partial.sig
  }

  // Certificates that it sends.
  ghost function QcsIn(actions: seq<Action>): set<MacroQc> {
    set a | a in actions && a.SendQc? :: a.qc
  }

  // The only evidence a node publishes is about conflicting proposals.
  ghost predicate Clean(actions: seq<Action>) {
    forall a :: a in actions && a.EmitEvidence? ==> a.evidence.MacroEquivocation?
  }

  lemma SentAppend(a: seq<Action>, b: seq<Action>)
    ensures Sent(a + b) == Sent(a) + Sent(b) && QcsIn(a + b) == QcsIn(a) + QcsIn(b)
    ensures Clean(a) && Clean(b) ==> Clean(a + b)
  {
  }

  // Neither persists, nor reports, nor signs, nor certifies.
  ghost predicate Mute(actions: seq<Action>) {
    Silent(actions) && Sent(actions) == {} && QcsIn(actions) == {} && Clean(actions)
  }

  lemma MuteOne(a: Action)
    requires !a.Persist? && !(a.SetStatus? && a.status == Finalized) && !a.SendPartial? && !a.SendQc?
    requires a.EmitEvidence? ==> a.evidence.MacroEquivocation?
    ensures Mute([a])
  {
    SilentOne(a);
  }

  lemma MuteAppend(a: seq<Action>, b: seq<Action>)
    requires Mute(a) && Mute(b)
    ensures Mute(a + b)
  {
    SilentAppend(a, b);
    SentAppend(a, b);
  }

  // The node signs a checkpoint with the hash of the next height's candidate, on
  // which it is now locked.
  ghost predicate SignsOver(b: Book, s: MStep, cp: Checkpoint) {
    && SameHash(b, cp) && Sent(s.actions) == {PartialSig(b.selfId, cp)}
    && (LockOf(b.locks, b.selfId).Some? && LockOf(b.locks, b.selfId).value.0 == b.nextHeight ==>
          LockOf(b.locks, b.selfId).value.1 == cp.hash)
    && LockOf(s.book.locks, s.book.selfId) == Some((b.nextHeight, cp.hash))
  }

  ghost predicate Signs(b: Book, s: MStep) {
    exists cp :: SignsOver(b, s, cp)
  }

  ghost predicate Abstains(b: Book, s: MStep) {
    Sent(s.actions) == {} && s.book.locks == b.locks && s.book.selfId == b.selfId
  }

  // Stored signatures are old ones, the node's new one, or the one delivered.
  ghost predicate StoresOnly(b: Book, s: MStep, got: set<MSig>) {
    forall k :: k in s.book.sigs
        ==> (k in b.sigs && b.sigs[k] == s.book.sigs[k]) || s.book.sigs[k] in Sent(s.actions) + got
  }

  // What the event brought: signatures, or a certificate.
  datatype Origin = Origin(got: set<MSig>, qc: Option<MacroQc>)

  const NOTHING: Origin := Origin({}, None)

  // A received certificate passes verify_macro_qc. One that the node put
  // together itself names 2f + 1 validators whose verified partials it stores,
  // and passes exactly when those are over the checkpoint it adopts.
  ghost predicate Certifies(set_: ValidatorSet, qc: MacroQc, cp: Checkpoint, sigs: SigBook, got: Option<MacroQc>) {
    && qc.hash == cp.hash
    && if got == Some(qc) then VerifyMacroQc(set_, qc, cp)
       else SelfMade(set_, qc, cp.hash, sigs) && (VerifyMacroQc(set_, qc, cp) <==> OverCheckpoint(set_, qc, sigs, cp))
  }

  // The adopted checkpoint has a certificate; only a new one is broadcast.
  ghost predicate Settled(s: MStep, set_: ValidatorSet, cp: Checkpoint, got: Option<MacroQc>) {
    exists qc :: PersistQc(qc) in s.actions && QcsIn(s.actions) == (if got == Some(qc) then {} else {qc})
                 && Certifies(set_, qc, cp, s.book.sigs, got)
  }

  // A step that adopts nothing and may sign, or adopts and signs nothing.
  ghost predicate Good(b: Book, s: MStep, set_: ValidatorSet, o: Origin) {
    && BookInv(s.book, set_) && StoresOnly(b, s, o.got) && Clean(s.actions)
    && (|| (Stays(b, s) && QcsIn(s.actions) == {} && (Signs(b, s) || Abstains(b, s)))
        || (Adopts(b, s) && Abstains(b, s) && Settled(s, set_, b.candidate[b.nextHeight], o.qc)))
  }

  // Nothing changed but what the invariant ignores.
  ghost predicate Idle(b: Book, s: MStep) {
    && s.book.selfId == b.selfId && s.book.nextHeight == b.nextHeight && s.book.locks == b.locks
    && s.book.sigs == b.sigs
    && Mute(s.actions)
    && forall h :: 0 <= h < b.nextHeight
        ==> h in b.candidate && h in s.book.candidate && s.book.candidate[h] == b.candidate[h]
  }

  lemma IdleIsGood(b: Book, s: MStep, set_: ValidatorSet, o: Origin)
    requires Idle(b, s) && BookInv(s.book, set_)
    ensures Good(b, s, set_, o)
  {
  }

  ghost predicate Prefix(b: Book) {
    forall h :: 0 <= h < b.nextHeight ==> h in b.candidate
  }

  lemma InvPrefix(b: Book, set_: ValidatorSet)
    requires BookInv(b, set_)
    ensures Prefix(b)
  {
  }

  // ---------------------------------------------------------------------
  // on_local_micro_qcs
  // ---------------------------------------------------------------------

  lemma AnnounceMute(b: Book, env: Env, turn: Turn)
    requires b.nextHeight in b.candidate
    ensures Mute(Announce(b, env, turn).actions)
  {
    var a := Announce(b, env, turn).actions;
    if a != [] { MuteOne(a[0]); }
  }

  lemma ArmMute(b: Book, env: Env)
    ensures Mute(ArmModeB(b, env).actions)
  {
    var a := ArmModeB(b, env).actions;
    if a != [] { MuteOne(a[0]); }
  }

  lemma PushIdle(b: Book, env: Env, h: nat)
    requires Prefix(b)
    ensures Idle(b, PushMicro(b, env, h))
  {
    hide Mute;
    NothingMute();
    var ring := b.ring + [h];
    if |ring| >= env.window {
      var c, turn := NewCandidate(b, env, ring), TurnOf(env, b.selfId, b.nextHeight);
      AnnounceMute(c, env, turn);
      ArmMute(Announce(c, env, turn).book, env);
      MuteAppend(Announce(c, env, turn).actions, ArmModeB(Announce(c, env, turn).book, env).actions);
    }
  }

  lemma NothingMute()
    ensures Mute([])
  {
  }

  lemma IdleStart(b: Book)
    requires Prefix(b)
    ensures Idle(b, MStep(b, []))
  {
    NothingMute();
  }

  lemma IdleJoin(b: Book, s: MStep, t: MStep)
    requires Idle(b, s) && Idle(s.book, t)
    ensures Idle(b, MStep(t.book, s.actions + t.actions))
  {
    hide Mute;
    MuteAppend(s.actions, t.actions);
  }

  lemma {:induction false} MicroIdle(b: Book, env: Env, hashes: seq<nat>)
    requires BookInv(b, env.set_)
    ensures Idle(b, OnLocalMicroQcs(b, env, hashes))
  {
    hide BookInv, Idle, Prefix, MacroFin.PushMicro;
    InvPrefix(b, env.set_);
    if hashes == [] {
      IdleStart(b);
    } else {
      var m := |hashes| - 1;
      var s := OnLocalMicroQcs(b, env, hashes[..m]);
      MicroIdle(b, env, hashes[..m]);
      MicroQcsInv(b, env, hashes[..m]);
      InvPrefix(s.book, env.set_);
      PushIdle(s.book, env, hashes[m]);
      IdleJoin(b, s, PushMicro(s.book, env, hashes[m]));
    }
  }

  lemma MicroGood(b: Book, env: Env, hashes: seq<nat>)
    requires BookInv(b, env.set_)
    ensures Good(b, OnLocalMicroQcs(b, env, hashes), env.set_, NOTHING)
  {
    hide BookInv, Good, Idle;
    MicroQcsInv(b, env, hashes);
    MicroIdle(b, env, hashes);
    IdleIsGood(b, OnLocalMicroQcs(b, env, hashes), env.set_, NOTHING);
  }

  // ---------------------------------------------------------------------
  // on_macro_proposal
  // ---------------------------------------------------------------------

  lemma AggregateMute(b: Book, env: Env, beacon: nat, hash: MHash, subnet: nat)
    ensures Mute(AggregateActions(b, env, beacon, hash, subnet))
  {
    hide MacroQcs.BuildAggregate, Mute;
    NothingMute();
    var a := AggregateActions(b, env, beacon, hash, subnet);
    if a != [] { MuteOne(a[0]); }
  }

  lemma VoteActionsAre(b: Book, env: Env, cp: Checkpoint, mode: Mode, beacon: nat)
    requires LocksOk(LockOf(b.locks, b.selfId), b.nextHeight, VotesOf(b.votes, b.selfId))
    ensures exists tail :: Mute(tail)
              && AnnounceVote(b, env, cp, mode, beacon).actions
                 == [SendPartial(OwnPartial(b, env, mode, beacon, cp)), SetStatus(cp.hash, SoftConfirmed)] + tail
  {
    NeverSelfSlashes(LockOf(b.locks, b.selfId), b.nextHeight, b.votes, b.selfId);
    hide LocksOk, MacroFin.SelfCheck, MacroFin.VotesOf, Mute, MacroFin.AggregateActions, MacroFin.OwnPartial;
    var c, subnet := AnnounceVote(b, env, cp, mode, beacon).book, env.subnet(beacon, b.selfId);
    var tail := if mode == ModeASubnet then AggregateActions(c, env, beacon, cp.hash, subnet) else [];
    var two := [SendPartial(OwnPartial(b, env, mode, beacon, cp)), SetStatus(cp.hash, SoftConfirmed)];
    AggregateMute(c, env, beacon, cp.hash, subnet);
    NothingMute();
    assert AnnounceVote(b, env, cp, mode, beacon).actions == two + tail;
  }

  lemma TwoThenMute(send: Action, soft: Action, tail: seq<Action>)
    requires send.SendPartial? && soft.SetStatus? && soft.status == SoftConfirmed && Mute(tail)
    ensures var a := [send, soft] + tail; Silent(a) && Sent(a) == {send.partial.sig} && QcsIn(a) == {} && Clean(a)
  {
    hide Silent;
    SilentOne(send);
    SilentOne(soft);
    SilentAppend([send], [soft]);
    assert [send] + [soft] == [send, soft];
    SilentAppend([send, soft], tail);
    SentAppend([send, soft], tail);
    assert Sent([send, soft]) == {send.partial.sig};
  }

  // Voting sends exactly the node's partial, and no evidence against itself.
  lemma VoteActions(b: Book, env: Env, cp: Checkpoint, mode: Mode, beacon: nat)
    requires LocksOk(LockOf(b.locks, b.selfId), b.nextHeight, VotesOf(b.votes, b.selfId))
    ensures var a := AnnounceVote(b, env, cp, mode, beacon).actions;
            Silent(a) && Sent(a) == {PartialSig(b.selfId, cp)} && QcsIn(a) == {} && Clean(a)
  {
    hide LocksOk, MacroFin.AnnounceVote, Silent, Sent, QcsIn, Clean, Mute;
    VoteActionsAre(b, env, cp, mode, beacon);
    var send, soft := SendPartial(OwnPartial(b, env, mode, beacon, cp)), SetStatus(cp.hash, SoftConfirmed);
    var tail :| Mute(tail) && AnnounceVote(b, env, cp, mode, beacon).actions == [send, soft] + tail;
    TwoThenMute(send, soft, tail);
  }

  // A book that differs in nothing that matters.
  ghost predicate SameCore(b: Book, c: Book) {
    && c.selfId == b.selfId && c.nextHeight == b.nextHeight && c.lastHash == b.lastHash && c.candidate == b.candidate
    && c.emitted == b.emitted && c.timers == b.timers && c.chain == b.chain && c.locks == b.locks
    && c.votes == b.votes && c.sigs == b.sigs && c.partials == b.partials
  }

  lemma SameInv(b: Book, c: Book, set_: ValidatorSet)
    requires BookInv(b, set_) && SameCore(b, c)
    ensures BookInv(c, set_)
  {
    hide CandidatesOk, EmittedOk, TimersOk, ChainOk, LocksOk, StoreOk, VotedOk, LockOf, MacroFin.VotesOf;
  }

  lemma SameGood(b: Book, c: Book, actions: seq<Action>, set_: ValidatorSet, o: Origin)
    requires BookInv(b, set_) && SameCore(b, c) && Mute(actions)
    ensures Good(b, MStep(c, actions), set_, o)
  {
    InvPrefix(b, set_);
    hide BookInv, Good;
    SameInv(b, c, set_);
    IdleIsGood(b, MStep(c, actions), set_, o);
  }

  // A step from an equivalent book is a step from the book itself.
  lemma GoodFrom(b: Book, c: Book, s: MStep, set_: ValidatorSet, o: Origin)
    requires SameCore(b, c) && Good(c, s, set_, o)
    ensures Good(b, s, set_, o)
  {
    hide BookInv, Silent, Sent, QcsIn, Clean, LockOf, Sound, Persisted, Reported, Settled;
    assert Stays(c, s) ==> Stays(b, s);
    assert Adopts(c, s) ==> Adopts(b, s);
    if Signs(c, s) {
      var cp :| SignsOver(c, s, cp);
      assert SignsOver(b, s, cp);
    }
    assert Abstains(c, s) ==> Abstains(b, s);
  }

  // What casting a vote leaves as it was, and what it sets.
  lemma CastVoteIs(b: Book, cp: Checkpoint, locks: Locks)
    ensures var c := CastVote(b, cp, locks);
            && c.selfId == b.selfId && c.nextHeight == b.nextHeight && c.locks == locks
            && c.candidate == b.candidate[cp.height := cp]
            && c.sigs == b.sigs[(cp.hash, b.selfId) := PartialSig(b.selfId, cp)]
  {
  }

  lemma VoteLocked(b: Book, set_: ValidatorSet)
    requires BookInv(b, set_)
    ensures LocksOk(LockOf(b.locks, b.selfId), b.nextHeight, VotesOf(b.votes, b.selfId))
  {
  }

  lemma VoteGood(b: Book, env: Env, cp: Checkpoint, locks: Locks, mode: Mode, beacon: nat)
    requires BookInv(b, env.set_) && SameHash(b, cp)
    requires TryLock(b.locks, b.selfId, cp.height, cp.hash) == Some(locks)
    ensures Good(b, AnnounceVote(CastVote(b, cp, locks), env, cp, mode, beacon), env.set_, NOTHING)
  {
    hide BookInv, Silent, Sent, QcsIn, Clean, LockOf, LocksOk, Sound, MacroFin.VotesOf, MacroFin.CastVote;
    hide MacroFin.AnnounceVote;
    hide MacroFin.TryLock, Stays, Signs, StoresOnly;
    var c := CastVote(b, cp, locks);
    var s := AnnounceVote(c, env, cp, mode, beacon);
    CastVoteIs(b, cp, locks);
    CastVoteInv(b, env.set_, cp, locks);
    TryLockMeans(b.locks, b.selfId, cp.height, cp.hash);
    InvPrefix(b, env.set_);
    VoteLocked(c, env.set_);
    VoteActions(c, env, cp, mode, beacon);
    AnnounceCore(c, env, cp, mode, beacon);
    SameInv(c, s.book, env.set_);
    VotedStep(b, s, cp, locks);
  }

  lemma VotedStep(b: Book, s: MStep, cp: Checkpoint, locks: Locks)
    requires Prefix(b) && SameHash(b, cp)
    requires Silent(s.actions) && Sent(s.actions) == {PartialSig(b.selfId, cp)}
    requires LockOf(b.locks, b.selfId).Some? && LockOf(b.locks, b.selfId).value.0 == cp.height ==>
               LockOf(b.locks, b.selfId).value.1 == cp.hash
    requires LockOf(locks, b.selfId) == Some((cp.height, cp.hash))
    requires s.book.selfId == b.selfId && s.book.nextHeight == b.nextHeight && s.book.locks == locks
    requires s.book.candidate == b.candidate[cp.height := cp]
    requires s.book.sigs == b.sigs[(cp.hash, b.selfId) := PartialSig(b.selfId, cp)]
    ensures Stays(b, s) && Signs(b, s) && StoresOnly(b, s, {})
  {
    hide Silent, Sent, QcsIn, Clean, LockOf, Sound;
    assert SignsOver(b, s, cp);
  }

  lemma AnnounceCore(b: Book, env: Env, cp: Checkpoint, mode: Mode, beacon: nat)
    ensures SameCore(b, AnnounceVote(b, env, cp, mode, beacon).book)
  {
  }

  lemma AcceptableNext(b: Book, env: Env, p: Proposal, beacon: nat)
    requires BookInv(b, env.set_) && LinkIntact(p.cp) && Acceptable(b, env, p, beacon)
    ensures SameHash(b, p.cp)
  {
    hide EmittedOk, TimersOk, ChainOk, LocksOk, StoreOk, VotedOk;
    AcceptableIsNext(b, env, p, beacon);
  }

  lemma ConsiderGood(b: Book, env: Env, p: Proposal, beacon: nat)
    requires BookInv(b, env.set_) && LinkIntact(p.cp)
    ensures Good(b, ConsiderVote(b, env, p, beacon), env.set_, NOTHING)
  {
    hide Good, Mute, BookInv, SameHash;
    hide MacroFin.Acceptable, MacroFin.CastVote, MacroFin.AnnounceVote, MacroFin.TryLock, MacroFin.ActiveMode;
    NothingMute();
    var lock := TryLock(b.locks, b.selfId, p.cp.height, p.cp.hash);
    if !Acceptable(b, env, p, beacon) {
      SameGood(b, b, [], env.set_, NOTHING);
    } else if lock == None {
      SameGood(b, b.(suppressed := b.suppressed + 1), [], env.set_, NOTHING);
    } else {
      AcceptableNext(b, env, p, beacon);
      VoteGood(b, env, p.cp, lock.value, ActiveMode(b, env, p.cp.height), beacon);
    }
  }

  lemma ProposalGood(b: Book, env: Env, p: Proposal)
    requires BookInv(b, env.set_) && LinkIntact(p.cp)
    ensures Good(b, OnMacroProposal(b, env, p), env.set_, NOTHING)
  {
    hide BookInv, Good, Mute, MacroFin.ConsiderVote, MacroFin.VerifyProposal;
    NothingMute();
    var c, key := NoteBeacon(b, env, p.cp.height), (p.cp.height, p.proposer);
    var beacon := BeaconFor(c, env, p.cp.height);
    if !VerifyProposal(env, p, beacon) {
      SameGood(b, c.(rejected := c.rejected + 1), [], env.set_, NOTHING);
    } else if exists q :: q in SeenAt(c, key) && q.cp.hash != p.cp.hash {
      var e := EmitEvidence(p.proposer, MacroEquivocation(SeenAt(c, key)[0], p));
      MuteOne(e);
      SameGood(b, c, [e], env.set_, NOTHING);
    } else if SeenAt(c, key) != [] {
      SameGood(b, c, [], env.set_, NOTHING);
    } else {
      var d := c.(seen := c.seen[key := [p]]);
      SameInv(b, d, env.set_);
      ConsiderGood(d, env, p, beacon);
      GoodFrom(b, d, ConsiderVote(d, env, p, beacon), env.set_, NOTHING);
    }
  }

  // ---------------------------------------------------------------------
  // on_macro_qc_received and assembly
  // ---------------------------------------------------------------------

  lemma AdoptionIs(b: Book, env: Env, cp: Checkpoint, qc: MacroQc, height: nat, head: seq<Action>)
    ensures var s := Adoption(b, env, cp, qc, height, head);
            s.book.sigs == b.sigs && s.book.locks == b.locks && s.book.selfId == b.selfId && PersistQc(qc) in s.actions
  {
    var s := Adoption(b, env, cp, qc, height, head);
    assert s.actions[|head| + 1] == PersistQc(qc);
  }

  lemma FinishSends(b: Book, env: Env)
    ensures var a := Finish(b, env).actions; Sent(a) == {} && QcsIn(a) == {} && Clean(a)
  {
    hide MacroFin.NewlyFinalized, MacroFin.MarkFinalized;
  }

  lemma AdoptionSends(b: Book, env: Env, cp: Checkpoint, qc: MacroQc, height: nat, head: seq<Action>)
    requires Sent(head) == {} && Clean(head)
    ensures var a := Adoption(b, env, cp, qc, height, head).actions;
            Sent(a) == {} && QcsIn(a) == QcsIn(head) && Clean(a)
  {
    hide MacroFin.Advance, MacroFin.Finish;
    var c, mid := Advance(b, cp, qc.hash, height), [Persist(cp), PersistQc(qc), SetStatus(cp.hash, Justified)];
    FinishSends(c, env);
    SentAppend(head, mid);
    SentAppend(head + mid, Finish(c, env).actions);
    assert Sent(mid) == {} && QcsIn(mid) == {} && Clean(mid);
  }

  lemma AdoptGood(b: Book, env: Env, qc: MacroQc, head: seq<Action>, o: Origin)
    requires BookInv(b, env.set_) && b.nextHeight in b.candidate
    requires Silent(head) && Sent(head) == {} && QcsIn(head) <= {qc} && Clean(head)
    requires Certifies(env.set_, qc, b.candidate[b.nextHeight], b.sigs, o.qc)
    requires QcsIn(head) == (if o.qc == Some(qc) then {} else {qc})
    ensures Good(b, Adoption(b, env, b.candidate[b.nextHeight], qc, b.nextHeight, head), env.set_, o)
  {
    assert qc.hash == b.candidate[b.nextHeight].hash;
    hide BookInv, Adopts, MacroFin.Adoption, Silent, Sent, QcsIn, Clean, Certifies;
    AdoptionStep(b, env, qc, head);
    AdoptionIs(b, env, b.candidate[b.nextHeight], qc, b.nextHeight, head);
    AdoptionSends(b, env, b.candidate[b.nextHeight], qc, b.nextHeight, head);
  }

  lemma MuteParts(a: seq<Action>)
    requires Mute(a)
    ensures Silent(a) && Sent(a) == {} && QcsIn(a) == {} && Clean(a)
  {
  }

  lemma QcGood(b: Book, env: Env, qc: MacroQc)
    requires BookInv(b, env.set_)
    ensures Good(b, OnMacroQc(b, env, qc), env.set_, Origin({}, Some(qc)))
  {
    hide BookInv, Good, Mute, MacroFin.Adoption, MacroQcs.VerifyMacroQc, MacroFin.CandidateHeight, Sound;
    NothingMute();
    var o := Origin({}, Some(qc));
    if qc.hash in b.emitted || CandidateHeight(b, qc.hash) == None {
      SameGood(b, b, [], env.set_, o);
    } else {
      AdoptsNext(b, env.set_, qc.hash);
      if !VerifyMacroQc(env.set_, qc, b.candidate[b.nextHeight]) {
        SameGood(b, b.(rejected := b.rejected + 1), [], env.set_, o);
      } else {
        MuteParts([]);
        AdoptGood(b, env, qc, [], o);
      }
    }
  }

  lemma SendQcMute(qc: MacroQc)
    ensures var head := [SendQc(qc)]; Silent(head) && Sent(head) == {} && QcsIn(head) == {qc} && Clean(head)
  {
    SilentOne(SendQc(qc));
  }

  // Counted signers are validators with a stored signature.
  lemma CountedAreStored(b: Book, set_: ValidatorSet, hash: MHash)
    requires BookInv(b, set_)
    ensures PartialsOf(b.partials, hash) <= Members(set_) && SigsOk(set_, b.sigs)
  {
    hide CandidatesOk, EmittedOk, TimersOk, ChainOk, LocksOk, VotedOk;
    forall v | v in PartialsOf(b.partials, hash) ensures v in Members(set_) {
      assert (hash, v) in b.sigs;
    }
  }

  /** Mode 0 and Mode B: what the lowest signer assembles passes its own check. */
  lemma FlatAdoptGood(b: Book, env: Env, mode: Mode, hash: MHash, o: Origin)
    requires BookInv(b, env.set_) && Distinct(env.set_) && b.nextHeight in b.candidate && o.qc == None
    requires b.candidate[b.nextHeight].hash == hash
    requires Mode0Qc(hash, PartialsOf(b.partials, hash), b.sigs, env.set_, mode).Some?
    ensures var qc := Mode0Qc(hash, PartialsOf(b.partials, hash), b.sigs, env.set_, mode).value;
            Good(b, Adoption(b, env, b.candidate[b.nextHeight], qc, b.nextHeight, [SendQc(qc)]), env.set_, o)
  {
    hide BookInv, Good, Silent, Sent, QcsIn, Clean, MacroFin.Adoption, MacroQcs.Mode0Qc, MacroFin.PartialsOf, SigsOk;
    hide Sound;
    var cp := b.candidate[b.nextHeight];
    var qc := Mode0Qc(hash, PartialsOf(b.partials, hash), b.sigs, env.set_, mode).value;
    CountedAreStored(b, env.set_, hash);
    Mode0Verifies(cp, PartialsOf(b.partials, hash), b.sigs, env.set_, mode);
    SendQcMute(qc);
    AdoptGood(b, env, qc, [SendQc(qc)], o);
  }

  /** Mode A: what the primary assembles from subnet aggregates passes its own check. */
  lemma ModeAGood(b: Book, env: Env, hash: MHash, o: Origin)
    requires BookInv(b, env.set_) && Distinct(env.set_) && CandidateHeight(b, hash).Some? && o.qc == None
    ensures Good(b, TryModeA(b, env, hash, CandidateHeight(b, hash).value), env.set_, o)
  {
    hide BookInv, Good, Mute, MacroFin.Adoption, MacroQcs.ModeAQc, SigsOk, MacroFin.CandidateHeight, Sound;
    NothingMute();
    CandidateIs(b, hash);
    var aggs := if hash in b.subnetAggs then b.subnetAggs[hash] else map[];
    var qc := ModeAQc(hash, aggs, env.set_, b.sigs);
    if TryModeA(b, env, hash, CandidateHeight(b, hash).value) == MStep(b, []) {
      SameGood(b, b, [], env.set_, o);
    } else {
      AdoptsNext(b, env.set_, hash);
      CountedAreStored(b, env.set_, hash);
      ModeAVerifies(b.candidate[b.nextHeight], aggs, b.sigs, env.set_);
      SendQcMute(qc.value);
      AdoptGood(b, env, qc.value, [SendQc(qc.value)], o);
    }
  }

  lemma SameHeight(b: Book, c: Book, hash: MHash)
    requires c.candidate == b.candidate
    ensures CandidateHeight(c, hash) == CandidateHeight(b, hash)
  {
  }

  lemma CandidateIs(b: Book, hash: MHash)
    requires CandidateHeight(b, hash).Some?
    ensures CandidateHeight(b, hash).value in b.candidate && b.candidate[CandidateHeight(b, hash).value].hash == hash
  {
  }

  // ---------------------------------------------------------------------
  // on_bls_partial and on_subnet_aggregate
  // ---------------------------------------------------------------------

  // The book after a verified partial was stored and counted.
  ghost predicate Fed(b: Book, c: Book, sig: MSig) {
    && SameCore(b.(sigs := c.sigs, partials := c.partials), c)
    && forall k :: k in c.sigs ==> (k in b.sigs && b.sigs[k] == c.sigs[k]) || c.sigs[k] == sig
  }

  lemma GoodFed(b: Book, c: Book, s: MStep, set_: ValidatorSet, sig: MSig)
    requires Fed(b, c, sig) && Good(c, s, set_, NOTHING)
    ensures Good(b, s, set_, Origin({sig}, None))
  {
    hide BookInv, Silent, Sent, QcsIn, Clean, LockOf, Sound, Persisted, Reported, Certifies;
    assert StoresOnly(b, s, {sig});
    assert Stays(c, s) ==> Stays(b, s);
    assert Adopts(c, s) ==> Adopts(b, s);
    if Signs(c, s) {
      var cp :| SignsOver(c, s, cp);
      assert SignsOver(b, s, cp);
    }
    assert Abstains(c, s) ==> Abstains(b, s);
  }

  lemma FedInv(b: Book, c: Book, set_: ValidatorSet, sig: MSig)
    requires BookInv(b, set_) && Fed(b, c, sig) && StoreOk(set_, c.sigs, c.partials)
    ensures BookInv(c, set_)
  {
    hide CandidatesOk, EmittedOk, TimersOk, ChainOk, LocksOk, StoreOk, VotedOk, LockOf, MacroFin.VotesOf;
  }

  lemma StoredPartial(b: Book, set_: ValidatorSet, bp: BlsPartial, cp: Checkpoint)
    requires BookInv(b, set_) && Sound(cp) && VerifyPartial(set_, bp, cp)
    ensures var sigs := b.sigs[(bp.hash, bp.validator) := bp.sig];
            && StoreOk(set_, sigs, b.partials)
            && StoreOk(set_, sigs, b.partials[bp.hash := PartialsOf(b.partials, bp.hash) + {bp.validator}])
  {
    hide CandidatesOk, EmittedOk, TimersOk, ChainOk, LocksOk, StoreOk, VotedOk;
    StoreSig(set_, b.sigs, b.partials, bp.validator, cp);
    StorePartial(set_, b.sigs[(bp.hash, bp.validator) := bp.sig], b.partials, bp.hash, bp.validator);
  }

  // A quiet outcome on a fed book, whatever is broadcast for the subnet.
  lemma FedQuiet(b: Book, c: Book, actions: seq<Action>, set_: ValidatorSet, sig: MSig)
    requires BookInv(c, set_) && Fed(b, c, sig) && Mute(actions)
    ensures Good(b, MStep(c, actions), set_, Origin({sig}, None))
  {
    hide Good, BookInv, Mute;
    SameGood(c, c, actions, set_, NOTHING);
    GoodFed(b, c, MStep(c, actions), set_, sig);
  }

  lemma FlatGood(b: Book, env: Env, bp: BlsPartial, mode: Mode)
    requires BookInv(b, env.set_) && Distinct(env.set_) && b.nextHeight in b.candidate
    requires b.candidate[b.nextHeight].hash == bp.hash
    requires (bp.hash, bp.validator) in b.sigs
    requires StoreOk(env.set_, b.sigs, AddPartial(b, bp.hash, bp.validator).partials)
    ensures exists c :: Fed(b, c, bp.sig) && c.sigs == b.sigs &&
              Good(c, FlatPath(b, env, bp, b.nextHeight, mode), env.set_, NOTHING)
  {
    hide Good, BookInv, Mute, MacroFin.Adoption, MacroQcs.Mode0Qc, MacroFin.PartialsOf, Sound, StoreOk;
    NothingMute();
    var c := AddPartial(b, bp.hash, bp.validator);
    assert Fed(b, c, bp.sig) && Fed(b, b, bp.sig);
    if mode == Mode0Flat && bp.subnet != 0 {
      SameGood(b, b, [], env.set_, NOTHING);
    } else {
      FedInv(b, c, env.set_, bp.sig);
      var signers := PartialsOf(c.partials, bp.hash);
      SignersNonempty(b, bp);
      var qc := Mode0Qc(bp.hash, signers, c.sigs, env.set_, mode);
      if Minimum(signers) != c.selfId || qc == None {
        SameGood(c, c, [], env.set_, NOTHING);
      } else {
        FlatAdoptGood(c, env, mode, bp.hash, NOTHING);
      }
    }
  }

  lemma SignersNonempty(b: Book, bp: BlsPartial)
    ensures PartialsOf(AddPartial(b, bp.hash, bp.validator).partials, bp.hash) != {}
  {
    assert bp.validator in PartialsOf(AddPartial(b, bp.hash, bp.validator).partials, bp.hash);
  }

  lemma SubnetGood(b: Book, env: Env, bp: BlsPartial)
    requires BookInv(b, env.set_) && Distinct(env.set_) && CandidateHeight(b, bp.hash) == Some(b.nextHeight)
    requires b.nextHeight in b.candidate
    requires StoreOk(env.set_, b.sigs, AddPartial(b, bp.hash, bp.validator).partials)
    ensures exists c :: Fed(b, c, bp.sig) && c.sigs == b.sigs &&
              Good(c, SubnetPath(b, env, bp, b.nextHeight), env.set_, NOTHING)
  {
    hide Good, BookInv, Mute, MacroFin.TryModeA, MacroFin.AggregateActions, StoreOk, MacroFin.PartialsOf;
    var c := AddPartial(AddSubnetPartial(b, bp.hash, bp.subnet, bp.validator), bp.hash, bp.validator);
    assert Fed(b, c, bp.sig);
    FedInv(b, c, env.set_, bp.sig);
    var beacon := BeaconFor(c, env, b.nextHeight);
    var send := AggregateActions(c, env, beacon, bp.hash, bp.subnet);
    AggregateMute(c, env, beacon, bp.hash, bp.subnet);
    if c.selfId == env.primary(beacon, b.nextHeight) {
      assert CandidateHeight(c, bp.hash) == CandidateHeight(b, bp.hash);
      ModeAGood(c, env, bp.hash, NOTHING);
      GoodPrefix(c, TryModeA(c, env, bp.hash, b.nextHeight), send, env.set_, NOTHING);
    } else {
      SameGood(c, c, send, env.set_, NOTHING);
    }
  }

  // Mute actions before a step's own change nothing about it.
  lemma GoodPrefix(b: Book, s: MStep, send: seq<Action>, set_: ValidatorSet, o: Origin)
    requires Good(b, s, set_, o) && Mute(send)
    ensures Good(b, MStep(s.book, send + s.actions), set_, o)
  {
    hide BookInv, Persisted, Reported, Sent, QcsIn, Clean, LockOf, Sound, Certifies;
    var t := MStep(s.book, send + s.actions);
    EffectsAppend(send, s.actions);
    SentAppend(send, s.actions);
    assert Sent(t.actions) == Sent(s.actions) && QcsIn(t.actions) == QcsIn(s.actions) && Clean(t.actions);
    assert forall a :: a in s.actions ==> a in t.actions;
    assert Persisted(t.actions) == Persisted(s.actions) && Reported(t.actions) == Reported(s.actions);
    assert StoresOnly(b, t, o.got);
    assert Stays(b, s) ==> Stays(b, t);
    assert Adopts(b, s) ==> Adopts(b, t);
    if Signs(b, s) {
      var cp :| SignsOver(b, s, cp);
      assert SignsOver(b, t, cp);
    }
  }

  lemma StoredFed(b: Book, bp: BlsPartial)
    ensures Fed(b, b.(sigs := b.sigs[(bp.hash, bp.validator) := bp.sig]), bp.sig)
  {
  }

  // The path a stored partial takes for the candidate of the next height.
  lemma PathGood(b: Book, env: Env, bp: BlsPartial)
    requires BookInv(b, env.set_) && Distinct(env.set_) && CandidateHeight(b, bp.hash) == Some(b.nextHeight)
    requires b.nextHeight in b.candidate && b.candidate[b.nextHeight].hash == bp.hash
    requires (bp.hash, bp.validator) in b.sigs
    requires StoreOk(env.set_, b.sigs, AddPartial(b, bp.hash, bp.validator).partials)
    ensures var mode := ActiveMode(b, env, b.nextHeight);
            var s := if mode == ModeASubnet then SubnetPath(b, env, bp, b.nextHeight)
                     else FlatPath(b, env, bp, b.nextHeight, mode);
            Good(b, s, env.set_, Origin({bp.sig}, None))
  {
    hide Good, Fed, BookInv, MacroFin.SubnetPath, MacroFin.FlatPath, MacroFin.ActiveMode, StoreOk, Sound;
    hide MacroFin.AddPartial, MacroFin.CandidateHeight;
    var mode := ActiveMode(b, env, b.nextHeight);
    if mode == ModeASubnet {
      SubnetGood(b, env, bp);
      var s := SubnetPath(b, env, bp, b.nextHeight);
      var c :| Fed(b, c, bp.sig) && c.sigs == b.sigs && Good(c, s, env.set_, NOTHING);
      GoodFed(b, c, s, env.set_, bp.sig);
    } else {
      FlatGood(b, env, bp, mode);
      var s := FlatPath(b, env, bp, b.nextHeight, mode);
      var c :| Fed(b, c, bp.sig) && c.sigs == b.sigs && Good(c, s, env.set_, NOTHING);
      GoodFed(b, c, s, env.set_, bp.sig);
    }
  }

  // Getting a signature twice is like getting it once.
  lemma GoodFedAgain(b: Book, c: Book, s: MStep, set_: ValidatorSet, sig: MSig)
    requires Fed(b, c, sig) && Good(c, s, set_, Origin({sig}, None))
    ensures Good(b, s, set_, Origin({sig}, None))
  {
    hide BookInv, Silent, Sent, QcsIn, Clean, LockOf, Sound, Persisted, Reported, Certifies;
    assert StoresOnly(b, s, {sig});
    assert Stays(c, s) ==> Stays(b, s);
    assert Adopts(c, s) ==> Adopts(b, s);
    if Signs(c, s) {
      var cp :| SignsOver(c, s, cp);
      assert SignsOver(b, s, cp);
    }
    assert Abstains(c, s) ==> Abstains(b, s);
  }

  lemma CandidateSound(b: Book, set_: ValidatorSet, h: nat)
    requires BookInv(b, set_) && h in b.candidate
    ensures Sound(b.candidate[h]) && b.candidate[h].height == h
  {
    hide EmittedOk, TimersOk, ChainOk, LocksOk, StoreOk, VotedOk;
    assert Linked(b.candidate, b.candidate[h], h);
  }

  lemma PartialGood(b: Book, env: Env, bp: BlsPartial)
    requires BookInv(b, env.set_) && Distinct(env.set_)
    ensures Good(b, OnBlsPartial(b, env, bp), env.set_, Origin({bp.sig}, None))
  {
    hide Good, BookInv, Mute, Fed, MacroFin.SubnetPath, MacroFin.FlatPath, MacroFin.ActiveMode, StoreOk, Sound;
    hide MacroQcs.VerifyPartial;
    NothingMute();
    var o := Origin({bp.sig}, None);
    if CandidateHeight(b, bp.hash) == None {
      SameGood(b, b, [], env.set_, o);
    } else {
      var h := CandidateHeight(b, bp.hash).value;
      CandidateSound(b, env.set_, h);
      if !VerifyPartial(env.set_, bp, b.candidate[h]) {
        SameGood(b, b.(rejected := b.rejected + 1), [], env.set_, o);
      } else {
        var c := b.(sigs := b.sigs[(bp.hash, bp.validator) := bp.sig]);
        StoredPartial(b, env.set_, bp, b.candidate[h]);
        StoredFed(b, bp);
        FedInv(b, c, env.set_, bp.sig);
        if bp.hash in c.emitted {
          FedQuiet(b, c, [], env.set_, bp.sig);
        } else {
          AdoptsNext(b, env.set_, bp.hash);
          PathGood(c, env, bp);
          GoodFedAgain(b, c, OnBlsPartial(b, env, bp), env.set_, bp.sig);
        }
      }
    }
  }

  lemma StoredAggGood(b: Book, c: Book, env: Env, hash: MHash)
    requires BookInv(b, env.set_) && Distinct(env.set_) && SameCore(b, c) && CandidateHeight(b, hash).Some?
    ensures CandidateHeight(b, hash).value in c.candidate
    ensures Good(b, TryModeA(c, env, hash, CandidateHeight(b, hash).value), env.set_, NOTHING)
  {
    hide Good, BookInv, MacroFin.TryModeA, MacroFin.CandidateHeight;
    CandidateIs(b, hash);
    SameInv(b, c, env.set_);
    SameHeight(b, c, hash);
    ModeAGood(c, env, hash, NOTHING);
    GoodFrom(b, c, TryModeA(c, env, hash, CandidateHeight(b, hash).value), env.set_, NOTHING);
  }

  lemma SubnetAggGood(b: Book, env: Env, agg: SubnetAgg)
    requires BookInv(b, env.set_) && Distinct(env.set_)
    ensures Good(b, OnSubnetAggregate(b, env, agg), env.set_, NOTHING)
  {
    hide Good, BookInv, Mute, MacroFin.TryModeA, MacroQcs.VerifySubnetAgg, MacroFin.CandidateHeight, SameCore;
    NothingMute();
    var aggs := if agg.hash in b.subnetAggs then b.subnetAggs[agg.hash] else map[];
    var c := b.(subnetAggs := b.subnetAggs[agg.hash := aggs[agg.subnet := agg]]);
    SubnetCores(b, c);
    if CandidateHeight(b, agg.hash) == None {
      SameGood(b, b, [], env.set_, NOTHING);
    } else {
      CandidateIs(b, agg.hash);
      if VerifySubnetAgg(env.set_, agg, b.candidate[CandidateHeight(b, agg.hash).value], b.sigs) {
        StoredAggGood(b, c, env, agg.hash);
      } else {
        SameGood(b, b.(rejected := b.rejected + 1), [], env.set_, NOTHING);
      }
    }
  }

  lemma SubnetCores(b: Book, c: Book)
    requires c == b.(subnetAggs := c.subnetAggs)
    ensures SameCore(b, b) && SameCore(b, c) && SameCore(b, b.(rejected := b.rejected + 1))
  {
  }

  // ---------------------------------------------------------------------
  // on_timer_fired
  // ---------------------------------------------------------------------

  lemma TimersInv(b: Book, c: Book, set_: ValidatorSet)
    requires BookInv(b, set_) && SameCore(b.(timers := c.timers), c) && TimersOk(c.timers, b.nextHeight)
    ensures BookInv(c, set_)
  {
    hide CandidatesOk, EmittedOk, TimersOk, ChainOk, LocksOk, StoreOk, VotedOk, LockOf, MacroFin.VotesOf;
  }

  lemma TimersHeld(b: Book, set_: ValidatorSet)
    requires BookInv(b, set_)
    ensures TimersOk(b.timers, b.nextHeight)
  {
  }

  lemma TimersGood(b: Book, c: Book, actions: seq<Action>, set_: ValidatorSet)
    requires BookInv(b, set_) && SameCore(b.(timers := c.timers), c) && TimersOk(c.timers, b.nextHeight)
    requires Mute(actions)
    ensures Good(b, MStep(c, actions), set_, NOTHING)
  {
    InvPrefix(b, set_);
    hide BookInv, Good, TimersOk;
    TimersInv(b, c, set_);
    IdleIsGood(b, MStep(c, actions), set_, NOTHING);
  }

  // A step after dropping timers is a step from the book itself.
  lemma GoodFromTimers(b: Book, c: Book, s: MStep, set_: ValidatorSet, o: Origin)
    requires SameCore(b.(timers := c.timers), c) && Good(c, s, set_, o)
    ensures Good(b, s, set_, o)
  {
    hide BookInv, Silent, Sent, QcsIn, Clean, LockOf, Sound, Persisted, Reported, Settled;
    assert Stays(c, s) ==> Stays(b, s);
    assert Adopts(c, s) ==> Adopts(b, s);
    if Signs(c, s) {
      var cp :| SignsOver(c, s, cp);
      assert SignsOver(b, s, cp);
    }
    assert Abstains(c, s) ==> Abstains(b, s);
  }

  lemma BackupGood(b: Book, env: Env, height: nat)
    requires BookInv(b, env.set_)
    ensures Good(b, BackupPropose(b, env, height), env.set_, NOTHING)
  {
    hide BookInv, Good, Mute, TimersOk, MacroFin.MakeProposal;
    NothingMute();
    TimersHeld(b, env.set_);
    DropBackup(b.timers, b.nextHeight, height);
    var s := BackupPropose(b, env, height);
    if s.actions != [] { MuteOne(s.actions[0]); }
    TimersGood(b, s.book, s.actions, env.set_);
  }

  // Mode B votes for the candidate of the next height, if the lock allows it.
  lemma ModeBGood(b: Book, env: Env)
    requires BookInv(b, env.set_)
    ensures Good(b, ModeBVote(b, env, b.nextHeight), env.set_, NOTHING)
  {
    hide BookInv, Good, Mute, MacroFin.TryLock, LockOf, MacroFin.OwnPartial;
    NothingMute();
    var h := b.nextHeight;
    if h !in b.modeB || h !in b.candidate || TryLock(b.locks, b.selfId, h, b.candidate[h].hash) == None {
      SameGood(b, b, [], env.set_, NOTHING);
    } else {
      ModeBVoteGood(b, env, TryLock(b.locks, b.selfId, h, b.candidate[h].hash).value);
    }
  }

  lemma ModeBVoteGood(b: Book, env: Env, locks: Locks)
    requires BookInv(b, env.set_) && b.nextHeight in b.modeB && b.nextHeight in b.candidate
    requires TryLock(b.locks, b.selfId, b.nextHeight, b.candidate[b.nextHeight].hash) == Some(locks)
    ensures Good(b, ModeBVote(b, env, b.nextHeight), env.set_, NOTHING)
  {
    hide BookInv, MacroFin.ModeBVote, MacroFin.TryLock, LockOf, Silent, Sent, QcsIn, Clean, Sound, Stays, Signs;
    hide StoresOnly, MacroFin.PartialsOf, MacroQcs.PartialSig;
    var h, cp, s := b.nextHeight, b.candidate[b.nextHeight], ModeBVote(b, env, b.nextHeight);
    ModeBVoteIs(b, env);
    CandidateSound(b, env.set_, h);
    TryLockMeans(b.locks, b.selfId, h, cp.hash);
    InvPrefix(b, env.set_);
    ModeBInv(b, s.book, env.set_, cp, locks);
    assert s.book.candidate == b.candidate[cp.height := cp];
    VotedStep(b, s, cp, locks);
  }

  lemma ModeBVoteIs(b: Book, env: Env)
    requires b.nextHeight in b.modeB && b.nextHeight in b.candidate
    requires TryLock(b.locks, b.selfId, b.nextHeight, b.candidate[b.nextHeight].hash).Some?
    ensures var cp, s := b.candidate[b.nextHeight], ModeBVote(b, env, b.nextHeight);
            && s.book == b.(locks := TryLock(b.locks, b.selfId, b.nextHeight, cp.hash).value,
                            partials := b.partials[cp.hash := PartialsOf(b.partials, cp.hash) + {b.selfId}],
                            sigs := b.sigs[(cp.hash, b.selfId) := PartialSig(b.selfId, cp)])
            && Silent(s.actions) && Sent(s.actions) == {PartialSig(b.selfId, cp)} && QcsIn(s.actions) == {}
            && Clean(s.actions)
  {
    hide MacroFin.TryLock;
    SilentOne(ModeBVote(b, env, b.nextHeight).actions[0]);
  }

  lemma ModeBInv(b: Book, c: Book, set_: ValidatorSet, cp: Checkpoint, locks: Locks)
    requires BookInv(b, set_) && Sound(cp) && cp.height == b.nextHeight
    requires TryLock(b.locks, b.selfId, cp.height, cp.hash) == Some(locks)
    requires c == b.(locks := locks,
                     partials := b.partials[cp.hash := PartialsOf(b.partials, cp.hash) + {b.selfId}],
                     sigs := b.sigs[(cp.hash, b.selfId) := PartialSig(b.selfId, cp)])
    ensures BookInv(c, set_)
  {
    hide CandidatesOk, EmittedOk, TimersOk, ChainOk, LocksOk, StoreOk, VotedOk, LockOf, MacroFin.VotesOf;
    hide MacroFin.TryLock, MacroFin.PartialsOf, Sound, MacroQcs.PartialSig;
    var lock := LockOf(b.locks, b.selfId);
    TryLockMeans(b.locks, b.selfId, cp.height, cp.hash);
    LockLocks(lock, b.nextHeight, VotesOf(b.votes, b.selfId), cp.hash);
    RelockVoted(lock, b.nextHeight, b.chain, cp.hash);
    StoreSig(set_, b.sigs, b.partials, b.selfId, cp);
    StorePartial(set_, b.sigs[(cp.hash, b.selfId) := PartialSig(b.selfId, cp)], b.partials, cp.hash, b.selfId);
  }

  lemma RelockVoted(lock: Option<(nat, MHash)>, next: nat, tc: TwoChain, hash: MHash)
    requires VotedOk(lock, next, tc) && (lock.Some? && lock.value.0 == next ==> lock.value.1 == hash)
    ensures VotedOk(Some((next, hash)), next, tc)
  {
  }

  lemma ExpireTimers(b: Book, height: nat)
    requires TimersOk(b.timers, b.nextHeight)
    ensures var c := Expire(b, height); SameCore(b.(timers := c.timers), c) && TimersOk(c.timers, b.nextHeight)
  {
  }

  lemma DeadlineGood(b: Book, env: Env, height: nat)
    requires BookInv(b, env.set_) && height == b.nextHeight
    ensures Good(b, ModeBDeadline(b, env, height), env.set_, NOTHING)
  {
    hide BookInv, Good, TimersOk, MacroFin.ModeBVote, MacroFin.Expire;
    TimersHeld(b, env.set_);
    var c := Expire(b, height);
    ExpireTimers(b, height);
    TimersInv(b, c, env.set_);
    ExpireNext(b, height);
    ModeBGood(c, env);
    GoodFromTimers(b, c, ModeBVote(c, env, height), env.set_, NOTHING);
  }

  lemma ExpireNext(b: Book, height: nat)
    ensures Expire(b, height).nextHeight == b.nextHeight
  {
  }

  lemma TimerGood(b: Book, env: Env, id: nat)
    requires BookInv(b, env.set_)
    ensures Good(b, OnTimerFired(b, env, id), env.set_, NOTHING)
  {
    TimersHeld(b, env.set_);
    hide BookInv, Good, Mute, MacroFin.BackupPropose, MacroFin.ModeBDeadline;
    NothingMute();
    var x, y := HeightFor(b.timers.backup, id), HeightFor(b.timers.modeB, id);
    if x.Some? {
      BackupGood(b, env, x.value);
    } else if y.Some? {
      DeadlineGood(b, env, y.value);
    } else {
      SameGood(b, b, [], env.set_, NOTHING);
    }
  }

  // ---------------------------------------------------------------------
  // Every handler
  // ---------------------------------------------------------------------

  ghost function OriginOf(e: Event): Origin {
    match e
    case PartialReceived(bp) => Origin({bp.sig}, None)
    case QcReceived(qc) => Origin({}, Some(qc))
    case _ => NOTHING
  }

  // The parent field of a proposed checkpoint is the one under its hash.
  ghost predicate Wire(e: Event) {
    e.ProposalReceived? ==> LinkIntact(e.proposal.cp)
  }

  /** Every handler keeps the invariant; it adopts the next height or none, and
      signs the candidate of the next height or nothing. */
  lemma HandleGood(b: Book, env: Env, e: Event)
    requires BookInv(b, env.set_) && Distinct(env.set_) && Wire(e)
    ensures Good(b, Handle(b, env, e), env.set_, OriginOf(e))
  {
    hide BookInv, Good;
    match e
    case MicroQcs(hashes) => MicroGood(b, env, hashes);
    case ProposalReceived(p) => ProposalGood(b, env, p);
    case PartialReceived(bp) => PartialGood(b, env, bp);
    case QcReceived(qc) => QcGood(b, env, qc);
    case SubnetReceived(agg) => SubnetAggGood(b, env, agg);
    case TimerFired(id) => TimerGood(b, env, id);
  }
}
