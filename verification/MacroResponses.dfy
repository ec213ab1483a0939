/** What the handlers of macro finality are bound to do: exactly when they adopt the
    next height, vote, propose and report, and with which messages. */
module MacroResponses {
  import opened Validators
  import opened Signatures
  import opened MacroQcs
  import opened MacroFin
  import opened MacroInvariant
  import opened MacroSteps

  // ---------------------------------------------------------------------
  // Which signatures an aggregate holds
  // ---------------------------------------------------------------------

  ghost function Named(set_: ValidatorSet, bitmap: seq<bv8>): set<Id> {
    set i | 0 <= i < |set_| && TestBit(bitmap, i) :: set_[i]
  }

  // One signature over the checkpoint by each of them, and nothing else.
  ghost predicate SignaturesOf(agg: Aggregate<Message>, named: set<Id>, cp: Checkpoint) {
    forall s :: agg.parts[s] == if s.Signed? && s.signer in named && s == PartialSig(s.signer, cp) then 1 else 0
  }

  lemma KeysAreNamed(set_: ValidatorSet, bitmap: seq<bv8>)
    requires Distinct(set_)
    ensures var pks := SignerKeys(set_, Flags(bitmap, |set_|));
            Distinct(pks) && Members(pks) == Named(set_, bitmap)
  {
    hide TestBit;
    var flags := Flags(bitmap, |set_|);
    KeysMeans(set_, flags, |set_|);
  }

  lemma PartsAre(agg: Aggregate<Message>, pks: seq<Id>, cp: Checkpoint)
    requires Distinct(pks)
    ensures agg.parts == multiset(SignAll(pks, MACRO_CHECKPOINT, CheckpointMsg(cp)))
            <==> SignaturesOf(agg, Members(pks), cp)
  {
    OneEach(pks, MACRO_CHECKPOINT, CheckpointMsg(cp));
    var all := multiset(SignAll(pks, MACRO_CHECKPOINT, CheckpointMsg(cp)));
    hide SignAll;
    if SignaturesOf(agg, Members(pks), cp) {
      forall s ensures agg.parts[s] == all[s] {
        assert s.Signed? ==> (s.signer in pks <==> s.signer in Members(pks));
      }
      assert agg.parts == all;
    }
  }

  // ---------------------------------------------------------------------
  // Adoption of a received certificate
  // ---------------------------------------------------------------------

  // The step adopts the candidate of the next height on the certificate, which it
  // broadcasts first if the node made it.
  ghost predicate Settles(b: Book, s: MStep, qc: MacroQc, made: bool) {
    var h := b.nextHeight;
    && Adopts(b, s) && b.candidate[h].hash == qc.hash
    && s.book.chain.adopted == (if h in b.chain.adopted then b.chain.adopted else b.chain.adopted[h := b.candidate[h]])
    && s.book.lastHash == qc.hash && s.book.emitted == b.emitted + {qc.hash} && s.book.proposed == b.proposed + {h}
    && QcsIn(s.actions) == (if made then {qc} else {})
    && var first := (if made then [SendQc(qc)] else [])
                    + [Persist(b.candidate[h]), PersistQc(qc), SetStatus(qc.hash, Justified)];
       first <= s.actions
  }

  lemma AdoptionSettles(b: Book, env: Env, qc: MacroQc, made: bool)
    requires BookInv(b, env.set_) && b.nextHeight in b.candidate && qc.hash == b.candidate[b.nextHeight].hash
    ensures Settles(b, Adoption(b, env, b.candidate[b.nextHeight], qc, b.nextHeight, if made then [SendQc(qc)] else []),
                    qc, made)
  {
    var cp, head := b.candidate[b.nextHeight], if made then [SendQc(qc)] else [];
    hide BookInv, Adopts, MacroFin.Adoption, Silent, Sent, QcsIn, Clean;
    EmptyIsSilent();
    SendQcMute(qc);
    AdoptionStep(b, env, qc, head);
    AdoptionSends(b, env, cp, qc, b.nextHeight, head);
    AdoptionFields(b, env, cp, qc, b.nextHeight, head);
    CandidateSound(b, env.set_, b.nextHeight);
  }

  lemma AdoptionFields(b: Book, env: Env, cp: Checkpoint, qc: MacroQc, h: nat, head: seq<Action>)
    requires qc.hash == cp.hash
    ensures var s := Adoption(b, env, cp, qc, h, head);
            && s.book.lastHash == qc.hash && s.book.emitted == b.emitted + {qc.hash}
            && s.book.proposed == b.proposed + {h}
            && s.book.chain.adopted == (if cp.height in b.chain.adopted then b.chain.adopted
                                        else b.chain.adopted[cp.height := cp])
            && head + [Persist(cp), PersistQc(qc), SetStatus(qc.hash, Justified)] <= s.actions
  {
    hide MacroFin.NoteLeak, MacroFin.NewlyFinalized, MacroFin.FinalReport;
  }

  lemma EmptyIsSilent()
    ensures Silent([]) && QcsIn([]) == {} && Sent([]) == {} && Clean([])
  {
  }

  // It is over the candidate of the next height, and holds the signatures over it of the
  // validators it names, at least one.
  ghost predicate Adoptable(b: Book, set_: ValidatorSet, qc: MacroQc) {
    && b.nextHeight in b.candidate && qc.hash == b.candidate[b.nextHeight].hash
    && Named(set_, qc.agg.bitmap) != {}
    && SignaturesOf(qc.agg.sig, Named(set_, qc.agg.bitmap), b.candidate[b.nextHeight])
  }

  // Looking up the candidate of the next height by its hash.
  lemma NextIsFound(b: Book, set_: ValidatorSet, hash: MHash)
    requires BookInv(b, set_)
    ensures CandidateHeight(b, hash).Some? && hash !in b.emitted
            <==> b.nextHeight in b.candidate && b.candidate[b.nextHeight].hash == hash
    ensures b.nextHeight in b.candidate && b.candidate[b.nextHeight].hash == hash
            ==> CandidateHeight(b, hash) == Some(b.nextHeight)
  {
    hide TimersOk, ChainOk, LocksOk, StoreOk, VotedOk;
    var n := b.nextHeight;
    if n in b.candidate && b.candidate[n].hash == hash {
      CandidateHere(b, set_);
      assert n in HeightsOf(b.candidate, hash);
    }
    if CandidateHeight(b, hash).Some? && hash !in b.emitted {
      AdoptsNext(b, set_, hash);
    }
  }

  /** What verify_macro_qc accepts, whoever is named. */
  lemma AcceptedQc(set_: ValidatorSet, qc: MacroQc, cp: Checkpoint)
    requires Distinct(set_)
    ensures VerifyMacroQc(set_, qc, cp) <==>
              && qc.hash == cp.hash && Named(set_, qc.agg.bitmap) != {}
              && SignaturesOf(qc.agg.sig, Named(set_, qc.agg.bitmap), cp)
  {
    var pks := SignerKeys(set_, Flags(qc.agg.bitmap, |set_|));
    KeysAreNamed(set_, qc.agg.bitmap);
    PartsAre(qc.agg.sig, pks, cp);
    hide SignaturesOf, TestBit, SignAll, SignerKeys;
    assert pks == [] <==> Members(pks) == {} by {
      if pks != [] { assert pks[0] in Members(pks); }
    }
  }

  lemma VerifiedQcAdopts(b: Book, env: Env, qc: MacroQc)
    requires BookInv(b, env.set_)
    ensures var s, n := OnMacroQc(b, env, qc), b.nextHeight;
            if n in b.candidate && VerifyMacroQc(env.set_, qc, b.candidate[n]) then Settles(b, s, qc, false)
            else s.actions == [] && s.book == b.(rejected := s.book.rejected)
  {
    hide BookInv, Settles, MacroFin.Adoption, MacroFin.CandidateHeight, Sound, Silent, SignerKeys, Flags;
    NextIsFound(b, env.set_, qc.hash);
    if b.nextHeight in b.candidate && b.candidate[b.nextHeight].hash == qc.hash {
      AdoptionSettles(b, env, qc, false);
    }
  }

  /** A received certificate is adopted exactly when it is over the candidate of the next
      height and holds the signatures of the validators it names; nothing else changes the
      node beyond a counter. */
  lemma ReceivedQcAdopts(b: Book, env: Env, qc: MacroQc)
    requires BookInv(b, env.set_) && Distinct(env.set_)
    ensures var s := OnMacroQc(b, env, qc);
            if Adoptable(b, env.set_, qc) then Settles(b, s, qc, false)
            else s.actions == [] && s.book == b.(rejected := s.book.rejected)
  {
    hide BookInv, Settles, MacroFin.OnMacroQc, MacroQcs.VerifyMacroQc, SignaturesOf, Named;
    VerifiedQcAdopts(b, env, qc);
    if b.nextHeight in b.candidate { AcceptedQc(env.set_, qc, b.candidate[b.nextHeight]); }
  }

  // ---------------------------------------------------------------------
  // Assembly in Mode 0 and Mode B
  // ---------------------------------------------------------------------

  lemma {:induction false} StoredSigsFound(set_: ValidatorSet, flags: set<nat>, sigs: SigBook, target: MHash, k: nat)
    requires k <= |set_| && forall i :: 0 <= i < k && i in flags ==> (target, set_[i]) in sigs
    ensures StoredSigs(set_, flags, sigs, target, k).Some?
  {
    if k > 0 { StoredSigsFound(set_, flags, sigs, target, k - 1); }
  }

  /** With a quorum of stored verified partials the flat assembly succeeds, and only
      then; its certificate names exactly the signers. */
  lemma Mode0Succeeds(cp: Checkpoint, signers: set<Id>, sigs: SigBook, set_: ValidatorSet, mode: Mode)
    requires Distinct(set_) && SigsOk(set_, sigs) && signers <= Members(set_)
    requires forall v :: v in signers ==> (cp.hash, v) in sigs
    ensures Mode0Qc(cp.hash, signers, sigs, set_, mode).Some? <==> set_ != [] && |signers| >= QuorumThreshold(|set_|)
    ensures Mode0Qc(cp.hash, signers, sigs, set_, mode).Some? ==>
              Made(set_, Mode0Qc(cp.hash, signers, sigs, set_, mode).value, mode, cp.hash, signers)
  {
    hide SigsOk;
    if set_ != [] && |signers| >= QuorumThreshold(|set_|) {
      var flags := SignerFlags(set_, signers);
      StoredSigsFound(set_, flags, sigs, cp.hash, |set_|);
      StoredSigsAre(set_, flags, sigs, cp.hash, |set_|);
      FlagsOfSubset(set_, signers);
      KeysCount(set_, flags, |set_|);
      assert flags == set i | i in flags && i < |set_|;
      var s := StoredSigs(set_, flags, sigs, cp.hash, |set_|).value;
      forall j | 0 <= j < |s| ensures s[j].Signed? {
        var c := StoredSigIs(set_, sigs, cp.hash, SignerKeys(set_, flags)[j]);
      }
      SignersNamed(set_, signers);
    }
  }

  // A certificate over the hash that names exactly these validators.
  ghost predicate Made(set_: ValidatorSet, qc: MacroQc, mode: Mode, hash: MHash, named: set<Id>) {
    && qc.hash == hash && qc.mode == mode && |qc.agg.bitmap| == (|set_| + 7) / 8
    && Named(set_, qc.agg.bitmap) == named
  }

  lemma SignersNamed(set_: ValidatorSet, signers: set<Id>)
    requires signers <= Members(set_)
    ensures Named(set_, FlagBytes(SignerFlags(set_, signers), |set_|, |set_|)) == signers
  {
    var flags := SignerFlags(set_, signers);
    FlagsRoundTrip(flags, |set_|);
    var bytes := FlagBytes(flags, |set_|, |set_|);
    forall i | 0 <= i < |set_| ensures TestBit(bytes, i) <==> set_[i] in signers {
      assert i in Flags(bytes, |set_|) <==> i in flags;
    }
    hide TestBit;
    forall v | v in signers ensures v in Named(set_, bytes) {
      var i :| 0 <= i < |set_| && set_[i] == v;
      assert TestBit(bytes, i);
    }
  }

  // The partial is the signature of a validator over the candidate of the next height.
  predicate Timely(b: Book, env: Env, bp: BlsPartial) {
    && b.nextHeight in b.candidate && bp.hash == b.candidate[b.nextHeight].hash
    && bp.validator in env.set_ && bp.sig == PartialSig(bp.validator, b.candidate[b.nextHeight])
  }

  function SignersOf(b: Book, hash: MHash): set<Id> {
    if hash in b.partials then b.partials[hash] else {}
  }

  // It is counted without regard to subnets.
  predicate Flat(b: Book, env: Env, bp: BlsPartial) {
    b.nextHeight in b.modeB || (!env.modeA && bp.subnet == 0)
  }

  // With it there is a quorum whose lowest signer is this node.
  predicate CompletesFlat(b: Book, env: Env, bp: BlsPartial) {
    var signers := SignersOf(b, bp.hash) + {bp.validator};
    && b.selfId in signers && (forall v :: v in signers ==> b.selfId <= v)
    && |signers| >= 2 * ((|env.set_| - 1) / 3) + 1
  }

  function Counted(b: Book, bp: BlsPartial): Book {
    b.(sigs := b.sigs[(bp.hash, bp.validator) := bp.sig],
       partials := b.partials[bp.hash := SignersOf(b, bp.hash) + {bp.validator}])
  }

  lemma CountedAfter(b: Book, env: Env, bp: BlsPartial)
    requires BookInv(b, env.set_) && Timely(b, env, bp)
    ensures var c := Counted(b, bp);
            && BookInv(c, env.set_)
            && forall v :: v in SignersOf(c, bp.hash) ==> (bp.hash, v) in c.sigs
  {
    hide CandidatesOk, EmittedOk, TimersOk, ChainOk, LocksOk, VotedOk, SigsOk, LockOf, MacroFin.VotesOf;
    CandidateSound(b, env.set_, b.nextHeight);
    StoredPartial(b, env.set_, bp, b.candidate[b.nextHeight]);
  }

  // The certificate that a node makes of the signers it has counted.
  ghost predicate FlatOutcome(b: Book, env: Env, bp: BlsPartial, s: MStep, qc: MacroQc) {
    && Settles(b, s, qc, true)
    && Made(env.set_, qc, if b.nextHeight in b.modeB then ModeBLeaderless else Mode0Flat, bp.hash,
            SignersOf(b, bp.hash) + {bp.validator})
  }

  lemma SameSettles(b: Book, c: Book, s: MStep, qc: MacroQc)
    requires Settles(c, s, qc, true)
    requires c == b.(sigs := c.sigs, partials := c.partials, subnetAggs := c.subnetAggs,
                     subnetPartials := c.subnetPartials)
    ensures Settles(b, s, qc, true)
  {
    hide Persisted, Reported, QcsIn;
  }

  /** In Mode 0 and Mode B a node adopts the next height and broadcasts its certificate,
      over just the signers it has counted, exactly when a verified partial makes a quorum
      of which it is the lowest signer; otherwise the partial is counted. */
  lemma FlatQuorumAdopts(b: Book, env: Env, bp: BlsPartial)
    requires BookInv(b, env.set_) && Distinct(env.set_) && Timely(b, env, bp) && Flat(b, env, bp)
    ensures var s := OnBlsPartial(b, env, bp);
            && s.book.sigs == b.sigs[(bp.hash, bp.validator) := bp.sig]
            && SignersOf(s.book, bp.hash) == SignersOf(b, bp.hash) + {bp.validator}
            && if CompletesFlat(b, env, bp) then exists qc :: FlatOutcome(b, env, bp, s, qc)
               else s.actions == [] && s.book.nextHeight == b.nextHeight
  {
    hide BookInv, MacroFin.OnBlsPartial, Timely, Flat, FlatOutcome;
    CountedSigners(b, bp);
    if CompletesFlat(b, env, bp) {
      var qc := FlatCompletes(b, env, bp);
    } else {
      FlatFallsShort(b, env, bp);
    }
  }

  lemma FlatCompletes(b: Book, env: Env, bp: BlsPartial) returns (qc: MacroQc)
    requires BookInv(b, env.set_) && Distinct(env.set_) && Timely(b, env, bp) && Flat(b, env, bp)
    requires CompletesFlat(b, env, bp)
    ensures var s := OnBlsPartial(b, env, bp);
            && FlatOutcome(b, env, bp, s, qc)
            && s.book.sigs == b.sigs[(bp.hash, bp.validator) := bp.sig]
            && s.book.partials == Counted(b, bp).partials
  {
    hide BookInv, MacroFin.Adoption, MacroQcs.Mode0Qc, MacroFin.OnBlsPartial, MacroFin.CandidateHeight, Made;
    hide PartialSig, Flat, Distinct, SignersOf;
    hide FlatOutcome;
    CountedSigners(b, bp);
    var mode := if b.nextHeight in b.modeB then ModeBLeaderless else Mode0Flat;
    var c, signers := Counted(b, bp), SignersOf(b, bp.hash) + {bp.validator};
    CountedAfter(b, env, bp);
    NextIsFound(b, env.set_, bp.hash);
    FlatIs(b, env, bp);
    FlatMakes(c, env, b.candidate[b.nextHeight], bp.hash, mode);
    qc := Mode0Qc(bp.hash, signers, c.sigs, env.set_, mode).value;
    FlatAdopts(b, c, env, bp, mode, qc);
  }

  lemma FlatFallsShort(b: Book, env: Env, bp: BlsPartial)
    requires BookInv(b, env.set_) && Distinct(env.set_) && Timely(b, env, bp) && Flat(b, env, bp)
    requires !CompletesFlat(b, env, bp)
    ensures OnBlsPartial(b, env, bp) == MStep(Counted(b, bp), [])
  {
    hide BookInv, MacroFin.Adoption, MacroQcs.Mode0Qc, MacroFin.OnBlsPartial, MacroFin.CandidateHeight, Made;
    hide PartialSig, Flat, Distinct, SignersOf;
    CountedSigners(b, bp);
    var mode := if b.nextHeight in b.modeB then ModeBLeaderless else Mode0Flat;
    var c, signers := Counted(b, bp), SignersOf(b, bp.hash) + {bp.validator};
    CountedAfter(b, env, bp);
    NextIsFound(b, env.set_, bp.hash);
    FlatIs(b, env, bp);
    FlatMakes(c, env, b.candidate[b.nextHeight], bp.hash, mode);
    assert bp.validator in signers;
  }

  // What assembly makes of the signers counted for a checkpoint.
  lemma FlatMakes(b: Book, env: Env, cp: Checkpoint, hash: MHash, mode: Mode)
    requires BookInv(b, env.set_) && Distinct(env.set_) && cp.hash == hash
    requires forall v :: v in SignersOf(b, hash) ==> (hash, v) in b.sigs
    ensures var qc, signers := Mode0Qc(hash, SignersOf(b, hash), b.sigs, env.set_, mode), SignersOf(b, hash);
            && (qc.Some? <==> |signers| >= 2 * ((|env.set_| - 1) / 3) + 1)
            && (qc.Some? ==> Made(env.set_, qc.value, mode, hash, signers))
  {
    assert env.set_ != [];
    hide BookInv, SigsOk, MacroQcs.Mode0Qc, Made, MacroFin.PartialsOf, SignersOf;
    CountedAreStored(b, env.set_, hash);
    SignersAre(b, hash);
    Mode0Succeeds(cp, SignersOf(b, hash), b.sigs, env.set_, mode);
  }

  lemma SignersAre(b: Book, hash: MHash)
    ensures SignersOf(b, hash) == PartialsOf(b.partials, hash)
  {
  }

  lemma FlatAdopts(b: Book, c: Book, env: Env, bp: BlsPartial, mode: Mode, qc: MacroQc)
    requires c == b.(sigs := c.sigs, partials := c.partials) && BookInv(c, env.set_)
    requires b.nextHeight in b.candidate && b.candidate[b.nextHeight].hash == bp.hash
    requires mode == if b.nextHeight in b.modeB then ModeBLeaderless else Mode0Flat
    requires Made(env.set_, qc, mode, bp.hash, SignersOf(b, bp.hash) + {bp.validator})
    ensures var s := Adoption(c, env, b.candidate[b.nextHeight], qc, b.nextHeight, [SendQc(qc)]);
            FlatOutcome(b, env, bp, s, qc) && s.book.sigs == c.sigs && s.book.partials == c.partials
  {
    hide BookInv, MacroFin.Adoption, Settles, SignersOf;
    AdoptionSettles(c, env, qc, true);
    var s := Adoption(c, env, b.candidate[b.nextHeight], qc, b.nextHeight, [SendQc(qc)]);
    SameSettles(b, c, s, qc);
    AdoptionStores(c, env, b.candidate[b.nextHeight], qc, b.nextHeight, [SendQc(qc)]);
  }

  lemma CountedSigners(b: Book, bp: BlsPartial)
    ensures SignersOf(Counted(b, bp), bp.hash) == SignersOf(b, bp.hash) + {bp.validator}
  {
  }

  lemma FlatIs(b: Book, env: Env, bp: BlsPartial)
    requires Timely(b, env, bp) && Flat(b, env, bp)
    requires CandidateHeight(b, bp.hash) == Some(b.nextHeight) && bp.hash !in b.emitted
    ensures var c, signers := Counted(b, bp), SignersOf(b, bp.hash) + {bp.validator};
            var mode := if b.nextHeight in b.modeB then ModeBLeaderless else Mode0Flat;
            var qc := Mode0Qc(bp.hash, signers, c.sigs, env.set_, mode);
            OnBlsPartial(b, env, bp)
            == if Minimum(signers) != b.selfId || qc.None? then MStep(c, [])
               else Adoption(c, env, b.candidate[b.nextHeight], qc.value, b.nextHeight, [SendQc(qc.value)])
  {
    hide MacroFin.Adoption, MacroQcs.Mode0Qc, MacroFin.CandidateHeight;
  }

  lemma AdoptionStores(b: Book, env: Env, cp: Checkpoint, qc: MacroQc, h: nat, head: seq<Action>)
    ensures var c := Adoption(b, env, cp, qc, h, head).book;
            c.sigs == b.sigs && c.partials == b.partials && c.subnetAggs == b.subnetAggs
            && c.subnetPartials == b.subnetPartials
  {
  }

  lemma QcHash(target: MHash, signers: set<Id>, sigs: SigBook, set_: ValidatorSet, mode: Mode)
    requires Mode0Qc(target, signers, sigs, set_, mode).Some?
    ensures Mode0Qc(target, signers, sigs, set_, mode).value.hash == target
  {
  }

  /** Outside the candidate of the next height, with a wrong signature, or in Mode 0 with
      a subnet other than 0, a partial is not counted and makes nobody act. */
  lemma OtherPartialsRest(b: Book, env: Env, bp: BlsPartial)
    requires BookInv(b, env.set_)
    requires !Timely(b, env, bp) || (b.nextHeight !in b.modeB && !env.modeA && bp.subnet != 0)
    ensures Rests(b, OnBlsPartial(b, env, bp))
  {
    TimelyMeans(b, env, bp);
    var c := b.(sigs := b.sigs[(bp.hash, bp.validator) := bp.sig]);
    RestsWith(b, c.sigs);
    hide BookInv, MacroFin.CandidateHeight, MacroFin.SubnetPath, MacroFin.FlatPath, MacroQcs.VerifyPartial, Timely;
    hide Rests;
    NextIsFound(b, env.set_, bp.hash);
    if Timely(b, env, bp) { ForeignSubnet(c, env, bp, b.nextHeight); }
  }

  // Nothing happens beyond a stored signature or a counter.
  ghost predicate Rests(b: Book, s: MStep) {
    s.actions == [] && s.book == b.(sigs := s.book.sigs, rejected := s.book.rejected)
  }

  lemma RestsWith(b: Book, sigs: SigBook)
    ensures Rests(b, MStep(b, [])) && Rests(b, MStep(b.(sigs := sigs), []))
    ensures Rests(b, MStep(b.(rejected := b.rejected + 1), []))
  {
  }

  lemma TimelyMeans(b: Book, env: Env, bp: BlsPartial)
    ensures Timely(b, env, bp) <==> b.nextHeight in b.candidate && bp.hash == b.candidate[b.nextHeight].hash
                                    && VerifyPartial(env.set_, bp, b.candidate[b.nextHeight])
  {
  }

  lemma ForeignSubnet(b: Book, env: Env, bp: BlsPartial, h: nat)
    requires h in b.candidate && bp.subnet != 0
    ensures FlatPath(b, env, bp, h, Mode0Flat) == MStep(b, [])
  {
  }

  // ---------------------------------------------------------------------
  // Votes
  // ---------------------------------------------------------------------

  // The beacon noted for a height, or the current one.
  function BeaconAt(b: Book, env: Env, height: nat): nat {
    if height in b.beacons then b.beacons[height] else env.beacon
  }

  // Signed by a validator that the schedule drew.
  predicate BySchedule(b: Book, env: Env, p: Proposal) {
    && p.proposer in env.set_
    && p.sig == Signed(p.proposer, MACRO_PROPOSER_SIG, ProposerMsg(p.proposer, p.cp.hash))
    && env.vrfOk(BeaconAt(b, env, p.cp.height), p.cp.height, p.proposer, p.vrf)
  }

  // Not locked on another checkpoint of the height.
  predicate FreeToSign(b: Book, height: nat, hash: MHash) {
    !(b.selfId in b.locks && b.locks[b.selfId].0 == height && b.locks[b.selfId].1 != hash)
  }

  // The first verified proposal of its proposer for the height, by the primary or the
  // backup unless Mode B is active there, that names the last adopted checkpoint, has the
  // root and the hash of the candidate and is not excluded by the lock.
  predicate Votable(b: Book, env: Env, p: Proposal) {
    var h, beacon := p.cp.height, BeaconAt(b, env, p.cp.height);
    && BySchedule(b, env, p) && ((h, p.proposer) in b.seen ==> b.seen[(h, p.proposer)] == [])
    && (h in b.modeB || p.proposer == env.primary(beacon, h) || p.proposer == env.backup(beacon, h))
    && p.cp.parent == b.lastHash
    && h in b.candidate && p.cp.root == b.candidate[h].root && p.cp.hash == b.candidate[h].hash
    && FreeToSign(b, h, p.cp.hash)
  }

  lemma VotableMeans(b: Book, env: Env, p: Proposal)
    ensures var beacon := BeaconFor(NoteBeacon(b, env, p.cp.height), env, p.cp.height);
            && beacon == BeaconAt(b, env, p.cp.height)
            && (VerifyProposal(env, p, beacon) <==> BySchedule(b, env, p))
            && (Votable(b, env, p) <==>
                && VerifyProposal(env, p, beacon) && SeenAt(b, (p.cp.height, p.proposer)) == []
                && Acceptable(b, env, p, beacon) && TryLock(b.locks, b.selfId, p.cp.height, p.cp.hash).Some?)
  {
  }

  lemma SelfCheckSends(votes: map<Id, seq<Vote>>, v: Id)
    ensures Sent(SelfCheck(votes, v)) == {}
  {
  }

  lemma AnnounceSends(b: Book, env: Env, cp: Checkpoint, mode: Mode, beacon: nat)
    ensures Sent(AnnounceVote(b, env, cp, mode, beacon).actions) == {PartialSig(b.selfId, cp)}
  {
    hide MacroFin.SelfCheck, MacroFin.AggregateActions, Mute;
    var c, subnet := AnnounceVote(b, env, cp, mode, beacon).book, env.subnet(beacon, b.selfId);
    var two := [SendPartial(OwnPartial(b, env, mode, beacon, cp)), SetStatus(cp.hash, SoftConfirmed)];
    var tail := if mode == ModeASubnet then AggregateActions(c, env, beacon, cp.hash, subnet) else [];
    SelfCheckSends(b.votes, b.selfId);
    AggregateMute(c, env, beacon, cp.hash, subnet);
    NothingMute();
    MuteParts(tail);
    SentAppend(SelfCheck(b.votes, b.selfId), two);
    SentAppend(SelfCheck(b.votes, b.selfId) + two, tail);
    assert AnnounceVote(b, env, cp, mode, beacon).actions == SelfCheck(b.votes, b.selfId) + two + tail;
    assert Sent(two) == {PartialSig(b.selfId, cp)};
  }

  /** A node signs a proposed checkpoint exactly when the proposal is votable, and
      signs it as it came. */
  lemma ProposalIsVotedFor(b: Book, env: Env, p: Proposal)
    ensures Sent(OnMacroProposal(b, env, p).actions) == if Votable(b, env, p) then {PartialSig(b.selfId, p.cp)} else {}
  {
    VotableMeans(b, env, p);
    hide MacroFin.AnnounceVote, MacroFin.VerifyProposal, MacroFin.TryLock, MacroQcs.PartialSig, Votable, BySchedule;
    var c, key := NoteBeacon(b, env, p.cp.height), (p.cp.height, p.proposer);
    var beacon := BeaconFor(c, env, p.cp.height);
    var d := c.(seen := c.seen[key := [p]]);
    assert Acceptable(d, env, p, beacon) == Acceptable(b, env, p, beacon);
    var lock := TryLock(d.locks, d.selfId, p.cp.height, p.cp.hash);
    if Acceptable(d, env, p, beacon) && lock.Some? {
      AnnounceSends(CastVote(d, p.cp, lock.value), env, p.cp, ActiveMode(d, env, p.cp.height), beacon);
      assert CastVote(d, p.cp, lock.value).selfId == b.selfId;
    }
  }

  // What the node does when it votes for a checkpoint, in whichever mode.
  ghost predicate VotesFor(b: Book, env: Env, s: MStep, cp: Checkpoint) {
    var h, v := cp.height, b.selfId;
    var subnet := if env.modeA && h !in b.modeB then env.subnet(BeaconAt(b, env, h), v) else 0;
    && (forall x :: SendPartial(x) in s.actions <==> x == BlsPartial(subnet, v, cp.hash, PartialSig(v, cp)))
    && SetStatus(cp.hash, SoftConfirmed) in s.actions && Cast(b, s.book, cp)
  }

  /** A votable proposal is answered with the node's partial, for its own subnet in Mode A
      and for subnet 0 otherwise; the vote is locked, stored, counted and recorded. */
  lemma VoteIsSent(b: Book, env: Env, p: Proposal)
    requires Votable(b, env, p)
    ensures VotesFor(b, env, OnMacroProposal(b, env, p), p.cp)
  {
    var e, mode, beacon := VoteAnnounced(b, env, p);
    hide Votable, MacroFin.OnMacroProposal, MacroFin.AnnounceVote, Cast;
    AnnounceActions(e, env, p.cp, mode, beacon);
    VoteSends(b, e, env, p.cp, AnnounceVote(e, env, p.cp, mode, beacon));
  }

  // The book in which a votable proposal is announced.
  lemma VoteAnnounced(b: Book, env: Env, p: Proposal) returns (e: Book, mode: Mode, beacon: nat)
    requires Votable(b, env, p)
    ensures OnMacroProposal(b, env, p) == AnnounceVote(e, env, p.cp, mode, beacon)
    ensures Cast(b, e, p.cp) && e.selfId == b.selfId
    ensures mode == ActiveMode(b, env, p.cp.height) && beacon == BeaconAt(b, env, p.cp.height)
  {
    VotableMeans(b, env, p);
    var h := p.cp.height;
    var c, key := NoteBeacon(b, env, h), (h, p.proposer);
    beacon := BeaconFor(c, env, h);
    var d := c.(seen := c.seen[key := [p]]);
    assert Acceptable(d, env, p, beacon) == Acceptable(b, env, p, beacon);
    assert SeenAt(c, key) == [];
    hide MacroFin.VerifyProposal, MacroFin.Acceptable, Votable, BySchedule, MacroFin.CastVote, MacroFin.AnnounceVote;
    hide MacroFin.TryLock;
    e, mode := CastVote(d, p.cp, TryLock(d.locks, d.selfId, h, p.cp.hash).value), ActiveMode(d, env, h);
    LockedOn(d, h, p.cp.hash);
    CastIs(d, p.cp);
    hide MacroFin.OnMacroProposal;
    CastFrom(b, d, e, p.cp);
  }

  lemma CastFrom(b: Book, d: Book, e: Book, cp: Checkpoint)
    requires Cast(d, e, cp) && d == b.(beacons := d.beacons, seen := d.seen)
    ensures Cast(b, e, cp)
  {
  }

  lemma LockedOn(b: Book, height: nat, hash: MHash)
    requires TryLock(b.locks, b.selfId, height, hash).Some?
    ensures TryLock(b.locks, b.selfId, height, hash) == Some(b.locks[b.selfId := (height, hash)])
  {
  }

  // What casting a vote does to the book, apart from the tracker.
  ghost predicate Cast(b: Book, c: Book, cp: Checkpoint) {
    var h, v := cp.height, b.selfId;
    && c.locks == b.locks[v := (h, cp.hash)] && c.candidate == b.candidate[h := cp]
    && c.sigs == b.sigs[(cp.hash, v) := PartialSig(v, cp)]
    && SignersOf(c, cp.hash) == SignersOf(b, cp.hash) + {v}
    && c.proposed == b.proposed + {h} && h !in c.timers.backup
    && VotesOf(c.votes, v) == VotesOf(b.votes, v) + [VoteFor(v, cp)]
    && c.chain.adopted == if h in b.chain.adopted then b.chain.adopted else b.chain.adopted[h := cp]
  }

  lemma CastIs(b: Book, cp: Checkpoint)
    ensures var c := CastVote(b, cp, b.locks[b.selfId := (cp.height, cp.hash)]);
            Cast(b, c, cp) && c.selfId == b.selfId
  {
  }

  lemma AnnounceActions(b: Book, env: Env, cp: Checkpoint, mode: Mode, beacon: nat)
    ensures var s, subnet := AnnounceVote(b, env, cp, mode, beacon), env.subnet(beacon, b.selfId);
            var own := BlsPartial(if mode == ModeASubnet then subnet else 0, b.selfId, cp.hash,
                                  PartialSig(b.selfId, cp));
            && (forall x :: SendPartial(x) in s.actions <==> x == own)
            && SetStatus(cp.hash, SoftConfirmed) in s.actions && s.book == b.(subnetPartials := s.book.subnetPartials)
  {
    hide MacroFin.SelfCheck, MacroFin.AggregateActions;
    var s, subnet := AnnounceVote(b, env, cp, mode, beacon), env.subnet(beacon, b.selfId);
    CheckAccuses(b.votes, b.selfId);
    AggregateSendsOnly(s.book, env, beacon, cp.hash, subnet);
    var own := OwnPartial(b, env, mode, beacon, cp);
    var check, two := SelfCheck(b.votes, b.selfId), [SendPartial(own), SetStatus(cp.hash, SoftConfirmed)];
    var tail := if mode == ModeASubnet then AggregateActions(s.book, env, beacon, cp.hash, subnet) else [];
    assert s.actions == check + two + tail;
    assert two[0] in s.actions && two[1] in s.actions;
    forall x | SendPartial(x) in s.actions ensures x == own {
      assert SendPartial(x) in check || SendPartial(x) in two || SendPartial(x) in tail;
    }
  }

  lemma AggregateSendsOnly(b: Book, env: Env, beacon: nat, hash: MHash, subnet: nat)
    ensures forall a :: a in AggregateActions(b, env, beacon, hash, subnet) ==> a.SendSubnetAgg?
  {
    hide MacroQcs.BuildAggregate;
  }

  lemma VoteSends(b: Book, e: Book, env: Env, cp: Checkpoint, s: MStep)
    requires Cast(b, e, cp) && e.selfId == b.selfId && s.book == e.(subnetPartials := s.book.subnetPartials)
    requires SetStatus(cp.hash, SoftConfirmed) in s.actions
    requires var h, v := cp.height, b.selfId;
             var subnet := if env.modeA && h !in b.modeB then env.subnet(BeaconAt(b, env, h), v) else 0;
             forall x :: SendPartial(x) in s.actions <==> x == BlsPartial(subnet, v, cp.hash, PartialSig(v, cp))
    ensures VotesFor(b, env, s, cp)
  {
  }

  /** When the Mode B timer of the next height fires, Mode B is active there, and the node
      sends its partial over the candidate exactly if no lock on another one excludes it. */
  lemma DeadlineIsVotedAt(b: Book, env: Env, id: nat)
    requires BookInv(b, env.set_) && b.nextHeight in b.candidate
    requires b.nextHeight in b.timers.modeB && b.timers.modeB[b.nextHeight] == id
    requires forall h :: h in b.timers.backup ==> b.timers.backup[h] != id
    ensures var s, h, cp, v := OnTimerFired(b, env, id), b.nextHeight, b.candidate[b.nextHeight], b.selfId;
            && s.book.modeB == b.modeB + {h} && h !in s.book.timers.modeB
            && if FreeToSign(b, h, cp.hash)
               then && s.actions == [SendPartial(BlsPartial(0, v, cp.hash, PartialSig(v, cp)))]
                    && s.book.locks == b.locks[v := (h, cp.hash)]
                    && s.book.sigs == b.sigs[(cp.hash, v) := PartialSig(v, cp)]
                    && SignersOf(s.book, cp.hash) == SignersOf(b, cp.hash) + {v}
               else s.actions == [] && s.book.locks == b.locks && s.book.sigs == b.sigs
  {
    hide BookInv, MacroFin.HeightFor, TimersOk;
    CandidateHere(b, env.set_);
    TimersHeld(b, env.set_);
    ModeBTimerIs(b.timers, b.nextHeight, id);
    assert OnTimerFired(b, env, id) == ModeBDeadline(b, env, b.nextHeight);
  }

  lemma ModeBTimerIs(t: Timers, next: nat, id: nat)
    requires TimersOk(t, next) && next in t.modeB && t.modeB[next] == id
    requires forall h :: h in t.backup ==> t.backup[h] != id
    ensures HeightFor(t.backup, id) == None && HeightFor(t.modeB, id) == Some(next)
  {
    var none := set h | h in t.backup && t.backup[h] == id;
    assert none == {};
    var hs := set h | h in t.modeB && t.modeB[h] == id;
    assert next in hs;
    assert Minimum(hs) in hs;
  }

  lemma CandidateHere(b: Book, set_: ValidatorSet)
    requires BookInv(b, set_) && b.nextHeight in b.candidate
    ensures b.candidate[b.nextHeight].hash !in b.emitted
  {
    hide TimersOk, ChainOk, LocksOk, StoreOk, VotedOk;
    assert Linked(b.candidate, b.candidate[b.nextHeight], b.nextHeight);
  }

  // ---------------------------------------------------------------------
  // Proposals
  // ---------------------------------------------------------------------

  // The node's own proposal of a checkpoint.
  function Offer(b: Book, env: Env, beacon: nat, cp: Checkpoint): Proposal {
    Proposal(cp, b.selfId, env.prove(beacon, cp.height),
             Signed(b.selfId, MACRO_PROPOSER_SIG, ProposerMsg(b.selfId, cp.hash)))
  }

  /** A micro certificate short of the window only grows it. The one that fills it makes the
      candidate of the next height, over the window's hashes in order and on top of the last
      adopted checkpoint; the primary proposes it, the backup waits for its turn, and all wait
      twice as long for Mode B unless the configuration forbids it. */
  lemma WindowFills(b: Book, env: Env, x: nat)
    ensures var s, ring, h, t := OnLocalMicroQcs(b, env, [x]), b.ring + [x], b.nextHeight, b.timers;
            if |ring| < env.window then s == MStep(b.(ring := ring), [])
            else
              var root := OfRing(ring);
              var cp := Checkpoint(h, 0, b.lastHash, root, OfCheckpoint(h, 0, b.lastHash, root));
              var first := env.primary(env.beacon, h) == b.selfId;
              var second := !first && env.backup(env.beacon, h) == b.selfId;
              var id := if second then t.next + 1 else t.next;
              && s.actions == (if first then [SendProposal(Offer(b, env, env.beacon, cp))]
                               else if second then [ScheduleTimer(t.next, env.delay)] else [])
                              + (if env.forceKe then [] else [ScheduleTimer(id, 2 * env.delay)])
              && s.book.timers == Timers(if second then t.backup[h := t.next] else t.backup,
                                         if env.forceKe then t.modeB else t.modeB[h := id],
                                         if env.forceKe then id else id + 1)
              && s.book == b.(ring := [], candidate := b.candidate[h := cp], beacons := b.beacons[h := env.beacon],
                              proposed := if first then b.proposed + {h} else b.proposed,
                              timers := s.book.timers)
  {
    WindowPushes(b, env, x);
  }

  lemma WindowPushes(b: Book, env: Env, x: nat)
    ensures OnLocalMicroQcs(b, env, [x]) == PushMicro(b, env, x)
  {
    hide MacroFin.PushMicro;
    assert [x][..0] == [];
    assert OnLocalMicroQcs(b, env, [x][..0]) == MStep(b, []);
  }

  /** Several are handled one after the other. */
  lemma {:induction false} MicroQcsInOrder(b: Book, env: Env, xs: seq<nat>, ys: seq<nat>)
    ensures var s := OnLocalMicroQcs(b, env, xs);
            var t := OnLocalMicroQcs(s.book, env, ys);
            OnLocalMicroQcs(b, env, xs + ys) == MStep(t.book, s.actions + t.actions)
  {
    hide MacroFin.PushMicro;
    if ys == [] {
      assert xs + ys == xs;
    } else {
      var m := |ys| - 1;
      MicroQcsInOrder(b, env, xs, ys[..m]);
      assert (xs + ys)[..|xs| + m] == xs + ys[..m] && (xs + ys)[|xs| + m] == ys[m];
    }
  }

  /** When the backup's timer fires it proposes exactly if nothing was proposed or voted for
      at the height, there is a candidate and it is still the backup. */
  lemma BackupProposes(b: Book, env: Env, id: nat)
    requires BookInv(b, env.set_) && b.nextHeight in b.timers.backup && b.timers.backup[b.nextHeight] == id
    ensures var s, h, beacon := OnTimerFired(b, env, id), b.nextHeight, BeaconAt(b, env, b.nextHeight);
            && h !in s.book.timers.backup
            && if h !in b.proposed && h in b.candidate && env.backup(beacon, h) == b.selfId
               then && s.actions == [SendProposal(Offer(b, env, beacon, b.candidate[h]))]
                    && s.book.proposed == b.proposed + {h}
               else s.actions == [] && s.book.proposed == b.proposed
  {
    hide BookInv, MacroFin.HeightFor, TimersOk, Sound;
    TimersHeld(b, env.set_);
    BackupTimerIs(b.timers, b.nextHeight, id);
    if b.nextHeight in b.candidate { CandidateSound(b, env.set_, b.nextHeight); }
    BackupTurn(b, env, b.nextHeight);
    hide MacroFin.BackupPropose, BeaconAt;
    assert OnTimerFired(b, env, id) == BackupPropose(b, env, b.nextHeight);
  }

  lemma BackupTurn(b: Book, env: Env, h: nat)
    requires h in b.candidate ==> b.candidate[h].height == h
    ensures var s, beacon := BackupPropose(b, env, h), BeaconAt(b, env, h);
            && h !in s.book.timers.backup
            && if h !in b.proposed && h in b.candidate && env.backup(beacon, h) == b.selfId
               then && s.actions == [SendProposal(Offer(b, env, beacon, b.candidate[h]))]
                    && s.book.proposed == b.proposed + {h}
               else s.actions == [] && s.book.proposed == b.proposed
  {
  }

  lemma BackupTimerIs(t: Timers, next: nat, id: nat)
    requires TimersOk(t, next) && next in t.backup && t.backup[next] == id
    ensures HeightFor(t.backup, id) == Some(next)
  {
    var hs := set h | h in t.backup && t.backup[h] == id;
    assert next in hs;
    assert Minimum(hs) in hs;
  }

  /** A genuine proposal is remembered; a later one of the same proposer and height with
      another hash is reported together with the first, and nobody is reported otherwise. */
  lemma SecondOfferIsReported(b: Book, env: Env, p: Proposal)
    ensures var s, key := OnMacroProposal(b, env, p), (p.cp.height, p.proposer);
            var held := if key in b.seen then b.seen[key] else [];
            var differs := exists q :: q in held && q.cp.hash != p.cp.hash;
            && (if BySchedule(b, env, p) && differs
                then s.actions == [EmitEvidence(p.proposer, MacroEquivocation(held[0], p))]
                else forall a :: a in s.actions && a.EmitEvidence? ==> !a.evidence.MacroEquivocation?)
            && s.book.seen == (if BySchedule(b, env, p) && held == [] then b.seen[key := [p]] else b.seen)
            && s.book.beacons == b.beacons[p.cp.height := BeaconAt(b, env, p.cp.height)]
  {
    VotableMeans(b, env, p);
    hide MacroFin.VerifyProposal, BySchedule, Votable, MacroFin.Acceptable, MacroFin.CastVote, MacroFin.TryLock;
    var c, key := NoteBeacon(b, env, p.cp.height), (p.cp.height, p.proposer);
    var beacon := BeaconFor(c, env, p.cp.height);
    var d := c.(seen := c.seen[key := [p]]);
    ConsiderQuiet(d, env, p, beacon);
    hide MacroFin.ConsiderVote;
  }

  lemma ConsiderQuiet(b: Book, env: Env, p: Proposal, beacon: nat)
    ensures var s := ConsiderVote(b, env, p, beacon);
            && s.book.seen == b.seen && s.book.beacons == b.beacons
            && forall a :: a in s.actions && a.EmitEvidence? ==> !a.evidence.MacroEquivocation?
  {
    hide MacroFin.Acceptable, MacroFin.TryLock, MacroFin.AnnounceVote;
    var lock := TryLock(b.locks, b.selfId, p.cp.height, p.cp.hash);
    if lock.Some? {
      var c, mode := CastVote(b, p.cp, lock.value), ActiveMode(b, env, p.cp.height);
      AnnounceQuiet(c, env, p.cp, mode, beacon);
    }
  }

  lemma AnnounceQuiet(b: Book, env: Env, cp: Checkpoint, mode: Mode, beacon: nat)
    ensures var s := AnnounceVote(b, env, cp, mode, beacon);
            && s.book.seen == b.seen && s.book.beacons == b.beacons
            && forall a :: a in s.actions && a.EmitEvidence? ==> !a.evidence.MacroEquivocation?
  {
    hide MacroFin.SelfCheck, MacroFin.AggregateActions;
    var s, subnet := AnnounceVote(b, env, cp, mode, beacon), env.subnet(beacon, b.selfId);
    CheckAccuses(b.votes, b.selfId);
    AggregateSendsOnly(s.book, env, beacon, cp.hash, subnet);
  }

  lemma CheckAccuses(votes: map<Id, seq<Vote>>, v: Id)
    ensures forall a :: a in SelfCheck(votes, v) ==> a.EmitEvidence? && !a.evidence.MacroEquivocation?
  {
    var all := VotesOf(votes, v);
    if |all| >= 2 {
      var m := |all| - 1;
      SurroundExact(all[..m], all[m]);
      DoubleExact(all[..m], all[m]);
    }
  }

  // The vote for a checkpoint, as it is recorded.
  function VoteFor(v: Id, cp: Checkpoint): Vote {
    var source := if cp.height == 0 then 0 else cp.height - 1;
    Vote(source, cp.height, cp.hash, Signed(v, MACRO_VOTE, VoteMsg(source, cp.height, cp.hash)))
  }

  /** A vote makes the node report itself, and no one else, exactly if an earlier vote of its
      own crosses it or is for another hash of the height. */
  lemma ConflictingVotesAreReported(b: Book, env: Env, p: Proposal)
    requires Votable(b, env, p)
    ensures var s, v, past, vote := OnMacroProposal(b, env, p), b.selfId, VotesOf(b.votes, b.selfId),
                                    VoteFor(b.selfId, p.cp);
            && (forall a :: a in s.actions && a.EmitEvidence? ==> a.offender == v)
            && ((exists e :: EmitEvidence(v, e) in s.actions && e.Surround?)
                <==> exists i :: 0 <= i < |past| && Crosses(past[i], vote))
            && ((exists e :: EmitEvidence(v, e) in s.actions && e.DoubleVote?)
                <==> exists i :: 0 <= i < |past| && Differs(past[i], vote))
  {
    var past, vote := VotesOf(b.votes, b.selfId), VoteFor(b.selfId, p.cp);
    var e, mode, beacon := VoteAnnounced(b, env, p);
    hide Votable, MacroFin.OnMacroProposal, MacroFin.AnnounceVote, MacroFin.SelfCheck, Crosses, Differs, VoteFor;
    EvidenceIs(e, env, p.cp, mode, beacon);
    CheckOf(e.votes, e.selfId, past, vote);
  }

  // The actions of a vote accuse only what the check of the node's own votes finds.
  lemma EvidenceIs(b: Book, env: Env, cp: Checkpoint, mode: Mode, beacon: nat)
    ensures var s := AnnounceVote(b, env, cp, mode, beacon);
            forall a: Action :: a.EmitEvidence? ==> (a in s.actions <==> a in SelfCheck(b.votes, b.selfId))
  {
    hide MacroFin.SelfCheck, MacroFin.AggregateActions;
    var s, subnet := AnnounceVote(b, env, cp, mode, beacon), env.subnet(beacon, b.selfId);
    AggregateSendsOnly(s.book, env, beacon, cp.hash, subnet);
  }

  lemma CheckOf(votes: map<Id, seq<Vote>>, v: Id, past: seq<Vote>, latest: Vote)
    requires VotesOf(votes, v) == past + [latest]
    ensures var a := SelfCheck(votes, v);
            && (forall x :: x in a ==> x.EmitEvidence? && x.offender == v)
            && ((exists e :: EmitEvidence(v, e) in a && e.Surround?)
                <==> exists i :: 0 <= i < |past| && Crosses(past[i], latest))
            && ((exists e :: EmitEvidence(v, e) in a && e.DoubleVote?)
                <==> exists i :: 0 <= i < |past| && Differs(past[i], latest))
  {
    hide Crosses, Differs;
    var all, m := past + [latest], |past|;
    assert all[..m] == past && all[m] == latest;
    SurroundExact(past, latest);
    DoubleExact(past, latest);
    var x, y := SurroundIn(past, latest), DoubleIn(past, latest);
    hide MacroFin.SurroundIn, MacroFin.DoubleIn;
    var a := SelfCheck(votes, v);
    if m > 0 {
      assert a == Accuse(v, x) + Accuse(v, y);
      if x.Some? { assert EmitEvidence(v, x.value) in a; }
      if y.Some? { assert EmitEvidence(v, y.value) in a; }
    }
  }

  // ---------------------------------------------------------------------
  // The inactivity leak over a streak of adoptions
  // ---------------------------------------------------------------------

  // The counter, the flag and the notices after adoptions that did or did not make a
  // height final.
  function Streak(finals: seq<bool>, trigger: nat): Leak {
    if finals == [] then Leak(0, false, [])
    else
      var m := |finals| - 1;
      var before := Streak(finals[..m], trigger);
      var now := NoteLeak(before.windows, before.notified, trigger, finals[m]);
      Leak(now.windows, now.notified, before.actions + now.actions)
  }

  // How many adoptions there were since the last one that made a height final.
  function Unfinished(finals: seq<bool>): nat {
    if finals == [] || finals[|finals| - 1] then 0 else Unfinished(finals[..|finals| - 1]) + 1
  }

  /** The counter is the length of the streak, up to the largest 32-bit number, and a
      notice goes out once a streak: when it reaches the trigger, at its first adoption at
      the earliest. */
  lemma {:induction false} NoticeOncePerStreak(finals: seq<bool>, trigger: nat)
    requires trigger <= 0xFFFF_FFFF
    ensures var l, k, due := Streak(finals, trigger), Unfinished(finals), if trigger == 0 then 1 else trigger;
            && l.windows == (if k < 0xFFFF_FFFF then k else 0xFFFF_FFFF)
            && (l.notified <==> k >= due)
            && (finals != [] ==>
                  l.actions == Streak(finals[..|finals| - 1], trigger).actions
                               + if k == due then [NotifyLeak(due)] else [])
  {
    if finals != [] { NoticeOncePerStreak(finals[..|finals| - 1], trigger); }
  }

  /** Every adoption is such an entry: final exactly when the tracker makes a height final. */
  lemma AdoptionCounts(b: Book, env: Env, cp: Checkpoint, qc: MacroQc, height: nat, head: seq<Action>)
    ensures var s := Adoption(b, env, cp, qc, height, head);
            var leak := NoteLeak(b.unfinalized, b.leakNotified, env.leakTrigger,
                                 NewlyFinalized(Adopt(b.chain, cp)).Some?);
            && s.book.unfinalized == leak.windows && s.book.leakNotified == leak.notified
            && (forall a :: a in s.actions && a.NotifyLeak? ==> a in leak.actions || a in head)
            && (forall a :: a in leak.actions ==> a in s.actions)
  {
    hide MacroFin.NoteLeak, MacroFin.NewlyFinalized, MacroFin.Adopt, MacroFin.MarkFinalized;
  }
}
