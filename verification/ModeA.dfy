/** What a node is bound to do in Mode A: when a subnet aggregate is accepted, stored
    and sent, and exactly when the primary assembles, broadcasts and adopts. */
module ModeA {
  import opened Validators
  import opened Worlds
  import opened Signatures
  import opened Bitmaps
  import opened MacroQcs
  import opened MacroFin
  import opened MacroInvariant
  import opened MacroSteps
  import opened MacroNetwork
  import opened MacroResponses

  // ---------------------------------------------------------------------
  // Who is named
  // ---------------------------------------------------------------------

  // Everyone named by one of the aggregates.
  ghost function NamedByAll(set_: ValidatorSet, aggs: map<nat, SubnetAgg>): set<Id> {
    set s, v | s in aggs && v in Named(set_, aggs[s].agg.bitmap) :: v
  }

  // What makes a subnet aggregate acceptable: it holds the signatures over the checkpoint of
  // the validators it names, at least one, and each was received from its signer before.
  ghost predicate Acknowledged(set_: ValidatorSet, agg: SubnetAgg, cp: Checkpoint, sigs: SigBook) {
    var named := Named(set_, agg.agg.bitmap);
    && named != {} && SignaturesOf(agg.agg.sig, named, cp)
    && forall v :: v in named ==> (agg.hash, v) in sigs && sigs[(agg.hash, v)] == PartialSig(v, cp)
  }

  /** A subnet aggregate passes its check exactly when it is acknowledged. */
  lemma AcceptedAggregate(set_: ValidatorSet, agg: SubnetAgg, cp: Checkpoint, sigs: SigBook)
    requires Distinct(set_)
    ensures VerifySubnetAgg(set_, agg, cp, sigs) <==> Acknowledged(set_, agg, cp, sigs)
  {
    var flags := Flags(agg.agg.bitmap, |set_|);
    var pks := SignerKeys(set_, flags);
    KeysAreNamed(set_, agg.agg.bitmap);
    PartsAre(agg.agg.sig, pks, cp);
    hide SignaturesOf, TestBit, SignAll, SignerKeys;
    assert pks == [] <==> Members(pks) == {} by {
      if pks != [] { assert pks[0] in Members(pks); }
    }
  }

  // ---------------------------------------------------------------------
  // Assembly
  // ---------------------------------------------------------------------

  // Everyone named by a stored aggregate has a stored signature.
  ghost predicate NamedAreStored(set_: ValidatorSet, aggs: map<nat, SubnetAgg>, sigs: SigBook, hash: MHash) {
    forall v :: v in NamedByAll(set_, aggs) ==> (hash, v) in sigs
  }

  lemma UnionKeys(set_: ValidatorSet, aggs: map<nat, SubnetAgg>)
    requires Distinct(set_)
    ensures var flags := UnionFlags(aggs, |set_|);
            && Members(SignerKeys(set_, flags)) == NamedByAll(set_, aggs)
            && |flags| == |NamedByAll(set_, aggs)|
            && forall i :: i in flags ==> i < |set_| && set_[i] in NamedByAll(set_, aggs)
  {
    var flags := UnionFlags(aggs, |set_|);
    KeysMeans(set_, flags, |set_|);
    KeysCount(set_, flags, |set_|);
    assert flags == set i | i in flags && i < |set_|;
    DistinctSize(SignerKeys(set_, flags));
    hide TestBit, SignerKeys, Keys;
    forall v ensures v in NamedByAll(set_, aggs) <==> exists i :: 0 <= i < |set_| && i in flags && set_[i] == v {
      if v in NamedByAll(set_, aggs) {
        var s :| s in aggs && v in Named(set_, aggs[s].agg.bitmap);
        var i :| 0 <= i < |set_| && TestBit(aggs[s].agg.bitmap, i) && set_[i] == v;
        assert i in flags;
      }
      if i :| 0 <= i < |set_| && i in flags && set_[i] == v {
        var s :| s in aggs && TestBit(aggs[s].agg.bitmap, i);
        assert v in Named(set_, aggs[s].agg.bitmap);
      }
    }
    forall i | i in flags ensures i < |set_| && set_[i] in NamedByAll(set_, aggs) {}
  }

  lemma AggregatedExists(set_: ValidatorSet, flags: set<nat>, sigs: SigBook, hash: MHash)
    requires Distinct(set_) && SigsOk(set_, sigs) && flags != {}
    requires forall i :: i in flags ==> i < |set_| && (hash, set_[i]) in sigs
    ensures Aggregated(set_, flags, sigs, hash).Some?
  {
    StoredSigsFound(set_, flags, sigs, hash, |set_|);
    var s := StoredBySigners(set_, flags, sigs, hash);
    KeysCount(set_, flags, |set_|);
    assert flags == set i | i in flags && i < |set_|;
  }

  /** Assembly succeeds exactly when the stored aggregates name a quorum. */
  lemma AssemblyExact(set_: ValidatorSet, aggs: map<nat, SubnetAgg>, sigs: SigBook, hash: MHash)
    requires Distinct(set_) && set_ != [] && SigsOk(set_, sigs) && NamedAreStored(set_, aggs, sigs, hash)
    ensures var qc, named := ModeAQc(hash, aggs, set_, sigs), NamedByAll(set_, aggs);
            && (qc.Some? <==> |named| >= 2 * ((|set_| - 1) / 3) + 1)
            && (qc.Some? ==> Made(set_, qc.value, ModeASubnet, hash, named))
  {
    hide SigsOk, NamedByAll, UnionFlags, Aggregated;
    var flags := UnionFlags(aggs, |set_|);
    UnionKeys(set_, aggs);
    if |flags| >= QuorumThreshold(|set_|) {
      AggregatedExists(set_, flags, sigs, hash);
      var qc := ModeAQc(hash, aggs, set_, sigs).value;
      AggregatedSigners(set_, flags, sigs, qc);
      KeysAreNamed(set_, qc.agg.bitmap);
      AggregatedBytes(set_, flags, sigs, hash);
    }
  }

  lemma AggregatedBytes(set_: ValidatorSet, flags: set<nat>, sigs: SigBook, hash: MHash)
    requires Aggregated(set_, flags, sigs, hash).Some?
    ensures |Aggregated(set_, flags, sigs, hash).value.bitmap| == (|set_| + 7) / 8
  {
  }

  // ---------------------------------------------------------------------
  // What is stored, in every state of every run
  // ---------------------------------------------------------------------

  type Aggs = map<MHash, map<nat, SubnetAgg>>
  type Parts = map<(MHash, nat), set<Id>>

  function AggsFor(aggs: Aggs, hash: MHash): map<nat, SubnetAgg> {
    if hash in aggs then aggs[hash] else map[]
  }

  function PartsFor(parts: Parts, hash: MHash, subnet: nat): set<Id> {
    if (hash, subnet) in parts then parts[(hash, subnet)] else {}
  }

  // Everyone named by a stored aggregate, and everyone counted for a subnet, has a
  // stored signature over the hash.
  ghost predicate AllStored(set_: ValidatorSet, aggs: Aggs, parts: Parts, sigs: SigBook) {
    && (forall x :: x in aggs ==> NamedAreStored(set_, aggs[x], sigs, x))
    && (forall x, s, v :: v in PartsFor(parts, x, s) ==> (x, v) in sigs)
  }

  ghost predicate Complete(b: Book, set_: ValidatorSet) {
    AllStored(set_, b.subnetAggs, b.subnetPartials, b.sigs)
  }

  // It is over a known candidate, and acknowledged.
  ghost predicate Accepted(b: Book, env: Env, agg: SubnetAgg) {
    exists h :: h in b.candidate && b.candidate[h].hash == agg.hash
                && Acknowledged(env.set_, agg, b.candidate[h], b.sigs)
  }

  // The stored aggregates with a new one, in place of that of its subnet.
  function With(aggs: Aggs, agg: SubnetAgg): Aggs {
    aggs[agg.hash := AggsFor(aggs, agg.hash)[agg.subnet := agg]]
  }

  // An accepted aggregate is stored; nothing else changes those stored.
  ghost predicate AggsAfter(b: Book, c: Book, env: Env, e: Event) {
    c.subnetAggs == if e.SubnetReceived? && Accepted(b, env, e.agg) then With(b.subnetAggs, e.agg) else b.subnetAggs
  }

  // Nobody counted is dropped, and who is new has a stored signature.
  ghost predicate PartsAfter(b: Book, c: Book) {
    && (forall k :: k in b.sigs ==> k in c.sigs)
    && (forall x, s, v :: v in PartsFor(b.subnetPartials, x, s) ==> v in PartsFor(c.subnetPartials, x, s))
    && (forall x, s, v :: v in PartsFor(c.subnetPartials, x, s) ==>
                            v in PartsFor(b.subnetPartials, x, s) || (x, v) in c.sigs)
  }

  lemma OneCandidate(b: Book, set_: ValidatorSet, g: nat, h: nat)
    requires BookInv(b, set_) && g in b.candidate && h in b.candidate && b.candidate[g].hash == b.candidate[h].hash
    ensures g == h
  {
    hide BookInv;
    CandidateSound(b, set_, g);
    CandidateSound(b, set_, h);
  }

  lemma AcceptedMeans(b: Book, env: Env, agg: SubnetAgg)
    requires BookInv(b, env.set_) && Distinct(env.set_)
    ensures Accepted(b, env, agg) <==>
              && CandidateHeight(b, agg.hash).Some? && CandidateHeight(b, agg.hash).value in b.candidate
              && VerifySubnetAgg(env.set_, agg, b.candidate[CandidateHeight(b, agg.hash).value], b.sigs)
  {
    hide BookInv, Acknowledged, MacroQcs.VerifySubnetAgg;
    if h :| h in b.candidate && b.candidate[h].hash == agg.hash { assert h in HeightsOf(b.candidate, agg.hash); }
    if CandidateHeight(b, agg.hash).Some? {
      var g := CandidateHeight(b, agg.hash).value;
      CandidateIs(b, agg.hash);
      AcceptedAggregate(env.set_, agg, b.candidate[g], b.sigs);
      forall h | h in b.candidate && b.candidate[h].hash == agg.hash ensures h == g {
        OneCandidate(b, env.set_, g, h);
      }
    }
  }

  // Only signatures are added.
  ghost predicate Untouched(b: Book, c: Book) {
    && c.subnetAggs == b.subnetAggs && c.subnetPartials == b.subnetPartials
    && forall k :: k in b.sigs ==> k in c.sigs
  }

  lemma {:induction false} MicroUntouched(b: Book, env: Env, hashes: seq<nat>)
    ensures Untouched(b, OnLocalMicroQcs(b, env, hashes).book)
  {
    if hashes != [] { MicroUntouched(b, env, hashes[..|hashes| - 1]); }
  }

  lemma AdoptionUntouched(b: Book, env: Env, cp: Checkpoint, qc: MacroQc, h: nat, head: seq<Action>)
    ensures Untouched(b, Adoption(b, env, cp, qc, h, head).book)
  {
  }

  lemma BackupUntouched(b: Book, env: Env, h: nat)
    ensures Untouched(b, BackupPropose(b, env, h).book)
  {
  }

  lemma DeadlineUntouched(b: Book, env: Env, h: nat)
    ensures Untouched(b, ModeBDeadline(b, env, h).book)
  {
  }

  lemma TimerUntouched(b: Book, env: Env, id: nat)
    ensures Untouched(b, OnTimerFired(b, env, id).book)
  {
    hide MacroFin.HeightFor, MacroFin.BackupPropose, MacroFin.ModeBDeadline, Untouched;
    if HeightFor(b.timers.backup, id).Some? {
      BackupUntouched(b, env, HeightFor(b.timers.backup, id).value);
    } else if HeightFor(b.timers.modeB, id).Some? {
      DeadlineUntouched(b, env, HeightFor(b.timers.modeB, id).value);
    } else {
      SelfUntouched(b);
    }
  }

  lemma SelfUntouched(b: Book)
    ensures Untouched(b, b) && Untouched(b, b.(rejected := b.rejected + 1))
  {
  }

  lemma QcUntouched(b: Book, env: Env, qc: MacroQc)
    ensures Untouched(b, OnMacroQc(b, env, qc).book)
  {
    hide MacroFin.Adoption, MacroQcs.VerifyMacroQc;
    if CandidateHeight(b, qc.hash).Some? {
      var h := CandidateHeight(b, qc.hash).value;
      AdoptionUntouched(b, env, b.candidate[h], qc, h, []);
    }
  }

  // The signer of a stored signature is counted for a subnet, and nothing else changes.
  ghost predicate Counts(b: Book, c: Book, hash: MHash, subnet: nat, v: Id) {
    && c.subnetAggs == b.subnetAggs && (forall k :: k in b.sigs ==> k in c.sigs) && (hash, v) in c.sigs
    && c.subnetPartials == b.subnetPartials[(hash, subnet) := PartsFor(b.subnetPartials, hash, subnet) + {v}]
  }

  lemma CountsParts(b: Book, c: Book, hash: MHash, subnet: nat, v: Id)
    requires Counts(b, c, hash, subnet, v)
    ensures PartsAfter(b, c)
  {
  }

  lemma ModeAUntouched(b: Book, env: Env, hash: MHash, h: nat)
    requires h in b.candidate
    ensures Untouched(b, TryModeA(b, env, hash, h).book)
  {
    hide MacroFin.Adoption, MacroQcs.ModeAQc;
    var qc := ModeAQc(hash, AggsFor(b.subnetAggs, hash), env.set_, b.sigs);
    if qc.Some? { AdoptionUntouched(b, env, b.candidate[h], qc.value, h, [SendQc(qc.value)]); }
  }

  lemma ProposalParts(b: Book, env: Env, p: MacroFin.Proposal)
    ensures var c := OnMacroProposal(b, env, p).book;
            Untouched(b, c) || exists s :: Counts(b, c, p.cp.hash, s, b.selfId)
  {
    hide MacroFin.VerifyProposal, MacroFin.ConsiderVote;
    var c, key := NoteBeacon(b, env, p.cp.height), (p.cp.height, p.proposer);
    ConsiderParts(b, c.(seen := c.seen[key := [p]]), env, p, BeaconFor(c, env, p.cp.height));
  }

  lemma ConsiderParts(b: Book, d: Book, env: Env, p: MacroFin.Proposal, beacon: nat)
    requires d == b.(beacons := d.beacons, seen := d.seen)
    ensures var c := ConsiderVote(d, env, p, beacon).book;
            Untouched(b, c) || exists s :: Counts(b, c, p.cp.hash, s, b.selfId)
  {
    hide MacroFin.Acceptable, MacroFin.TryLock, MacroFin.AnnounceVote, MacroFin.ActiveMode;
    var lock := TryLock(d.locks, d.selfId, p.cp.height, p.cp.hash);
    if lock.Some? {
      var e, mode := CastVote(d, p.cp, lock.value), ActiveMode(d, env, p.cp.height);
      CastParts(b, d, p.cp, lock.value);
      CastAggs(d, p.cp, lock.value);
      hide MacroFin.CastVote;
      AnnounceParts(b, e, env, p.cp, mode, beacon);
    }
  }

  lemma CastAggs(b: Book, cp: Checkpoint, locks: Locks)
    ensures CastVote(b, cp, locks).subnetAggs == b.subnetAggs
  {
  }

  lemma AnnounceParts(b: Book, e: Book, env: Env, cp: Checkpoint, mode: Mode, beacon: nat)
    requires Untouched(b, e) && (cp.hash, e.selfId) in e.sigs
    ensures var c := AnnounceVote(e, env, cp, mode, beacon).book;
            if mode == ModeASubnet then Counts(b, c, cp.hash, env.subnet(beacon, e.selfId), e.selfId)
            else Untouched(b, c)
  {
    hide MacroFin.SelfCheck, MacroFin.AggregateActions;
  }

  lemma PathParts(b: Book, env: Env, bp: BlsPartial, h: nat)
    requires h in b.candidate && (bp.hash, bp.validator) in b.sigs
    ensures Counts(b, SubnetPath(b, env, bp, h).book, bp.hash, bp.subnet, bp.validator)
    ensures forall mode :: Untouched(b, FlatPath(b, env, bp, h, mode).book)
  {
    hide MacroFin.TryModeA, MacroFin.Adoption, MacroFin.AggregateActions, MacroQcs.Mode0Qc;
    var c := AddPartial(AddSubnetPartial(b, bp.hash, bp.subnet, bp.validator), bp.hash, bp.validator);
    ModeAUntouched(c, env, bp.hash, h);
    forall mode ensures Untouched(b, FlatPath(b, env, bp, h, mode).book) {
      var d := AddPartial(b, bp.hash, bp.validator);
      var qc := Mode0Qc(bp.hash, PartialsOf(d.partials, bp.hash), d.sigs, env.set_, mode);
      if qc.Some? { AdoptionUntouched(d, env, d.candidate[h], qc.value, h, [SendQc(qc.value)]); }
    }
  }

  lemma PartialParts(b: Book, env: Env, bp: BlsPartial)
    ensures var c := OnBlsPartial(b, env, bp).book;
            Untouched(b, c) || Counts(b, c, bp.hash, bp.subnet, bp.validator)
  {
    var c := b.(sigs := b.sigs[(bp.hash, bp.validator) := bp.sig]);
    assert Untouched(b, c) && (bp.hash, bp.validator) in c.sigs;
    hide MacroFin.SubnetPath, MacroFin.FlatPath, MacroFin.ActiveMode, MacroQcs.VerifyPartial, Untouched, Counts;
    hide MacroFin.CandidateHeight;
    SelfUntouched(b);
    if CandidateHeight(b, bp.hash).Some? {
      var h := CandidateHeight(b, bp.hash).value;
      CandidateIs(b, bp.hash);
      PathParts(c, env, bp, h);
      CountsFrom(b, c, SubnetPath(c, env, bp, h).book, bp.hash, bp.subnet, bp.validator);
      CountsFrom(b, c, FlatPath(c, env, bp, h, ActiveMode(c, env, h)).book, bp.hash, bp.subnet, bp.validator);
    }
  }

  lemma CountsFrom(b: Book, c: Book, d: Book, hash: MHash, subnet: nat, v: Id)
    requires Untouched(b, c)
    ensures Counts(c, d, hash, subnet, v) ==> Counts(b, d, hash, subnet, v)
    ensures Untouched(c, d) ==> Untouched(b, d)
  {
  }

  lemma StoredAfter(b: Book, c: Book, env: Env, agg: SubnetAgg)
    requires Accepted(b, env, agg) && Untouched(StoreAgg(b, agg), c)
    ensures AggsAfter(b, c, env, SubnetReceived(agg)) && PartsAfter(b, c)
  {
    hide Accepted;
    assert StoreAgg(b, agg) == b.(subnetAggs := With(b.subnetAggs, agg));
  }

  lemma RefusedAfter(b: Book, c: Book, env: Env, agg: SubnetAgg)
    requires !Accepted(b, env, agg) && c == b.(rejected := c.rejected)
    ensures AggsAfter(b, c, env, SubnetReceived(agg)) && PartsAfter(b, c)
  {
    hide Accepted;
  }

  lemma AggregateStores(b: Book, env: Env, agg: SubnetAgg)
    requires BookInv(b, env.set_) && Distinct(env.set_)
    ensures var c := OnSubnetAggregate(b, env, agg).book;
            AggsAfter(b, c, env, SubnetReceived(agg)) && PartsAfter(b, c)
  {
    hide BookInv, MacroFin.TryModeA, MacroQcs.VerifySubnetAgg, MacroFin.CandidateHeight, Accepted, MacroFin.StoreAgg;
    hide AggsAfter, PartsAfter, Untouched;
    AcceptedMeans(b, env, agg);
    if CandidateHeight(b, agg.hash).Some? { CandidateIs(b, agg.hash); }
    var c := OnSubnetAggregate(b, env, agg).book;
    if Accepted(b, env, agg) {
      SameCandidates(b, agg);
      ModeAUntouched(StoreAgg(b, agg), env, agg.hash, CandidateHeight(b, agg.hash).value);
      StoredAfter(b, c, env, agg);
    } else {
      RefusedAfter(b, c, env, agg);
    }
  }

  lemma SameCandidates(b: Book, agg: SubnetAgg)
    ensures StoreAgg(b, agg).candidate == b.candidate
  {
  }

  /** Whatever the event, accepted aggregates are stored, stay until one of the same subnet
      replaces them, and no counted signer is dropped. */
  lemma HandleStores(b: Book, env: Env, e: Event)
    requires BookInv(b, env.set_) && Distinct(env.set_)
    ensures var c := Handle(b, env, e).book; AggsAfter(b, c, env, e) && PartsAfter(b, c)
  {
    hide BookInv, Accepted;
    match e
    case MicroQcs(hashes) => MicroUntouched(b, env, hashes);
    case ProposalReceived(p) =>
      ProposalParts(b, env, p);
      var c := OnMacroProposal(b, env, p).book;
      if s :| Counts(b, c, p.cp.hash, s, b.selfId) { CountsParts(b, c, p.cp.hash, s, b.selfId); }
    case PartialReceived(bp) =>
      PartialParts(b, env, bp);
      var c := OnBlsPartial(b, env, bp).book;
      if Counts(b, c, bp.hash, bp.subnet, bp.validator) { CountsParts(b, c, bp.hash, bp.subnet, bp.validator); }
    case QcReceived(qc) => QcUntouched(b, env, qc);
    case SubnetReceived(agg) => AggregateStores(b, env, agg);
    case TimerFired(id) => TimerUntouched(b, env, id);
  }

  lemma CompleteAfter(b: Book, c: Book, env: Env, e: Event)
    requires Complete(b, env.set_) && AggsAfter(b, c, env, e) && PartsAfter(b, c)
    ensures Complete(c, env.set_)
  {
    hide SignaturesOf, Named;
    if e.SubnetReceived? && Accepted(b, env, e.agg) {
      var agg, kept := e.agg, AggsFor(b.subnetAggs, e.agg.hash);
      forall v | v in NamedByAll(env.set_, kept[agg.subnet := agg]) ensures (agg.hash, v) in c.sigs {
        if v !in Named(env.set_, agg.agg.bitmap) { assert v in NamedByAll(env.set_, kept); }
      }
    }
  }

  ghost predicate NetComplete(w: World, n: Net) {
    forall i :: i in n.books ==> Complete(n.books[i], w.set_)
  }

  lemma StepComplete(w: World, need: nat, n: Net, n': Net, l: Label)
    requires Distinct(w.set_) && LocalInv(w, n) && NodeStep(w, need, n, n', l) && NetComplete(w, n)
    ensures NetComplete(w, n')
  {
    hide BookInv, OwnInv, MacroFin.Handle, Sent, Complete, AggsAfter, PartsAfter, Deliverable;
    HandleStores(n.books[l.node], l.env, l.event);
    CompleteAfter(n.books[l.node], Handle(n.books[l.node], l.env, l.event).book, l.env, l.event);
  }

  /** In every state of every run. */
  lemma {:induction false} RunComplete(w: World, need: nat, run: seq<Net>, labels: seq<Label>, t: nat)
    requires Distinct(w.set_) && Run(w, need, run, labels) && t < |run|
    ensures LocalInv(w, run[t]) && NetComplete(w, run[t])
  {
    hide LocalInv, NodeStep, NetComplete;
    RunLocal(w, need, run, labels, t);
    if t == 0 {
      FreshComplete(w, run[0]);
    } else {
      RunComplete(w, need, run, labels, t - 1);
      StepComplete(w, need, run[t - 1], run[t], labels[t - 1]);
    }
  }

  lemma FreshComplete(w: World, n: Net)
    requires Init(w, n)
    ensures NetComplete(w, n)
  {
    forall i | i in n.books ensures Complete(n.books[i], w.set_) {
      assert n.books[i] == Fresh(i);
    }
  }

  // ---------------------------------------------------------------------
  // When the primary adopts
  // ---------------------------------------------------------------------

  // Mode B is not active at the next height, the node is its primary for the beacon of the
  // candidate with the hash, and the aggregates name a quorum.
  ghost predicate Assembles(b: Book, env: Env, hash: MHash, aggs: map<nat, SubnetAgg>) {
    var h := b.nextHeight;
    && h in b.candidate && b.candidate[h].hash == hash && h !in b.modeB
    && b.selfId == env.primary(if h in b.beacons then b.beacons[h] else env.beacon, h)
    && |NamedByAll(env.set_, aggs)| >= 2 * ((|env.set_| - 1) / 3) + 1
  }

  // The step adopts on a new certificate, broadcast first, by everyone they name.
  ghost predicate AdoptsOn(b: Book, env: Env, s: MStep, hash: MHash, aggs: map<nat, SubnetAgg>) {
    exists qc :: Settles(b, s, qc, true) && Made(env.set_, qc, ModeASubnet, hash, NamedByAll(env.set_, aggs))
  }

  lemma TryExact(b: Book, env: Env, hash: MHash)
    requires BookInv(b, env.set_) && Distinct(env.set_) && Complete(b, env.set_)
    requires b.nextHeight in b.candidate && b.candidate[b.nextHeight].hash == hash
    ensures var s, aggs := TryModeA(b, env, hash, b.nextHeight), AggsFor(b.subnetAggs, hash);
            if Assembles(b, env, hash, aggs) then AdoptsOn(b, env, s, hash, aggs) else s == MStep(b, [])
  {
    hide BookInv, MacroFin.Adoption, MacroQcs.ModeAQc, SigsOk, Settles, Made, Complete, NamedByAll, NamedAreStored;
    hide MacroFin.PartialsOf, MacroFin.CandidateHeight;
    var aggs := AggsFor(b.subnetAggs, hash);
    var qc := ModeAQc(hash, aggs, env.set_, b.sigs);
    StoredFor(b, env.set_, hash);
    NonEmpty(b, env.set_);
    CountedAreStored(b, env.set_, hash);
    AssemblyExact(env.set_, aggs, b.sigs, hash);
    NextIsFound(b, env.set_, hash);
    if Assembles(b, env, hash, aggs) {
      MadeHash(env.set_, qc.value, hash, NamedByAll(env.set_, aggs));
      AdoptionSettles(b, env, qc.value, true);
    }
  }

  lemma MadeHash(set_: ValidatorSet, qc: MacroQc, hash: MHash, named: set<Id>)
    requires Made(set_, qc, ModeASubnet, hash, named)
    ensures qc.hash == hash
  {
  }

  lemma StoredFor(b: Book, set_: ValidatorSet, hash: MHash)
    requires Complete(b, set_)
    ensures NamedAreStored(set_, AggsFor(b.subnetAggs, hash), b.sigs, hash)
  {
  }

  lemma NonEmpty(b: Book, set_: ValidatorSet)
    requires BookInv(b, set_)
    ensures set_ != []
  {
  }

  lemma AdoptsFrom(b: Book, c: Book, env: Env, s: MStep, hash: MHash, aggs: map<nat, SubnetAgg>)
    requires AdoptsOn(c, env, s, hash, aggs)
    requires c == b.(sigs := c.sigs, partials := c.partials, subnetAggs := c.subnetAggs,
                     subnetPartials := c.subnetPartials)
    ensures AdoptsOn(b, env, s, hash, aggs)
  {
    hide Settles, Made;
    var qc :| Settles(c, s, qc, true) && Made(env.set_, qc, ModeASubnet, hash, NamedByAll(env.set_, aggs));
    SameSettles(b, c, s, qc);
  }

  lemma StoreAggIs(b: Book, env: Env, agg: SubnetAgg)
    requires BookInv(b, env.set_) && Distinct(env.set_) && Complete(b, env.set_) && Accepted(b, env, agg)
    ensures StoreAgg(b, agg) == b.(subnetAggs := With(b.subnetAggs, agg))
    ensures BookInv(StoreAgg(b, agg), env.set_) && Complete(StoreAgg(b, agg), env.set_)
  {
    hide Accepted, Complete, BookInv;
    var c := StoreAgg(b, agg);
    StoredAfter(b, c, env, agg);
    CompleteAfter(b, c, env, SubnetReceived(agg));
    SameInv(b, c, env.set_);
  }

  // Nothing is assembled for a candidate certified before.
  lemma EmittedRests(b: Book, env: Env, hash: MHash, h: nat)
    requires h in b.candidate && hash in b.emitted
    ensures TryModeA(b, env, hash, h) == MStep(b, [])
  {
  }

  lemma AcceptedAssembles(b: Book, env: Env, agg: SubnetAgg, h: nat)
    requires BookInv(b, env.set_) && Distinct(env.set_) && Complete(b, env.set_) && Accepted(b, env, agg)
    requires CandidateHeight(b, agg.hash) == Some(h) && h in b.candidate
    ensures var aggs := AggsFor(b.subnetAggs, agg.hash)[agg.subnet := agg];
            h in StoreAgg(b, agg).candidate
            && var s := TryModeA(StoreAgg(b, agg), env, agg.hash, h);
            if Assembles(b, env, agg.hash, aggs) then AdoptsOn(b, env, s, agg.hash, aggs)
            else s.actions == [] && s.book.nextHeight == b.nextHeight
  {
    hide BookInv, MacroFin.TryModeA, MacroFin.CandidateHeight, Accepted, MacroFin.StoreAgg, Complete, AdoptsOn;
    hide NamedByAll;
    var c := StoreAgg(b, agg);
    StoreAggIs(b, env, agg);
    NextIsFound(b, env.set_, agg.hash);
    if agg.hash in b.emitted {
      EmittedRests(c, env, agg.hash, h);
    } else {
      TryExact(c, env, agg.hash);
      var aggs := AggsFor(c.subnetAggs, agg.hash);
      if Assembles(c, env, agg.hash, aggs) {
        AdoptsFrom(b, c, env, TryModeA(c, env, agg.hash, h), agg.hash, aggs);
      }
    }
  }

  /** A subnet aggregate makes the node broadcast a certificate and adopt the next height
      exactly when it is accepted, Mode B is not active there, the node is the primary of the
      height, and the stored aggregates together with it name a quorum; the certificate then
      names exactly those. */
  lemma AggregateAssembles(b: Book, env: Env, agg: SubnetAgg)
    requires BookInv(b, env.set_) && Distinct(env.set_) && Complete(b, env.set_)
    ensures var s, aggs := OnSubnetAggregate(b, env, agg), AggsFor(b.subnetAggs, agg.hash)[agg.subnet := agg];
            if Accepted(b, env, agg) && Assembles(b, env, agg.hash, aggs) then AdoptsOn(b, env, s, agg.hash, aggs)
            else s.actions == [] && s.book.nextHeight == b.nextHeight
  {
    hide BookInv, MacroFin.TryModeA, MacroQcs.VerifySubnetAgg, MacroFin.CandidateHeight, Accepted, MacroFin.StoreAgg;
    hide Complete, AdoptsOn, Assembles;
    AcceptedMeans(b, env, agg);
    if CandidateHeight(b, agg.hash).Some? { CandidateIs(b, agg.hash); }
    if Accepted(b, env, agg) {
      SameCandidates(b, agg);
      AcceptedAssembles(b, env, agg, CandidateHeight(b, agg.hash).value);
    }
  }

  /** In every step of every run. */
  lemma RunAssembles(w: World, need: nat, run: seq<Net>, labels: seq<Label>, t: nat)
    requires Distinct(w.set_) && Run(w, need, run, labels) && t < |labels| && labels[t].event.SubnetReceived?
    ensures var l := labels[t];
            l.node in run[t].books && l.node in run[t + 1].books
            && var b, c, agg := run[t].books[l.node], run[t + 1].books[l.node], l.event.agg;
               var aggs := AggsFor(b.subnetAggs, agg.hash)[agg.subnet := agg];
               c.nextHeight == if Accepted(b, l.env, agg) && Assembles(b, l.env, agg.hash, aggs) then b.nextHeight + 1
                               else b.nextHeight
  {
    hide BookInv, MacroFin.OnSubnetAggregate, Accepted, Assembles, Complete, Deliverable, OwnInv, Persisted, Reported;
    var l := labels[t];
    RunComplete(w, need, run, labels, t);
    assert NodeStep(w, need, run[t], run[t + 1], l);
    AggregateAssembles(run[t].books[l.node], l.env, l.event.agg);
  }

  // ---------------------------------------------------------------------
  // When a subnet aggregate is sent
  // ---------------------------------------------------------------------

  lemma {:induction false} SubnetSizeIs(set_: ValidatorSet, member: Id -> bool)
    requires Distinct(set_)
    ensures SubnetSize(set_, member) == |set v | v in set_ && member(v)|
  {
    if set_ != [] {
      SubnetSizeIs(set_[1..], member);
      var rest, all := set v | v in set_[1..] && member(v), set v | v in set_ && member(v);
      assert set_[0] !in set_[1..];
      assert forall v :: v in set_ <==> v == set_[0] || v in set_[1..];
      assert all == if member(set_[0]) then rest + {set_[0]} else rest;
    }
  }

  // The node is the member of the subnet with the lowest id, and the signers are a quorum
  // for the number of members.
  ghost predicate Aggregates(env: Env, self: Id, beacon: nat, subnet: nat, signers: set<Id>) {
    var members := set v | v in env.set_ && env.subnet(beacon, v) == subnet;
    && self in members && (forall v :: v in members ==> self <= v)
    && |signers| >= 2 * ((|members| - 1) / 3) + 1
  }

  // An aggregate over the hash of the signers' stored signatures: it is acknowledged for
  // a checkpoint with the hash exactly when each of them signed that very one.
  ghost predicate AggregateOf(set_: ValidatorSet, agg: SubnetAgg, hash: MHash, subnet: nat, signers: set<Id>,
                              sigs: SigBook) {
    && agg.subnet == subnet && agg.hash == hash && |agg.agg.bitmap| == (|set_| + 7) / 8
    && Named(set_, agg.agg.bitmap) == signers
    && forall cp: Checkpoint :: cp.hash == hash ==>
         (Acknowledged(set_, agg, cp, sigs) <==>
          forall v :: v in signers ==> (hash, v) in sigs && sigs[(hash, v)] == PartialSig(v, cp))
  }

  lemma BuiltIs(set_: ValidatorSet, agg: SubnetAgg, signers: set<Id>, sigs: SigBook)
    requires Distinct(set_) && SigsOk(set_, sigs) && signers <= Members(set_) && signers != {}
    requires Aggregated(set_, SignerFlags(set_, signers), sigs, agg.hash) == Some(agg.agg)
    ensures AggregateOf(set_, agg, agg.hash, agg.subnet, signers, sigs)
  {
    var flags, qc := SignerFlags(set_, signers), MacroQc(agg.hash, ModeASubnet, agg.agg);
    AggregatedBytes(set_, flags, sigs, agg.hash);
    SignersNamed(set_, signers);
    assert Named(set_, agg.agg.bitmap) == signers;
    hide SignaturesOf, Named, SigsOk, Aggregated, FlagBytes, SignerKeys, Flags;
    forall cp: Checkpoint | cp.hash == agg.hash
      ensures Acknowledged(set_, agg, cp, sigs)
              <==> forall v :: v in signers ==> (agg.hash, v) in sigs && sigs[(agg.hash, v)] == PartialSig(v, cp)
    {
      AggregatedVerifies(set_, flags, sigs, cp, qc);
      AcceptedQc(set_, qc, cp);
      KeysAreNamed(set_, agg.agg.bitmap);
    }
  }

  lemma AggregateExact(b: Book, env: Env, beacon: nat, hash: MHash, subnet: nat)
    requires Distinct(env.set_) && SigsOk(env.set_, b.sigs)
    requires forall v :: v in PartsFor(b.subnetPartials, hash, subnet) ==> (hash, v) in b.sigs
    ensures var a, signers := AggregateActions(b, env, beacon, hash, subnet), PartsFor(b.subnetPartials, hash, subnet);
            if Aggregates(env, b.selfId, beacon, subnet, signers)
            then |a| == 1 && a[0].SendSubnetAgg? && AggregateOf(env.set_, a[0].agg, hash, subnet, signers, b.sigs)
            else a == []
  {
    var signers := PartsFor(b.subnetPartials, hash, subnet);
    var size := SubnetSize(env.set_, (v: Id) => env.subnet(beacon, v) == subnet);
    SizeOfSubnet(env, beacon, subnet);
    LowestMember(env, b.selfId, beacon, subnet, signers);
    BuildExact(env.set_, hash, subnet, signers, size, b.sigs);
    hide SigsOk, AggregateOf, MacroQcs.BuildAggregate, SubnetSize, Aggregates, Distinct;
  }

  lemma LowestMember(env: Env, self: Id, beacon: nat, subnet: nat, signers: set<Id>)
    ensures var members := SubnetMembers(env, beacon, subnet);
            Aggregates(env, self, beacon, subnet, signers)
            <==> members != {} && Minimum(members) == self && |signers| >= QuorumThreshold(|members|)
  {
    var members := SubnetMembers(env, beacon, subnet);
    assert members == set v | v in env.set_ && env.subnet(beacon, v) == subnet;
    if members != {} { assert |members| > 0; }
  }

  lemma BuildExact(set_: ValidatorSet, hash: MHash, subnet: nat, signers: set<Id>, size: nat, sigs: SigBook)
    requires Distinct(set_) && SigsOk(set_, sigs) && forall v :: v in signers ==> (hash, v) in sigs
    ensures var r := BuildAggregate(hash, subnet, signers, set_, size, sigs);
            && (r.Some? <==> size > 0 && |signers| >= QuorumThreshold(size))
            && (r.Some? ==> AggregateOf(set_, r.value, hash, subnet, signers, sigs))
  {
    hide SigsOk, AggregateOf, Aggregated;
    if signers != {} {
      SignerFlagsStored(set_, signers, sigs, hash);
      AggregatedExists(set_, SignerFlags(set_, signers), sigs, hash);
      var agg := Aggregated(set_, SignerFlags(set_, signers), sigs, hash).value;
      BuiltIs(set_, SubnetAgg(subnet, hash, agg), signers, sigs);
    }
  }

  lemma SizeOfSubnet(env: Env, beacon: nat, subnet: nat)
    requires Distinct(env.set_)
    ensures SubnetSize(env.set_, (v: Id) => env.subnet(beacon, v) == subnet) == |SubnetMembers(env, beacon, subnet)|
  {
    var member := (v: Id) => env.subnet(beacon, v) == subnet;
    SubnetSizeIs(env.set_, member);
    assert (set v | v in env.set_ && member(v)) == SubnetMembers(env, beacon, subnet);
  }

  lemma SignerFlagsStored(set_: ValidatorSet, signers: set<Id>, sigs: SigBook, hash: MHash)
    requires SigsOk(set_, sigs) && signers != {} && forall v :: v in signers ==> (hash, v) in sigs
    ensures signers <= Members(set_) && SignerFlags(set_, signers) != {}
    ensures forall i :: i in SignerFlags(set_, signers) ==> i < |set_| && (hash, set_[i]) in sigs
  {
    forall v | v in signers ensures v in set_ { assert (hash, v) in sigs; }
    var v :| v in signers;
    var i :| 0 <= i < |set_| && set_[i] == v;
    assert i in SignerFlags(set_, signers);
  }

  // The book after a verified partial was stored and counted in its subnet.
  function CountedA(b: Book, bp: BlsPartial): Book {
    Counted(b, bp).(subnetPartials := b.subnetPartials[
                        (bp.hash, bp.subnet) := PartsFor(b.subnetPartials, bp.hash, bp.subnet) + {bp.validator}])
  }

  lemma SubnetIs(b: Book, env: Env, bp: BlsPartial)
    requires Timely(b, env, bp) && env.modeA && b.nextHeight !in b.modeB
    requires CandidateHeight(b, bp.hash) == Some(b.nextHeight) && bp.hash !in b.emitted
    ensures var c, h, beacon := CountedA(b, bp), b.nextHeight, BeaconAt(b, env, b.nextHeight);
            var send := AggregateActions(c, env, beacon, bp.hash, bp.subnet);
            var s := if b.selfId == env.primary(beacon, h) then TryModeA(c, env, bp.hash, h) else MStep(c, []);
            OnBlsPartial(b, env, bp) == MStep(s.book, send + s.actions)
  {
    hide MacroFin.TryModeA, MacroFin.AggregateActions, MacroFin.CandidateHeight;
    var c, h := b.(sigs := b.sigs[(bp.hash, bp.validator) := bp.sig]), b.nextHeight;
    assert OnBlsPartial(b, env, bp) == SubnetPath(c, env, bp, h);
    assert AddPartial(AddSubnetPartial(c, bp.hash, bp.subnet, bp.validator), bp.hash, bp.validator) == CountedA(b, bp);
    var send := AggregateActions(CountedA(b, bp), env, BeaconAt(b, env, h), bp.hash, bp.subnet);
    assert send + [] == send;
  }

  lemma CountedAInv(b: Book, env: Env, bp: BlsPartial)
    requires BookInv(b, env.set_) && Timely(b, env, bp) && Complete(b, env.set_)
    ensures BookInv(CountedA(b, bp), env.set_) && Complete(CountedA(b, bp), env.set_)
  {
    hide BookInv, Complete, Timely;
    CountedAfter(b, env, bp);
    var c := CountedA(b, bp);
    CountsA(b, bp);
    CountsParts(b, c, bp.hash, bp.subnet, bp.validator);
    CompleteAfter(b, c, env, PartialReceived(bp));
    SameInv(Counted(b, bp), c, env.set_);
  }

  lemma CountsA(b: Book, bp: BlsPartial)
    ensures Counts(b, CountedA(b, bp), bp.hash, bp.subnet, bp.validator) && SameCore(Counted(b, bp), CountedA(b, bp))
  {
  }

  lemma ModeAStores(b: Book, env: Env, hash: MHash, h: nat)
    requires h in b.candidate
    ensures TryModeA(b, env, hash, h).book.sigs == b.sigs
    ensures TryModeA(b, env, hash, h).book.subnetPartials == b.subnetPartials
  {
    hide MacroFin.Adoption, MacroQcs.ModeAQc;
    var qc := ModeAQc(hash, AggsFor(b.subnetAggs, hash), env.set_, b.sigs);
    if qc.Some? { AdoptionStores(b, env, b.candidate[h], qc.value, h, [SendQc(qc.value)]); }
  }

  // The aggregate that the node owes its subnet with these signers, if any.
  ghost predicate Owed(b: Book, env: Env, send: seq<Action>, beacon: nat, hash: MHash, subnet: nat, signers: set<Id>,
                       sigs: SigBook) {
    if Aggregates(env, b.selfId, beacon, subnet, signers)
    then |send| == 1 && send[0].SendSubnetAgg? && AggregateOf(env.set_, send[0].agg, hash, subnet, signers, sigs)
    else send == []
  }

  /** A partial in Mode A is counted for its subnet. It makes the node send the aggregate of
      its subnet exactly when it is the lowest member and there is a quorum of them, and then
      adopt exactly as it does when an aggregate arrives. */
  lemma PartialAssembles(b: Book, env: Env, bp: BlsPartial) returns (send: seq<Action>, rest: seq<Action>)
    requires BookInv(b, env.set_) && Distinct(env.set_) && Complete(b, env.set_)
    requires Timely(b, env, bp) && env.modeA && b.nextHeight !in b.modeB
    ensures var s, aggs := OnBlsPartial(b, env, bp), AggsFor(b.subnetAggs, bp.hash);
            var signers := PartsFor(b.subnetPartials, bp.hash, bp.subnet) + {bp.validator};
            && s.actions == send + rest && s.book.subnetPartials == b.subnetPartials[(bp.hash, bp.subnet) := signers]
            && s.book.sigs == b.sigs[(bp.hash, bp.validator) := bp.sig]
            && Owed(b, env, send, BeaconAt(b, env, b.nextHeight), bp.hash, bp.subnet, signers, s.book.sigs)
            && if Assembles(b, env, bp.hash, aggs) then AdoptsOn(b, env, MStep(s.book, rest), bp.hash, aggs)
               else rest == [] && s.book.nextHeight == b.nextHeight
  {
    var c, h, beacon := CountedA(b, bp), b.nextHeight, BeaconAt(b, env, b.nextHeight);
    hide BookInv, MacroFin.CandidateHeight, MacroFin.TryModeA, MacroFin.AggregateActions, MacroFin.OnBlsPartial;
    hide AdoptsOn, NamedByAll, Aggregates, AggregateOf, SigsOk, MacroFin.PartialsOf;
    NextIsFound(b, env.set_, bp.hash);
    SubnetIs(b, env, bp);
    CountedAInv(b, env, bp);
    CountedAreStored(c, env.set_, bp.hash);
    AggregateExact(c, env, beacon, bp.hash, bp.subnet);
    TryExact(c, env, bp.hash);
    ModeAStores(c, env, bp.hash, h);
    send := AggregateActions(c, env, beacon, bp.hash, bp.subnet);
    var t, aggs := TryModeA(c, env, bp.hash, h), AggsFor(b.subnetAggs, bp.hash);
    rest := if b.selfId == env.primary(beacon, h) then t.actions else [];
    if Assembles(b, env, bp.hash, aggs) {
      AdoptsFrom(b, c, env, t, bp.hash, aggs);
    }
  }

  /** A vote in Mode A counts the node for its own subnet and makes it send the aggregate on
      the same condition; in the other modes none is sent. */
  lemma VoteOwesAggregate(b: Book, env: Env, p: MacroFin.Proposal) returns (send: seq<Action>)
    requires BookInv(b, env.set_) && Distinct(env.set_) && Complete(b, env.set_)
    requires LinkIntact(p.cp) && Votable(b, env, p)
    ensures var s, h, beacon := OnMacroProposal(b, env, p), p.cp.height, BeaconAt(b, env, p.cp.height);
            var subnet := env.subnet(beacon, b.selfId);
            var signers := PartsFor(b.subnetPartials, p.cp.hash, subnet) + {b.selfId};
            && (forall a :: a in send <==> a in s.actions && a.SendSubnetAgg?)
            && if env.modeA && h !in b.modeB
               then && s.book.subnetPartials == b.subnetPartials[(p.cp.hash, subnet) := signers]
                    && Owed(b, env, send, beacon, p.cp.hash, subnet, signers, s.book.sigs)
               else send == [] && s.book.subnetPartials == b.subnetPartials
  {
    VotableMeans(b, env, p);
    var h := p.cp.height;
    var c, key := NoteBeacon(b, env, h), (h, p.proposer);
    var beacon := BeaconFor(c, env, h);
    var d := c.(seen := c.seen[key := [p]]);
    assert Acceptable(d, env, p, beacon) == Acceptable(b, env, p, beacon);
    assert SeenAt(c, key) == [];
    var e, mode := CastVote(d, p.cp, TryLock(d.locks, d.selfId, h, p.cp.hash).value), ActiveMode(d, env, h);
    var s := OnMacroProposal(b, env, p);
    CastParts(b, d, p.cp, TryLock(d.locks, d.selfId, h, p.cp.hash).value);
    hide MacroFin.VerifyProposal, MacroFin.Acceptable, Votable, BySchedule, MacroFin.CastVote, MacroFin.AnnounceVote;
    hide MacroFin.TryLock, BookInv, LinkIntact, Complete, Owed, MacroFin.AggregateActions;
    assert s == AnnounceVote(e, env, p.cp, mode, beacon);
    ProposalKeepsBook(b, env, p);
    send := AnnounceOwes(b, e, env, p.cp, mode, beacon);
  }

  lemma CastParts(b: Book, d: Book, cp: Checkpoint, locks: Locks)
    requires d == b.(beacons := d.beacons, seen := d.seen)
    ensures var e := CastVote(d, cp, locks);
            e.selfId == b.selfId && e.subnetPartials == b.subnetPartials && (cp.hash, b.selfId) in e.sigs
            && forall k :: k in b.sigs ==> k in e.sigs
  {
  }

  lemma ProposalKeepsBook(b: Book, env: Env, p: MacroFin.Proposal)
    requires BookInv(b, env.set_) && Distinct(env.set_) && LinkIntact(p.cp)
    ensures var c := OnMacroProposal(b, env, p).book; SigsOk(env.set_, c.sigs)
  {
    hide BookInv, MacroFin.OnMacroProposal, StoresOnly, Clean, Stays, Adopts, Signs, Abstains, SigsOk, LinkIntact;
    HandleGood(b, env, ProposalReceived(p));
    var c := OnMacroProposal(b, env, p).book;
    StoreOf(c, env.set_);
  }

  lemma AnnounceOwes(b: Book, e: Book, env: Env, cp: Checkpoint, mode: Mode, beacon: nat) returns (send: seq<Action>)
    requires Distinct(env.set_) && Complete(b, env.set_)
    requires SigsOk(env.set_, AnnounceVote(e, env, cp, mode, beacon).book.sigs)
    requires e.selfId == b.selfId && e.subnetPartials == b.subnetPartials && (cp.hash, b.selfId) in e.sigs
    requires forall k :: k in b.sigs ==> k in e.sigs
    ensures var s, subnet := AnnounceVote(e, env, cp, mode, beacon), env.subnet(beacon, b.selfId);
            var signers := PartsFor(b.subnetPartials, cp.hash, subnet) + {b.selfId};
            && (forall a :: a in send <==> a in s.actions && a.SendSubnetAgg?)
            && if mode == ModeASubnet
               then && s.book.subnetPartials == b.subnetPartials[(cp.hash, subnet) := signers]
                    && Owed(b, env, send, beacon, cp.hash, subnet, signers, s.book.sigs)
               else send == [] && s.book.subnetPartials == b.subnetPartials
  {
    var s, subnet := AnnounceVote(e, env, cp, mode, beacon), env.subnet(beacon, b.selfId);
    send := if mode == ModeASubnet then AggregateActions(s.book, env, beacon, cp.hash, subnet) else [];
    hide MacroFin.SelfCheck, MacroFin.AggregateActions, SigsOk, Aggregates, AggregateOf, NamedByAll;
    CheckAccuses(e.votes, e.selfId);
    AggregateSendsOnly(s.book, env, beacon, cp.hash, subnet);
    if mode == ModeASubnet {
      var before := PartsFor(b.subnetPartials, cp.hash, subnet);
      forall v | v in before + {b.selfId} ensures (cp.hash, v) in s.book.sigs {
        assert v in before ==> (cp.hash, v) in b.sigs;
      }
      assert PartsFor(s.book.subnetPartials, cp.hash, subnet) == before + {b.selfId};
      AggregateExact(s.book, env, beacon, cp.hash, subnet);
    }
  }
}
