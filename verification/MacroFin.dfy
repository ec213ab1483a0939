/** Macro finality (macro_fin): the state of one validator and what each handler does
    to it, as functions of values. The class in MacroNode runs the same handlers in
    place. */
module MacroFin {
  import opened Validators
  import opened Signatures
  import opened MacroQcs

  datatype Proposal = Proposal(cp: Checkpoint, proposer: Id, vrf: nat, sig: MSig)
  datatype Vote = Vote(source: nat, target: nat, hash: MHash, sig: MSig)
  datatype Evidence =
    | MacroEquivocation(first: Proposal, second: Proposal)
    | Surround(outer: Vote, inner: Vote)
    | DoubleVote(earlier: Vote, latest: Vote)

  datatype Status = SoftConfirmed | Justified | Finalized
  datatype Action =
    | SendProposal(proposal: Proposal)
    | SendPartial(partial: BlsPartial)
    | SendSubnetAgg(agg: SubnetAgg)
    | SendQc(qc: MacroQc)
    | Persist(cp: Checkpoint)
    | PersistQc(qc: MacroQc)
    | SetStatus(hash: MHash, status: Status)
    | EmitEvidence(offender: Id, evidence: Evidence)
    | ScheduleTimer(id: nat, delay: nat)
    | NotifyLeak(windows: nat)

  // ---------------------------------------------------------------------
  // Parts of the state
  // ---------------------------------------------------------------------

  datatype TwoChain = TwoChain(adopted: map<nat, Checkpoint>, justified: Option<MHash>, finalized: Option<MHash>)

  // The first checkpoint adopted at a height stays; the head moves to it only
  // when the same one is adopted.
  function Adopt(tc: TwoChain, cp: Checkpoint): TwoChain {
    var adopted := if cp.height in tc.adopted then tc.adopted else tc.adopted[cp.height := cp];
    TwoChain(adopted, if adopted[cp.height].hash == cp.hash then Some(cp.hash) else tc.justified, tc.finalized)
  }

  function HeightsOf(m: map<nat, Checkpoint>, hash: MHash): set<nat> {
    set h | h in m && m[h].hash == hash
  }

  function JustifiedHeight(tc: TwoChain): Option<nat> {
    if tc.justified == None || HeightsOf(tc.adopted, tc.justified.value) == {} then None
    else Some(Maximum(HeightsOf(tc.adopted, tc.justified.value)))
  }

  function NewlyFinalized(tc: TwoChain): Option<nat> {
    match JustifiedHeight(tc)
    case None => None
    case Some(head) =>
      if head == 0 || head !in tc.adopted || head - 1 !in tc.adopted then None
      else if tc.adopted[head].parent == tc.adopted[head - 1].hash && tc.finalized != Some(tc.adopted[head - 1].hash)
      then Some(head - 1)
      else None
  }

  function MarkFinalized(tc: TwoChain, h: nat): TwoChain {
    if h in tc.adopted then tc.(finalized := Some(tc.adopted[h].hash)) else tc
  }

  // One slot per validator: the latest height and the hash voted for there.
  type Locks = map<Id, (nat, MHash)>

  function TryLock(locks: Locks, v: Id, height: nat, hash: MHash): Option<Locks> {
    if v in locks && locks[v].0 == height && locks[v].1 != hash then None
    else Some(locks[v := (height, hash)])
  }

  datatype Timers = Timers(backup: map<nat, nat>, modeB: map<nat, nat>, next: nat)

  function HeightFor(m: map<nat, nat>, id: nat): Option<nat> {
    var hs := set h | h in m && m[h] == id;
    if hs == {} then None else Some(Minimum(hs))
  }

  datatype Book = Book(
    selfId: Id,
    ring: seq<nat>,
    nextHeight: nat,
    lastHash: MHash,
    candidate: map<nat, Checkpoint>,
    beacons: map<nat, nat>,
    partials: map<MHash, set<Id>>,
    emitted: set<MHash>,
    chain: TwoChain,
    locks: Locks,
    suppressed: nat,
    proposed: set<nat>,
    modeB: set<nat>,
    timers: Timers,
    subnetAggs: map<MHash, map<nat, SubnetAgg>>,
    subnetPartials: map<(MHash, nat), set<Id>>,
    votes: map<Id, seq<Vote>>,
    sigs: SigBook,
    seen: map<(nat, Id), seq<Proposal>>,
    rejected: nat,
    unfinalized: nat,
    leakNotified: bool)

  function Fresh(id: Id): Book {
    Book(id, [], 0, Zero, map[], map[], map[], {}, TwoChain(map[], None, None), map[], 0, {}, {},
         Timers(map[], map[], 0), map[], map[], map[], map[], map[], 0, 0, false)
  }

  // What the host supplies: the validator set, the configuration, the beacon,
  // and answers that depend on the beacon and reputation.
  datatype Env = Env(
    set_: ValidatorSet,
    window: nat,
    beacon: nat,
    primary: (nat, nat) -> Id,
    backup: (nat, nat) -> Id,
    vrfOk: (nat, nat, Id, nat) -> bool,
    prove: (nat, nat) -> nat,
    subnet: (nat, Id) -> nat,
    modeA: bool,
    forceKe: bool,
    leakTrigger: nat,
    delay: nat)

  datatype MStep = MStep(book: Book, actions: seq<Action>)

  function ActiveMode(b: Book, env: Env, height: nat): Mode {
    if height in b.modeB then ModeBLeaderless else if env.modeA then ModeASubnet else Mode0Flat
  }

  function BeaconFor(b: Book, env: Env, height: nat): nat {
    if height in b.beacons then b.beacons[height] else env.beacon
  }

  function PartialsOf(partials: map<MHash, set<Id>>, hash: MHash): set<Id> {
    if hash in partials then partials[hash] else {}
  }

  function AddPartial(b: Book, hash: MHash, v: Id): Book {
    b.(partials := b.partials[hash := PartialsOf(b.partials, hash) + {v}])
  }

  function SubnetPartialsOf(b: Book, hash: MHash, subnet: nat): set<Id> {
    if (hash, subnet) in b.subnetPartials then b.subnetPartials[(hash, subnet)] else {}
  }

  // The lowest height whose candidate has the hash.
  function CandidateHeight(b: Book, hash: MHash): Option<nat> {
    var hs := HeightsOf(b.candidate, hash);
    if hs == {} then None else Some(Minimum(hs))
  }

  // ---------------------------------------------------------------------
  // Adoption
  // ---------------------------------------------------------------------

  const MAX_WINDOWS: nat := 0xFFFF_FFFF

  datatype Leak = Leak(windows: nat, notified: bool, actions: seq<Action>)

  function NoteLeak(windows: nat, notified: bool, trigger: nat, finalized: bool): Leak {
    if finalized then Leak(0, false, [])
    else
      var n := if windows < MAX_WINDOWS then windows + 1 else MAX_WINDOWS;
      if n >= trigger && !notified then Leak(n, true, [NotifyLeak(n)]) else Leak(n, notified, [])
  }

  // The update common to assembling and receiving a certificate.
  function Advance(b: Book, cp: Checkpoint, hash: MHash, height: nat): Book {
    b.(emitted := b.emitted + {hash},
       chain := Adopt(b.chain, cp),
       lastHash := cp.hash,
       nextHeight := height + 1,
       proposed := b.proposed + {height},
       timers := b.timers.(backup := b.timers.backup - {height}, modeB := b.timers.modeB - {height}))
  }

  // The report on a height that became final.
  function FinalReport(candidate: map<nat, Checkpoint>, newly: Option<nat>): seq<Action> {
    if newly == None || newly.value !in candidate then []
    else [SetStatus(candidate[newly.value].hash, Finalized)]
  }

  function Finish(b: Book, env: Env): MStep {
    var newly := NewlyFinalized(b.chain);
    var leak := NoteLeak(b.unfinalized, b.leakNotified, env.leakTrigger, newly.Some?);
    MStep(b.(chain := if newly == None then b.chain else MarkFinalized(b.chain, newly.value),
             unfinalized := leak.windows, leakNotified := leak.notified),
          leak.actions + FinalReport(b.candidate, newly))
  }

  function Adoption(b: Book, env: Env, cp: Checkpoint, qc: MacroQc, height: nat, head: seq<Action>): MStep {
    var done := Finish(Advance(b, cp, qc.hash, height), env);
    MStep(done.book, head + [Persist(cp), PersistQc(qc), SetStatus(cp.hash, Justified)] + done.actions)
  }

  // ---------------------------------------------------------------------
  // on_local_micro_qcs
  // ---------------------------------------------------------------------

  function MakeProposal(b: Book, env: Env, cp: Checkpoint, beacon: nat): Proposal {
    Proposal(cp, b.selfId, env.prove(beacon, cp.height),
             Signed(b.selfId, MACRO_PROPOSER_SIG, ProposerMsg(b.selfId, cp.hash)))
  }

  function NewCandidate(b: Book, env: Env, ring: seq<nat>): Book {
    var h := b.nextHeight;
    b.(ring := [], candidate := b.candidate[h := Build(h, 0, b.lastHash, OfRing(ring))],
       beacons := b.beacons[h := env.beacon])
  }

  // The primary proposes, the backup waits for its turn.
  datatype Turn = Propose | Wait | Pass

  function TurnOf(env: Env, id: Id, height: nat): Turn {
    if env.primary(env.beacon, height) == id then Propose
    else if env.backup(env.beacon, height) == id then Wait
    else Pass
  }

  function Announce(b: Book, env: Env, turn: Turn): MStep
    requires b.nextHeight in b.candidate
  {
    var h, t := b.nextHeight, b.timers;
    MStep(b.(proposed := if turn == Propose then b.proposed + {h} else b.proposed,
             timers := if turn == Wait then t.(backup := t.backup[h := t.next], next := t.next + 1) else t),
          match turn
          case Propose => [SendProposal(MakeProposal(b, env, b.candidate[h], env.beacon))]
          case Wait => [ScheduleTimer(t.next, env.delay)]
          case Pass => [])
  }

  function ArmModeB(b: Book, env: Env): MStep {
    var t := b.timers;
    MStep(b.(timers := if env.forceKe then t else t.(modeB := t.modeB[b.nextHeight := t.next], next := t.next + 1)),
          if env.forceKe then [] else [ScheduleTimer(t.next, 2 * env.delay)])
  }

  function PushMicro(b: Book, env: Env, h: nat): MStep {
    var ring := b.ring + [h];
    if |ring| < env.window then MStep(b.(ring := ring), [])
    else
      var s := Announce(NewCandidate(b, env, ring), env, TurnOf(env, b.selfId, b.nextHeight));
      var t := ArmModeB(s.book, env);
      MStep(t.book, s.actions + t.actions)
  }

  function OnLocalMicroQcs(b: Book, env: Env, hashes: seq<nat>): MStep {
    if hashes == [] then MStep(b, [])
    else
      var m := |hashes| - 1;
      var s := OnLocalMicroQcs(b, env, hashes[..m]);
      var t := PushMicro(s.book, env, hashes[m]);
      MStep(t.book, s.actions + t.actions)
  }

  // ---------------------------------------------------------------------
  // on_macro_proposal
  // ---------------------------------------------------------------------

  predicate VerifyProposal(env: Env, p: Proposal, beacon: nat) {
    && p.proposer in env.set_
    && Verify(p.proposer, MACRO_PROPOSER_SIG, ProposerMsg(p.proposer, p.cp.hash), p.sig)
    && env.vrfOk(beacon, p.cp.height, p.proposer, p.vrf)
  }

  function NoteBeacon(b: Book, env: Env, height: nat): Book {
    b.(beacons := if height in b.beacons then b.beacons else b.beacons[height := env.beacon])
  }

  function SeenAt(b: Book, key: (nat, Id)): seq<Proposal> {
    if key in b.seen then b.seen[key] else []
  }

  function VotesOf(votes: map<Id, seq<Vote>>, v: Id): seq<Vote> {
    if v in votes then votes[v] else []
  }

  predicate Surrounds(a: Vote, b: Vote) {
    a.source < b.source && b.source <= b.target && b.target < a.target
  }

  // The first earlier vote that the latest one surrounds or is surrounded by.
  function SurroundIn(past: seq<Vote>, latest: Vote): Option<Evidence> {
    if past == [] then None
    else if Surrounds(latest, past[0]) then Some(Surround(latest, past[0]))
    else if Surrounds(past[0], latest) then Some(Surround(past[0], latest))
    else SurroundIn(past[1..], latest)
  }

  function DoubleIn(past: seq<Vote>, latest: Vote): Option<Evidence> {
    if past == [] then None
    else if past[0].target == latest.target && past[0].hash != latest.hash then Some(DoubleVote(past[0], latest))
    else DoubleIn(past[1..], latest)
  }

  function Accuse(v: Id, e: Option<Evidence>): seq<Action> {
    if e == None then [] else [EmitEvidence(v, e.value)]
  }

  // The node's own history after voting, and the evidence found in it.
  function SelfCheck(votes: map<Id, seq<Vote>>, v: Id): seq<Action> {
    var all := VotesOf(votes, v);
    if |all| < 2 then []
    else
      var m := |all| - 1;
      Accuse(v, SurroundIn(all[..m], all[m])) + Accuse(v, DoubleIn(all[..m], all[m]))
  }

  function MakeVote(b: Book, cp: Checkpoint): Vote {
    var source := if cp.height == 0 then 0 else cp.height - 1;
    Vote(source, cp.height, cp.hash, Signed(b.selfId, MACRO_VOTE, VoteMsg(source, cp.height, cp.hash)))
  }

  function SubnetFor(env: Env, mode: Mode, beacon: nat, v: Id): nat {
    if mode == ModeASubnet then env.subnet(beacon, v) else 0
  }

  function OwnPartial(b: Book, env: Env, mode: Mode, beacon: nat, cp: Checkpoint): BlsPartial {
    BlsPartial(SubnetFor(env, mode, beacon, b.selfId), b.selfId, cp.hash, PartialSig(b.selfId, cp))
  }

  function SubnetMembers(env: Env, beacon: nat, subnet: nat): set<Id> {
    set v | v in env.set_ && env.subnet(beacon, v) == subnet
  }

  // The subnet aggregate is sent by the member with the lowest id.
  function AggregateActions(b: Book, env: Env, beacon: nat, hash: MHash, subnet: nat): seq<Action> {
    var members := SubnetMembers(env, beacon, subnet);
    match BuildAggregate(hash, subnet, SubnetPartialsOf(b, hash, subnet), env.set_,
                         SubnetSize(env.set_, (v: Id) => env.subnet(beacon, v) == subnet), b.sigs)
    case None => []
    case Some(agg) => if members != {} && Minimum(members) == b.selfId then [SendSubnetAgg(agg)] else []
  }

  function AddSubnetPartial(b: Book, hash: MHash, subnet: nat, v: Id): Book {
    b.(subnetPartials := b.subnetPartials[(hash, subnet) := SubnetPartialsOf(b, hash, subnet) + {v}])
  }

  // The node is locked on the checkpoint and has signed it.
  function CastVote(b: Book, cp: Checkpoint, locks: Locks): Book {
    b.(locks := locks,
       proposed := b.proposed + {cp.height},
       timers := b.timers.(backup := b.timers.backup - {cp.height}),
       chain := Adopt(b.chain, cp),
       candidate := b.candidate[cp.height := cp],
       partials := b.partials[cp.hash := PartialsOf(b.partials, cp.hash) + {b.selfId}],
       votes := b.votes[b.selfId := VotesOf(b.votes, b.selfId) + [MakeVote(b, cp)]],
       sigs := b.sigs[(cp.hash, b.selfId) := PartialSig(b.selfId, cp)])
  }

  function AnnounceVote(b: Book, env: Env, cp: Checkpoint, mode: Mode, beacon: nat): MStep {
    var subnet := env.subnet(beacon, b.selfId);
    var c := b.(subnetPartials := if mode == ModeASubnet
                                  then AddSubnetPartial(b, cp.hash, subnet, b.selfId).subnetPartials
                                  else b.subnetPartials);
    MStep(c, SelfCheck(b.votes, b.selfId)
             + [SendPartial(OwnPartial(b, env, mode, beacon, cp)), SetStatus(cp.hash, SoftConfirmed)]
             + if mode == ModeASubnet then AggregateActions(c, env, beacon, cp.hash, subnet) else [])
  }

  // What a proposal must match before the node tries to lock on it.
  predicate Acceptable(b: Book, env: Env, p: Proposal, beacon: nat) {
    var h := p.cp.height;
    && (ActiveMode(b, env, h) == ModeBLeaderless
        || p.proposer == env.primary(beacon, h) || p.proposer == env.backup(beacon, h))
    && p.cp.parent == b.lastHash
    && h in b.candidate && b.candidate[h].root == p.cp.root && b.candidate[h].hash == p.cp.hash
  }

  function ConsiderVote(b: Book, env: Env, p: Proposal, beacon: nat): MStep {
    if !Acceptable(b, env, p, beacon) then MStep(b, [])
    else match TryLock(b.locks, b.selfId, p.cp.height, p.cp.hash)
      case None => MStep(b.(suppressed := b.suppressed + 1), [])
      case Some(locks) =>
        AnnounceVote(CastVote(b, p.cp, locks), env, p.cp, ActiveMode(b, env, p.cp.height), beacon)
  }

  function OnMacroProposal(b: Book, env: Env, p: Proposal): MStep {
    var c, key := NoteBeacon(b, env, p.cp.height), (p.cp.height, p.proposer);
    var beacon := BeaconFor(c, env, p.cp.height);
    if !VerifyProposal(env, p, beacon) then MStep(c.(rejected := c.rejected + 1), [])
    else if exists q :: q in SeenAt(c, key) && q.cp.hash != p.cp.hash then
      MStep(c, [EmitEvidence(p.proposer, MacroEquivocation(SeenAt(c, key)[0], p))])
    else if SeenAt(c, key) != [] then MStep(c, [])
    else ConsiderVote(c.(seen := c.seen[key := [p]]), env, p, beacon)
  }

  // ---------------------------------------------------------------------
  // on_bls_partial
  // ---------------------------------------------------------------------

  function TryModeA(b: Book, env: Env, hash: MHash, height: nat): MStep
    requires height in b.candidate
  {
    if height in b.modeB || b.selfId != env.primary(BeaconFor(b, env, height), height) then MStep(b, [])
    else match ModeAQc(hash, if hash in b.subnetAggs then b.subnetAggs[hash] else map[], env.set_, b.sigs)
      case None => MStep(b, [])
      case Some(qc) =>
        if hash in b.emitted then MStep(b, [])
        else Adoption(b, env, b.candidate[height], qc, height, [SendQc(qc)])
  }

  function SubnetPath(b: Book, env: Env, bp: BlsPartial, height: nat): MStep
    requires height in b.candidate
  {
    var c := AddPartial(AddSubnetPartial(b, bp.hash, bp.subnet, bp.validator), bp.hash, bp.validator);
    var beacon := BeaconFor(c, env, height);
    var send := AggregateActions(c, env, beacon, bp.hash, bp.subnet);
    if c.selfId == env.primary(beacon, height) then
      var s := TryModeA(c, env, bp.hash, height);
      MStep(s.book, send + s.actions)
    else MStep(c, send)
  }

  // Only the lowest signer assembles.
  function FlatPath(b: Book, env: Env, bp: BlsPartial, height: nat, mode: Mode): MStep
    requires height in b.candidate
  {
    if mode == Mode0Flat && bp.subnet != 0 then MStep(b, [])
    else
      var c := AddPartial(b, bp.hash, bp.validator);
      var signers := PartialsOf(c.partials, bp.hash);
      if Minimum(signers) != c.selfId then MStep(c, [])
      else match Mode0Qc(bp.hash, signers, c.sigs, env.set_, mode)
        case None => MStep(c, [])
        case Some(qc) => Adoption(c, env, c.candidate[height], qc, height, [SendQc(qc)])
  }

  function OnBlsPartial(b: Book, env: Env, bp: BlsPartial): MStep {
    match CandidateHeight(b, bp.hash)
    case None => MStep(b, [])
    case Some(height) =>
      if !VerifyPartial(env.set_, bp, b.candidate[height]) then MStep(b.(rejected := b.rejected + 1), [])
      else
        var c := b.(sigs := b.sigs[(bp.hash, bp.validator) := bp.sig]);
        if bp.hash in c.emitted then MStep(c, [])
        else
          var mode := ActiveMode(c, env, height);
          if mode == ModeASubnet then SubnetPath(c, env, bp, height) else FlatPath(c, env, bp, height, mode)
  }

  // ---------------------------------------------------------------------
  // on_macro_qc_received, on_subnet_aggregate, on_timer_fired
  // ---------------------------------------------------------------------

  function OnMacroQc(b: Book, env: Env, qc: MacroQc): MStep {
    if qc.hash in b.emitted then MStep(b, [])
    else match CandidateHeight(b, qc.hash)
      case None => MStep(b, [])
      case Some(height) =>
        if !VerifyMacroQc(env.set_, qc, b.candidate[height]) then MStep(b.(rejected := b.rejected + 1), [])
        else Adoption(b, env, b.candidate[height], qc, height, [])
  }

  function StoreAgg(b: Book, agg: SubnetAgg): Book {
    var aggs := if agg.hash in b.subnetAggs then b.subnetAggs[agg.hash] else map[];
    b.(subnetAggs := b.subnetAggs[agg.hash := aggs[agg.subnet := agg]])
  }

  function OnSubnetAggregate(b: Book, env: Env, agg: SubnetAgg): MStep {
    match CandidateHeight(b, agg.hash)
    case None => MStep(b, [])
    case Some(height) =>
      if !VerifySubnetAgg(env.set_, agg, b.candidate[height], b.sigs) then MStep(b.(rejected := b.rejected + 1), [])
      else TryModeA(StoreAgg(b, agg), env, agg.hash, height)
  }

  function BackupPropose(b: Book, env: Env, height: nat): MStep {
    var c := b.(timers := b.timers.(backup := b.timers.backup - {height}));
    if height in c.proposed || height !in c.candidate then MStep(c, [])
    else
      var beacon := BeaconFor(c, env, height);
      if env.backup(beacon, height) != c.selfId then MStep(c, [])
      else MStep(c.(proposed := c.proposed + {height}),
                 [SendProposal(MakeProposal(c, env, c.candidate[height], beacon))])
  }

  function ModeBVote(b: Book, env: Env, height: nat): MStep {
    if height !in b.modeB || height !in b.candidate then MStep(b, [])
    else
      var cp := b.candidate[height];
      match TryLock(b.locks, b.selfId, height, cp.hash)
      case None => MStep(b, [])
      case Some(locks) =>
        var c := b.(locks := locks,
                    partials := b.partials[cp.hash := PartialsOf(b.partials, cp.hash) + {b.selfId}],
                    sigs := b.sigs[(cp.hash, b.selfId) := PartialSig(b.selfId, cp)]);
        MStep(c, [SendPartial(OwnPartial(c, env, ActiveMode(c, env, height), BeaconFor(c, env, height), cp))])
  }

  // The deadline has passed: Mode B is active, unless the height is certified.
  function Expire(b: Book, height: nat): Book {
    var settled := height in b.candidate && b.candidate[height].hash in b.emitted;
    b.(timers := b.timers.(modeB := b.timers.modeB - {height}),
       modeB := if settled then b.modeB else b.modeB + {height})
  }

  function ModeBDeadline(b: Book, env: Env, height: nat): MStep {
    ModeBVote(Expire(b, height), env, height)
  }

  function OnTimerFired(b: Book, env: Env, id: nat): MStep {
    match HeightFor(b.timers.backup, id)
    case Some(height) => BackupPropose(b, env, height)
    case None =>
      match HeightFor(b.timers.modeB, id)
      case Some(height) => ModeBDeadline(b, env, height)
      case None => MStep(b, [])
  }

  datatype Event =
    | MicroQcs(hashes: seq<nat>)
    | ProposalReceived(proposal: Proposal)
    | PartialReceived(partial: BlsPartial)
    | QcReceived(qc: MacroQc)
    | SubnetReceived(agg: SubnetAgg)
    | TimerFired(id: nat)

  function Handle(b: Book, env: Env, e: Event): MStep {
    match e
    case MicroQcs(hashes) => OnLocalMicroQcs(b, env, hashes)
    case ProposalReceived(p) => OnMacroProposal(b, env, p)
    case PartialReceived(bp) => OnBlsPartial(b, env, bp)
    case QcReceived(qc) => OnMacroQc(b, env, qc)
    case SubnetReceived(agg) => OnSubnetAggregate(b, env, agg)
    case TimerFired(id) => OnTimerFired(b, env, id)
  }
}
