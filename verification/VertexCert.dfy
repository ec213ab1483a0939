/** Distributed vertex certification (consensus::vertex_cert): what each handler
    of a node computes, as functions from the node's book to its next book and
    the actions it emits. */
module VertexCert {
  import opened Validators
  import opened Signatures
  import opened Certificates

  datatype Proposal = Proposal(vertex: Vertex, sig: VSig)
  datatype Partial = Partial(vertexHash: Hash, round: nat, author: Id, voter: Id, sig: VSig)

  // Two vertices of one author and round, each with its proposer signature.
  datatype Equivocation = Equivocation(validator: Id, a: Proposal, b: Proposal)

  datatype Action =
    | CancelTimer(id: nat)
    | ScheduleTimer(id: nat, delayNanos: nat)
    | BroadcastProposal(proposal: Proposal)
    | BroadcastPartial(partial: Partial)
    | BroadcastCert(cert: CertifiedVertex)
    | EmitEvidence(offender: Id, evidence: Equivocation)

  // One author's slot in one round.
  datatype Key = Key(round: nat, author: Id)

  datatype Book = Book(
    selfId: Id,
    currentRound: nat,
    started: bool,
    certified: map<nat, map<Id, Hash>>,
    mine: map<Hash, Proposal>,
    collecting: map<Hash, map<Id, VSig>>,
    emitted: set<Hash>,
    seen: map<Key, seq<Proposal>>,
    voted: set<Key>,
    roundTimer: Option<nat>,
    retries: nat,
    nextTimer: nat,
    rejected: nat,
    conflicts: nat,
    stalled: nat)

  // What the host supplies: the validator set, the round length and the blobs
  // pending when a given round is proposed.
  datatype Env = Env(set_: ValidatorSet, roundMillis: nat, pending: nat -> seq<nat>)

  // `ok` is false when the handler returns an error; its actions are then lost.
  datatype Step = Step(book: Book, actions: seq<Action>, ok: bool)

  function FreshBook(id: Id): Book {
    Book(id, 0, false, map[], map[], map[], {}, map[], {}, None, 0, 0, 0, 0, 0)
  }

  function Need(env: Env): nat { QuorumThreshold(|env.set_|) }

  function CertifiedCount(b: Book, round: nat): nat {
    if round in b.certified then |b.certified[round]| else 0
  }

  predicate RoundInWindow(b: Book, round: nat) {
    round + 1 >= b.currentRound && round <= b.currentRound + 1
  }

  function RoundDelay(env: Env, retries: nat): nat {
    env.roundMillis * 1_000_000 * (retries + 1)
  }

  predicate VerifyProposal(set_: ValidatorSet, p: Proposal) {
    p.vertex.author in set_ && Verify(p.vertex.author, VERTEX_PROPOSAL, SigningBytes(p.vertex), p.sig)
  }

  predicate VerifyPartial(set_: ValidatorSet, bp: Partial, v: Vertex) {
    && bp.vertexHash == v.hash && bp.round == v.round && bp.author == v.author
    && bp.voter in set_ && Verify(bp.voter, VERTEX_CERT, SigningBytes(v), bp.sig)
  }

  predicate VerifyEvidence(set_: ValidatorSet, e: Equivocation) {
    && e.validator in set_
    && e.a.vertex.author == e.validator && e.b.vertex.author == e.validator
    && e.a.vertex.round == e.b.vertex.round && e.a.vertex.hash != e.b.vertex.hash
    && Verify(e.validator, VERTEX_PROPOSAL, SigningBytes(e.a.vertex), e.a.sig)
    && Verify(e.validator, VERTEX_PROPOSAL, SigningBytes(e.b.vertex), e.b.sig)
  }

  // ---------------------------------------------------------------------
  // Inbound proposals
  // ---------------------------------------------------------------------

  predicate KnownParents(b: Book, round: nat, parents: seq<Hash>) {
    forall h :: h in parents ==> round in b.certified && h in b.certified[round].Values
  }

  function Vote(b: Book, p: Proposal): Step {
    var key := Key(p.vertex.round, p.vertex.author);
    if key in b.voted then Step(b, [], true)
    else
      var sig := Signed(b.selfId, VERTEX_CERT, SigningBytes(p.vertex));
      Step(b.(voted := b.voted + {key}),
           [BroadcastPartial(Partial(p.vertex.hash, p.vertex.round, p.vertex.author, b.selfId, sig))],
           true)
  }

  predicate Conflicting(b: Book, p: Proposal) {
    var key := Key(p.vertex.round, p.vertex.author);
    key in b.seen && exists i :: 0 <= i < |b.seen[key]| && b.seen[key][i].vertex.hash != p.vertex.hash
  }

  function NoteSeen(b: Book, p: Proposal): Book {
    var key := Key(p.vertex.round, p.vertex.author);
    if key in b.seen then b else b.(seen := b.seen[key := [p]])
  }

  function OnVertexProposal(b: Book, env: Env, p: Proposal): Step {
    if p.vertex.hash != ContentHash(p.vertex) || !VerifyProposal(env.set_, p) then
      Step(b.(rejected := b.rejected + 1), [], true)
    else if p.vertex.author == b.selfId || !RoundInWindow(b, p.vertex.round) then
      Step(b, [], true)
    else if Conflicting(b, p) then
      var author := p.vertex.author;
      Step(b, [EmitEvidence(author, Equivocation(author, b.seen[Key(p.vertex.round, author)][0], p))], true)
    else
      var b1 := NoteSeen(b, p);
      if p.vertex.round > 0 then
        if |p.vertex.parents| < Need(env) || !KnownParents(b1, p.vertex.round - 1, p.vertex.parents)
        then Step(b1, [], true)
        else Vote(b1, p)
      else if p.vertex.parents != [] then Step(b1.(rejected := b1.rejected + 1), [], true)
      else Vote(b1, p)
  }

  // ---------------------------------------------------------------------
  // Proposing and advancing. `Propose` is propose_round with its final
  // try_finalize left out: see ProposeRound in the class for why that call
  // does nothing once a quorum is more than one validator.
  // ---------------------------------------------------------------------

  function MakeProposal(b: Book, env: Env, round: nat, parents: seq<Hash>): Proposal {
    var vertex := SealHash(Vertex(round, b.selfId, parents, env.pending(round), Zero));
    Proposal(vertex, Signed(b.selfId, VERTEX_PROPOSAL, SigningBytes(vertex)))
  }

  function Slot(b: Book, h: Hash): map<Id, VSig> {
    if h in b.collecting then b.collecting[h] else map[]
  }

  function SeenAt(b: Book, key: Key): seq<Proposal> {
    if key in b.seen then b.seen[key] else []
  }

  function Propose(b: Book, env: Env, round: nat, parents: seq<Hash>): Step {
    var p := MakeProposal(b, env, round, parents);
    var h := p.vertex.hash;
    var selfSig := Signed(b.selfId, VERTEX_CERT, SigningBytes(p.vertex));
    var key := Key(round, b.selfId);
    Step(b.(mine := b.mine[h := p],
            collecting := b.collecting[h := Slot(b, h)[b.selfId := selfSig]],
            voted := b.voted + {key},
            seen := b.seen[key := SeenAt(b, key) + [p]],
            currentRound := round,
            roundTimer := Some(b.nextTimer),
            nextTimer := b.nextTimer + 1,
            retries := 0),
         (if b.roundTimer.Some? then [CancelTimer(b.roundTimer.value)] else [])
         + [ScheduleTimer(b.nextTimer, RoundDelay(env, 0)), BroadcastProposal(p)],
         true)
  }

  // Hashes of the first `k` authors in id order.
  function ValuesInOrder(m: map<Id, Hash>, k: nat): seq<Hash>
    requires k <= |m|
  {
    var keys := Sorted(m.Keys);
    SortedSpec(m.Keys);
    assert forall i :: 0 <= i < |keys| ==> keys[i] in keys;
    seq(k, i requires 0 <= i < k => m[keys[i]])
  }

  ghost function AheadOf(b: Book): set<nat> {
    set r | r in b.certified && r >= b.currentRound
  }

  // The proposal for the next round, on top of a quorum in the current one.
  function ProposeNext(b: Book, env: Env): (s: Step)
    requires CertifiedCount(b, b.currentRound) >= Need(env)
    ensures |AheadOf(s.book)| < |AheadOf(b)|
  {
    var r := b.currentRound;
    var s := Propose(b, env, r + 1, ValuesInOrder(b.certified[r], Need(env)));
    assert AheadOf(s.book) == AheadOf(b) - {r};
    s
  }

  function AdvanceLoop(b: Book, env: Env): Step
    decreases |AheadOf(b)|
  {
    if CertifiedCount(b, b.currentRound) < Need(env) then Step(b, [], true)
    else
      var s := ProposeNext(b, env);
      var t := AdvanceLoop(s.book, env);
      Step(t.book, s.actions + t.actions, true)
  }

  function KeepFrom(b: Book): nat {
    if b.currentRound == 0 then 0 else b.currentRound - 1
  }

  function RetainRounds(m: map<nat, map<Id, Hash>>, keep: nat): map<nat, map<Id, Hash>> {
    map r | r in m && r >= keep :: m[r]
  }

  function RetainProposals(m: map<Hash, Proposal>, keep: nat): map<Hash, Proposal> {
    map h | h in m && m[h].vertex.round >= keep :: m[h]
  }

  function RetainLive(m: map<Hash, map<Id, VSig>>, live: set<Hash>): map<Hash, map<Id, VSig>> {
    map h | h in m && h in live :: m[h]
  }

  function RetainSeen(m: map<Key, seq<Proposal>>, keep: nat): map<Key, seq<Proposal>> {
    map k | k in m && k.round >= keep :: m[k]
  }

  function RetainKeys(s: set<Key>, keep: nat): set<Key> {
    set k | k in s && k.round >= keep
  }

  // Drops everything older than the previous round.
  function Prune(b: Book): Book {
    var keep := KeepFrom(b);
    var live := RetainProposals(b.mine, keep);
    b.(certified := RetainRounds(b.certified, keep),
       mine := live,
       collecting := RetainLive(b.collecting, live.Keys),
       emitted := b.emitted * live.Keys,
       seen := RetainSeen(b.seen, keep),
       voted := RetainKeys(b.voted, keep))
  }

  function MaybeAdvance(b: Book, env: Env): Step {
    if !b.started then Step(b, [], true)
    else
      var s := AdvanceLoop(b, env);
      Step(Prune(s.book), s.actions, true)
  }

  // ---------------------------------------------------------------------
  // Collecting partials for own vertices
  // ---------------------------------------------------------------------

  function RecordCert(b: Book, v: Vertex): Book {
    var atRound := if v.round in b.certified then b.certified[v.round] else map[];
    b.(certified := b.certified[v.round := atRound[v.author := v.hash]])
  }

  function ContributorsFrom(set_: ValidatorSet, voters: seq<Id>, sigs: map<Id, VSig>): seq<Contributor>
    requires forall v :: v in voters ==> v in sigs
  {
    if voters == [] then []
    else
      var front, last := voters[..|voters| - 1], voters[|voters| - 1];
      var rest := ContributorsFrom(set_, front, sigs);
      match IndexOf(set_, last)
      case None => rest
      case Some(i) => rest + [(i, sigs[last])]
  }

  function Contributors(set_: ValidatorSet, sigs: map<Id, VSig>): seq<Contributor> {
    SortedSpec(sigs.Keys);
    ContributorsFrom(set_, Sorted(sigs.Keys), sigs)
  }

  predicate Ready(b: Book, env: Env, h: Hash) {
    h !in b.emitted && h in b.mine && h in b.collecting && |b.collecting[h]| >= Need(env)
  }

  // The certificate assembled for own vertex `h`, after its self-check.
  function OwnCertificate(b: Book, env: Env, h: Hash): Option<CertifiedVertex>
    requires Ready(b, env, h)
  {
    match Assembled(b.mine[h].vertex, env.set_, Contributors(env.set_, b.collecting[h]))
    case Err(_) => None
    case Ok(cv) => if VerifyCertifiedVertex(cv, env.set_).Ok? then Some(cv) else None
  }

  function TryFinalize(b: Book, env: Env, h: Hash): Step {
    if !Ready(b, env, h) then Step(b, [], true)
    else match OwnCertificate(b, env, h)
      case None => Step(b, [], false)
      case Some(cv) =>
        var s := MaybeAdvance(RecordCert(b.(emitted := b.emitted + {h}), cv.vertex), env);
        Step(s.book, [BroadcastCert(cv)] + s.actions, true)
  }

  function OnVertexPartial(b: Book, env: Env, bp: Partial): Step {
    if bp.author != b.selfId || bp.voter == b.selfId || bp.vertexHash !in b.mine then Step(b, [], true)
    else
      var h := bp.vertexHash;
      var slot := Slot(b, h);
      var b1 := b.(collecting := b.collecting[h := slot]);
      if bp.voter in slot then
        Step(if slot[bp.voter] != bp.sig then b1.(conflicts := b1.conflicts + 1) else b1, [], true)
      else if !VerifyPartial(env.set_, bp, b.mine[h].vertex) then
        Step(b1.(rejected := b1.rejected + 1), [], true)
      else
        TryFinalize(b1.(collecting := b.collecting[h := slot[bp.voter := bp.sig]]), env, h)
  }

  // ---------------------------------------------------------------------
  // Remaining events
  // ---------------------------------------------------------------------

  function Genesis(b: Book, env: Env): Step {
    if b.started then Step(b, [], true) else Propose(b.(started := true), env, 0, [])
  }

  function OnCertifiedVertex(b: Book, env: Env, cv: CertifiedVertex): Step {
    MaybeAdvance(RecordCert(b, cv.vertex), env)
  }

  // The stored proposal of the round; the order of the search does not matter
  // because a node has one proposal per round.
  ghost function CurrentProposal(mine: map<Hash, Proposal>, round: nat): (r: Option<Proposal>)
    ensures r.Some? ==> exists h :: h in mine && mine[h] == r.value && r.value.vertex.round == round
    ensures r.None? ==> forall h :: h in mine ==> mine[h].vertex.round != round
  {
    if exists h :: h in mine && mine[h].vertex.round == round then
      var h :| h in mine && mine[h].vertex.round == round;
      Some(mine[h])
    else None
  }

  ghost function Retry(b: Book, env: Env): Step {
    var p := CurrentProposal(b.mine, b.currentRound);
    var retries := if b.retries + 1 < 8 then b.retries + 1 else 8;
    Step(b.(stalled := b.stalled + 1, retries := retries,
            roundTimer := Some(b.nextTimer), nextTimer := b.nextTimer + 1),
         (if p.Some? then [BroadcastProposal(p.value)] else [])
         + [ScheduleTimer(b.nextTimer, RoundDelay(env, retries))],
         true)
  }

  ghost function OnTimerFired(b: Book, env: Env, id: nat): Step {
    if b.roundTimer != Some(id) then Step(b, [], true)
    else if CertifiedCount(b, b.currentRound) >= Need(env) then Step(b.(roundTimer := None), [], true)
    else Retry(b.(roundTimer := None), env)
  }

  datatype Event =
    | Start
    | ProposalReceived(proposal: Proposal)
    | PartialReceived(partial: Partial)
    | CertReceived(cert: CertifiedVertex)
    | TimerFired(id: nat)

  ghost function Handle(b: Book, env: Env, e: Event): Step {
    match e
    case Start => Genesis(b, env)
    case ProposalReceived(p) => OnVertexProposal(b, env, p)
    case PartialReceived(bp) => OnVertexPartial(b, env, bp)
    case CertReceived(cv) => OnCertifiedVertex(b, env, cv)
    case TimerFired(id) => OnTimerFired(b, env, id)
  }
}
