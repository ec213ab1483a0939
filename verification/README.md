# Verified model of the certified DAG, its commit rule, macro finality and erasure coding

The project models four parts of the node in Dafny and proves what they promise over all
inputs and all runs. `dafny verify dfyconfig.toml` checks everything.

| files | part of the system |
|---|---|
| `Validators`, `Worlds`, `Signatures`, `Bitmap`, `Certificates` | validator sets, who may deviate, ideal signatures, signer bitmaps, vertex certificates |
| `VertexCert`, `VertexInvariant`, `VertexNode` | vertex certification (L1): the handlers as functions, what each keeps, and the mutable book that runs them |
| `VertexNetwork`, `VertexSafety`, `VertexProgress`, `VertexEvidence`, `VertexResponses` | n nodes with at most f arbitrary ones: safety over whole runs, termination, the fallback timer, evidence over whole runs, and what each handler is bound to do |
| `Timers`, `WaveTimers`, `SharedIds` | the host's timer registry, which all layers share, and what that does to the fallback and slow-path timers |
| `Dag`, `Commit`, `Linearize`, `Inevitability`, `CertifiedDag`, `Waves`, `WaveResponses` | Bullshark (L2): reachability, commit rule, linear order, what L1 guarantees about them, the wave bookkeeping in place, and what it is bound to do |
| `HostViews` | what the hosts of a run have indexed, and the L2 claims about two of them |
| `Stories`, `Grid`, `GridSteps`, `GridRuns` | runs put together step by step, in which nothing is delivered that was not sent: any DAG of a regular kind is drawn by one |
| `Ladder`, `Bypass`, `SlowPath`, `LateHost` | such runs: where completeness, parent authors and the support window are needed, exactly, and hosts whose timers are stopped |
| `MacroQcs`, `MacroFin`, `MacroInvariant`, `MacroSteps`, `MacroPlain`, `MacroNode` | macro finality (L3): certificates, handlers, what each keeps, and the mutable book |
| `MacroNetwork`, `MacroHistory`, `MacroResponses`, `ModeA`, `MacroProposals` | macro agreement, the history of one validator, exactly when a node adopts in each mode, votes and proposes, proposes twice and is accused |
| `MacroLimits`, `MacroThreshold`, `MacroRuns`, `MacroTracker`, `MacroStale`, `MacroEpochs`, `MacroAccused` | runs that show which premises macro agreement, one vote per height and finality reports need |
| `Fields`, `GaussJordan`, `Polynomials`, `ReedSolomon`, `Gf256`, `ByteCodec` | the erasure codec over any field of characteristic two, the byte field it is used with, and what a shard of bytes is |
| `Merkle`, `Availability`, `Custody` | shard commitments, the availability check, the custody ledger |

A handler of the three state machines exists twice: as a function from a state and an event to a
state and a list of actions, and as a method of a class that updates its fields in place and is
proved to compute that function. The network models take steps with the functions, so what is
proved of every run is proved of the methods. What a handler must do is stated beside the function, in
terms of fields, signatures and counts (`VertexResponses`, `WaveResponses`, `MacroResponses`, `ModeA`).

## Premises

- A content hash is a datatype constructor applied to what is hashed, so hashing is injective,
  never gives the zero hash, and the domain tags keep different kinds apart. A signature is a
  term naming signer, domain and message; an aggregate is the multiset of its parts. An
  adversary may deliver anything that contains no honest signature that was never made.
- The validator set is fixed and ids are distinct. Claims that rest on two quorums sharing an honest
  validator suppose n = 3f + 1 and at most f faulty ones, because the quorum 2f + 1 with f = (n - 1) / 3
  rounded down only then intersects outside any f nodes. Claims about what an honest node signs, sends,
  records or arms suppose neither.
- Certified vertices are verified by the host before they reach the state machine
  (`apps/node/src/orchestrator.rs:122-131`).
- Beacon, leader schedule, subnet assignment and VRF answers are arbitrary functions supplied
  with each event. The leader of a wave is the same function for all nodes that are compared.
- For macro agreement, and for what a node persists, reports and votes for: the parent field of a
  proposed checkpoint is the one under its hash. The code does not check it, and it is needed
  (`MacroStale.StaleParentsDiverge`). Macro agreement needs besides that n = 3f + 1, that at most f
  validators deviate, and that delivered macro certificates name at least 2f + 1 validators, as the
  assembly functions make them; the code does not count them either (`MacroThreshold.AgreementThreshold`).
  What one node persists, reports and votes for does not: that holds with certificates of any size, any
  number of validators and any number of faulty ones. The epoch field may differ: agreement is about
  hashes, and about whole checkpoints when proposals on the wire are in epoch 0
  (`MacroNetwork.PlainAgreement`).
- The view of a host is what it has indexed of the certificates delivered to it. That it consists
  of certified vertices is proved for every host of every run (`HostViews.HostIsCertified`).
- For the order of a wave and for keeping its anchor: that no parent is missing from the views
  compared, in the parts the lemmas name. The host indexes a certified vertex without looking for its
  parents (`apps/node/src/live_dag.rs:34-53`); `Ladder` shows what happens when some are missing.
  That two hosts commit the same anchor needs no such premise (`HostViews.HostsAgreeOnWave`).
- Timers of the three layers of one host share one registry by id alone. What the other layers do
  to it is arbitrary in `VertexProgress.NamedTimerIsPending` and `WaveTimers.WaveTimerIsPending`.

## What the proofs show about the code

- `on_vertex_proposal` counts parents but not their authors, so a vertex that names one parent
  2f + 1 times is voted for (`VertexSafety.RepeatedParentIsVotedFor`). A voter is sure of as many
  authors as there are different parents (`VertexSafety.VotedParentAuthors`). Parents by k authors
  make an anchor committed by the shortcut inevitable exactly when k is at least 2f + 1
  (`Bypass.BypassThreshold`): with 2f it is bypassed, for every f, in a run in which one validator
  deviates by repeating a parent (`Bypass.AnchorIsBypassed`).
- An anchor supported within a window of rounds is in the past of every later vertex built by the
  rules exactly when the window has at most two rounds (`SlowPath.WindowThreshold`). The shortcut
  has two. The slow path has four: the next wave's anchor need not contain what it committed, in runs
  of honest validators only (`SlowPath.SlowCommitIsBypassed`). Honest vertices list their parents in
  author order (`VertexNetwork.NextParents`), and those of these runs do.
- Certified vertices are indexed and committed on before their parents arrive. In a run of four honest
  validators two hosts then commit the same anchor but list its past in different orders
  (`Ladder.MissingParentsReorder`), and in the view of one a later vertex does not reach an anchor
  that the other has committed (`Ladder.MissingParentsHide`).
- With n at most 3 a quorum is one validator and `propose_round`, `try_finalize` and
  `maybe_advance` call each other to any depth (`VertexProgress.NestsForever`); from n = 4 on they
  never do (`VertexProgress.NeverNests`).
- Timer ids are allocated by each layer from 0 and the host keeps one task per id, so layers cancel
  each other's timers. The fallback timer that a started node names will fire exactly when no other
  layer has cancelled its id since it was armed without scheduling it again
  (`VertexProgress.NamedTimerIsPending`), and so will the slow-path timer that a wave waits for
  (`WaveTimers.WaveTimerIsPending`). With four validators the leader's first certificate and
  three children of it stop the fallback timer of round 0 (`SharedIds.WaveCommitStopsFallback`), and
  three certificates of round 0, the leader's first, stop the slow-path timer of wave 0
  (`SharedIds.RoundChangeStopsWave`). Both happen to a validator that lags behind in runs of honest
  validators (`LateHost.FallbackStops`, `LateHost.WaveStops`).
- Apart from that, a started node keeps naming a timer unless a quorum of round-0 certificates was
  recorded before `genesis_propose`; this is an equivalence (`VertexInvariant.HandleRests`,
  `VertexInvariant.LateStartLosesTheTimer`).
- `verify_macro_qc` does not count signers: the certificate of any nonempty group is accepted
  (`MacroQcs.AnySignersAccepted`). Macro agreement holds in all runs whose delivered certificates
  name at least k validators exactly when k is at least 2f + 1, for every n = 3f + 1 from four on
  (`MacroThreshold.AgreementThreshold`).
- A proposal's fields are compared with the candidate's root and hash only, and its parent field with
  the last adopted hash. A parent field that is not the hashed one lets a checkpoint of a lower height
  through, which releases the lock on the next height (`MacroLimits.ParentFieldGuardsLock`); honest
  validators can then sign two checkpoints of one height, and chains diverge
  (`MacroStale.StaleParentsDiverge`). An altered epoch under the same hash is signed as it came
  (`MacroLimits.EpochDecidesMessage`, `MacroEpochs.AlteredEpochIsSigned`); what a node assembles
  passes verification exactly when the signatures it stores are over that very checkpoint
  (`MacroHistory.BroadcastQcVerifies`), and in a run in which they are not, it broadcasts and adopts on
  a certificate that no node accepts (`MacroEpochs.MixedEpochsAreBroadcast`).
- A macro candidate is rebuilt when its window fills again before adoption. The two-chain tracker
  then keeps the checkpoint voted for, not the one persisted, and the height below is reported
  final exactly when tracker and chain agree on it (`MacroInvariant.FinalityExact`). They do not in a run
  of honest validators, for every n = 3f + 1 from four on and any one of them, when it alone has voted
  before the window refilled (`MacroTracker.TrackerDiverges`).
- An honest primary proposes each rebuilt candidate. Over a run it sends two different proposals for
  one height exactly when, as primary, its window refilled over something else than it had proposed
  there (`MacroProposals.ProposesTwiceExactly`), and under that same condition, and only then, resent
  proposals make another honest node publish evidence against it (`MacroProposals.AccusedExactly`).
  The latter supposes that the height field is the hashed one, which is not checked either: in a run of
  honest validators in which sent proposals are resent with another height field, one that has proposed
  once for each height is accused (`MacroAccused.AlteredHeightAccuses`).
- The documentation of `LockMacro` speaks of a lock per height; the code keeps one slot. One vote
  per height holds all the same, because votes are only cast for the next height and heights
  never go back (`MacroHistory.OneVotePerHeight`), as long as the parent fields are the hashed ones.
- The Merkle root does not determine the number of leaves (`Merkle.RepeatedLast`). Two lists of
  shards have the same root exactly when padding them level by level gives the same list
  (`Merkle.RootsAgree`), for example when they are equally long and equal (`Merkle.RootInjective`).
- An availability response with fewer than k shards is accepted unchecked
  (`Availability.VerifyResponse`).
- The count-only custody path runs ahead of the decoding one exactly when decoding would refuse a
  stored shard, for example one with an index of n or more (`Custody.FastPathRunsAhead`).
- The linearization sorts the parents of each vertex, not whole layers as its comment says; the
  model follows the code.

## Model

| member | source | states |
|---|---|---|
| `Validators.QuorumsShareHonest` | crates/dag/src/cert.rs:38-41 | of n = 3f + 1, two quorums share a validator outside any f |
| `Validators.IndexOf` | crates/consensus/src/vertex_cert/mod.rs:43-48 | a position is found exactly for members, and holds that member |
| `Signatures.AggregateParts` | crates/crypto/src/bls/aggregate.rs:26-40 | a verifying aggregate holds the signature of every listed key over the message and nothing else |
| `Signatures.SameSignersSameAggregate` | crates/crypto/src/bls/aggregate.rs:10-22 | only which keys signed decides the aggregate, not their order |
| `Bitmaps.SetBitSets` | crates/crypto/src/bls/bitmap.rs:63-73 | setting a slot adds exactly that slot to the set of slots |
| `Bitmaps.BitOrder` | crates/crypto/src/bls/bitmap.rs:63-73 | slot i is the bit of weight 2^(i mod 8) in byte i / 8 |
| `Bitmaps.Bitmap.Set` | crates/crypto/src/bls/bitmap.rs:63-73 | fails exactly out of range, and then changes nothing |
| `Bitmaps.BitmapIndices` | crates/dag/src/cert.rs:121-131 | lists exactly the set slots in ascending order; refuses exactly a wrong buffer size |
| `Bitmaps.CountOnesIsSize` | crates/crypto/src/bls/bitmap.rs:58-60 | the population count is the number of set slots and of bits set past the last slot, so it is the former exactly when there are none of the latter |
| `Certificates.AssembleCert` | crates/dag/src/cert.rs:66-97 | computes the certificate of the contributors; the bitmap holds exactly their slots |
| `Certificates.AssembledVerifies` | crates/dag/src/cert.rs:66-97 | a certificate from a quorum of verified partials, in any order, passes its own check |
| `Certificates.VerifiedMeans` | crates/dag/src/cert.rs:134-160 | acceptance means a right content hash and a quorum of distinct validators that signed exactly this body |
| `VertexInvariant.HandleKeeps` | crates/consensus/src/vertex_cert/mod.rs:61-383 | every handler keeps the invariant of the book and none fails |
| `VertexInvariant.MemoryBound` | crates/consensus/src/vertex_cert/mod.rs:127-131 | after every handler voted and seen hold at most 3n keys, one proposal each, within one round of the current one |
| `VertexInvariant.OwnCertificateVerifies` | crates/consensus/src/vertex_cert/mod.rs:180-217 | in every reachable state the certificate built at 2f + 1 partials is over the own vertex and passes verification |
| `VertexInvariant.AdvanceStops` | crates/consensus/src/vertex_cert/mod.rs:286-319 | advancing ends with fewer than a quorum of certificates in the current round, whatever rounds were recorded |
| `VertexInvariant.HandleRests` | crates/consensus/src/vertex_cert/mod.rs:286-383 | every event leaves a started node with a pending timer and a round short of a quorum, unless it is a start on top of a recorded quorum, and only then |
| `VertexInvariant.LateStartLosesTheTimer` | crates/consensus/src/vertex_cert/mod.rs:322-334 | after such a start the timer fires once and arms no successor |
| `VertexNetwork.RunInv` | crates/consensus/src/vertex_cert/mod.rs:61-383 | in every state of every run: one signature per slot and signer, justified votes, certified records |
| `VertexNetwork.VoteKeeps` | crates/consensus/src/vertex_cert/mod.rs:127-143 | a vote whose key was not remembered was never cast before, although keys are pruned |
| `VertexNetwork.NextParents` | crates/consensus/src/vertex_cert/mod.rs:298-306 | the parents an honest node picks are certified, of the previous round, by a quorum of different authors, in author order |
| `VertexNetwork.AcceptedIsCertifiable` | crates/dag/src/cert.rs:134-160 | every certificate that can be delivered and is accepted was signed by a quorum |
| `VertexSafety.CertificateUniqueness` | crates/dag/src/cert.rs:134-160 | in no run are two different vertices of one round and author both accepted, at any two times |
| `VertexSafety.CertifiedAgreement` | crates/consensus/src/vertex_cert/mod.rs:220-225 | all honest nodes agree on every certified slot, at any two times |
| `VertexSafety.RecordNeverReplaces` | crates/consensus/src/vertex_cert/mod.rs:220-225 | recording a delivered certificate for a known slot changes nothing |
| `VertexSafety.ChainDescends` | crates/consensus/src/vertex_cert/mod.rs:113-125 | along parent links from a certified vertex everything is certified and the round drops by one per link |
| `VertexSafety.CertifiedLayers` | crates/consensus/src/vertex_cert/mod.rs:113-125 | certified chains never repeat, and end without parents exactly at round 0 |
| `VertexSafety.OnePartialPerSlot` | crates/consensus/src/vertex_cert/mod.rs:127-143 | over a whole run a node sends one partial at most per round and author |
| `VertexSafety.OneCertificatePerVertex` | crates/consensus/src/vertex_cert/mod.rs:180-217 | over a whole run each own vertex is announced once at most, with a certificate that verifies |
| `VertexSafety.Accountability` | crates/consensus/src/slashing/vertex_equivocation.rs:18-54 | every evidence an honest node emits verifies, and never accuses an honest node |
| `VertexSafety.HonestProposesOnce` | crates/consensus/src/vertex_cert/mod.rs:228-281 | an honest node signs one vertex per round, re-broadcasts included |
| `VertexSafety.VotedParentAuthors` | crates/consensus/src/vertex_cert/mod.rs:113-125 | a vertex voted for has as many parent authors as different parents |
| `VertexSafety.RepeatedParentIsVotedFor` | crates/consensus/src/vertex_cert/mod.rs:113-125 | a vertex with one parent repeated is voted for |
| `VertexProgress.NamedTimerIsPending` | apps/node/src/timer.rs:46-88 | in every run that starts each node first a started node names a timer; it will fire exactly when the last thing other layers did to its id since, if anything, was to schedule it, and is the node's own task exactly when they did nothing; no other task of the layer is running |
| `WaveTimers.WaveTimerIsPending` | apps/node/src/timer.rs:46-88 | the same for the slow-path timer of every waiting wave, over any list of events |
| `Timers.LastDecides` | apps/node/src/timer.rs:52-88 | what runs under an id is decided by the last operation on it, whichever layer made it |
| `SharedIds.WaveCommitStopsFallback` | crates/consensus/src/bullshark/mod.rs:148-177 | of four validators, the leader's first certificate and three children of it leave no task under the id that the node names |
| `SharedIds.RoundChangeStopsWave` | crates/consensus/src/vertex_cert/mod.rs:267-280 | three certificates of round 0, the leader's first, leave no task for the slow-path timer of undecided wave 0 |
| `LateHost.FallbackStops` | crates/consensus/src/bullshark/mod.rs:148-177 | a run of honest validators in which a late one receives just these certificates, so that the fallback timer it names has no task |
| `LateHost.WaveStops` | crates/consensus/src/vertex_cert/mod.rs:267-280 | such a run for the slow-path timer of wave 0 |
| `VertexProgress.HandleArms` | crates/consensus/src/vertex_cert/mod.rs:267-280 | a step leaves the timer the book names alone, or the last thing it does to timers is to schedule the one it names from then on; a timer that fires goes without a successor only with a quorum in the current round |
| `VertexProgress.NeverNests` | crates/consensus/src/vertex_cert/mod.rs:228-319 | with n at least 4 a proposal never leads to another inside the same call |
| `VertexProgress.NestsForever` | crates/consensus/src/vertex_cert/mod.rs:228-319 | with n at most 3 the calls nest to any depth |
| `VertexResponses.VoteIsCast` | crates/consensus/src/vertex_cert/mod.rs:61-143 | a partial is sent exactly for a genuine proposal of a peer in the window, with no other one of its slot held or voted on, on top of 2f + 1 certified parents; it is over that very vertex |
| `VertexResponses.ConflictIsReported` | crates/consensus/src/vertex_cert/mod.rs:92-111 | evidence is published exactly for a genuine proposal of a peer in the window with another one of its slot held, together with the first held |
| `VertexEvidence.SecondIsReported` | crates/consensus/src/vertex_cert/mod.rs:92-111 | over a whole run, of two different genuine proposals of one slot that a node handles while the slot is in its window, the second is reported with the first, whatever lies between, unless the first was reported itself |
| `VertexEvidence.NotesOrReports` | crates/consensus/src/vertex_cert/mod.rs:92-111 | a genuine proposal of a peer in the window is held afterwards, or is reported with the one held |
| `VertexResponses.CertificateIsRecorded` | crates/consensus/src/vertex_cert/mod.rs:337-346 | a delivered certificate is recorded and every other slot kept, except in rounds left behind |
| `VertexResponses.AdvancesExactly` | crates/consensus/src/vertex_cert/mod.rs:286-319 | a node stops at the first round without a quorum of certificates and at no other |
| `VertexResponses.AdvanceProposes` | crates/consensus/src/vertex_cert/mod.rs:286-307 | one proposal per round entered, in order, each the one prescribed for its round |
| `VertexResponses.LowestAuthors` | crates/consensus/src/vertex_cert/mod.rs:298-306 | the prescribed vertex has as parents the certificates of the 2f + 1 authors with the lowest ids, in ascending order |
| `VertexResponses.EnteringArms` | crates/consensus/src/vertex_cert/mod.rs:267-280 | entering a round cancels the named timer, arms one of a single round's length and starts the retries over; entering none leaves the timer alone |
| `VertexResponses.StartProposes` | crates/consensus/src/vertex_cert/mod.rs:322-334 | the start proposes a signed vertex of round 0 without parents under such a timer; a second start does nothing |
| `VertexResponses.ForgetsExactly` | crates/consensus/src/vertex_cert/mod.rs:308-317 | pruning forgets exactly what is of a round before the previous one, in each of the six collections |
| `VertexResponses.AdvancingForgets` | crates/consensus/src/vertex_cert/mod.rs:308-317 | after every look for a quorum nothing older than that is kept |
| `VertexResponses.QuorumAnnounces` | crates/consensus/src/vertex_cert/mod.rs:146-217 | a certificate is announced exactly when another validator's signature makes a quorum for an own vertex; it is by everyone whose signature is stored and is then handled as if delivered; other wanted signatures are stored |
| `VertexResponses.VerifiesExactly` | crates/dag/src/cert.rs:134-160 | a certified vertex is accepted exactly when its hash is its content hash and the certificate holds one signature over it by each of 2f + 1 or more flagged validators and nothing else |
| `VertexResponses.HandleHasCurrent` | crates/consensus/src/vertex_cert/mod.rs:228-317 | every handler, pruning included, leaves the proposal of the current round in the store |
| `VertexResponses.StalledResends` | crates/consensus/src/vertex_cert/mod.rs:350-383 | a stalled node sends that proposal again and waits one round longer each time, nine at most |
| `VertexResponses.OtherTimersRest` | crates/consensus/src/vertex_cert/mod.rs:350-368 | a timer that the node does not name changes nothing; on a quorum the named one is merely forgotten |
| `VertexNode.VertexBook.constructor` | crates/consensus/src/vertex_cert/book.rs:52-72 | an empty book |
| `VertexNode.VertexBook.OnVertexProposal` | crates/consensus/src/vertex_cert/mod.rs:61-143 | new state and actions are those of the specification, which `VertexResponses.VoteIsCast` and `VertexEvidence.NotesOrReports` characterize |
| `VertexNode.VertexBook.OnVertexPartial` | crates/consensus/src/vertex_cert/mod.rs:146-176 | new state and actions are those of the specification |
| `VertexNode.VertexBook.TryFinalize` | crates/consensus/src/vertex_cert/mod.rs:180-217 | new state and actions are those of the specification, and the calls end |
| `VertexNode.VertexBook.RecordCert` | crates/consensus/src/vertex_cert/mod.rs:220-225 | exactly the slot of the vertex is set |
| `VertexNode.VertexBook.ProposeRound` | crates/consensus/src/vertex_cert/mod.rs:228-281 | new state and actions are those of the specification; the inner finalization does nothing |
| `VertexNode.VertexBook.MaybeAdvance` | crates/consensus/src/vertex_cert/mod.rs:286-319 | new state and actions are those of the specification |
| `VertexNode.VertexBook.AdvanceRounds` | crates/consensus/src/vertex_cert/mod.rs:286-307 | the loop ends and computes the recursive advance |
| `VertexNode.VertexBook.PruneOld` | crates/consensus/src/vertex_cert/mod.rs:308-317 | every map loses exactly what is older than the previous round |
| `VertexNode.VertexBook.GenesisPropose` | crates/consensus/src/vertex_cert/mod.rs:322-334 | starts once |
| `VertexNode.VertexBook.OnCertifiedVertex` | crates/consensus/src/vertex_cert/mod.rs:337-346 | records, then advances |
| `VertexNode.VertexBook.OnTimerFired` | crates/consensus/src/vertex_cert/mod.rs:350-383 | only the pending timer acts; it re-sends the proposal of the round and waits longer |
| `Dag.VertexReaches` | crates/consensus/src/bullshark/commit.rs:132-155 | true exactly when a parent path exists; ends on every finite view, cycles included |
| `Commit.CountSupporters` | crates/consensus/src/bullshark/commit.rs:113-129 | exactly the authors of the window with a vertex that reaches the anchor |
| `Commit.TryCommitWave` | crates/consensus/src/bullshark/commit.rs:52-109 | commits exactly when the leader's vertex is there and a quorum of the shortcut window, or after the timeout of the slow window, reaches it; which path is decided by the shortcut |
| `Commit.SupporterGrows` | crates/consensus/src/bullshark/commit.rs:113-129 | supporters only grow with the view and the window |
| `Commit.CommitStable` | crates/consensus/src/bullshark/commit.rs:52-109 | a committed wave commits the same anchor on a larger view exactly when the leader's first vertex there is still the anchor |
| `Commit.IngestKeepsCommit` | apps/node/src/live_dag.rs:34-53 | indexing one more certified vertex, whoever made it, never undoes a commit |
| `Linearize.ClosureOfAnchor` | crates/consensus/src/bullshark/linearize.rs:23-43 | ends on every view; lists exactly what the anchor reaches, once each, anchor first, in nondecreasing distance; hashes first found through an earlier entry come first, those found through the same entry in ascending order |
| `Linearize.BreadthFirstUnique` | crates/consensus/src/bullshark/linearize.rs:23-43 | these properties determine the list |
| `Linearize.OrderAgrees` | crates/consensus/src/bullshark/linearize.rs:23-43 | views that agree on the anchor's closure give the same order, whatever the order of parent lists |
| `Linearize.CompleteViewsAgree` | crates/consensus/src/bullshark/linearize.rs:23-43 | any two complete content-addressed views give the same order |
| `Linearize.SameParentsSamePush` | crates/consensus/src/bullshark/linearize.rs:34-40 | what a vertex adds to the queue depends only on the set of its parents |
| `Inevitability.ShortcutIsInevitable` | crates/consensus/src/bullshark/commit.rs:74-90 | an anchor committed in the two-round window, in whosever view, is reached by every vertex with a quorum of parent authors from the third round after it on whose past above the anchor is complete, with up to f free authors |
| `Inevitability.LaterAnchorContains` | crates/consensus/src/bullshark/commit.rs:52-109 | later anchors with a quorum of parent authors contain the committed one |
| `CertifiedDag.HonestWellParented` | crates/consensus/src/vertex_cert/mod.rs:298-306 | a certified vertex of an honest author has parents by a quorum of authors, once they are in the view |
| `CertifiedDag.CertifiedIsGood` | crates/consensus/src/vertex_cert/mod.rs:113-125 | a view of certified vertices has one vertex per slot, and the part of it that a complete view holds is built by the rules |
| `CertifiedDag.CommittedAnchorIsKept` | crates/consensus/src/bullshark/commit.rs:74-90 | in every run a shortcut-committed anchor is in the past of every honest vertex from the third round on, if no parent is missing above the anchor |
| `CertifiedDag.CommittedAnchorIsKeptEverywhere` | crates/consensus/src/bullshark/commit.rs:74-90 | the same when one node committed, on whatever it had, and another node's view is looked at |
| `CertifiedDag.SameWaveSameOrder` | crates/consensus/src/bullshark/mod.rs:130-194 | two nodes that commit a wave, by either path, at any times and whatever parents they lack, commit the same anchor; the same order if they know the same parents of what it reaches |
| `CertifiedDag.CompleteViewsHold` | apps/node/src/live_dag.rs:34-53 | a certified view that lacks no parent lacks nothing that a committed anchor reaches |
| `CertifiedDag.SameMicroCertificate` | crates/consensus/src/bullshark/micro_qc.rs:79-111 | such nodes make the same micro certificate of the wave, order and flags alike |
| `HostViews.HostIsCertified` | apps/node/src/live_dag.rs:34-53 | in every run the view of every host holds certified vertices only, each filed under its own round and hash |
| `HostViews.HostsKeepAnchor` | crates/consensus/src/bullshark/commit.rs:74-90 | an anchor that one host committed by the shortcut is in the past of every honest vertex from the third round on in the view of any host that lacks no parent above it |
| `HostViews.HostsAgreeOnWave` | crates/consensus/src/bullshark/mod.rs:130-194 | two hosts that commit a wave, at any times, commit the same anchor, with the same order and micro certificate if both hold what it reaches |
| `Waves.WaveBook.constructor` | crates/consensus/src/bullshark/mod.rs:39-58 | an empty book |
| `Waves.WaveBook.TryEmitForWave` | crates/consensus/src/bullshark/mod.rs:130-194 | new state and actions are those of the specification, which `WaveResponses.CommitAnnounces` and `WaveResponses.WaveWaits` characterize |
| `Waves.WaveBook.OnCertified` | crates/consensus/src/bullshark/mod.rs:61-81 | the loop over the waves computes the recursive specification, errors included |
| `Waves.WaveBook.OnFired` | crates/consensus/src/bullshark/mod.rs:90-102 | new state and actions are those of the specification |
| `Waves.BuildBitmap` | crates/consensus/src/bullshark/micro_qc.rs:98-103 | flags exactly the validators among the authors |
| `Waves.CertificateSweeps` | crates/consensus/src/bullshark/mod.rs:61-81 | after a certificate exactly the waves that the commit rule decides are newly committed, and every other one whose anchor is there has a timer |
| `Waves.TimerDecides` | crates/consensus/src/bullshark/mod.rs:90-102 | a slow-path timer decides its wave over the wider window and is spent; other ids are ignored |
| `Waves.EmittedOnce` | crates/consensus/src/bullshark/micro_qc.rs:19-52 | over any list of events no checkpoint is broadcast twice, and the set of emitted ones is exactly those broadcast |
| `Waves.BroadcastMeans` | crates/consensus/src/bullshark/micro_qc.rs:79-111 | a broadcast certificate is over the closure of the decided anchor and flags exactly its authors, at least 2f + 1 |
| `WaveResponses.DecidedMeans` | crates/consensus/src/bullshark/commit.rs:52-109 | a wave is decided on exactly the first vertex of its first round by its leader, once 2f + 1 authors of the shortcut window reach it, or after the timeout of the slow one |
| `WaveResponses.CommitAnnounces` | crates/consensus/src/bullshark/micro_qc.rs:79-111 | when a wave commits a micro certificate is broadcast exactly if the past of the anchor has 2f + 1 authors and its order was not broadcast before; it lists that order and flags exactly those authors; the waiting timer is cancelled |
| `WaveResponses.WaveWaits` | crates/consensus/src/bullshark/mod.rs:142-163 | a wave that does not commit gets a timer exactly when its anchor is there and none waits, and only outside a timeout |
| `GridRuns.Draw` | crates/consensus/src/vertex_cert/mod.rs:61-346 | a DAG given by a plan, with parents in author order, is drawn row by row by a run in which nothing is delivered that was not sent; those who take part index all of it below the top row, and the others stay silent |
| `Ladder.MissingParentsReorder` | apps/node/src/live_dag.rs:34-53 | in a run of four honest validators two hosts, one of which lacks parents, commit a wave and list it in different orders |
| `Ladder.MissingParentsHide` | apps/node/src/live_dag.rs:34-53 | in such a run, in the view of a host that lacks parents, an honest vertex of the third round misses an anchor that another host committed |
| `Bypass.AnchorIsBypassed` | crates/consensus/src/bullshark/commit.rs:74-90 | for every f, in a run in which one validator deviates, in the complete view of an honest host, a vertex with 2f parent authors misses a shortcut-committed anchor |
| `Bypass.BypassThreshold` | crates/consensus/src/bullshark/commit.rs:74-90 | over all runs and hosts, k parent authors make a committed anchor inevitable exactly when k is at least 2f + 1 |
| `SlowPath.WindowThreshold` | crates/consensus/src/bullshark/commit.rs:74-107 | over all runs and hosts, an anchor supported within a window is inevitable for vertices built by the rules exactly when the window has at most two rounds |
| `SlowPath.SlowCommitIsBypassed` | crates/consensus/src/bullshark/commit.rs:92-107 | in a run of honest validators, in the complete view of a host, the anchor of wave 1 does not contain what wave 0 committed by the slow path |
| `MacroQcs.TryFinalizeMode0` | crates/consensus/src/macro_fin/macro_qc.rs:33-65 | computes the flat certificate of the signers with stored signatures |
| `MacroQcs.TryFinalizeModeA` | crates/consensus/src/macro_fin/aggregation/mode_a_subnet.rs:76-114 | computes the certificate of the union of the subnet bitmaps, counted without repetition |
| `MacroQcs.TryBuildAggregate` | crates/consensus/src/macro_fin/aggregation/mode_a_subnet.rs:25-61 | computes the subnet aggregate at the subnet's own threshold |
| `MacroQcs.Mode0Verifies` | crates/consensus/src/macro_fin/macro_qc.rs:33-92 | a Mode 0 or B certificate has 2f + 1 distinct signers with stored verified partials, and passes verification exactly when those are over this very checkpoint |
| `MacroQcs.ModeAVerifies` | crates/consensus/src/macro_fin/aggregation/mode_a_subnet.rs:76-114 | the same for Mode A |
| `MacroQcs.VerifiedQcMeans` | crates/consensus/src/macro_fin/verify.rs:112-131 | acceptance means that the flagged validators, at least one, signed this checkpoint |
| `MacroQcs.AnySignersAccepted` | crates/consensus/src/macro_fin/verify.rs:112-131 | the certificate of any nonempty group of validators is accepted, however few |
| `MacroInvariant.AcceptableIsNext` | crates/consensus/src/macro_fin/mod.rs:360-369 | a proposal that passes the checks is for the next height exactly when its parent field is the hashed one, and otherwise for a lower height |
| `MacroInvariant.AdoptsNext` | crates/consensus/src/macro_fin/mod.rs:470-498 | a candidate without certificate is the one of the next height |
| `MacroNetwork.SignedLocked` | crates/consensus/src/lock_macro.rs:32-47 | signing under the lock keeps one hash per height, and the lock knows the one of the next height |
| `MacroInvariant.NeverSelfSlashes` | crates/consensus/src/slashing/surround.rs:8-61 | a node's own votes never contain a surround or double vote |
| `MacroInvariant.SurroundExact` | crates/consensus/src/slashing/surround.rs:13-61 | the scan finds the first earlier vote that crosses the latest, outer vote first, and nothing exactly if there is none |
| `MacroInvariant.DoubleExact` | crates/consensus/src/slashing/double_vote.rs:8-31 | the scan finds the first earlier vote for another hash of the height, and nothing exactly if there is none |
| `MacroInvariant.NeverDoubles` | crates/consensus/src/slashing/double_vote.rs:8-30 | the double-vote scan finds nothing in votes that agree per target |
| `MacroInvariant.FinalityExact` | crates/consensus/src/macro_fin/two_chain.rs:27-71 | the height below the adopted one becomes final exactly when the tracker holds its persisted checkpoint |
| `MacroInvariant.AdoptionEffects` | crates/consensus/src/macro_fin/mod.rs:119-156 | adoption persists exactly the next candidate and reports exactly that finality |
| `MacroInvariant.CastVoteInv` | crates/consensus/src/macro_fin/mod.rs:371-403 | voting keeps the invariant of the book |
| `MacroSteps.HandleGood` | crates/consensus/src/macro_fin/mod.rs:233-781 | every handler keeps the invariant, adopts the next height or none, signs a checkpoint with its candidate's hash or nothing, and adopts only what was certified to it or what 2f + 1 stored partials certify |
| `MacroNetwork.RunLocal` | crates/consensus/src/macro_fin/mod.rs:233-781 | in every state of every run, whatever certificates are delivered and however many validators deviate, each node keeps its book in order and has signed one hash per height, the next one under its lock |
| `MacroNetwork.RunInv` | crates/consensus/src/macro_fin/mod.rs:233-781 | with certificates by quorums and at most f faulty validators, chains are backed by quorums besides |
| `MacroNetwork.BackedUnique` | crates/consensus/src/lock_macro.rs:32-47 | no two hashes of one height can both get a quorum |
| `MacroNetwork.MacroAgreement` | crates/consensus/src/macro_fin/mod.rs:301-654 | of the hash chains of two honest nodes at any two times one is a prefix of the other |
| `MacroNetwork.PlainAgreement` | crates/consensus/src/macro_fin/mod.rs:301-654 | and of the chains themselves, if proposals on the wire are in epoch 0 |
| `MacroThreshold.AgreementThreshold` | crates/consensus/src/macro_fin/verify.rs:112-131 | agreement holds in all runs whose certificates name at least k validators exactly when k is at least 2f + 1 |
| `MacroStale.StaleParentsDiverge` | crates/consensus/src/macro_fin/mod.rs:360-403 | if parent fields need not be the hashed ones, chains of honest nodes diverge, one of them signs two checkpoints of one height and its chain does not start at the zero hash, for every n = 3f + 1 from four on |
| `MacroLimits.ParentFieldGuardsLock` | crates/consensus/src/macro_fin/mod.rs:360-403 | the hashed parent field is exactly what keeps a vote from releasing the lock on the next height |
| `MacroLimits.EpochDecidesMessage` | crates/consensus/src/macro_fin/mod.rs:360-461 | a proposal is signed as it came, which is the candidate exactly when the epochs are equal |
| `MacroEpochs.AlteredEpochIsSigned` | crates/consensus/src/macro_fin/mod.rs:360-461 | in every network any honest node signs, in some run, its candidate and then another message under the same hash |
| `MacroEpochs.MixedEpochsAreBroadcast` | crates/consensus/src/macro_fin/mod.rs:537-588 | a run in which an honest node broadcasts, and adopts on, a certificate that passes verify_macro_qc for no checkpoint |
| `MacroHistory.PersistedIsChain` | crates/consensus/src/macro_fin/mod.rs:136-143 | in every run, certificates of any size included, what a node persisted is exactly its chain |
| `MacroHistory.PersistedInOrder` | crates/consensus/src/macro_fin/mod.rs:119-156 | heights 0, 1, 2, ... once each, every checkpoint naming the one before |
| `MacroHistory.PersistedAgreement` | crates/consensus/src/macro_fin/mod.rs:592-654 | the hashes that two honest nodes persisted never diverge |
| `MacroHistory.FinalizedIsPersisted` | crates/consensus/src/macro_fin/mod.rs:642-652 | a height reported final is persisted and the persisted next one names it |
| `MacroHistory.FinalizedIncreasing` | crates/consensus/src/macro_fin/two_chain.rs:27-71 | reports are strictly increasing |
| `MacroHistory.OneVotePerHeight` | crates/consensus/src/macro_fin/mod.rs:732-776 | over every run, certificates of any size included, all partials of a height, from proposals and Mode B deadlines, are over one hash |
| `MacroHistory.NoSelfSlashing` | crates/consensus/src/macro_fin/mod.rs:405-417 | the self-slashing branches are never taken |
| `MacroHistory.BroadcastQcVerifies` | crates/consensus/src/macro_fin/mod.rs:537-588 | every broadcast certificate names a quorum of stored verified partials; it verifies exactly when they are over the adopted checkpoint, and always with epoch 0 on the wire |
| `MacroProposals.ProposesTwiceExactly` | crates/consensus/src/macro_fin/mod.rs:257-289 | over every run an honest node sends two different proposals for one height exactly when, as primary, its window refilled over something else than it had proposed there |
| `MacroProposals.AccusedExactly` | crates/consensus/src/macro_fin/mod.rs:320-347 | another honest node can be brought to accuse an honest one, by resent proposals, exactly then |
| `MacroProposals.AccusedOnlyAfterRefill` | crates/consensus/src/macro_fin/mod.rs:320-347 | in no run is an honest node accused otherwise |
| `MacroAccused.AlteredHeightAccuses` | crates/consensus/src/macro_fin/mod.rs:320-347 | for every n = 3f + 1 from four on a run of honest validators in which sent proposals are resent with another height field and one that proposed once per height is accused |
| `MacroProposals.PrimaryProposesTwice` | crates/consensus/src/macro_fin/mod.rs:257-289 | a run of two micro certificates in which the condition holds |
| `MacroTracker.TrackerDiverges` | crates/consensus/src/macro_fin/two_chain.rs:27-71 | for every n = 3f + 1 from four on, any primary and any other validator, a run of honest validators in which its tracker keeps the candidate it voted for, its chain has the rebuilt one, and adopting the child reports nothing |
| `MacroResponses.ReceivedQcAdopts` | crates/consensus/src/macro_fin/mod.rs:592-654 | a received certificate is adopted exactly when it is over the candidate of the next height and holds one signature over it by each validator it names, at least one, and nothing else; otherwise only a counter moves |
| `MacroResponses.Mode0Succeeds` | crates/consensus/src/macro_fin/macro_qc.rs:33-65 | flat assembly from stored verified partials succeeds exactly with a quorum, and names exactly the signers |
| `MacroResponses.FlatQuorumAdopts` | crates/consensus/src/macro_fin/mod.rs:537-588 | in Mode 0 and Mode B a verified partial is counted; the node adopts, and broadcasts a certificate by just the signers counted, exactly when they are 2f + 1 and it has the lowest id among them |
| `MacroResponses.OtherPartialsRest` | crates/consensus/src/macro_fin/mod.rs:470-530 | any other partial, and in Mode 0 one of another subnet, is not counted and makes nobody act |
| `ModeA.AcceptedAggregate` | crates/consensus/src/macro_fin/verify.rs:72-110 | a subnet aggregate is accepted exactly when it holds one signature over the checkpoint by each validator it names, at least one, and nothing else, and each is stored |
| `ModeA.AggregateAssembles` | crates/consensus/src/macro_fin/mod.rs:657-692 | a subnet aggregate makes a node broadcast a certificate and adopt exactly when it is accepted, Mode B is not active, the node is the primary of the height, and the stored aggregates with it name 2f + 1 validators; the certificate names just those |
| `ModeA.RunAssembles` | crates/consensus/src/macro_fin/mod.rs:184-226 | the same in every step of every run |
| `ModeA.PartialAssembles` | crates/consensus/src/macro_fin/mod.rs:497-536 | a partial in Mode A is counted for its subnet, makes the node send the aggregate exactly when it has the lowest id of the subnet and 2f + 1 of it have signed, and then adopt as above |
| `ModeA.VoteOwesAggregate` | crates/consensus/src/macro_fin/mod.rs:440-458 | a vote in Mode A counts for the own subnet and sends the aggregate on the same condition; in the other modes none is sent |
| `ModeA.HandleStores` | crates/consensus/src/macro_fin/mod.rs:678-684 | accepted aggregates are stored, replace that of their subnet and are dropped by nothing; no counted signer is dropped |
| `ModeA.AssemblyExact` | crates/consensus/src/macro_fin/aggregation/mode_a_subnet.rs:76-120 | assembly in Mode A succeeds exactly when the aggregates name a quorum, and names exactly those |
| `MacroResponses.ProposalIsVotedFor` | crates/consensus/src/macro_fin/mod.rs:301-461 | a checkpoint is signed exactly for the first verified proposal of its proposer that is by primary or backup, or in Mode B, names the last adopted checkpoint, matches the candidate and is not excluded by the lock |
| `MacroResponses.VoteIsSent` | crates/consensus/src/macro_fin/mod.rs:378-437 | the vote goes out as a partial with the own subnet in Mode A and subnet 0 otherwise; it is locked, stored, counted and recorded with its source and target |
| `MacroResponses.ConflictingVotesAreReported` | crates/consensus/src/macro_fin/mod.rs:389-418 | a vote makes the node report itself, and nobody else, exactly if an earlier vote of its own crosses it or is for another hash of the height |
| `MacroResponses.SecondOfferIsReported` | crates/consensus/src/macro_fin/mod.rs:320-352 | a genuine proposal is remembered, and a later one of the proposer and height with another hash is reported with the first; nobody is accused otherwise |
| `MacroResponses.DeadlineIsVotedAt` | crates/consensus/src/macro_fin/mod.rs:732-776 | when the Mode B timer fires Mode B is active, and a partial for subnet 0 over the candidate is sent exactly if no lock excludes it |
| `MacroResponses.WindowFills` | crates/consensus/src/macro_fin/mod.rs:252-296 | the micro certificate that fills the window makes the candidate, over the hashes in order and on top of the last adopted one; exactly the primary proposes, the backup waits, and all wait twice as long for Mode B unless forbidden |
| `MacroResponses.BackupProposes` | crates/consensus/src/macro_fin/mod.rs:695-731 | the backup proposes exactly if nothing was proposed or voted for at the height, there is a candidate and it is still the backup |
| `MacroResponses.NoticeOncePerStreak` | crates/consensus/src/macro_fin/mod.rs:97-117 | over any list of adoptions the counter is the length of the streak without finality, saturating, and one notice goes out per streak, when it reaches the trigger |
| `MacroNode.MacroBook.constructor` | crates/consensus/src/macro_fin/book.rs:75-101 | an empty book at height 0 |
| `MacroNode.MacroBook.OnLocalMicroQcs` | crates/consensus/src/macro_fin/mod.rs:233-298 | the loop over new micro certificates computes the specification |
| `MacroNode.MacroBook.OnMacroProposal` | crates/consensus/src/macro_fin/mod.rs:301-461 | new state and actions are those of the specification |
| `MacroNode.MacroBook.OnBlsPartial` | crates/consensus/src/macro_fin/mod.rs:464-589 | new state and actions are those of the specification |
| `MacroNode.MacroBook.OnMacroQc` | crates/consensus/src/macro_fin/mod.rs:592-654 | new state and actions are those of the specification |
| `MacroNode.MacroBook.OnSubnetAggregate` | crates/consensus/src/macro_fin/mod.rs:657-692 | new state and actions are those of the specification, which `ModeA.AggregateAssembles` characterizes |
| `MacroNode.MacroBook.OnTimerFired` | crates/consensus/src/macro_fin/mod.rs:695-781 | new state and actions are those of the specification |
| `MacroNode.MacroBook.Adopt` | crates/consensus/src/macro_fin/mod.rs:119-156 | new state and actions are those of the specification |
| `MacroNode.MacroBook.TryModeA` | crates/consensus/src/macro_fin/mod.rs:184-226 | new state and actions are those of the specification, which `ModeA.AssemblyExact` and `ModeA.AggregateAssembles` characterize |
| `MacroNode.MacroBook.NoteInactivityLeak` | crates/consensus/src/macro_fin/mod.rs:97-117 | counts unfinalized windows with saturation and notifies once per streak |
| `GaussJordan.InvertMatrix` | crates/dag/src/erasure/rs.rs:202-246 | a two-sided inverse exactly for a square matrix with trivial kernel, an error otherwise |
| `GaussJordan.DependencySolves` | crates/dag/src/erasure/rs.rs:216-223 | a column without pivot gives a kernel vector |
| `Polynomials.PowBySquaring` | crates/dag/src/erasure/gf256.rs:68-79 | repeated squaring is the power |
| `Polynomials.ManyRoots` | crates/dag/src/erasure/rs.rs:169-178 | a polynomial with as many roots as coefficients is zero |
| `Polynomials.VandermondeKernel` | crates/dag/src/erasure/rs.rs:169-178 | a square Vandermonde matrix over distinct points has a trivial kernel |
| `ReedSolomon.MatMul` | crates/dag/src/erasure/rs.rs:181-196 | every entry is a row times a column |
| `ReedSolomon.ProductApplies` | crates/dag/src/erasure/rs.rs:181-196 | applying a product is applying its factors in turn |
| `ReedSolomon.BuildEncodingMatrix` | crates/dag/src/erasure/rs.rs:161-166 | always succeeds; any data becomes a word on a polynomial of degree below k that starts with the data |
| `ReedSolomon.TopIsIdentity` | crates/dag/src/erasure/rs.rs:160-166 | the top k rows are the identity |
| `ReedSolomon.AnyRowsInvertible` | crates/dag/src/erasure/rs.rs:109-111 | any k different rows form an invertible matrix |
| `ReedSolomon.MulSliceAdd` | crates/dag/src/erasure/gf256.rs:94-108 | in place, adds the scaled input, on all three branches |
| `ReedSolomon.EncodeShards` | crates/dag/src/erasure/rs.rs:27-47 | succeeds exactly on a valid configuration and a payload that fits; the shards are a codeword that carries it |
| `ReedSolomon.EncodingUnique` | crates/dag/src/erasure/rs.rs:27-47 | no other codeword carries the payload |
| `ReedSolomon.ReconstructShards` | crates/dag/src/erasure/rs.rs:96-142 | succeeds exactly with k filled slots and gives the codeword through the k lowest; never meets a singular matrix |
| `ReedSolomon.RepairUnique` | crates/dag/src/erasure/rs.rs:96-142 | there is one such codeword |
| `ReedSolomon.DecodeShards` | crates/dag/src/erasure/rs.rs:50-82 | success, each error and the value are characterized; a repeated index keeps its last shard |
| `ReedSolomon.AnyKOfN` | crates/dag/src/erasure/rs.rs:50-82 | genuine shards with k different indices decode to the payload |
| `ReedSolomon.RoundTrip` | crates/dag/src/erasure/rs.rs:27-82 | encode, keep any k different shards in any order with repetitions, decode: the payload |
| `Gf256.ExpInjective` | crates/dag/src/erasure/gf256.rs:13-29 | the generator has order 255 |
| `Gf256.EveryByteIsPower` | crates/dag/src/erasure/gf256.rs:13-29 | every nonzero byte is a power of the generator |
| `Gf256.BuildTables` | crates/dag/src/erasure/gf256.rs:13-29 | the tables hold all powers up to 511 and all logarithms |
| `Gf256.TableMul` | crates/dag/src/erasure/gf256.rs:47-54 | the table product is the product of polynomials modulo x^8 + x^4 + x^3 + x^2 + 1 |
| `Gf256.TableInv` | crates/dag/src/erasure/gf256.rs:58-64 | the table inverse of a nonzero byte multiplies with it to one |
| `Gf256.MulIsPolynomialProduct` | crates/dag/src/erasure/gf256.rs:47-54 | adding exponents is shift-and-add multiplication |
| `Gf256.BytesAreField` | crates/dag/src/erasure/gf256.rs:41-64 | the bytes are a field of characteristic two |
| `Gf256.GeneratorReduces` | crates/dag/src/erasure/gf256.rs:32-38 | multiplying by the generator is doubling modulo x^8 + x^4 + x^3 + x^2 + 1 |
| `Gf256.ByteCodecIsGood` | crates/dag/src/erasure/rs.rs:15-16 | the evaluation points of different shards differ, so the codec theorems hold up to MAX_SHARDS |
| `ByteCodec.PointIsNumber` | crates/dag/src/erasure/rs.rs:169-178 | the evaluation point of shard r is the byte r, for all 256 |
| `ByteCodec.EncodeBytes` | crates/dag/src/erasure/rs.rs:27-47 | byte t of shard r is the value at the byte r of a polynomial of degree below k, and the first k shards are the padded payload |
| `ByteCodec.ShardsUnique` | crates/dag/src/erasure/rs.rs:27-47 | no other shards are |
| `Gf256.RoundTripBytes` | crates/dag/src/erasure/rs.rs:27-82 | any k of n over bytes, for every 0 < k < n up to 256 |
| `Merkle.BinaryMerkleRoot` | crates/dag/src/erasure/commit.rs:18-36 | the layer loop computes the recursive root |
| `Merkle.PathToLeaf` | crates/dag/src/erasure/commit.rs:18-36 | following the bits of a leaf's index from the root leads to that leaf |
| `Merkle.RootInjective` | crates/dag/src/erasure/commit.rs:18-36 | equal roots of equally many leaves mean equal leaves |
| `Merkle.CommitmentInjective` | crates/dag/src/erasure/commit.rs:12-16 | equal commitments of equally many shards mean equal shards |
| `Merkle.RepeatedLast` | crates/dag/src/erasure/commit.rs:23-31 | repeating an odd last leaf does not change the root |
| `Merkle.RootsAgree` | crates/dag/src/erasure/commit.rs:12-36 | roots and commitments of two lists are equal exactly when the lists padded level by level are |
| `Availability.VerifyResponse` | crates/dag/src/da/challenge.rs:41-84 | with k shards or more accepted exactly if they are k different shards of committed data of the recorded size; with fewer, whenever the indices match |
| `Availability.AcceptedAreCommitted` | crates/dag/src/da/challenge.rs:64-81 | accepted shards are the committed ones at their indices |
| `Availability.HonestIsProof` | crates/dag/src/da/challenge.rs:41-84 | k different genuine shards of an encoded payload are always accepted |
| `Custody.ErasureAvailable` | crates/dag/src/blob/custody.rs:86-101 | true exactly when enough stored shards are well formed |
| `Custody.CustodyLedger.RegisterErasure` | crates/dag/src/blob/custody.rs:24-42 | replaces size and configuration, keeps what was received |
| `Custody.CustodyLedger.NoteChunk` | crates/dag/src/blob/custody.rs:46-60 | records the shard of a known, not yet available blob and decides by decoding; it is the step of the arrival sequences |
| `Custody.CustodyLedger.NoteChunkPresent` | crates/dag/src/blob/custody.rs:63-77 | the same, deciding by counting |
| `Custody.PathsAgree` | crates/dag/src/blob/custody.rs:46-101 | on genuine shards, in any order with repetitions, both paths return true exactly once, at the k-th different shard |
| `Custody.FastPathRunsAhead` | crates/dag/src/blob/custody.rs:63-101 | exactly when counting and decoding differ |

## Left out

- Rounds, heights and timer ids are unbounded: wrap-around of 64-bit counters is not modelled.
- Restarts, epoch changes and stake weights: books live in memory, the validator set is fixed, votes count per validator.
- BLS, BLAKE3, Borsh and ECVRF internals: the premises above stand for them.
- Networking, storage, RPC, metrics, configuration loading and error texts.
- Failing host ports: validator set, beacon, signer and DAG always answer.
- Reputation and the floating-point sortition scores: primary, backup and leader are arbitrary functions.
- The constant signature bytes of a `MicroQc`, and its reception, which does nothing.
- Scheduling a timer goes through a queue before it reaches the registry; here it takes effect at once. Of the registry only what is running is modelled, on values.
- The cache of encoding matrices: the matrix is rebuilt, which gives the same value.
- The library sort of parents is modelled as an insertion sort, and the sorting of index lists in the availability check as equality of multisets.
- The blob id that a macro status action carries is a truncated hash in the source; here the action carries the hash.
- Shard matrices are sequences of rows that are replaced row by row; only the slice operation writes into an array.
- VertexNode.VertexBook.TryFinalize: requires at least four validators, because with fewer the calls do not return (`VertexProgress.NestsForever`).
- VertexNode.VertexBook.ProposeRound: requires at least four validators, for the same reason.
- VertexNode.VertexBook.OnVertexPartial: requires at least four validators, because it calls `TryFinalize`.
- VertexNode.VertexBook.MaybeAdvance: requires at least four validators, because it calls `ProposeRound`.
- VertexNode.VertexBook.AdvanceRounds: requires at least four validators, because it calls `ProposeRound`.
- VertexNode.VertexBook.GenesisPropose: requires at least four validators, because it calls `ProposeRound`.
- VertexNode.VertexBook.OnCertifiedVertex: requires at least four validators, because it calls `MaybeAdvance`.
- MacroSteps.HandleGood: supposes that the parent field of a received proposal is the hashed one; without that it is false (`MacroStale.StaleParentsDiverge`), and so are RunLocal, RunInv, MacroAgreement and OneVotePerHeight. All claims about runs of macro finality suppose it.
- MacroNetwork.RunInv: supposes that delivered certificates name a quorum; with fewer signers agreement is false (`MacroThreshold.AgreementThreshold`).
- MacroNetwork.MacroAgreement: under the same two premises.
- MacroNetwork.PlainAgreement: also supposes proposals in epoch 0; without that only the hashes agree (`MacroLimits.EpochDecidesMessage`).
- MacroHistory.PersistedAgreement: under the same two premises.
- MacroHistory.OneVotePerHeight: supposes that the parent field is the hashed one, and nothing about certificates.
- MacroProposals.AccusedExactly: supposes that the height field of a received proposal is the hashed one; without that it is false (`MacroAccused.AlteredHeightAccuses`).
- CertifiedDag.CommittedAnchorIsKept: supposes that no parent is missing above the anchor; without that it is false (`Ladder.MissingParentsHide`).
- CertifiedDag.CommittedAnchorIsKeptEverywhere: the same, of the view that is looked at.
- HostViews.HostsKeepAnchor: the same, of the host that is looked at.
- Evidence for surround and double votes is modelled as found by the scans; the verification of such evidence is not.
