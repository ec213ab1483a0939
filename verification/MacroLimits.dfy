/** What a proposed checkpoint whose fields do not match its hash can do: only the
    height, the root and the hash are compared with the candidate, and the parent field
    with the last adopted checkpoint. */
module MacroLimits {
  import opened Validators
  import opened Signatures
  import opened MacroQcs
  import opened MacroFin
  import opened MacroInvariant
  import opened MacroSteps
  import opened MacroResponses

  // ---------------------------------------------------------------------
  // The parent field guards the lock
  // ---------------------------------------------------------------------

  /** A vote is cast for the next height exactly when the parent field is the hashed
      one. Otherwise it is for a lower height, and the one remembered lock no longer
      excludes any checkpoint of the next height. */
  lemma ParentFieldGuardsLock(b: Book, env: Env, p: Proposal, beacon: nat, locks: Locks, other: MHash)
    requires BookInv(b, env.set_) && Acceptable(b, env, p, beacon)
    requires TryLock(b.locks, b.selfId, p.cp.height, p.cp.hash) == Some(locks)
    ensures LinkIntact(p.cp) <==> p.cp.height == b.nextHeight
    ensures LinkIntact(p.cp) ==>
              (TryLock(CastVote(b, p.cp, locks).locks, b.selfId, b.nextHeight, other).Some? <==> other == p.cp.hash)
    ensures !LinkIntact(p.cp) ==>
              p.cp.height < b.nextHeight && TryLock(CastVote(b, p.cp, locks).locks, b.selfId, b.nextHeight, other).Some?
  {
    hide EmittedOk, TimersOk, ChainOk, LocksOk, StoreOk, VotedOk;
    AcceptableIsNext(b, env, p, beacon);
  }

  // A checkpoint of height 0 and two candidates on top of it.
  const FIRST: Checkpoint := Build(0, 0, Zero, OfRing([1]))
  const SIGNED: Checkpoint := Build(1, 0, FIRST.hash, OfRing([2]))
  const REBUILT: Checkpoint := Build(1, 0, FIRST.hash, OfRing([3]))

  // The certified checkpoint again, with the parent field set to its own hash.
  function Stale(): Checkpoint { FIRST.(parent := FIRST.hash) }

  function StaleProposal(q: Id): Proposal {
    Proposal(Stale(), q, 0, Signed(q, MACRO_PROPOSER_SIG, ProposerMsg(q, FIRST.hash)))
  }

  function AnyEnv(set_: ValidatorSet, primary: Id): Env {
    Env(set_, 1, 0, (_, _) => primary, (_, _) => primary, (_, _, _, _) => true, (_, _) => 0, (_, _) => 0, false,
        false, 4, 0)
  }

  lemma HeightForOne(h: nat, id: nat)
    ensures HeightFor(map[h := id], id) == Some(h)
  {
    var m: map<nat, nat> := map[h := id];
    var hs: set<nat> := set x | x in m && m[x] == id;
    assert hs == {h};
    assert Minimum(hs) in hs;
  }

  // ---------------------------------------------------------------------
  // The epoch field is not compared at all
  // ---------------------------------------------------------------------

  /** Voting replaces the candidate by the checkpoint as it came, and signs that. The
      message is the candidate's exactly when the epoch fields are equal. */
  lemma EpochDecidesMessage(b: Book, env: Env, p: Proposal)
    requires BookInv(b, env.set_) && LinkIntact(p.cp) && Votable(b, env, p)
    ensures b.nextHeight in b.candidate && p.cp.hash == b.candidate[b.nextHeight].hash
    ensures p.cp == b.candidate[b.nextHeight] <==> p.cp.epoch == b.candidate[b.nextHeight].epoch
    ensures Sent(OnMacroProposal(b, env, p).actions) == {PartialSig(b.selfId, p.cp)}
  {
    var beacon := BeaconFor(NoteBeacon(b, env, p.cp.height), env, p.cp.height);
    ProposalIsVotedFor(b, env, p);
    VotableMeans(b, env, p);
    hide EmittedOk, TimersOk, ChainOk, LocksOk, StoreOk, VotedOk;
    AcceptableIsNext(b, env, p, beacon);
    CandidateLinked(b.candidate, b.nextHeight, b.lastHash);
  }
}
