/** What every macro-finality handler keeps. */
module MacroInvariant {
  import opened Validators
  import opened Signatures
  import opened MacroQcs
  import opened MacroFin

  // ---------------------------------------------------------------------
  // The invariant
  // ---------------------------------------------------------------------

  // The hash that the checkpoint of a height must name as its parent.
  ghost function LinkAt(cands: map<nat, Checkpoint>, h: nat): MHash {
    if h == 0 || h - 1 !in cands then Zero else cands[h - 1].hash
  }

  ghost predicate Linked(cands: map<nat, Checkpoint>, cp: Checkpoint, h: nat) {
    Sound(cp) && cp.height == h && (h == 0 || h - 1 in cands) && cp.parent == LinkAt(cands, h)
  }

  // There is a candidate for every height below the next one and at most one
  // more; each names the one below it.
  ghost predicate CandidatesOk(cands: map<nat, Checkpoint>, next: nat, last: MHash) {
    && (forall h :: 0 <= h < next ==> h in cands)
    && (forall h :: h in cands ==> h <= next && Linked(cands, cands[h], h))
    && last == LinkAt(cands, next)
  }

  // Exactly the candidates below the next height have been certified.
  ghost predicate EmittedOk(cands: map<nat, Checkpoint>, next: nat, emitted: set<MHash>) {
    && (forall h :: h in cands && h < next ==> cands[h].hash in emitted)
    && (forall x :: x in emitted ==> x.OfCheckpoint? && x.height < next)
  }

  // Timers only wait for the next height.
  ghost predicate TimersOk(t: Timers, next: nat) {
    (forall h :: h in t.backup ==> h == next) && (forall h :: h in t.modeB ==> h == next)
  }

  // The tracker holds a checkpoint with the right parent for every height,
  // though not always the persisted one; its head is the latest height.
  ghost predicate AdoptedOk(cands: map<nat, Checkpoint>, next: nat, adopted: map<nat, Checkpoint>) {
    && (forall h :: 0 <= h < next ==> h in adopted)
    && (forall h :: h in adopted ==> h <= next && Linked(cands, adopted[h], h))
  }

  ghost predicate HeadOk(next: nat, tc: TwoChain) {
    && (next in tc.adopted ==> tc.justified == Some(tc.adopted[next].hash))
    && (next !in tc.adopted && next > 0 && next - 1 in tc.adopted ==> tc.justified == Some(tc.adopted[next - 1].hash))
    && (tc.finalized.Some? ==> tc.finalized.value.OfCheckpoint? && tc.finalized.value.height + 2 <= next)
  }

  ghost predicate ChainOk(cands: map<nat, Checkpoint>, next: nat, tc: TwoChain) {
    AdoptedOk(cands, next, tc.adopted) && HeadOk(next, tc)
  }

  ghost predicate VoteOk(lock: Option<(nat, MHash)>, next: nat, v: Vote) {
    && v.target <= next && v.source == (if v.target == 0 then 0 else v.target - 1)
    && (v.target == next ==> lock == Some((next, v.hash)))
  }

  // A vote for the next height is the one the lock holds, and no two votes
  // for one height differ.
  ghost predicate LocksOk(lock: Option<(nat, MHash)>, next: nat, votes: seq<Vote>) {
    && (lock.Some? ==> lock.value.0 <= next)
    && (forall i :: 0 <= i < |votes| ==> VoteOk(lock, next, votes[i]))
    && (forall i, j :: 0 <= i < j < |votes| ==> votes[i].target == votes[j].target ==> votes[i].hash == votes[j].hash)
  }

  ghost function LockOf(locks: Locks, v: Id): Option<(nat, MHash)> {
    if v in locks then Some(locks[v]) else None
  }

  // What the tracker holds for the next height is what the lock holds.
  ghost predicate VotedOk(lock: Option<(nat, MHash)>, next: nat, tc: TwoChain) {
    next in tc.adopted ==> lock == Some((next, tc.adopted[next].hash))
  }

  // A validator counted for a hash has its verified signature stored.
  ghost predicate StoreOk(set_: ValidatorSet, sigs: SigBook, partials: map<MHash, set<Id>>) {
    && SigsOk(set_, sigs)
    && forall x, v :: x in partials && v in partials[x] ==> (x, v) in sigs
  }

  ghost predicate BookInv(b: Book, set_: ValidatorSet) {
    && b.selfId in set_
    && CandidatesOk(b.candidate, b.nextHeight, b.lastHash)
    && EmittedOk(b.candidate, b.nextHeight, b.emitted)
    && TimersOk(b.timers, b.nextHeight)
    && ChainOk(b.candidate, b.nextHeight, b.chain)
    && LocksOk(LockOf(b.locks, b.selfId), b.nextHeight, VotesOf(b.votes, b.selfId))
    && VotedOk(LockOf(b.locks, b.selfId), b.nextHeight, b.chain)
    && StoreOk(set_, b.sigs, b.partials)
  }

  lemma FreshInv(id: Id, set_: ValidatorSet)
    requires id in set_
    ensures BookInv(Fresh(id), set_)
  {
  }

  // ---------------------------------------------------------------------
  // A new candidate
  // ---------------------------------------------------------------------

  // Replacing the candidate of the next height changes no link.
  lemma SameLinks(cands: map<nat, Checkpoint>, next: nat, c: Checkpoint, cp: Checkpoint, h: nat)
    requires h <= next && Linked(cands, c, h)
    ensures Linked(cands[next := cp], c, h)
  {
  }

  lemma ReplaceInCandidates(cands: map<nat, Checkpoint>, next: nat, last: MHash, cp: Checkpoint)
    requires CandidatesOk(cands, next, last) && Sound(cp) && cp.height == next && cp.parent == last
    ensures CandidatesOk(cands[next := cp], next, last)
  {
    hide Sound, Linked;
    var m := cands[next := cp];
    NewLink(cands, next, last, cp);
    forall h | h in m ensures h <= next && Linked(m, m[h], h) {
      if h != next { SameLinks(cands, next, cands[h], cp, h); }
    }
  }

  lemma NewLink(cands: map<nat, Checkpoint>, next: nat, last: MHash, cp: Checkpoint)
    requires (forall h :: 0 <= h < next ==> h in cands) && last == LinkAt(cands, next)
    requires Sound(cp) && cp.height == next && cp.parent == last
    ensures Linked(cands[next := cp], cp, next)
  {
  }

  lemma ReplaceInChain(cands: map<nat, Checkpoint>, next: nat, tc: TwoChain, cp: Checkpoint)
    requires ChainOk(cands, next, tc)
    ensures ChainOk(cands[next := cp], next, tc)
  {
    hide Linked;
    forall h | h in tc.adopted ensures h <= next && Linked(cands[next := cp], tc.adopted[h], h) {
      SameLinks(cands, next, tc.adopted[h], cp, h);
    }
  }

  lemma ReplaceInEmitted(cands: map<nat, Checkpoint>, next: nat, emitted: set<MHash>, cp: Checkpoint)
    requires EmittedOk(cands, next, emitted)
    ensures EmittedOk(cands[next := cp], next, emitted)
  {
  }

  lemma ReplaceCandidate(cands: map<nat, Checkpoint>, next: nat, last: MHash, emitted: set<MHash>, tc: TwoChain,
                         cp: Checkpoint)
    requires CandidatesOk(cands, next, last) && EmittedOk(cands, next, emitted) && ChainOk(cands, next, tc)
    requires Sound(cp) && cp.height == next && cp.parent == last
    ensures var m := cands[next := cp];
            CandidatesOk(m, next, last) && EmittedOk(m, next, emitted) && ChainOk(m, next, tc)
  {
    hide CandidatesOk, EmittedOk, ChainOk;
    ReplaceInCandidates(cands, next, last, cp);
    ReplaceInChain(cands, next, tc, cp);
    ReplaceInEmitted(cands, next, emitted, cp);
  }

  lemma NewCandidateInv(b: Book, env: Env, ring: seq<nat>)
    requires BookInv(b, env.set_)
    ensures BookInv(NewCandidate(b, env, ring), env.set_)
  {
    hide CandidatesOk, EmittedOk, TimersOk, ChainOk, LocksOk, StoreOk, VotedOk, LockOf, MacroFin.VotesOf;
    ReplaceCandidate(b.candidate, b.nextHeight, b.lastHash, b.emitted, b.chain,
                     Build(b.nextHeight, 0, b.lastHash, OfRing(ring)));
  }

  lemma WaitForNext(t: Timers, next: nat, id: nat, fresh_: nat)
    requires TimersOk(t, next)
    ensures TimersOk(t.(backup := t.backup[next := id], next := fresh_), next)
    ensures TimersOk(t.(modeB := t.modeB[next := id], next := fresh_), next)
  {
  }

  lemma AnnounceInv(b: Book, env: Env, turn: Turn)
    requires BookInv(b, env.set_) && b.nextHeight in b.candidate
    ensures BookInv(Announce(b, env, turn).book, env.set_)
  {
    hide CandidatesOk, EmittedOk, TimersOk, ChainOk, LocksOk, StoreOk, VotedOk, LockOf, MacroFin.VotesOf;
    WaitForNext(b.timers, b.nextHeight, b.timers.next, b.timers.next + 1);
  }

  lemma ArmModeBInv(b: Book, env: Env)
    requires BookInv(b, env.set_)
    ensures BookInv(ArmModeB(b, env).book, env.set_)
  {
    hide CandidatesOk, EmittedOk, TimersOk, ChainOk, LocksOk, StoreOk, VotedOk, LockOf, MacroFin.VotesOf;
    WaitForNext(b.timers, b.nextHeight, b.timers.next, b.timers.next + 1);
  }

  lemma PushMicroInv(b: Book, env: Env, h: nat)
    requires BookInv(b, env.set_)
    ensures BookInv(PushMicro(b, env, h).book, env.set_)
  {
    hide CandidatesOk, EmittedOk, TimersOk, ChainOk, LocksOk, StoreOk, VotedOk, LockOf, MacroFin.VotesOf;
    var ring := b.ring + [h];
    if |ring| >= env.window {
      NewCandidateInv(b, env, ring);
      var turn := TurnOf(env, b.selfId, b.nextHeight);
      AnnounceInv(NewCandidate(b, env, ring), env, turn);
      ArmModeBInv(Announce(NewCandidate(b, env, ring), env, turn).book, env);
    }
  }

  lemma {:induction false} MicroQcsInv(b: Book, env: Env, hashes: seq<nat>)
    requires BookInv(b, env.set_)
    ensures BookInv(OnLocalMicroQcs(b, env, hashes).book, env.set_)
  {
    hide BookInv, MacroFin.PushMicro;
    if hashes != [] {
      var m := |hashes| - 1;
      MicroQcsInv(b, env, hashes[..m]);
      PushMicroInv(OnLocalMicroQcs(b, env, hashes[..m]).book, env, hashes[m]);
    }
  }

  // ---------------------------------------------------------------------
  // Voting
  // ---------------------------------------------------------------------

  lemma StoreSig(set_: ValidatorSet, sigs: SigBook, partials: map<MHash, set<Id>>, v: Id, cp: Checkpoint)
    requires StoreOk(set_, sigs, partials) && v in set_ && Sound(cp)
    ensures StoreOk(set_, sigs[(cp.hash, v) := PartialSig(v, cp)], partials)
  {
  }

  lemma StorePartial(set_: ValidatorSet, sigs: SigBook, partials: map<MHash, set<Id>>, x: MHash, v: Id)
    requires StoreOk(set_, sigs, partials) && (x, v) in sigs
    ensures StoreOk(set_, sigs, partials[x := PartialsOf(partials, x) + {v}])
  {
  }

  // A locked vote for the next height is the only one there.
  lemma VoteLocks(lock: Option<(nat, MHash)>, next: nat, votes: seq<Vote>, v: Vote)
    requires LocksOk(lock, next, votes) && v.target == next && v.source == (if next == 0 then 0 else next - 1)
    requires lock.Some? && lock.value.0 == next ==> lock.value.1 == v.hash
    ensures LocksOk(Some((next, v.hash)), next, votes + [v])
  {
  }

  lemma LockLocks(lock: Option<(nat, MHash)>, next: nat, votes: seq<Vote>, hash: MHash)
    requires LocksOk(lock, next, votes)
    requires lock.Some? && lock.value.0 == next ==> lock.value.1 == hash
    ensures LocksOk(Some((next, hash)), next, votes)
  {
  }

  lemma AdoptVoted(cands: map<nat, Checkpoint>, next: nat, tc: TwoChain, cp: Checkpoint)
    requires ChainOk(cands, next, tc) && Linked(cands, cp, next)
    requires next in tc.adopted ==> tc.adopted[next].hash == cp.hash
    ensures ChainOk(cands, next, Adopt(tc, cp))
  {
  }

  // The parent field is the one under the hash.
  predicate LinkIntact(cp: Checkpoint) {
    cp.hash.OfCheckpoint? ==> cp.parent == cp.hash.parent
  }

  /** A proposal that passes the checks is for the next height exactly when its parent
      field is the hashed one: different heights have different parents, but only the
      field, not the hash, is compared with the last adopted checkpoint. */
  lemma AcceptableIsNext(b: Book, env: Env, p: Proposal, beacon: nat)
    requires CandidatesOk(b.candidate, b.nextHeight, b.lastHash) && Acceptable(b, env, p, beacon)
    ensures p.cp.height == b.nextHeight <==> LinkIntact(p.cp)
    ensures p.cp.height <= b.nextHeight && p.cp.hash.OfCheckpoint? && p.cp.hash.height == p.cp.height
    ensures LinkIntact(p.cp) ==> Sound(p.cp) && p.cp.parent == b.lastHash
  {
    var h := p.cp.height;
    assert Linked(b.candidate, b.candidate[h], h);
    if h < b.nextHeight {
      BelowNext(b.candidate, b.nextHeight, b.lastHash, h);
    }
  }

  // The parent of a lower height is not the last adopted checkpoint.
  lemma BelowNext(cands: map<nat, Checkpoint>, next: nat, last: MHash, h: nat)
    requires CandidatesOk(cands, next, last) && h < next
    ensures LinkAt(cands, h) != last
  {
    assert Linked(cands, cands[next - 1], next - 1);
    if h > 0 {
      assert Linked(cands, cands[h - 1], h - 1);
    }
  }

  lemma TryLockMeans(locks: Locks, v: Id, height: nat, hash: MHash)
    ensures TryLock(locks, v, height, hash).Some?
            <==> (LockOf(locks, v).Some? && LockOf(locks, v).value.0 == height ==> LockOf(locks, v).value.1 == hash)
    ensures TryLock(locks, v, height, hash).Some?
            ==> LockOf(TryLock(locks, v, height, hash).value, v) == Some((height, hash))
  {
  }

  lemma RecordVote(votes: map<Id, seq<Vote>>, v: Id, x: Vote)
    ensures VotesOf(votes[v := VotesOf(votes, v) + [x]], v) == VotesOf(votes, v) + [x]
  {
  }

  lemma VoteIs(b: Book, cp: Checkpoint)
    ensures var v := MakeVote(b, cp);
            v.target == cp.height && v.hash == cp.hash && v.source == (if cp.height == 0 then 0 else cp.height - 1)
  {
  }

  // The same hash, whatever the epoch field says.
  ghost predicate SameHash(b: Book, cp: Checkpoint) {
    b.nextHeight in b.candidate && cp.height == b.nextHeight && Sound(cp) && b.candidate[b.nextHeight].hash == cp.hash
  }

  lemma SameHashLinked(b: Book, cp: Checkpoint)
    requires CandidatesOk(b.candidate, b.nextHeight, b.lastHash) && SameHash(b, cp)
    ensures Linked(b.candidate, cp, b.nextHeight) && cp.parent == b.lastHash
  {
    CandidateLinked(b.candidate, b.nextHeight, b.lastHash);
  }

  // The lock, the history and the tracker after voting.
  lemma VoteRecorded(b: Book, set_: ValidatorSet, cp: Checkpoint, locks: Locks)
    requires BookInv(b, set_) && SameHash(b, cp)
    requires TryLock(b.locks, b.selfId, cp.height, cp.hash) == Some(locks)
    ensures var votes := b.votes[b.selfId := VotesOf(b.votes, b.selfId) + [MakeVote(b, cp)]];
            LocksOk(LockOf(locks, b.selfId), b.nextHeight, VotesOf(votes, b.selfId))
    ensures VotedOk(LockOf(locks, b.selfId), b.nextHeight, Adopt(b.chain, cp))
    ensures ChainOk(b.candidate, b.nextHeight, Adopt(b.chain, cp))
  {
    hide CandidatesOk, EmittedOk, TimersOk, ChainOk, LocksOk, StoreOk, VotedOk, LockOf, Linked, Sound;
    hide MacroFin.VotesOf, MacroFin.Adopt, MacroFin.TryLock, MacroFin.MakeVote;
    SameHashLinked(b, cp);
    var v, votes := MakeVote(b, cp), VotesOf(b.votes, b.selfId);
    TryLockMeans(b.locks, b.selfId, cp.height, cp.hash);
    VoteIs(b, cp);
    RecordVote(b.votes, b.selfId, v);
    VoteLocks(LockOf(b.locks, b.selfId), b.nextHeight, votes, v);
    VotedAgrees(LockOf(b.locks, b.selfId), b.nextHeight, b.chain, cp);
    AdoptVoted(b.candidate, b.nextHeight, b.chain, cp);
  }

  lemma CastVoteInv(b: Book, set_: ValidatorSet, cp: Checkpoint, locks: Locks)
    requires BookInv(b, set_) && SameHash(b, cp)
    requires TryLock(b.locks, b.selfId, cp.height, cp.hash) == Some(locks)
    ensures BookInv(CastVote(b, cp, locks), set_)
  {
    hide CandidatesOk, EmittedOk, TimersOk, ChainOk, LocksOk, StoreOk, VotedOk, LockOf, Linked, Sound;
    hide MacroFin.VotesOf, MacroFin.Adopt, MacroFin.TryLock, MacroFin.MakeVote;
    hide MacroFin.PartialsOf, MacroQcs.PartialSig;
    SameHashLinked(b, cp);
    VoteRecorded(b, set_, cp, locks);
    ReplaceCandidate(b.candidate, b.nextHeight, b.lastHash, b.emitted, Adopt(b.chain, cp), cp);
    StoreSig(set_, b.sigs, b.partials, b.selfId, cp);
    StorePartial(set_, b.sigs[(cp.hash, b.selfId) := PartialSig(b.selfId, cp)], b.partials, cp.hash, b.selfId);
    DropBackup(b.timers, b.nextHeight, b.nextHeight);
  }

  lemma CandidateLinked(cands: map<nat, Checkpoint>, next: nat, last: MHash)
    requires CandidatesOk(cands, next, last) && next in cands
    ensures Linked(cands, cands[next], next) && Sound(cands[next])
  {
  }

  lemma VotedAgrees(lock: Option<(nat, MHash)>, next: nat, tc: TwoChain, cp: Checkpoint)
    requires VotedOk(lock, next, tc) && cp.height == next
    requires lock.Some? && lock.value.0 == next ==> lock.value.1 == cp.hash
    ensures next in tc.adopted ==> tc.adopted[next].hash == cp.hash
    ensures VotedOk(Some((next, cp.hash)), next, Adopt(tc, cp))
  {
  }

  lemma DropBackup(t: Timers, next: nat, h: nat)
    requires TimersOk(t, next)
    ensures TimersOk(t.(backup := t.backup - {h}), next) && TimersOk(t.(modeB := t.modeB - {h}), next)
  {
  }

  // ---------------------------------------------------------------------
  // No evidence against oneself
  // ---------------------------------------------------------------------

  // One of two votes goes from before the other's source to after its target.
  predicate Crosses(x: Vote, y: Vote) {
    (x.source < y.source <= y.target < x.target) || (y.source < x.source <= x.target < y.target)
  }

  /** The scan finds the first earlier vote that crosses the latest, and nothing exactly if
      there is none; the outer vote comes first in the evidence. */
  lemma {:induction false} SurroundExact(past: seq<Vote>, latest: Vote)
    ensures var r := SurroundIn(past, latest);
            && (r == None <==> forall i :: 0 <= i < |past| ==> !Crosses(past[i], latest))
            && (r.Some? ==> r.value.Surround?)
            && forall i :: 0 <= i < |past| && Crosses(past[i], latest)
                           && (forall j :: 0 <= j < i ==> !Crosses(past[j], latest))
                   ==> r == Some(if past[i].source < latest.source then Surround(past[i], latest)
                                 else Surround(latest, past[i]))
  {
    if past != [] && !Crosses(past[0], latest) {
      SurroundExact(past[1..], latest);
      forall i | 0 < i < |past| ensures past[i] == past[1..][i - 1] {}
      assert forall i :: 0 <= i < |past| - 1 ==> past[1..][i] == past[i + 1];
    }
  }

  // For one height and not for one hash.
  predicate Differs(x: Vote, y: Vote) {
    x.target == y.target && x.hash != y.hash
  }

  lemma {:induction false} DoubleExact(past: seq<Vote>, latest: Vote)
    ensures var r := DoubleIn(past, latest);
            && (r == None <==> forall i :: 0 <= i < |past| ==> !Differs(past[i], latest))
            && (r.Some? ==> r.value.DoubleVote?)
            && forall i :: 0 <= i < |past| && Differs(past[i], latest)
                           && (forall j :: 0 <= j < i ==> !Differs(past[j], latest))
                   ==> r == Some(DoubleVote(past[i], latest))
  {
    if past != [] && !Differs(past[0], latest) {
      DoubleExact(past[1..], latest);
      forall i | 0 < i < |past| ensures past[i] == past[1..][i - 1] {}
      assert forall i :: 0 <= i < |past| - 1 ==> past[1..][i] == past[i + 1];
    }
  }

  lemma {:induction false} NeverSurrounds(lock: Option<(nat, MHash)>, next: nat, past: seq<Vote>, latest: Vote)
    requires VoteOk(lock, next, latest) && forall i :: 0 <= i < |past| ==> VoteOk(lock, next, past[i])
    ensures SurroundIn(past, latest) == None
  {
    if past != [] { NeverSurrounds(lock, next, past[1..], latest); }
  }

  lemma {:induction false} NeverDoubles(past: seq<Vote>, latest: Vote)
    requires forall i :: 0 <= i < |past| && past[i].target == latest.target ==> past[i].hash == latest.hash
    ensures DoubleIn(past, latest) == None
  {
    if past != [] { NeverDoubles(past[1..], latest); }
  }

  /** A node never finds surround or double-vote evidence in its own votes. */
  lemma NeverSelfSlashes(lock: Option<(nat, MHash)>, next: nat, votes: map<Id, seq<Vote>>, v: Id)
    requires LocksOk(lock, next, VotesOf(votes, v))
    ensures SelfCheck(votes, v) == []
  {
    var all := VotesOf(votes, v);
    if |all| >= 2 {
      var m := |all| - 1;
      NeverSurrounds(lock, next, all[..m], all[m]);
      NeverDoubles(all[..m], all[m]);
    }
  }

  // ---------------------------------------------------------------------
  // Adoption
  // ---------------------------------------------------------------------

  /** A candidate that is not certified yet is the one for the next height. */
  lemma AdoptsNext(b: Book, set_: ValidatorSet, hash: MHash)
    requires BookInv(b, set_) && CandidateHeight(b, hash).Some? && hash !in b.emitted
    ensures CandidateHeight(b, hash).value == b.nextHeight && b.nextHeight in b.candidate
    ensures b.candidate[b.nextHeight].hash == hash && Sound(b.candidate[b.nextHeight])
  {
    hide TimersOk, ChainOk, LocksOk, StoreOk, VotedOk;
    var h := CandidateHeight(b, hash).value;
    assert Linked(b.candidate, b.candidate[h], h);
  }

  lemma NextCandidates(cands: map<nat, Checkpoint>, next: nat, last: MHash)
    requires CandidatesOk(cands, next, last) && next in cands
    ensures CandidatesOk(cands, next + 1, cands[next].hash)
  {
    hide Linked;
  }

  lemma NextEmitted(cands: map<nat, Checkpoint>, next: nat, last: MHash, emitted: set<MHash>)
    requires CandidatesOk(cands, next, last) && EmittedOk(cands, next, emitted) && next in cands
    ensures EmittedOk(cands, next + 1, emitted + {cands[next].hash})
  {
    assert Linked(cands, cands[next], next);
  }

  lemma NextTimers(t: Timers, next: nat)
    requires TimersOk(t, next)
    ensures TimersOk(t.(backup := t.backup - {next}, modeB := t.modeB - {next}), next + 1)
  {
  }

  lemma AdoptIs(tc: TwoChain, cp: Checkpoint)
    ensures var t := Adopt(tc, cp);
            && t.finalized == tc.finalized
            && t.adopted == (if cp.height in tc.adopted then tc.adopted else tc.adopted[cp.height := cp])
            && t.justified == (if t.adopted[cp.height].hash == cp.hash then Some(cp.hash) else tc.justified)
  {
  }

  lemma NextAdopted(cands: map<nat, Checkpoint>, next: nat, adopted: map<nat, Checkpoint>, cp: Checkpoint)
    requires AdoptedOk(cands, next, adopted) && Linked(cands, cp, next)
    ensures AdoptedOk(cands, next + 1, if next in adopted then adopted else adopted[next := cp])
    ensures next + 1 !in adopted && (next > 0 ==> next - 1 in adopted)
  {
    hide Linked;
  }

  lemma NextHead(next: nat, tc: TwoChain, cp: Checkpoint)
    requires HeadOk(next, tc) && cp.height == next && next + 1 !in tc.adopted
    ensures HeadOk(next + 1, Adopt(tc, cp))
  {
    AdoptIs(tc, cp);
  }

  lemma NextChain(cands: map<nat, Checkpoint>, next: nat, last: MHash, tc: TwoChain)
    requires CandidatesOk(cands, next, last) && ChainOk(cands, next, tc) && next in cands
    ensures ChainOk(cands, next + 1, Adopt(tc, cands[next])) && next + 1 !in Adopt(tc, cands[next]).adopted
    ensures next > 0 ==> next - 1 in tc.adopted && Adopt(tc, cands[next]).adopted[next - 1] == tc.adopted[next - 1]
    ensures Adopt(tc, cands[next]).finalized == tc.finalized
  {
    var cp := cands[next];
    CandidateLinked(cands, next, last);
    HeightIs(cands, next, last);
    AdoptIs(tc, cp);
    hide Linked, CandidatesOk, MacroFin.Adopt, Sound, AdoptedOk, HeadOk;
    NextAdopted(cands, next, tc.adopted, cp);
    NextHead(next, tc, cp);
  }

  lemma HeightIs(cands: map<nat, Checkpoint>, next: nat, last: MHash)
    requires CandidatesOk(cands, next, last) && next in cands
    ensures cands[next].height == next
  {
    CandidateLinked(cands, next, last);
  }

  lemma NextLocks(lock: Option<(nat, MHash)>, next: nat, votes: seq<Vote>)
    requires LocksOk(lock, next, votes)
    ensures LocksOk(lock, next + 1, votes)
  {
  }

  lemma AdvanceInv(b: Book, set_: ValidatorSet)
    requires BookInv(b, set_) && b.nextHeight in b.candidate
    ensures var cp := b.candidate[b.nextHeight]; BookInv(Advance(b, cp, cp.hash, b.nextHeight), set_)
  {
    hide CandidatesOk, EmittedOk, TimersOk, ChainOk, LocksOk, StoreOk, VotedOk, LockOf;
    hide MacroFin.VotesOf, MacroFin.Adopt;
    NextCandidates(b.candidate, b.nextHeight, b.lastHash);
    NextEmitted(b.candidate, b.nextHeight, b.lastHash, b.emitted);
    NextTimers(b.timers, b.nextHeight);
    NextChain(b.candidate, b.nextHeight, b.lastHash, b.chain);
    NextLocks(LockOf(b.locks, b.selfId), b.nextHeight, VotesOf(b.votes, b.selfId));
    NothingVoted(LockOf(b.locks, b.selfId), b.nextHeight + 1, Adopt(b.chain, b.candidate[b.nextHeight]));
  }

  lemma NothingVoted(lock: Option<(nat, MHash)>, next: nat, tc: TwoChain)
    requires next !in tc.adopted
    ensures VotedOk(lock, next, tc)
  {
  }

  // ---------------------------------------------------------------------
  // Finality
  // ---------------------------------------------------------------------

  lemma HeadHeight(cands: map<nat, Checkpoint>, next: nat, tc: TwoChain)
    requires ChainOk(cands, next, tc) && next !in tc.adopted && next > 0
    ensures JustifiedHeight(tc) == Some(next - 1)
  {
    var hs := HeightsOf(tc.adopted, tc.justified.value);
    assert next - 1 in hs;
    forall h | h in hs ensures h == next - 1 {
      assert Linked(cands, tc.adopted[h], h);
      assert Linked(cands, tc.adopted[next - 1], next - 1);
    }
    assert hs == {next - 1};
  }

  /** The rule finalizes the height below the newly adopted one exactly when the
      tracker holds the persisted checkpoint of that height. */
  lemma FinalityExact(cands: map<nat, Checkpoint>, next: nat, tc: TwoChain)
    requires ChainOk(cands, next, tc) && next !in tc.adopted && next > 0
    requires tc.finalized.Some? ==> tc.finalized.value.height + 3 <= next
    ensures NewlyFinalized(tc) == if next >= 2 && next - 2 in cands && tc.adopted[next - 2].hash == cands[next - 2].hash
                                  then Some(next - 2) else None
  {
    HeadHeight(cands, next, tc);
    assert Linked(cands, tc.adopted[next - 1], next - 1);
    if next >= 2 { assert Linked(cands, tc.adopted[next - 2], next - 2); }
  }

  // ---------------------------------------------------------------------
  // What a step persists and reports
  // ---------------------------------------------------------------------

  ghost function PersistedBy(a: Action): seq<Checkpoint> { if a.Persist? then [a.cp] else [] }

  ghost function ReportedBy(a: Action): seq<MHash> {
    if a.SetStatus? && a.status == Finalized then [a.hash] else []
  }

  // The checkpoints a list of actions persists, in order.
  ghost function Persisted(actions: seq<Action>): seq<Checkpoint> {
    if actions == [] then [] else PersistedBy(actions[0]) + Persisted(actions[1..])
  }

  // The hashes it reports as finalized.
  ghost function Reported(actions: seq<Action>): seq<MHash> {
    if actions == [] then [] else ReportedBy(actions[0]) + Reported(actions[1..])
  }

  lemma {:induction false} PersistedAppend(a: seq<Action>, b: seq<Action>)
    ensures Persisted(a + b) == Persisted(a) + Persisted(b)
  {
    hide PersistedBy;
    if a == [] {
      assert a + b == b;
    } else {
      PersistedAppend(a[1..], b);
      assert (a + b)[1..] == a[1..] + b && (a + b)[0] == a[0];
      var x, y, z := PersistedBy(a[0]), Persisted(a[1..]), Persisted(b);
      assert (x + y) + z == x + (y + z);
    }
  }

  lemma {:induction false} ReportedAppend(a: seq<Action>, b: seq<Action>)
    ensures Reported(a + b) == Reported(a) + Reported(b)
  {
    hide ReportedBy;
    if a == [] {
      assert a + b == b;
    } else {
      ReportedAppend(a[1..], b);
      assert (a + b)[1..] == a[1..] + b && (a + b)[0] == a[0];
      var x, y, z := ReportedBy(a[0]), Reported(a[1..]), Reported(b);
      assert (x + y) + z == x + (y + z);
    }
  }

  lemma EffectsAppend(a: seq<Action>, b: seq<Action>)
    ensures Persisted(a + b) == Persisted(a) + Persisted(b)
    ensures Reported(a + b) == Reported(a) + Reported(b)
  {
    PersistedAppend(a, b);
    ReportedAppend(a, b);
  }

  ghost predicate Silent(actions: seq<Action>) {
    Persisted(actions) == [] && Reported(actions) == []
  }

  lemma SilentOne(a: Action)
    requires !a.Persist? && !(a.SetStatus? && a.status == Finalized)
    ensures Silent([a])
  {
    assert [a][1..] == [];
  }

  lemma SilentAppend(a: seq<Action>, b: seq<Action>)
    requires Silent(a) && Silent(b)
    ensures Silent(a + b)
  {
    EffectsAppend(a, b);
  }

  // Every height the node has moved past, in order.
  ghost function ChainOf(b: Book): seq<Checkpoint>
    requires forall h :: 0 <= h < b.nextHeight ==> h in b.candidate
  {
    seq(b.nextHeight, h requires 0 <= h < b.nextHeight => b.candidate[h])
  }

  // The step adopts nothing.
  ghost predicate Stays(b: Book, s: MStep) {
    && s.book.selfId == b.selfId && s.book.nextHeight == b.nextHeight && Silent(s.actions)
    && forall h :: 0 <= h < b.nextHeight
        ==> h in b.candidate && h in s.book.candidate && s.book.candidate[h] == b.candidate[h]
  }

  // The tracker and the node agree on the checkpoint of a height.
  ghost predicate Tracked(b: Book, h: nat) {
    h in b.candidate && h in b.chain.adopted && b.chain.adopted[h].hash == b.candidate[h].hash
  }

  // The step adopts the candidate of the next height: it is persisted, and the
  // height below is reported final exactly when the tracker holds it.
  ghost predicate Adopts(b: Book, s: MStep) {
    var h := b.nextHeight;
    && s.book.selfId == b.selfId && s.book.nextHeight == h + 1 && s.book.candidate == b.candidate
    && h in b.candidate && Persisted(s.actions) == [b.candidate[h]]
    && Reported(s.actions) == if h > 0 && Tracked(b, h - 1) then [b.candidate[h - 1].hash] else []
  }

  lemma HeadActions(head: seq<Action>, cp: Checkpoint, qc: MacroQc)
    requires Silent(head)
    ensures var a := head + [Persist(cp), PersistQc(qc), SetStatus(cp.hash, Justified)];
            Persisted(a) == [cp] && Reported(a) == []
  {
    var x, y, z := Persist(cp), PersistQc(qc), SetStatus(cp.hash, Justified);
    EffectsAppend(head, [x, y, z]);
    SilentOne(z);
    assert [y, z][1..] == [z];
    assert [x, y, z][1..] == [y, z];
  }

  lemma LeakSilent(windows: nat, notified: bool, trigger: nat, finalized: bool)
    ensures Silent(NoteLeak(windows, notified, trigger, finalized).actions)
  {
    var a := NoteLeak(windows, notified, trigger, finalized).actions;
    if a != [] { SilentOne(a[0]); }
  }

  lemma FinalReportIs(candidate: map<nat, Checkpoint>, newly: Option<nat>)
    ensures var a := FinalReport(candidate, newly);
            && Persisted(a) == []
            && Reported(a) == if newly.Some? && newly.value in candidate then [candidate[newly.value].hash] else []
  {
    var a := FinalReport(candidate, newly);
    if a != [] { assert a[1..] == []; }
  }

  lemma FinishEffects(b: Book, env: Env)
    ensures var newly := NewlyFinalized(b.chain);
            var a := Finish(b, env).actions;
            && Persisted(a) == []
            && Reported(a) == if newly.Some? && newly.value in b.candidate then [b.candidate[newly.value].hash] else []
  {
    hide MacroFin.NoteLeak, MacroFin.NewlyFinalized, MacroFin.FinalReport;
    var newly := NewlyFinalized(b.chain);
    var leak := NoteLeak(b.unfinalized, b.leakNotified, env.leakTrigger, newly.Some?);
    LeakSilent(b.unfinalized, b.leakNotified, env.leakTrigger, newly.Some?);
    FinalReportIs(b.candidate, newly);
    EffectsAppend(leak.actions, FinalReport(b.candidate, newly));
  }

  lemma MarkedChain(cands: map<nat, Checkpoint>, next: nat, tc: TwoChain, h: nat)
    requires ChainOk(cands, next, tc) && h + 2 <= next
    ensures ChainOk(cands, next, MarkFinalized(tc, h)) && MarkFinalized(tc, h).adopted == tc.adopted
  {
    assert Linked(cands, tc.adopted[h], h);
  }

  lemma FinishInv(b: Book, env: Env)
    requires BookInv(b, env.set_)
    requires NewlyFinalized(b.chain).Some? ==> NewlyFinalized(b.chain).value + 2 <= b.nextHeight
    requires b.nextHeight !in b.chain.adopted
    ensures BookInv(Finish(b, env).book, env.set_)
  {
    hide CandidatesOk, EmittedOk, TimersOk, ChainOk, LocksOk, StoreOk, VotedOk, LockOf, MacroFin.VotesOf;
    hide MacroFin.NewlyFinalized, MacroFin.NoteLeak, MacroFin.MarkFinalized;
    var newly := NewlyFinalized(b.chain);
    if newly.Some? {
      MarkedChain(b.candidate, b.nextHeight, b.chain, newly.value);
      NothingVoted(LockOf(b.locks, b.selfId), b.nextHeight, MarkFinalized(b.chain, newly.value));
    }
  }

  lemma AdvanceFinality(b: Book, set_: ValidatorSet)
    requires BookInv(b, set_) && b.nextHeight in b.candidate
    ensures var cp, h := b.candidate[b.nextHeight], b.nextHeight;
            var c := Advance(b, cp, cp.hash, h);
            && h + 1 !in c.chain.adopted
            && NewlyFinalized(c.chain) == if h > 0 && Tracked(b, h - 1) then Some(h - 1) else None
  {
    hide EmittedOk, TimersOk, LocksOk, StoreOk, VotedOk, LockOf, MacroFin.VotesOf;
    hide MacroFin.Adopt, MacroFin.NewlyFinalized, CandidatesOk, AdoptedOk;
    NextChain(b.candidate, b.nextHeight, b.lastHash, b.chain);
    FinalityExact(b.candidate, b.nextHeight + 1, Adopt(b.chain, b.candidate[b.nextHeight]));
  }

  lemma AdoptionInv(b: Book, env: Env, qc: MacroQc, head: seq<Action>)
    requires BookInv(b, env.set_) && b.nextHeight in b.candidate
    requires qc.hash == b.candidate[b.nextHeight].hash
    ensures BookInv(Adoption(b, env, b.candidate[b.nextHeight], qc, b.nextHeight, head).book, env.set_)
  {
    hide BookInv, Tracked, MacroFin.NewlyFinalized, MacroFin.Finish, MacroFin.Advance;
    var cp, h := b.candidate[b.nextHeight], b.nextHeight;
    AdvanceInv(b, env.set_);
    AdvanceFinality(b, env.set_);
    AdvanceNext(b, cp, cp.hash, h);
    FinishInv(Advance(b, cp, cp.hash, h), env);
  }

  lemma AdvanceNext(b: Book, cp: Checkpoint, hash: MHash, h: nat)
    ensures var c := Advance(b, cp, hash, h);
            c.selfId == b.selfId && c.nextHeight == h + 1 && c.candidate == b.candidate
  {
  }

  lemma FinishNext(b: Book, env: Env)
    ensures var c := Finish(b, env).book;
            c.selfId == b.selfId && c.nextHeight == b.nextHeight && c.candidate == b.candidate
  {
  }

  lemma AdoptionEffects(b: Book, env: Env, qc: MacroQc, head: seq<Action>)
    requires BookInv(b, env.set_) && b.nextHeight in b.candidate && Silent(head)
    requires qc.hash == b.candidate[b.nextHeight].hash
    ensures Adopts(b, Adoption(b, env, b.candidate[b.nextHeight], qc, b.nextHeight, head))
  {
    hide BookInv, Persisted, Reported, Tracked, Silent, MacroFin.NewlyFinalized, MacroFin.Finish, MacroFin.Advance;
    var cp, h := b.candidate[b.nextHeight], b.nextHeight;
    var c := Advance(b, cp, qc.hash, h);
    var first := head + [Persist(cp), PersistQc(qc), SetStatus(cp.hash, Justified)];
    AdvanceFinality(b, env.set_);
    AdvanceNext(b, cp, qc.hash, h);
    FinishNext(c, env);
    FinishEffects(c, env);
    HeadActions(head, cp, qc);
    EffectsAppend(first, Finish(c, env).actions);
    if h > 0 && Tracked(b, h - 1) { TrackedHere(b, h - 1); }
  }

  /** Adopting the candidate of the next height. */
  lemma AdoptionStep(b: Book, env: Env, qc: MacroQc, head: seq<Action>)
    requires BookInv(b, env.set_) && b.nextHeight in b.candidate && Silent(head)
    requires qc.hash == b.candidate[b.nextHeight].hash
    ensures var s := Adoption(b, env, b.candidate[b.nextHeight], qc, b.nextHeight, head);
            BookInv(s.book, env.set_) && Adopts(b, s)
  {
    hide BookInv, Adopts, MacroFin.Adoption, Silent;
    AdoptionInv(b, env, qc, head);
    AdoptionEffects(b, env, qc, head);
  }

  lemma TrackedHere(b: Book, h: nat)
    requires Tracked(b, h)
    ensures h in b.candidate
  {
  }
}
