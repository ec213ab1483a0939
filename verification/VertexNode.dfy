/** The book of one node as the mutable object the handlers update, each handler
    proved to compute the step that VertexCert defines. */
module VertexNode {
  import opened Validators
  import opened Signatures
  import opened Certificates
  import Spec = VertexCert
  import opened VertexInvariant

  type Proposal = Spec.Proposal
  type Partial = Spec.Partial
  type Action = Spec.Action
  type Key = Spec.Key
  type Env = Spec.Env

  class VertexBook {
    const selfId: Id
    var currentRound: nat
    var started: bool
    var certified: map<nat, map<Id, Hash>>
    var mine: map<Hash, Proposal>
    var collecting: map<Hash, map<Id, VSig>>
    var emitted: set<Hash>
    var seen: map<Key, seq<Proposal>>
    var voted: set<Key>
    var roundTimer: Option<nat>
    var retries: nat
    var nextTimer: nat
    var rejected: nat
    var conflicts: nat
    var stalled: nat

    ghost function State(): Spec.Book
      reads this
    {
      Spec.Book(selfId, currentRound, started, certified, mine, collecting, emitted, seen, voted,
                roundTimer, retries, nextTimer, rejected, conflicts, stalled)
    }

    // What the handlers rely on: the invariant they keep, and a quorum of more
    // than one validator, without which proposing does not terminate.
    ghost predicate Valid(env: Env)
      reads this
    {
      Core(State(), env.set_) && Distinct(env.set_) && |env.set_| >= 4
    }

    constructor (id: Id)
      ensures State() == Spec.FreshBook(id)
    {
      selfId := id;
      currentRound, started := 0, false;
      certified, mine, collecting, emitted := map[], map[], map[], {};
      seen, voted, roundTimer, retries, nextTimer := map[], {}, None, 0, 0;
      rejected, conflicts, stalled := 0, 0, 0;
    }

    method OnVertexProposal(env: Env, p: Proposal) returns (actions: seq<Action>)
      modifies this
      ensures Spec.Step(State(), actions, true) == Spec.OnVertexProposal(old(State()), env, p)
    {
      actions := [];
      if p.vertex.hash != ContentHash(p.vertex) || !Spec.VerifyProposal(env.set_, p) {
        rejected := rejected + 1;
        return;
      }
      var round, author := p.vertex.round, p.vertex.author;
      if author == selfId || !(round + 1 >= currentRound && round <= currentRound + 1) {
        return;
      }
      var key := Spec.Key(round, author);
      if key in seen {
        if exists i :: 0 <= i < |seen[key]| && seen[key][i].vertex.hash != p.vertex.hash {
          actions := [Spec.EmitEvidence(author, Spec.Equivocation(author, seen[key][0], p))];
          return;
        }
      } else {
        seen := seen[key := [p]];
      }
      if round > 0 {
        var prev := if round - 1 in certified then certified[round - 1] else map[];
        if |p.vertex.parents| < QuorumThreshold(|env.set_|) || exists h :: h in p.vertex.parents && h !in prev.Values {
          return;
        }
      } else if p.vertex.parents != [] {
        rejected := rejected + 1;
        return;
      }
      if key in voted {
        return;
      }
      voted := voted + {key};
      var sig := Signed(selfId, VERTEX_CERT, SigningBytes(p.vertex));
      actions := [Spec.BroadcastPartial(Spec.Partial(p.vertex.hash, round, author, selfId, sig))];
    }

    method OnVertexPartial(env: Env, bp: Partial) returns (actions: seq<Action>, ok: bool)
      requires Valid(env)
      modifies this
      ensures Spec.Step(State(), actions, ok) == Spec.OnVertexPartial(old(State()), env, bp)
    {
      PartialCases(State(), env, bp);
      var accepted := StorePartial(env, bp);
      actions, ok := [], true;
      if accepted {
        StoredKeeps(old(State()), env, bp);
        actions, ok := TryFinalize(env, bp.vertexHash);
      }
    }

    // Checks a partial and stores it; counts what it refuses.
    method StorePartial(env: Env, bp: Partial) returns (accepted: bool)
      modifies this`collecting, this`conflicts, this`rejected
      ensures accepted == Accepts(old(State()), env, bp)
      ensures State() == if accepted then Stored(old(State()), bp)
                         else Spec.OnVertexPartial(old(State()), env, bp).book
    {
      accepted := false;
      if bp.author != selfId || bp.voter == selfId || bp.vertexHash !in mine {
        return;
      }
      var h := bp.vertexHash;
      var slot: map<Id, VSig> := if h in collecting then collecting[h] else map[];
      if bp.voter in slot {
        collecting := collecting[h := slot];
        if slot[bp.voter] != bp.sig {
          conflicts := conflicts + 1;
        }
      } else if !Spec.VerifyPartial(env.set_, bp, mine[h].vertex) {
        collecting := collecting[h := slot];
        rejected := rejected + 1;
      } else {
        collecting := collecting[h := slot[bp.voter := bp.sig]];
        accepted := true;
      }
    }

    method TryFinalize(env: Env, h: Hash) returns (actions: seq<Action>, ok: bool)
      requires Valid(env)
      modifies this
      ensures Spec.Step(State(), actions, ok) == Spec.TryFinalize(old(State()), env, h)
      decreases if Spec.Ready(State(), env, h) then 2 else 0, 0
    {
      hide Certificates.VerifyCertifiedVertex, Certificates.Assembled, Spec.MaybeAdvance, Spec.RecordCert;
      hide VertexInvariant.Core;
      actions, ok := [], true;
      if h in emitted || h !in mine || h !in collecting || |collecting[h]| < QuorumThreshold(|env.set_|) {
        return;
      }
      var cs := ContributorList(env.set_, collecting[h]);
      var assembled := AssembleCert(mine[h].vertex, env.set_, cs);
      if assembled.Err? {
        ok := false;
        return;
      }
      var cv := assembled.value;
      if VerifyCertifiedVertex(cv, env.set_).Err? {
        ok := false;
        return;
      }
      FinalizeCore(State(), env.set_, h, cv.vertex);
      emitted := emitted + {h};
      RecordCert(cv.vertex);
      actions := [Spec.BroadcastCert(cv)];
      var more := MaybeAdvance(env);
      actions := actions + more;
    }

    method RecordCert(v: Vertex)
      modifies this`certified
      ensures State() == Spec.RecordCert(old(State()), v)
    {
      var atRound := if v.round in certified then certified[v.round] else map[];
      certified := certified[v.round := atRound[v.author := v.hash]];
    }

    // The certificate check at the end does nothing here: the new vertex has
    // one partial, and a quorum has at least three.
    method ProposeRound(env: Env, round: nat, parents: seq<Hash>) returns (actions: seq<Action>)
      requires Valid(env) && started && round >= currentRound
      requires NewRound(State(), round) && NewKey(State(), round)
      modifies this
      ensures Spec.Step(State(), actions, true) == Spec.Propose(old(State()), env, round, parents)
      ensures Valid(env)
      decreases 1, 0
    {
      ProposeMine(State(), env, round, parents);
      ProposeCollect(State(), env, round, parents);
      ProposeKeys(State(), env, round, parents);
      assert Core(Spec.Propose(State(), env, round, parents).book, env.set_);
      var h;
      h, actions := SeedProposal(env, round, parents);
      var _, _ := TryFinalize(env, h);
    }

    // Builds, signs and stores the proposal, and re-arms the round timer.
    method SeedProposal(env: Env, round: nat, parents: seq<Hash>) returns (h: Hash, actions: seq<Action>)
      modifies this
      ensures h == Spec.MakeProposal(old(State()), env, round, parents).vertex.hash
      ensures Spec.Step(State(), actions, true) == Spec.Propose(old(State()), env, round, parents)
    {
      var vertex := SealHash(Vertex(round, selfId, parents, env.pending(round), Zero));
      var proposal := Spec.Proposal(vertex, Signed(selfId, VERTEX_PROPOSAL, SigningBytes(vertex)));
      h := vertex.hash;
      StoreProposal(round, proposal);
      var timers := ArmTimer(Spec.RoundDelay(env, 0));
      actions := timers + [Spec.BroadcastProposal(proposal)];
    }

    // Files an own proposal together with the node's own partial.
    method StoreProposal(round: nat, proposal: Proposal)
      modifies this`mine, this`collecting, this`voted, this`seen, this`currentRound
      ensures var h, key := proposal.vertex.hash, Spec.Key(round, selfId);
              var selfSig := Signed(selfId, VERTEX_CERT, SigningBytes(proposal.vertex));
              && mine == old(mine)[h := proposal]
              && collecting == old(collecting)[h := Spec.Slot(old(State()), h)[selfId := selfSig]]
              && voted == old(voted) + {key}
              && seen == old(seen)[key := Spec.SeenAt(old(State()), key) + [proposal]]
              && currentRound == round
    {
      var h, key := proposal.vertex.hash, Spec.Key(round, selfId);
      var selfSig := Signed(selfId, VERTEX_CERT, SigningBytes(proposal.vertex));
      var slot: map<Id, VSig> := if h in collecting then collecting[h] else map[];
      var before := if key in seen then seen[key] else [];
      mine := mine[h := proposal];
      collecting := collecting[h := slot[selfId := selfSig]];
      voted := voted + {key};
      seen := seen[key := before + [proposal]];
      currentRound := round;
    }

    // Replaces the fallback timer by a fresh one.
    method ArmTimer(delay: nat) returns (actions: seq<Action>)
      modifies this`roundTimer, this`nextTimer, this`retries
      ensures roundTimer == Some(old(nextTimer)) && nextTimer == old(nextTimer) + 1 && retries == 0
      ensures actions == (if old(roundTimer).Some? then [Spec.CancelTimer(old(roundTimer).value)] else [])
                         + [Spec.ScheduleTimer(old(nextTimer), delay)]
    {
      actions := if roundTimer.Some? then [Spec.CancelTimer(roundTimer.value)] else [];
      var id := nextTimer;
      nextTimer := nextTimer + 1;
      roundTimer := Some(id);
      retries := 0;
      actions := actions + [Spec.ScheduleTimer(id, delay)];
    }

    method MaybeAdvance(env: Env) returns (actions: seq<Action>)
      requires Valid(env)
      modifies this
      ensures Spec.Step(State(), actions, true) == Spec.MaybeAdvance(old(State()), env)
      decreases 1, 3
    {
      actions := [];
      if started {
        actions := AdvanceRounds(env);
        PruneOld();
      }
    }

    method AdvanceRounds(env: Env) returns (actions: seq<Action>)
      requires Valid(env) && started
      modifies this
      ensures Spec.Step(State(), actions, true) == Spec.AdvanceLoop(old(State()), env)
      decreases 1, 2
    {
      actions := [];
      ghost var b := State();
      ghost var all := Spec.AdvanceLoop(b, env);
      assert [] + all.actions == all.actions;
      while currentRound in certified && |certified[currentRound]| >= QuorumThreshold(|env.set_|)
        invariant b == State() && started && Valid(env)
        invariant Progress(all, actions, b, env)
        decreases |Spec.AheadOf(b)|
      {
        ProgressStep(all, actions, b, env);
        b := Spec.ProposeNext(b, env).book;
        var more := AdvanceOnce(env);
        actions := actions + more;
      }
      ProgressDone(all, actions, b, env);
    }

    // Proposes the next round on top of a quorum in the current one.
    method AdvanceOnce(env: Env) returns (actions: seq<Action>)
      requires Valid(env) && started && Spec.CertifiedCount(State(), currentRound) >= Spec.Need(env)
      modifies this
      ensures Valid(env) && started
      ensures Spec.Step(State(), actions, true) == Spec.ProposeNext(old(State()), env)
      decreases 1, 1
    {
      hide Spec.Propose, Spec.ValuesInOrder, VertexInvariant.CollectOk;
      ProposeNextFrame(State(), env);
      var parents := Spec.ValuesInOrder(certified[currentRound], QuorumThreshold(|env.set_|));
      actions := ProposeRound(env, currentRound + 1, parents);
    }

    // Drops everything older than the previous round.
    method PruneOld()
      modifies this
      ensures State() == Spec.Prune(old(State()))
    {
      hide Spec.RetainRounds, Spec.RetainProposals, Spec.RetainLive, Spec.RetainSeen, Spec.RetainKeys;
      var keep := if currentRound == 0 then 0 else currentRound - 1;
      PruneVertices(keep);
      seen := Spec.RetainSeen(seen, keep);
      voted := Spec.RetainKeys(voted, keep);
    }

    method PruneVertices(keep: nat)
      modifies this`certified, this`mine, this`collecting, this`emitted
      ensures certified == Spec.RetainRounds(old(certified), keep)
      ensures mine == Spec.RetainProposals(old(mine), keep)
      ensures collecting == Spec.RetainLive(old(collecting), mine.Keys)
      ensures emitted == old(emitted) * mine.Keys
    {
      certified := Spec.RetainRounds(certified, keep);
      mine := Spec.RetainProposals(mine, keep);
      collecting := Spec.RetainLive(collecting, mine.Keys);
      emitted := emitted * mine.Keys;
    }

    method GenesisPropose(env: Env) returns (actions: seq<Action>)
      requires Valid(env)
      modifies this
      ensures Spec.Step(State(), actions, true) == Spec.Genesis(old(State()), env)
    {
      actions := [];
      if started {
        return;
      }
      started := true;
      actions := ProposeRound(env, 0, []);
    }

    method OnCertifiedVertex(env: Env, cv: CertifiedVertex) returns (actions: seq<Action>)
      requires Valid(env)
      modifies this
      ensures Spec.Step(State(), actions, true) == Spec.OnCertifiedVertex(old(State()), env, cv)
    {
      RecordCert(cv.vertex);
      actions := MaybeAdvance(env);
    }

    method OnTimerFired(env: Env, id: nat) returns (actions: seq<Action>)
      requires MineOk(State())
      modifies this
      ensures Spec.Step(State(), actions, true) == Spec.OnTimerFired(old(State()), env, id)
    {
      hide Spec.Retry, VertexInvariant.CollectOk, VertexInvariant.SeenOk, VertexInvariant.VotedOk;
      actions := [];
      if roundTimer != Some(id) {
        return;
      }
      roundTimer := None;
      if currentRound in certified && |certified[currentRound]| >= QuorumThreshold(|env.set_|) {
        return;
      }
      actions := Retry(env);
    }

    // Sends the current proposal again and waits longer.
    method Retry(env: Env) returns (actions: seq<Action>)
      requires MineOk(State())
      modifies this`stalled, this`retries, this`nextTimer, this`roundTimer
      ensures Spec.Step(State(), actions, true) == Spec.Retry(old(State()), env)
    {
      hide Spec.CurrentProposal, Spec.RoundDelay, VertexInvariant.MineOk;
      actions := Rebroadcast();
      stalled := stalled + 1;
      var tid := Rearm();
      actions := actions + [Spec.ScheduleTimer(tid, Spec.RoundDelay(env, retries))];
    }

    // A new timer for one more retry.
    method Rearm() returns (tid: nat)
      modifies this`retries, this`nextTimer, this`roundTimer
      ensures tid == old(nextTimer)
      ensures State() == old(State()).(retries := if old(retries) + 1 < 8 then old(retries) + 1 else 8,
                                       nextTimer := tid + 1, roundTimer := Some(tid))
    {
      retries := if retries + 1 < 8 then retries + 1 else 8;
      tid := nextTimer;
      nextTimer := nextTimer + 1;
      roundTimer := Some(tid);
    }

    // The proposal of the current round, if it is still stored. One node has one
    // proposal per round, so the order of the search does not matter.
    method Rebroadcast() returns (actions: seq<Action>)
      requires MineOk(State())
      ensures var p := Spec.CurrentProposal(mine, currentRound);
              actions == if p.Some? then [Spec.BroadcastProposal(p.value)] else []
    {
      actions := [];
      if h :| h in mine && mine[h].vertex.round == currentRound {
        actions := [Spec.BroadcastProposal(mine[h])];
      }
    }
  }

  // Partials in voter order with their positions in the validator set.
  method ContributorList(set_: ValidatorSet, sigs: map<Id, VSig>) returns (cs: seq<Contributor>)
    ensures cs == Spec.Contributors(set_, sigs)
  {
    SortedSpec(sigs.Keys);
    cs := ContributorsIn(set_, Sorted(sigs.Keys), sigs);
  }

  method ContributorsIn(set_: ValidatorSet, voters: seq<Id>, sigs: map<Id, VSig>) returns (cs: seq<Contributor>)
    requires forall v :: v in voters ==> v in sigs
    ensures cs == Spec.ContributorsFrom(set_, voters, sigs)
  {
    cs := [];
    for k := 0 to |voters|
      invariant cs == Spec.ContributorsFrom(set_, voters[..k], sigs)
    {
      assert voters[..k + 1][..k] == voters[..k];
      match IndexOf(set_, voters[k]) {
        case None =>
        case Some(i) => cs := cs + [(i, sigs[voters[k]])];
      }
    }
    assert voters[..|voters|] == voters;
  }
}
