/** What whole runs of macro finality show of one node: its chain, its finality
    reports, its votes and its certificates. */
module MacroHistory {
  import opened Validators
  import opened Worlds
  import opened Signatures
  import opened MacroQcs
  import opened MacroFin
  import opened MacroInvariant
  import opened MacroSteps
  import opened MacroPlain
  import opened MacroNetwork

  ghost function ActionsAt(run: seq<Net>, labels: seq<Label>, t: nat): seq<Action>
    requires t < |labels| < |run| && labels[t].node in run[t].books
  {
    Handle(run[t].books[labels[t].node], labels[t].env, labels[t].event).actions
  }

  // A step of node i in a run, with everything known about it.
  lemma StepGood(w: World, need: nat, run: seq<Net>, labels: seq<Label>, t: nat)
    requires Distinct(w.set_) && Run(w, need, run, labels) && t < |labels|
    ensures labels[t].node in run[t].books && labels[t].node in run[t + 1].books
    ensures var i := labels[t].node;
            var b := run[t].books[i];
            var s := Handle(b, labels[t].env, labels[t].event);
            && b.selfId == i && BookInv(b, w.set_) && Good(b, s, w.set_, OriginOf(labels[t].event))
            && run[t + 1].books[i] == s.book && s.actions == ActionsAt(run, labels, t)
            && run[t + 1].signed == run[t].signed + Sent(s.actions)
  {
    hide BookInv, LocalInv, Good, MacroFin.Handle, Init, Sent, Deliverable;
    RunLocal(w, need, run, labels, t);
    var l := labels[t];
    assert NodeStep(w, need, run[t], run[t + 1], l);
    ActorOwn(w, need, run[t], l);
  }

  lemma {:induction false} NodesStay(w: World, need: nat, run: seq<Net>, labels: seq<Label>, i: Id, t: nat)
    requires Distinct(w.set_) && Run(w, need, run, labels) && t < |run|
    ensures i in run[t].books <==> Honest(w, i)
  {
    hide MacroFin.Handle, Deliverable;
    if t > 0 {
      NodesStay(w, need, run, labels, i, t - 1);
      assert NodeStep(w, need, run[t - 1], run[t], labels[t - 1]);
    }
  }

  lemma OtherStep(w: World, need: nat, run: seq<Net>, labels: seq<Label>, i: Id, t: nat)
    requires Run(w, need, run, labels) && t < |labels| && i in run[t].books && labels[t].node != i
    ensures i in run[t + 1].books && run[t + 1].books[i] == run[t].books[i]
  {
    hide MacroFin.Handle, Deliverable, Init;
    assert NodeStep(w, need, run[t], run[t + 1], labels[t]);
  }

  // ---------------------------------------------------------------------
  // The persisted chain
  // ---------------------------------------------------------------------

  // Everything node i persisted in the first t steps, in order.
  ghost function PersistedBefore(run: seq<Net>, labels: seq<Label>, i: Id, t: nat): seq<Checkpoint>
    requires t <= |labels| < |run|
  {
    if t == 0 then []
    else
      PersistedBefore(run, labels, i, t - 1)
      + if labels[t - 1].node == i && i in run[t - 1].books then Persisted(ActionsAt(run, labels, t - 1)) else []
  }

  lemma StaysExtends(b: Book, s: MStep)
    requires Stays(b, s) && Prefix(b) && Prefix(s.book)
    ensures ChainOf(s.book) == ChainOf(b) + Persisted(s.actions)
  {
    assert Persisted(s.actions) == [];
    hide Silent, Persisted, Reported;
    assert ChainOf(s.book) == ChainOf(b);
  }

  lemma AdoptsExtends(b: Book, s: MStep)
    requires Adopts(b, s) && Prefix(b) && Prefix(s.book)
    ensures ChainOf(s.book) == ChainOf(b) + Persisted(s.actions)
  {
    hide Persisted, Reported, Tracked;
    assert ChainOf(s.book) == ChainOf(b) + [b.candidate[b.nextHeight]];
  }

  lemma GoodExtends(b: Book, s: MStep, set_: ValidatorSet, o: Origin)
    requires BookInv(b, set_) && Good(b, s, set_, o)
    ensures Prefix(b) && Prefix(s.book) && ChainOf(s.book) == ChainOf(b) + Persisted(s.actions)
  {
    hide BookInv, Signs, Abstains, StoresOnly, Settled, Clean, QcsIn, Stays, Adopts, Prefix;
    InvPrefix(b, set_);
    InvPrefix(s.book, set_);
    if Stays(b, s) { StaysExtends(b, s); } else { AdoptsExtends(b, s); }
  }

  /** A node persists exactly its chain, checkpoint by checkpoint. */
  lemma {:induction false} PersistedIsChain(w: World, need: nat, run: seq<Net>, labels: seq<Label>, i: Id, t: nat)
    requires Distinct(w.set_) && Run(w, need, run, labels) && t < |run| && Honest(w, i)
    ensures i in run[t].books && Prefix(run[t].books[i])
    ensures PersistedBefore(run, labels, i, t) == ChainOf(run[t].books[i])
  {
    hide Run, BookInv, Good, MacroFin.Handle, Prefix, ChainOf, Persisted, ActionsAt;
    RunShape(w, need, run, labels);
    NodesStay(w, need, run, labels, i, t);
    if t == 0 {
      StartChain(w, need, run, labels, i);
    } else {
      PersistedIsChain(w, need, run, labels, i, t - 1);
      var l := labels[t - 1];
      if l.node == i {
        StepGood(w, need, run, labels, t - 1);
        GoodExtends(run[t - 1].books[i], Handle(run[t - 1].books[i], l.env, l.event), w.set_, OriginOf(l.event));
      } else {
        OtherStep(w, need, run, labels, i, t - 1);
      }
    }
  }

  lemma StartChain(w: World, need: nat, run: seq<Net>, labels: seq<Label>, i: Id)
    requires Run(w, need, run, labels) && i in run[0].books
    ensures Prefix(run[0].books[i]) && ChainOf(run[0].books[i]) == []
  {
    hide NodeStep;
  }

  /** The persisted checkpoints are those of heights 0, 1, 2, ..., each once, and
      each names the one before it as its parent. */
  lemma PersistedInOrder(w: World, need: nat, run: seq<Net>, labels: seq<Label>, i: Id, t: nat, h: nat)
    requires Distinct(w.set_) && Run(w, need, run, labels) && t < |run| && Honest(w, i) && t <= |labels|
    requires h < |PersistedBefore(run, labels, i, t)|
    ensures var p := PersistedBefore(run, labels, i, t);
            p[h].height == h && p[h].parent == if h == 0 then Zero else p[h - 1].hash
  {
    hide Run, BookInv, OwnInv, PersistedBefore;
    PersistedIsChain(w, need, run, labels, i, t);
    RunLocal(w, need, run, labels, t);
    ChainLinks(run[t].books[i], w.set_, h);
  }

  // ---------------------------------------------------------------------
  // Finality
  // ---------------------------------------------------------------------

  lemma LinkHolds(b: Book, set_: ValidatorSet, h: nat)
    requires BookInv(b, set_) && h in b.candidate && h > 0
    ensures h - 1 in b.candidate && b.candidate[h].parent == b.candidate[h - 1].hash
  {
    hide EmittedOk, TimersOk, ChainOk, LocksOk, StoreOk, VotedOk;
    assert Linked(b.candidate, b.candidate[h], h);
  }

  lemma GoodReports(b: Book, s: MStep, set_: ValidatorSet, o: Origin)
    requires BookInv(b, set_) && Good(b, s, set_, o)
    ensures b.nextHeight <= s.book.nextHeight
    ensures Reported(s.actions) != [] ==>
              && b.nextHeight > 0 && s.book.nextHeight == b.nextHeight + 1
              && b.nextHeight - 1 in s.book.candidate && b.nextHeight in s.book.candidate
              && Reported(s.actions) == [s.book.candidate[b.nextHeight - 1].hash]
              && s.book.candidate[b.nextHeight].parent == s.book.candidate[b.nextHeight - 1].hash
  {
    hide BookInv, Signs, Abstains, StoresOnly, Settled, Clean, QcsIn, Persisted, Reported, Sent, Tracked;
    if Reported(s.actions) != [] {
      assert Adopts(b, s);
      LinkHolds(b, set_, b.nextHeight);
    }
  }

  /** Every height reported final is a persisted one, and the checkpoint persisted
      for the next height names it as its parent. */
  lemma FinalizedIsPersisted(w: World, need: nat, run: seq<Net>, labels: seq<Label>, t: nat)
    requires Distinct(w.set_) && Run(w, need, run, labels) && t < |labels|
    ensures labels[t].node in run[t].books
    ensures var i := labels[t].node;
            var r, h := Reported(ActionsAt(run, labels, t)), run[t].books[i].nextHeight;
            r != [] ==> Honest(w, i) && h > 0 && h + 1 == |PersistedBefore(run, labels, i, t + 1)|
                        && r == [PersistedBefore(run, labels, i, t + 1)[h - 1].hash]
                        && PersistedBefore(run, labels, i, t + 1)[h].parent == r[0]
  {
    hide Run, BookInv, Good, MacroFin.Handle, PersistedBefore, Reported;
    RunShape(w, need, run, labels);
    StepGood(w, need, run, labels, t);
    var i, l := labels[t].node, labels[t];
    NodesStay(w, need, run, labels, i, t);
    PersistedIsChain(w, need, run, labels, i, t + 1);
    GoodReports(run[t].books[i], Handle(run[t].books[i], l.env, l.event), w.set_, OriginOf(l.event));
  }

  lemma {:induction false} NextGrows(w: World, need: nat, run: seq<Net>, labels: seq<Label>, i: Id, s: nat, t: nat)
    requires Distinct(w.set_) && Run(w, need, run, labels) && s <= t < |run| && i in run[s].books
    ensures i in run[t].books && run[s].books[i].nextHeight <= run[t].books[i].nextHeight
  {
    hide Run, BookInv, Good, MacroFin.Handle;
    RunShape(w, need, run, labels);
    if s < t {
      NextGrows(w, need, run, labels, i, s, t - 1);
      var l := labels[t - 1];
      if l.node == i {
        StepGood(w, need, run, labels, t - 1);
        GoodReports(run[t - 1].books[i], Handle(run[t - 1].books[i], l.env, l.event), w.set_, OriginOf(l.event));
      } else {
        OtherStep(w, need, run, labels, i, t - 1);
      }
    }
  }

  /** A node's finality reports are in strictly increasing height. */
  lemma FinalizedIncreasing(w: World, need: nat, run: seq<Net>, labels: seq<Label>, s: nat, t: nat)
    requires Distinct(w.set_) && Run(w, need, run, labels) && s < t < |labels| && labels[s].node == labels[t].node
    ensures labels[s].node in run[s].books && labels[t].node in run[t].books
    ensures Reported(ActionsAt(run, labels, s)) != [] && Reported(ActionsAt(run, labels, t)) != [] ==>
              run[s].books[labels[s].node].nextHeight < run[t].books[labels[t].node].nextHeight
  {
    hide Run, BookInv, Good, MacroFin.Handle, Reported;
    RunShape(w, need, run, labels);
    StepGood(w, need, run, labels, s);
    StepGood(w, need, run, labels, t);
    var i, l := labels[s].node, labels[s];
    GoodReports(run[s].books[i], Handle(run[s].books[i], l.env, l.event), w.set_, OriginOf(l.event));
    NextGrows(w, need, run, labels, i, s + 1, t);
  }

  // ---------------------------------------------------------------------
  // Votes, evidence and certificates
  // ---------------------------------------------------------------------

  lemma GoodVote(b: Book, s: MStep, set_: ValidatorSet, o: Origin, a: Action) returns (cp: Checkpoint)
    requires Good(b, s, set_, o) && a in s.actions && a.SendPartial?
    ensures Sound(cp) && cp.height == b.nextHeight && a.partial.sig == PartialSig(b.selfId, cp)
  {
    hide BookInv, LockOf, Silent, StoresOnly, Settled, Clean, QcsIn, Adopts, Stays;
    assert a.partial.sig in Sent(s.actions);
    cp :| SignsOver(b, s, cp);
  }

  // The checkpoint that a partial of step t is over.
  lemma VoteAt(w: World, need: nat, run: seq<Net>, labels: seq<Label>, t: nat, m: nat, a: Action)
    returns (cp: Checkpoint)
    requires Distinct(w.set_) && Run(w, need, run, labels) && t < |labels| && t < m < |run|
    requires labels[t].node in run[t].books && a in ActionsAt(run, labels, t) && a.SendPartial?
    ensures Sound(cp) && cp.height == run[t].books[labels[t].node].nextHeight
    ensures a.partial.sig == PartialSig(labels[t].node, cp) && a.partial.sig in run[m].signed
  {
    hide Run, BookInv, Good, MacroFin.Handle, Sound;
    RunShape(w, need, run, labels);
    StepGood(w, need, run, labels, t);
    SignedGrows(w, need, run, labels, t + 1, m);
    var b, l := run[t].books[labels[t].node], labels[t];
    cp := GoodVote(b, Handle(b, l.env, l.event), w.set_, OriginOf(l.event), a);
  }

  /** One vote per height: over a whole run the partials a node sends while at one
      height, for proposals and at Mode B deadlines alike, are over one hash of that
      height. */
  lemma OneVotePerHeight(w: World, need: nat, run: seq<Net>, labels: seq<Label>, s: nat, t: nat, a: Action, b: Action)
    requires Distinct(w.set_) && Run(w, need, run, labels) && s < |labels| && t < |labels|
    requires labels[s].node == labels[t].node
    requires labels[s].node in run[s].books && a in ActionsAt(run, labels, s) && a.SendPartial?
    requires labels[t].node in run[t].books && b in ActionsAt(run, labels, t) && b.SendPartial?
    ensures a.partial.sig.Signed? && a.partial.sig.msg.CheckpointMsg? && b.partial.sig.Signed?
    ensures b.partial.sig.msg.CheckpointMsg?
    ensures a.partial.sig.msg.cp.height == run[s].books[labels[s].node].nextHeight
    ensures a.partial.sig.msg.cp.height == b.partial.sig.msg.cp.height
            ==> a.partial.sig.msg.cp.hash == b.partial.sig.msg.cp.hash
  {
    hide Run, MacroFin.Handle, Sound;
    RunShape(w, need, run, labels);
    var i, m := labels[s].node, |run| - 1;
    var x := VoteAt(w, need, run, labels, s, m, a);
    var y := VoteAt(w, need, run, labels, t, m, b);
    NextNodes(w, need, run, labels, i, s, m);
    RunLocal(w, need, run, labels, m);
    OnceAt(w, run[m], i, x, y);
  }

  lemma NextNodes(w: World, need: nat, run: seq<Net>, labels: seq<Label>, i: Id, s: nat, t: nat)
    requires Distinct(w.set_) && Run(w, need, run, labels) && s <= t < |run| && i in run[s].books
    ensures i in run[t].books
  {
    NextGrows(w, need, run, labels, i, s, t);
  }

  lemma OnceAt(w: World, n: Net, i: Id, x: Checkpoint, y: Checkpoint)
    requires LocalInv(w, n) && i in n.books && PartialSig(i, x) in n.signed && PartialSig(i, y) in n.signed
    ensures x.height == y.height ==> x.hash == y.hash
  {
    hide BookInv, Locked;
    assert OwnInv(i, n.books[i], n.signed);
  }

  /** The self-slashing branches for surround and double votes are never taken. */
  lemma NoSelfSlashing(w: World, need: nat, run: seq<Net>, labels: seq<Label>, t: nat, a: Action)
    requires Distinct(w.set_) && Run(w, need, run, labels) && t < |labels| && labels[t].node in run[t].books
    requires a in ActionsAt(run, labels, t) && a.EmitEvidence?
    ensures a.evidence.MacroEquivocation?
  {
    hide Run, BookInv, MacroFin.Handle, StoresOnly, Stays, Adopts, Signs, Abstains, Settled, QcsIn;
    StepGood(w, need, run, labels, t);
  }

  /** Every certificate a node broadcasts is for the candidate of its next height and
      names 2f + 1 distinct validators with a verified partial over that hash in the
      node's store. It passes verify_macro_qc exactly when those are all over the very
      checkpoint, and always does with epoch 0 on the wire. */
  lemma BroadcastQcVerifies(w: World, need: nat, run: seq<Net>, labels: seq<Label>, t: nat, qc: MacroQc)
    requires Distinct(w.set_) && Run(w, need, run, labels) && t < |labels| && labels[t].node in run[t].books
    requires SendQc(qc) in ActionsAt(run, labels, t)
    ensures labels[t].node in run[t + 1].books
    ensures var b, c := run[t].books[labels[t].node], run[t + 1].books[labels[t].node];
            && b.nextHeight in b.candidate && SelfMade(w.set_, qc, b.candidate[b.nextHeight].hash, c.sigs)
            && (VerifyMacroQc(w.set_, qc, b.candidate[b.nextHeight])
                <==> OverCheckpoint(w.set_, qc, c.sigs, b.candidate[b.nextHeight]))
            && (PlainLabels(labels) ==> VerifyMacroQc(w.set_, qc, b.candidate[b.nextHeight]))
  {
    hide Run, BookInv, Good, MacroFin.Handle, MacroQcs.VerifyMacroQc, SelfMade, MacroQcs.OverCheckpoint, NetPlain;
    hide LocalInv, PlainLabels;
    RunShape(w, need, run, labels);
    StepGood(w, need, run, labels, t);
    var b, l := run[t].books[labels[t].node], labels[t];
    GoodQc(b, Handle(b, l.env, l.event), w.set_, OriginOf(l.event), qc);
    if PlainLabels(labels) {
      RunPlain(w, need, run, labels, t);
      RunPlain(w, need, run, labels, t + 1);
      PlainQc(run[t], run[t + 1], labels[t].node, w.set_, qc);
    }
  }

  lemma PlainQc(n: Net, n': Net, i: Id, set_: ValidatorSet, qc: MacroQc)
    requires NetPlain(n) && NetPlain(n') && i in n.books && i in n'.books && BookInv(n.books[i], set_)
    requires n.books[i].nextHeight in n.books[i].candidate
    requires var cp := n.books[i].candidate[n.books[i].nextHeight]; SelfMade(set_, qc, cp.hash, n'.books[i].sigs)
    ensures var cp := n.books[i].candidate[n.books[i].nextHeight]; OverCheckpoint(set_, qc, n'.books[i].sigs, cp)
  {
    var b := n.books[i];
    CandidateSound(b, set_, b.nextHeight);
    hide BookInv, SelfMade, MacroQcs.OverCheckpoint;
    PlainAt(b, b.nextHeight);
    PlainOver(set_, qc, n'.books[i].sigs, b.candidate[b.nextHeight]);
  }

  lemma GoodQc(b: Book, s: MStep, set_: ValidatorSet, o: Origin, qc: MacroQc)
    requires Good(b, s, set_, o) && SendQc(qc) in s.actions
    ensures b.nextHeight in b.candidate && SelfMade(set_, qc, b.candidate[b.nextHeight].hash, s.book.sigs)
    ensures VerifyMacroQc(set_, qc, b.candidate[b.nextHeight])
            <==> OverCheckpoint(set_, qc, s.book.sigs, b.candidate[b.nextHeight])
  {
    hide BookInv, StoresOnly, Clean, Signs, Abstains, SelfMade, MacroQcs.VerifyMacroQc, MacroQcs.OverCheckpoint;
    hide Persisted, Reported, Silent;
    assert SendQc(qc).qc in QcsIn(s.actions);
  }

  /** Of what two honest nodes have persisted, at any two times, one is a prefix of
      the other. */
  lemma PersistedAgreement(w: World, need: nat, run: seq<Net>, labels: seq<Label>, i: Id, j: Id, s: nat, t: nat)
    requires GoodWorld(w) && need >= QuorumThreshold(|w.set_|) && Run(w, need, run, labels) && s <= |labels|
    requires t <= |labels| && Honest(w, i) && Honest(w, j)
    ensures Agree(PersistedBefore(run, labels, i, s), PersistedBefore(run, labels, j, t))
  {
    RunShape(w, need, run, labels);
    hide Run, PersistedBefore;
    PersistedIsChain(w, need, run, labels, i, s);
    PersistedIsChain(w, need, run, labels, j, t);
    MacroAgreement(w, need, run, labels, s, t, i, j);
  }
}
