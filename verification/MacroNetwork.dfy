/** A network of n = 3f + 1 validators running macro finality, at most f of them
    arbitrary: their persisted checkpoint chains never diverge. */
module MacroNetwork {
  import opened Validators
  import opened Worlds
  import opened Signatures
  import opened MacroQcs
  import opened MacroFin
  import opened MacroInvariant
  import opened MacroSteps
  import opened MacroPlain

  // `signed` holds the checkpoint signatures honest validators have sent.
  datatype Net = Net(books: map<Id, Book>, signed: set<MSig>)

  ghost predicate Available(w: World, signed: set<MSig>, s: MSig) {
    s.Signed? && Honest(w, s.signer) ==> s in signed
  }

  // Anyone may send anything that needs no honest signature that was never
  // made; certificates name at least `need` validators, and the parent field of
  // a proposed checkpoint is the one under its hash.
  ghost predicate Deliverable(w: World, need: nat, signed: set<MSig>, e: Event) {
    && Wire(e)
    && (e.PartialReceived? ==> Available(w, signed, e.partial.sig))
    && (e.QcReceived? ==> Names(w.set_, e.qc, need) && forall s :: s in e.qc.agg.sig.parts ==> Available(w, signed, s))
  }

  ghost predicate Init(w: World, n: Net) {
    && (forall i :: i in n.books <==> Honest(w, i))
    && (forall i :: i in n.books ==> n.books[i] == Fresh(i))
    && n.signed == {}
  }

  datatype Label = Label(node: Id, env: Env, event: Event)

  ghost predicate NodeStep(w: World, need: nat, n: Net, n': Net, l: Label) {
    && l.node in n.books && l.env.set_ == w.set_ && Deliverable(w, need, n.signed, l.event)
    && var s := Handle(n.books[l.node], l.env, l.event);
       n' == Net(n.books[l.node := s.book], n.signed + Sent(s.actions))
  }

  ghost predicate Run(w: World, need: nat, run: seq<Net>, labels: seq<Label>) {
    && |run| == |labels| + 1 && Init(w, run[0])
    && forall t :: 0 <= t < |labels| ==> NodeStep(w, need, run[t], run[t + 1], labels[t])
  }

  lemma RunShape(w: World, need: nat, run: seq<Net>, labels: seq<Label>)
    requires Run(w, need, run, labels)
    ensures |run| == |labels| + 1
  {
    hide NodeStep, Init;
  }

  lemma RunExtend(w: World, need: nat, run: seq<Net>, labels: seq<Label>, l: Label, n: Net)
    requires Run(w, need, run, labels) && NodeStep(w, need, run[|labels|], n, l)
    ensures Run(w, need, run + [n], labels + [l])
  {
    hide NodeStep, Init;
    var r, ls := run + [n], labels + [l];
    forall t | 0 <= t < |ls| ensures NodeStep(w, need, r[t], r[t + 1], ls[t]) {
      if t < |labels| { assert r[t] == run[t] && r[t + 1] == run[t + 1] && ls[t] == labels[t]; }
    }
  }

  // ---------------------------------------------------------------------
  // The invariant
  // ---------------------------------------------------------------------

  // The validator has signed some checkpoint with the hash.
  ghost predicate SignedHash(signed: set<MSig>, i: Id, hash: MHash) {
    exists cp: Checkpoint :: cp.hash == hash && PartialSig(i, cp) in signed
  }

  ghost function Voters(w: World, signed: set<MSig>, hash: MHash): set<Id> {
    set i | i in w.set_ && (i in w.byzantine || SignedHash(signed, i, hash))
  }

  // A quorum could have signed checkpoints with the hash.
  ghost predicate Backed(w: World, signed: set<MSig>, hash: MHash) {
    |Voters(w, signed, hash)| >= QuorumThreshold(|w.set_|)
  }

  // Signed checkpoints are at most the next height; for that one the lock knows.
  ghost predicate Locked(i: Id, next: nat, lock: Option<(nat, MHash)>, signed: set<MSig>) {
    forall cp :: PartialSig(i, cp) in signed ==>
      Sound(cp) && cp.height <= next && (cp.height == next ==> lock == Some((next, cp.hash)))
  }

  ghost predicate OncePerHeight(i: Id, signed: set<MSig>) {
    forall x, y :: PartialSig(i, x) in signed && PartialSig(i, y) in signed && x.height == y.height ==> x.hash == y.hash
  }

  ghost predicate StoredSent(w: World, sigs: SigBook, signed: set<MSig>) {
    forall k :: k in sigs && Honest(w, k.1) ==> sigs[k] in signed
  }

  ghost predicate ChainBacked(w: World, cands: map<nat, Checkpoint>, next: nat, signed: set<MSig>) {
    forall h :: 0 <= h < next ==> h in cands && Backed(w, signed, cands[h].hash)
  }

  // What a node knows of its own votes; this needs no premise about the others.
  ghost predicate OwnInv(i: Id, b: Book, signed: set<MSig>) {
    b.selfId == i && Locked(i, b.nextHeight, LockOf(b.locks, i), signed) && OncePerHeight(i, signed)
  }

  ghost predicate LocalInv(w: World, n: Net) {
    && (forall i :: i in n.books <==> Honest(w, i))
    && (forall i :: i in n.books ==> BookInv(n.books[i], w.set_) && OwnInv(i, n.books[i], n.signed))
  }

  ghost predicate NodeInv(w: World, b: Book, signed: set<MSig>) {
    StoredSent(w, b.sigs, signed) && ChainBacked(w, b.candidate, b.nextHeight, signed)
  }

  ghost predicate Inv(w: World, n: Net) {
    LocalInv(w, n) && forall i :: i in n.books ==> NodeInv(w, n.books[i], n.signed)
  }

  lemma BackedGrows(w: World, signed: set<MSig>, more: set<MSig>, hash: MHash)
    requires signed <= more && Backed(w, signed, hash)
    ensures Backed(w, more, hash)
  {
    SubsetSize(Voters(w, signed, hash), Voters(w, more, hash));
  }

  lemma ChainGrows(w: World, cands: map<nat, Checkpoint>, next: nat, signed: set<MSig>, more: set<MSig>)
    requires signed <= more && ChainBacked(w, cands, next, signed)
    ensures ChainBacked(w, cands, next, more)
  {
    hide Backed;
    forall h | 0 <= h < next ensures h in cands && Backed(w, more, cands[h].hash) {
      BackedGrows(w, signed, more, cands[h].hash);
    }
  }

  // ---------------------------------------------------------------------
  // One step, for the node that takes it
  // ---------------------------------------------------------------------

  // Signing for the next height under the lock.
  lemma SignedLocked(b: Book, s: MStep, cp: Checkpoint, i: Id, signed: set<MSig>)
    requires b.selfId == i && SignsOver(b, s, cp)
    requires Locked(i, b.nextHeight, LockOf(b.locks, i), signed) && OncePerHeight(i, signed)
    ensures Locked(i, b.nextHeight, Some((b.nextHeight, cp.hash)), signed + Sent(s.actions))
    ensures OncePerHeight(i, signed + Sent(s.actions))
  {
    hide LockOf, Sent;
    var more := signed + Sent(s.actions);
    forall x | PartialSig(i, x) in more && x.height == b.nextHeight ensures x.hash == cp.hash {
      if PartialSig(i, x) !in signed { assert x == cp; }
    }
  }

  lemma StoredGrows(w: World, b: Book, s: MStep, o: Origin, signed: set<MSig>)
    requires StoredSent(w, b.sigs, signed) && StoresOnly(b, s, o.got) && SigsOk(w.set_, s.book.sigs)
    requires forall x :: x in o.got ==> Available(w, signed, x)
    ensures StoredSent(w, s.book.sigs, signed + Sent(s.actions))
  {
    hide Sent;
    forall k | k in s.book.sigs && Honest(w, k.1) ensures s.book.sigs[k] in signed + Sent(s.actions) {
      var cp := StoredSigIs(w.set_, s.book.sigs, k.0, k.1);
    }
  }

  ghost predicate GoodOrigin(w: World, signed: set<MSig>, o: Origin) {
    && (forall x :: x in o.got ==> Available(w, signed, x))
    && (o.qc.Some? ==>
          Quorum(w.set_, o.qc.value) && forall x :: x in o.qc.value.agg.sig.parts ==> Available(w, signed, x))
  }

  // A settled checkpoint is backed: its signers are a quorum whose honest
  // members have sent signatures over its hash.
  lemma SettledIsBacked(w: World, s: MStep, cp: Checkpoint, o: Origin, signed: set<MSig>)
    requires GoodWorld(w) && Settled(s, w.set_, cp, o.qc) && GoodOrigin(w, signed, o)
    requires SigsOk(w.set_, s.book.sigs) && StoredSent(w, s.book.sigs, signed)
    ensures Backed(w, signed, cp.hash)
  {
    hide SigsOk, MacroQcs.VerifyMacroQc, StoredSent, MacroQcs.OverCheckpoint;
    var qc :| PersistQc(qc) in s.actions && QcsIn(s.actions) == (if o.qc == Some(qc) then {} else {qc})
              && Certifies(w.set_, qc, cp, s.book.sigs, o.qc);
    forall v | v in Signers(w.set_, qc) ensures v in Voters(w, signed, cp.hash) {
      SignerIsVoter(w, qc, cp, s.book.sigs, o, signed, v);
    }
    SubsetSize(Signers(w.set_, qc), Voters(w, signed, cp.hash));
  }

  lemma SignerIsVoter(w: World, qc: MacroQc, cp: Checkpoint, sigs: SigBook, o: Origin, signed: set<MSig>, v: Id)
    requires GoodWorld(w) && Certifies(w.set_, qc, cp, sigs, o.qc) && GoodOrigin(w, signed, o)
    requires SigsOk(w.set_, sigs) && StoredSent(w, sigs, signed) && v in Signers(w.set_, qc)
    ensures v in Voters(w, signed, cp.hash)
  {
    hide SigsOk, MacroQcs.VerifyMacroQc, MacroQcs.OverCheckpoint, Quorum;
    if o.qc == Some(qc) {
      VerifiedQcMeans(w.set_, qc, cp);
      assert Available(w, signed, PartialSig(v, cp));
    } else {
      var c := StoredSigIs(w.set_, sigs, cp.hash, v);
      KeyIsMember(w.set_, sigs, cp.hash, v);
      assert Honest(w, v) ==> PartialSig(v, c) in signed;
    }
  }

  lemma KeyIsMember(set_: ValidatorSet, sigs: SigBook, hash: MHash, v: Id)
    requires SigsOk(set_, sigs) && (hash, v) in sigs
    ensures v in set_
  {
  }

  lemma StoreOf(b: Book, set_: ValidatorSet)
    requires BookInv(b, set_)
    ensures SigsOk(set_, b.sigs)
  {
    hide CandidatesOk, EmittedOk, TimersOk, ChainOk, LocksOk, VotedOk;
  }

  lemma StaysBacked(w: World, b: Book, s: MStep, signed: set<MSig>)
    requires Stays(b, s) && ChainBacked(w, b.candidate, b.nextHeight, signed)
    ensures ChainBacked(w, s.book.candidate, s.book.nextHeight, signed + Sent(s.actions))
  {
    hide Backed, Silent, Sent;
    assert ChainBacked(w, s.book.candidate, s.book.nextHeight, signed);
    ChainGrows(w, s.book.candidate, s.book.nextHeight, signed, signed + Sent(s.actions));
  }

  lemma AbstainedLocked(i: Id, next: nat, lock: Option<(nat, MHash)>, signed: set<MSig>)
    requires Locked(i, next, lock, signed)
    ensures Locked(i, next + 1, lock, signed)
  {
  }

  // The node's own votes after a step.
  lemma OwnKeeps(b: Book, s: MStep, set_: ValidatorSet, o: Origin, signed: set<MSig>)
    requires OwnInv(b.selfId, b, signed) && Good(b, s, set_, o)
    ensures OwnInv(b.selfId, s.book, signed + Sent(s.actions))
  {
    hide BookInv, Locked, OncePerHeight, LockOf, Sent, SigsOk, Sound, Settled, StoresOnly, Silent, Persisted, Reported;
    hide Clean, QcsIn, SignsOver;
    var i := b.selfId;
    if Stays(b, s) && Signs(b, s) {
      var cp :| SignsOver(b, s, cp);
      SignedLocked(b, s, cp, i, signed);
      SignedLock(b, s, cp);
    } else {
      assert signed + Sent(s.actions) == signed;
      AbstainedLocked(i, b.nextHeight, LockOf(b.locks, i), signed);
    }
  }

  lemma SignedLock(b: Book, s: MStep, cp: Checkpoint)
    requires SignsOver(b, s, cp)
    ensures LockOf(s.book.locks, s.book.selfId) == Some((b.nextHeight, cp.hash))
  {
  }

  lemma NodeKeeps(w: World, b: Book, s: MStep, o: Origin, signed: set<MSig>)
    requires GoodWorld(w) && NodeInv(w, b, signed) && Good(b, s, w.set_, o) && GoodOrigin(w, signed, o)
    ensures NodeInv(w, s.book, signed + Sent(s.actions))
  {
    hide BookInv, StoredSent, ChainBacked, Sent, SigsOk, Sound, Settled, StoresOnly, Silent, Persisted, Reported;
    hide Clean, QcsIn, SignsOver, LockOf;
    StoreOf(s.book, w.set_);
    StoredGrows(w, b, s, o, signed);
    if Stays(b, s) {
      StaysBacked(w, b, s, signed);
    } else {
      assert signed + Sent(s.actions) == signed;
      SettledIsBacked(w, s, b.candidate[b.nextHeight], o, signed);
      ExtendBacked(w, b.candidate, b.nextHeight, signed);
    }
  }

  lemma ExtendBacked(w: World, cands: map<nat, Checkpoint>, next: nat, signed: set<MSig>)
    requires ChainBacked(w, cands, next, signed) && next in cands && Backed(w, signed, cands[next].hash)
    ensures ChainBacked(w, cands, next + 1, signed)
  {
  }

  lemma OthersOwn(j: Id, c: Book, signed: set<MSig>, i: Id, sent: set<MSig>)
    requires OwnInv(j, c, signed) && j != i && (sent == {} || exists cp :: sent == {PartialSig(i, cp)})
    ensures OwnInv(j, c, signed + sent)
  {
    hide Sound, LockOf;
    var more := signed + sent;
    forall cp ensures PartialSig(j, cp) in more ==> PartialSig(j, cp) in signed {}
  }

  lemma OthersKeep(w: World, c: Book, signed: set<MSig>, more: set<MSig>)
    requires NodeInv(w, c, signed) && signed <= more
    ensures NodeInv(w, c, more)
  {
    hide Backed;
    ChainGrows(w, c.candidate, c.nextHeight, signed, more);
  }

  lemma DeliveredOrigin(w: World, need: nat, signed: set<MSig>, e: Event)
    requires Deliverable(w, need, signed, e) && need >= QuorumThreshold(|w.set_|)
    ensures GoodOrigin(w, signed, OriginOf(e))
  {
  }

  lemma GoodSends(b: Book, s: MStep, set_: ValidatorSet, o: Origin)
    requires Good(b, s, set_, o)
    ensures BookInv(s.book, set_)
    ensures Sent(s.actions) == {} || exists cp :: Sent(s.actions) == {PartialSig(b.selfId, cp)}
  {
    hide BookInv, Sent, LockOf, Sound, Silent, Settled, StoresOnly, Clean, QcsIn, Stays, Adopts;
  }

  lemma SelfOf(w: World, n: Net, i: Id)
    requires LocalInv(w, n) && i in n.books
    ensures n.books[i].selfId == i
  {
    hide BookInv, Locked, OncePerHeight;
  }

  // What a step does to the node that takes it, whatever is delivered.
  lemma ActorOwn(w: World, need: nat, n: Net, l: Label)
    requires Distinct(w.set_) && LocalInv(w, n) && l.node in n.books && l.env.set_ == w.set_
    requires Deliverable(w, need, n.signed, l.event)
    ensures var s := Handle(n.books[l.node], l.env, l.event);
            && n.books[l.node].selfId == l.node && BookInv(n.books[l.node], w.set_)
            && Good(n.books[l.node], s, w.set_, OriginOf(l.event))
            && BookInv(s.book, w.set_) && OwnInv(l.node, s.book, n.signed + Sent(s.actions))
            && (Sent(s.actions) == {} || exists cp :: Sent(s.actions) == {PartialSig(l.node, cp)})
  {
    hide BookInv, OwnInv, Good, MacroFin.Handle, Sent;
    var b := n.books[l.node];
    var s, o := Handle(b, l.env, l.event), OriginOf(l.event);
    SelfOf(w, n, l.node);
    HandleGood(b, l.env, l.event);
    GoodSends(b, s, w.set_, o);
    OwnKeeps(b, s, w.set_, o, n.signed);
  }

  lemma StepLocal(w: World, need: nat, n: Net, n': Net, l: Label)
    requires Distinct(w.set_) && LocalInv(w, n) && NodeStep(w, need, n, n', l)
    ensures LocalInv(w, n')
  {
    hide BookInv, OwnInv, Good, MacroFin.Handle, Sent, Deliverable;
    ActorOwn(w, need, n, l);
    var s := Handle(n.books[l.node], l.env, l.event);
    forall j | j in n'.books ensures BookInv(n'.books[j], w.set_) && OwnInv(j, n'.books[j], n'.signed) {
      if j != l.node { OthersOwn(j, n.books[j], n.signed, l.node, Sent(s.actions)); }
    }
  }

  lemma InitLocal(w: World, n: Net)
    requires Init(w, n)
    ensures LocalInv(w, n)
  {
    hide BookInv, MacroFin.Fresh;
    forall i | i in n.books ensures BookInv(n.books[i], w.set_) && OwnInv(i, n.books[i], n.signed) {
      FreshInv(i, w.set_);
      FreshNode(w, i);
    }
  }

  lemma FreshNode(w: World, i: Id)
    ensures OwnInv(i, Fresh(i), {}) && NodeInv(w, Fresh(i), {})
  {
  }

  /** In every state of every run each node keeps its lock and one hash per height, whatever
      certificates are delivered and however many validators deviate. */
  lemma {:induction false} RunLocal(w: World, need: nat, run: seq<Net>, labels: seq<Label>, t: nat)
    requires Distinct(w.set_) && Run(w, need, run, labels) && t < |run|
    ensures LocalInv(w, run[t])
  {
    hide LocalInv, NodeStep, Init;
    if t == 0 {
      InitLocal(w, run[0]);
    } else {
      RunLocal(w, need, run, labels, t - 1);
      StepLocal(w, need, run[t - 1], run[t], labels[t - 1]);
    }
  }

  lemma StepInv(w: World, need: nat, n: Net, n': Net, l: Label)
    requires GoodWorld(w) && need >= QuorumThreshold(|w.set_|) && Inv(w, n) && NodeStep(w, need, n, n', l)
    ensures Inv(w, n')
  {
    hide LocalInv, BookInv, NodeInv, Good, MacroFin.Handle, Sent, Deliverable, GoodOrigin;
    StepLocal(w, need, n, n', l);
    ActorOwn(w, need, n, l);
    DeliveredOrigin(w, need, n.signed, l.event);
    var s := Handle(n.books[l.node], l.env, l.event);
    forall j | j in n'.books ensures NodeInv(w, n'.books[j], n'.signed) {
      if j == l.node {
        NodeKeeps(w, n.books[j], s, OriginOf(l.event), n.signed);
      } else {
        OthersKeep(w, n.books[j], n.signed, n'.signed);
      }
    }
  }

  lemma InitInv(w: World, n: Net)
    requires Init(w, n)
    ensures Inv(w, n)
  {
    hide LocalInv, MacroFin.Fresh, NodeInv;
    InitLocal(w, n);
    forall i | i in n.books ensures NodeInv(w, n.books[i], n.signed) { FreshNode(w, i); }
  }

  /** With certificates by quorums, chains are backed by quorums besides. */
  lemma {:induction false} RunInv(w: World, need: nat, run: seq<Net>, labels: seq<Label>, t: nat)
    requires GoodWorld(w) && need >= QuorumThreshold(|w.set_|) && Run(w, need, run, labels) && t < |run|
    ensures Inv(w, run[t])
  {
    hide Inv, NodeStep, Init;
    if t == 0 {
      InitInv(w, run[0]);
    } else {
      RunInv(w, need, run, labels, t - 1);
      StepInv(w, need, run[t - 1], run[t], labels[t - 1]);
    }
  }

  // ---------------------------------------------------------------------
  // Agreement
  // ---------------------------------------------------------------------

  lemma {:induction false} SignedGrows(w: World, need: nat, run: seq<Net>, labels: seq<Label>, s: nat, t: nat)
    requires Run(w, need, run, labels) && s <= t < |run|
    ensures run[s].signed <= run[t].signed
  {
    hide Init, Deliverable, MacroFin.Handle;
    if s < t {
      SignedGrows(w, need, run, labels, s, t - 1);
      assert NodeStep(w, need, run[t - 1], run[t], labels[t - 1]);
    }
  }

  /** Two hashes of one height that quorums could have signed are the same: a
      validator signs one per height, however often its lock was overwritten. */
  lemma BackedUnique(w: World, n: Net, x: MHash, y: MHash)
    requires GoodWorld(w) && LocalInv(w, n) && Backed(w, n.signed, x) && Backed(w, n.signed, y)
    requires x.OfCheckpoint? && y.OfCheckpoint? && x.height == y.height
    ensures x == y
  {
    hide BookInv;
    DistinctSize(w.set_);
    var i := QuorumsShareHonest(Members(w.set_), w.byzantine, Voters(w, n.signed, x), Voters(w, n.signed, y));
    assert i in n.books;
    assert OwnInv(i, n.books[i], n.signed);
    var c: Checkpoint :| c.hash == x && PartialSig(i, c) in n.signed;
    var d: Checkpoint :| d.hash == y && PartialSig(i, d) in n.signed;
    assert Sound(c) && Sound(d);
  }

  // The chain of a node is in order.
  lemma ChainLinks(b: Book, set_: ValidatorSet, h: nat)
    requires BookInv(b, set_) && h < b.nextHeight
    ensures h in b.candidate && Sound(b.candidate[h]) && b.candidate[h].height == h
    ensures b.candidate[h].parent == (if h == 0 then Zero else b.candidate[h - 1].hash)
  {
    hide EmittedOk, TimersOk, ChainOk, LocksOk, StoreOk, VotedOk;
    assert Linked(b.candidate, b.candidate[h], h);
  }

  // And backed.
  lemma ChainFacts(w: World, n: Net, i: Id, h: nat)
    requires Inv(w, n) && i in n.books && h < n.books[i].nextHeight
    ensures var b := n.books[i];
            h in b.candidate && Backed(w, n.signed, b.candidate[h].hash) && Sound(b.candidate[h])
                && b.candidate[h].height == h
  {
    hide BookInv, OwnInv, StoredSent, Backed;
    ChainLinks(n.books[i], w.set_, h);
    assert NodeInv(w, n.books[i], n.signed);
  }

  lemma InvChain(w: World, n: Net, i: Id)
    requires LocalInv(w, n) && i in n.books
    ensures Prefix(n.books[i])
  {
    hide OwnInv;
    InvPrefix(n.books[i], w.set_);
  }

  // The hashes of a chain; with them everything but the epoch fields.
  ghost function Hashes(chain: seq<Checkpoint>): seq<MHash> {
    seq(|chain|, h requires 0 <= h < |chain| => chain[h].hash)
  }

  ghost predicate Agree(x: seq<Checkpoint>, y: seq<Checkpoint>) {
    Hashes(x) <= Hashes(y) || Hashes(y) <= Hashes(x)
  }

  /** Macro agreement: in every run in which certificates name a quorum, of the hash
      chains of two honest nodes, taken at any two times, one is a prefix of the
      other. */
  lemma MacroAgreement(w: World, need: nat, run: seq<Net>, labels: seq<Label>, s: nat, t: nat, i: Id, j: Id)
    requires GoodWorld(w) && need >= QuorumThreshold(|w.set_|) && Run(w, need, run, labels) && s < |run| && t < |run|
    requires i in run[s].books && j in run[t].books
    ensures Prefix(run[s].books[i]) && Prefix(run[t].books[j])
    ensures Agree(ChainOf(run[s].books[i]), ChainOf(run[t].books[j]))
  {
    hide Run, LocalInv, NodeInv, Backed, Sound;
    RunInv(w, need, run, labels, s);
    RunInv(w, need, run, labels, t);
    InvChain(w, run[s], i);
    InvChain(w, run[t], j);
    var a, b := run[s].books[i], run[t].books[j];
    forall h | 0 <= h < a.nextHeight && 0 <= h < b.nextHeight ensures a.candidate[h].hash == b.candidate[h].hash {
      ChainFacts(w, run[s], i, h);
      ChainFacts(w, run[t], j, h);
      SameAt(w, need, run, labels, s, t, a.candidate[h], b.candidate[h]);
    }
  }

  lemma SameAt(w: World, need: nat, run: seq<Net>, labels: seq<Label>, s: nat, t: nat, x: Checkpoint, y: Checkpoint)
    requires GoodWorld(w) && need >= QuorumThreshold(|w.set_|) && Run(w, need, run, labels) && s < |run| && t < |run|
    requires Sound(x) && Sound(y) && x.height == y.height
    requires Backed(w, run[s].signed, x.hash) && Backed(w, run[t].signed, y.hash)
    ensures x.hash == y.hash
  {
    hide LocalInv, Backed, NodeStep, Init;
    var m := if s < t then t else s;
    SignedGrows(w, need, run, labels, s, m);
    SignedGrows(w, need, run, labels, t, m);
    BackedGrows(w, run[s].signed, run[m].signed, x.hash);
    BackedGrows(w, run[t].signed, run[m].signed, y.hash);
    RunLocal(w, need, run, labels, m);
    BackedUnique(w, run[m], x.hash, y.hash);
  }

  // ---------------------------------------------------------------------
  // Epoch 0 on the wire
  // ---------------------------------------------------------------------

  ghost predicate PlainLabels(labels: seq<Label>) {
    forall t :: 0 <= t < |labels| ==> PlainWire(labels[t].event)
  }

  ghost predicate NetPlain(n: Net) {
    forall i :: i in n.books ==> AllPlain(n.books[i])
  }

  lemma StepPlain(w: World, need: nat, n: Net, n': Net, l: Label)
    requires LocalInv(w, n) && NodeStep(w, need, n, n', l) && PlainWire(l.event) && NetPlain(n)
    ensures NetPlain(n')
  {
    hide BookInv, OwnInv, MacroFin.Handle, Sent, AllPlain;
    HandlePlain(n.books[l.node], l.env, l.event);
  }

  /** If every proposed checkpoint on the wire is in epoch 0, every candidate and every
      stored signature is. */
  lemma {:induction false} RunPlain(w: World, need: nat, run: seq<Net>, labels: seq<Label>, t: nat)
    requires Distinct(w.set_) && Run(w, need, run, labels) && PlainLabels(labels) && t < |run|
    ensures NetPlain(run[t])
  {
    hide LocalInv, NodeStep;
    if t > 0 {
      RunPlain(w, need, run, labels, t - 1);
      RunLocal(w, need, run, labels, t - 1);
      StepPlain(w, need, run[t - 1], run[t], labels[t - 1]);
    }
  }

  /** Then the chains themselves agree, epochs included. */
  lemma PlainAgreement(w: World, need: nat, run: seq<Net>, labels: seq<Label>, s: nat, t: nat, i: Id, j: Id)
    requires GoodWorld(w) && need >= QuorumThreshold(|w.set_|) && Run(w, need, run, labels) && s < |run| && t < |run|
    requires i in run[s].books && j in run[t].books && PlainLabels(labels)
    ensures Prefix(run[s].books[i]) && Prefix(run[t].books[j])
    ensures ChainOf(run[s].books[i]) <= ChainOf(run[t].books[j]) || ChainOf(run[t].books[j]) <= ChainOf(run[s].books[i])
  {
    hide Run, LocalInv, NodeInv, Backed;
    MacroAgreement(w, need, run, labels, s, t, i, j);
    RunPlain(w, need, run, labels, s);
    RunPlain(w, need, run, labels, t);
    RunInv(w, need, run, labels, s);
    RunInv(w, need, run, labels, t);
    var a, b := run[s].books[i], run[t].books[j];
    var x, y := ChainOf(a), ChainOf(b);
    forall h | 0 <= h < |x| && 0 <= h < |y| ensures x[h] == y[h] {
      ChainFacts(w, run[s], i, h);
      ChainFacts(w, run[t], j, h);
      PlainAt(a, h);
      PlainAt(b, h);
      assert Hashes(x)[h] == Hashes(y)[h];
    }
  }

  lemma PlainAt(b: Book, h: nat)
    requires AllPlain(b) && h in b.candidate
    ensures b.candidate[h].epoch == 0
  {
  }
}
