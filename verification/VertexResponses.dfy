/** What the handlers of vertex certification are bound to do, beside what they must
    not: when a vote is cast, evidence published, a certificate recorded or announced,
    and which proposals advancing sends. */
module VertexResponses {
  import opened Validators
  import opened Signatures
  import opened Certificates
  import opened VertexCert
  import opened VertexInvariant
  import opened VertexEvidence
  import opened VertexNetwork
  import opened Bitmaps

  // ---------------------------------------------------------------------
  // Votes and evidence
  // ---------------------------------------------------------------------

  function OwnVote(b: Book, v: Vertex): Partial {
    Partial(v.hash, v.round, v.author, b.selfId, Signed(b.selfId, VERTEX_CERT, SigningBytes(v)))
  }

  // A genuine proposal of a peer in the window, with no other one of its slot held, on top
  // of 2f + 1 certified vertices of the round before, or of none in round 0.
  predicate Deserves(b: Book, env: Env, p: Proposal) {
    var v := p.vertex;
    && Genuine(env.set_, p) && v.author != b.selfId
    && v.round + 1 >= b.currentRound && v.round <= b.currentRound + 1
    && (forall x :: x in SeenAt(b, Key(v.round, v.author)) ==> x.vertex.hash == v.hash)
    && if v.round == 0 then v.parents == []
       else && |v.parents| >= 2 * ((|env.set_| - 1) / 3) + 1
            && forall h :: h in v.parents ==> v.round - 1 in b.certified && h in b.certified[v.round - 1].Values
  }

  lemma ConflictsSeen(b: Book, p: Proposal)
    ensures Conflicting(b, p)
            <==> exists x :: x in SeenAt(b, Key(p.vertex.round, p.vertex.author)) && x.vertex.hash != p.vertex.hash
  {
    var held := SeenAt(b, Key(p.vertex.round, p.vertex.author));
    if x :| x in held && x.vertex.hash != p.vertex.hash {
      var i :| 0 <= i < |held| && held[i] == x;
      assert held[i].vertex.hash != p.vertex.hash;
    }
    if Conflicting(b, p) {
      var i :| 0 <= i < |held| && held[i].vertex.hash != p.vertex.hash;
      assert held[i] in held;
    }
  }

  lemma DeservesMeans(b: Book, env: Env, p: Proposal)
    ensures Deserves(b, env, p) <==> Votable(b, env, p)
  {
    ConflictsSeen(b, p);
    hide Conflicting;
    if p.vertex.author in env.set_ { assert |env.set_| > 0; }
  }

  /** A partial is sent exactly for a proposal that deserves it and whose slot was not voted
      on, and it is then the node's signature over that very vertex. */
  lemma VoteIsCast(b: Book, env: Env, p: Proposal)
    ensures var s, key := OnVertexProposal(b, env, p), Key(p.vertex.round, p.vertex.author);
            && ((exists a :: a in s.actions && a.BroadcastPartial?) <==> Deserves(b, env, p) && key !in b.voted)
            && (Deserves(b, env, p) && key !in b.voted ==>
                  s.actions == [BroadcastPartial(OwnVote(b, p.vertex))] && s.book.voted == b.voted + {key})
            && (!(Deserves(b, env, p) && key !in b.voted) ==> s.book.voted == b.voted)
  {
    ProposalCases(b, env, p);
    DeservesMeans(b, env, p);
    var s, key := OnVertexProposal(b, env, p), Key(p.vertex.round, p.vertex.author);
    hide VertexCert.OnVertexProposal, Votable, Deserves;
    if Votable(b, env, p) && key !in b.voted {
      assert s.actions == [BroadcastPartial(OwnVote(b, p.vertex))];
      assert s.actions[0] in s.actions;
    }
  }

  // A genuine proposal of a peer in the window, with another one of its slot held.
  predicate Equivocates(b: Book, env: Env, p: Proposal) {
    var v := p.vertex;
    && Genuine(env.set_, p) && v.author != b.selfId
    && v.round + 1 >= b.currentRound && v.round <= b.currentRound + 1
    && exists x :: x in SeenAt(b, Key(v.round, v.author)) && x.vertex.hash != v.hash
  }

  /** Evidence is published exactly for such a proposal, naming the first one held. */
  lemma ConflictIsReported(b: Book, env: Env, p: Proposal)
    ensures var s, author := OnVertexProposal(b, env, p), p.vertex.author;
            var held := SeenAt(b, Key(p.vertex.round, author));
            && ((exists a :: a in s.actions && a.EmitEvidence?) <==> Equivocates(b, env, p))
            && (Equivocates(b, env, p) ==>
                  held != [] && s == Step(b, [EmitEvidence(author, Equivocation(author, held[0], p))], true))
  {
    ConflictsSeen(b, p);
    hide Conflicting, VertexCert.KnownParents;
    var s := OnVertexProposal(b, env, p);
    if Equivocates(b, env, p) {
      assert s.actions[0] in s.actions;
    }
  }

  // ---------------------------------------------------------------------
  // Certificates
  // ---------------------------------------------------------------------

  /** A delivered certificate is recorded, unless advancing has left its round
      behind; every other slot stays as it was or is pruned with its round. */
  lemma CertificateIsRecorded(b: Book, env: Env, cv: CertifiedVertex, r: nat, a: Id)
    ensures var c, v := OnCertifiedVertex(b, env, cv).book, cv.vertex;
            var kept := !b.started || r + 1 >= c.currentRound;
            && (r == v.round && a == v.author && kept
                ==> r in c.certified && a in c.certified[r] && c.certified[r][a] == v.hash)
            && (!(r == v.round && a == v.author) && kept ==>
                  ((r in c.certified && a in c.certified[r]) <==> (r in b.certified && a in b.certified[r]))
                  && (r in b.certified && a in b.certified[r] ==> c.certified[r][a] == b.certified[r][a]))
  {
    var d := RecordCert(b, cv.vertex);
    if d.started {
      AdvanceStops(d, env);
      var e := AdvanceLoop(d, env).book;
      hide VertexCert.AdvanceLoop;
      assert Prune(e).certified == RetainRounds(e.certified, KeepFrom(e));
    }
  }

  /** A node advances past exactly the rounds with a quorum of certificates, up to
      the first one without. */
  lemma AdvancesExactly(b: Book, env: Env, r: nat)
    requires b.started
    ensures MaybeAdvance(b, env).book.currentRound == r <==>
              && r >= b.currentRound && CertifiedCount(b, r) < Need(env)
              && forall q :: b.currentRound <= q < r ==> CertifiedCount(b, q) >= Need(env)
  {
    AdvanceStops(b, env);
    var c := AdvanceLoop(b, env).book;
    assert MaybeAdvance(b, env).book.currentRound == c.currentRound;
    assert CertifiedCount(c, c.currentRound) == CertifiedCount(b, c.currentRound);
    hide VertexCert.AdvanceLoop, VertexCert.MaybeAdvance;
    if r > c.currentRound { assert CertifiedCount(b, c.currentRound) < Need(env); }
  }

  function ProposedBy(a: Action): seq<Vertex> {
    if a.BroadcastProposal? then [a.proposal.vertex] else []
  }

  // The vertices a list of actions proposes, in order.
  function Proposed(actions: seq<Action>): seq<Vertex> {
    if actions == [] then []
    else ProposedBy(actions[0]) + Proposed(actions[1..])
  }

  lemma {:induction false} ProposedAppend(x: seq<Action>, y: seq<Action>)
    ensures Proposed(x + y) == Proposed(x) + Proposed(y)
  {
    hide ProposedBy;
    if x == [] {
      assert x + y == y;
    } else {
      ProposedAppend(x[1..], y);
      assert (x + y)[1..] == x[1..] + y && (x + y)[0] == x[0];
      var p, q, r := ProposedBy(x[0]), Proposed(x[1..]), Proposed(y);
      assert (p + q) + r == p + (q + r);
    }
  }

  lemma ProposeProposes(b: Book, env: Env, round: nat, parents: seq<Hash>)
    ensures Proposed(Propose(b, env, round, parents).actions) == [MakeProposal(b, env, round, parents).vertex]
  {
    var p := MakeProposal(b, env, round, parents);
    var cancel := if b.roundTimer.Some? then [CancelTimer(b.roundTimer.value)] else [];
    var send := [ScheduleTimer(b.nextTimer, RoundDelay(env, 0)), BroadcastProposal(p)];
    ProposedAppend(cancel, send);
    assert send[1..] == [BroadcastProposal(p)] && send[1..][1..] == [];
    if b.roundTimer.Some? { assert cancel[1..] == []; }
  }

  type Certs = map<nat, map<Id, Hash>>

  predicate QuorumAt(certified: Certs, env: Env, q: nat) {
    q in certified && |certified[q]| >= Need(env)
  }

  // The vertex the rules prescribe for the round after `q`: on top of the
  // certificates of the first authors in id order, with the blobs pending then.
  function Prescribed(certified: Certs, self: Id, env: Env, q: nat): Vertex
    requires QuorumAt(certified, env, q)
  {
    SealHash(Vertex(q + 1, self, ValuesInOrder(certified[q], Need(env)), env.pending(q + 1), Zero))
  }

  /** The parents of a prescribed vertex are the recorded certificates of the 2f + 1 authors
      with the lowest ids, in ascending order. */
  lemma LowestAuthors(certified: Certs, self: Id, env: Env, q: nat) returns (authors: seq<Id>)
    requires QuorumAt(certified, env, q) && env.set_ != []
    ensures var v := Prescribed(certified, self, env, q);
            && v.round == q + 1 && v.author == self && v.blobs == env.pending(q + 1)
            && v.hash == OfBody(SigningBytes(v))
            && |v.parents| == |authors| == 2 * ((|env.set_| - 1) / 3) + 1
            && forall i :: 0 <= i < |authors| ==>
                 authors[i] in certified[q] && v.parents[i] == certified[q][authors[i]]
    ensures forall i, j :: 0 <= i < j < |authors| ==> authors[i] < authors[j]
    ensures forall a, b :: a in certified[q] && a !in authors && b in authors ==> b < a
  {
    authors := Lowest(certified[q], Need(env));
  }

  lemma Lowest(m: map<Id, Hash>, k: nat) returns (authors: seq<Id>)
    requires k <= |m|
    ensures |authors| == k == |ValuesInOrder(m, k)|
    ensures forall i :: 0 <= i < k ==> authors[i] in m && ValuesInOrder(m, k)[i] == m[authors[i]]
    ensures forall i, j :: 0 <= i < j < k ==> authors[i] < authors[j]
    ensures forall a, b :: a in m && a !in authors && b in authors ==> b < a
  {
    var keys := Sorted(m.Keys);
    OrderedValues(m, k);
    SortedSpec(m.Keys);
    hide VertexCert.ValuesInOrder, Sorted;
    authors := keys[..k];
    FirstAreLowest(keys, k);
  }

  lemma FirstAreLowest(keys: seq<Id>, k: nat)
    requires k <= |keys| && Ascending(keys)
    ensures forall a, b :: a in keys && a !in keys[..k] && b in keys[..k] ==> b < a
  {
    forall i | 0 <= i < k ensures keys[i] in keys[..k] { assert keys[..k][i] == keys[i]; }
    forall a, b | a in keys && a !in keys[..k] && b in keys[..k] ensures b < a {
      var i :| 0 <= i < |keys| && keys[i] == a;
      var j :| 0 <= j < k && keys[j] == b;
    }
  }

  predicate QuorumsFrom(certified: Certs, env: Env, from: nat, n: nat) {
    forall q :: from <= q < from + n ==> QuorumAt(certified, env, q)
  }

  // Those of the n rounds after `from`.
  function Ladder(certified: Certs, self: Id, env: Env, from: nat, n: nat): seq<Vertex>
    requires QuorumsFrom(certified, env, from, n)
    decreases n
  {
    if n == 0 then [] else [Prescribed(certified, self, env, from)] + Ladder(certified, self, env, from + 1, n - 1)
  }

  lemma NextIsPrescribed(b: Book, env: Env)
    requires CertifiedCount(b, b.currentRound) >= Need(env)
    ensures QuorumAt(b.certified, env, b.currentRound)
    ensures Proposed(ProposeNext(b, env).actions) == [Prescribed(b.certified, b.selfId, env, b.currentRound)]
  {
    QuorumPositive(env);
    ProposeProposes(b, env, b.currentRound + 1, ValuesInOrder(b.certified[b.currentRound], Need(env)));
  }

  lemma QuorumPositive(env: Env)
    ensures Need(env) > 0
  {
  }

  lemma QuorumsHeld(b: Book, env: Env)
    ensures var c := AdvanceLoop(b, env).book;
            c.currentRound >= b.currentRound
                && QuorumsFrom(b.certified, env, b.currentRound, c.currentRound - b.currentRound)
  {
    AdvanceStops(b, env);
    QuorumPositive(env);
    var c := AdvanceLoop(b, env).book;
    hide VertexCert.AdvanceLoop;
    forall q | b.currentRound <= q < c.currentRound ensures QuorumAt(b.certified, env, q) {
      assert CertifiedCount(b, q) >= Need(env);
    }
  }

  /** Advancing proposes one vertex for every round it enters, in order, each on top
      of the first quorum of certificates of the round before it. */
  lemma {:induction false} AdvanceProposes(b: Book, env: Env)
    ensures var s := AdvanceLoop(b, env);
            && s.book.currentRound >= b.currentRound
            && QuorumsFrom(b.certified, env, b.currentRound, s.book.currentRound - b.currentRound)
            && Proposed(s.actions) == Ladder(b.certified, b.selfId, env, b.currentRound,
                                             s.book.currentRound - b.currentRound)
    decreases |AheadOf(b)|
  {
    hide VertexCert.ProposeNext, Prescribed, Proposed, QuorumAt, QuorumsFrom;
    QuorumsHeld(b, env);
    if CertifiedCount(b, b.currentRound) >= Need(env) {
      var s := ProposeNext(b, env);
      ProposeNextFrame(b, env);
      NextIsPrescribed(b, env);
      AdvanceProposes(s.book, env);
      var t := AdvanceLoop(s.book, env);
      ProposedAppend(s.actions, t.actions);
      assert AdvanceLoop(b, env) == Step(t.book, s.actions + t.actions, true);
      var n := t.book.currentRound - b.currentRound;
      LadderStep(b.certified, b.selfId, env, b.currentRound, n);
    } else {
      NothingProposed();
    }
  }

  lemma NothingProposed()
    ensures Proposed([]) == []
  {
  }

  lemma LadderStep(certified: Certs, self: Id, env: Env, from: nat, n: nat)
    requires n > 0 && QuorumsFrom(certified, env, from, n)
    ensures QuorumAt(certified, env, from) && QuorumsFrom(certified, env, from + 1, n - 1)
    ensures Ladder(certified, self, env, from, n)
            == [Prescribed(certified, self, env, from)] + Ladder(certified, self, env, from + 1, n - 1)
  {
    hide QuorumAt;
  }

  // Another validator's signature over an own vertex, from whom none is stored yet.
  predicate Wanted(b: Book, env: Env, bp: Partial) {
    && bp.vertexHash in b.mine && bp.author == b.selfId && bp.voter != b.selfId && bp.voter in env.set_
    && (bp.vertexHash in b.collecting ==> bp.voter !in b.collecting[bp.vertexHash])
    && var v := b.mine[bp.vertexHash].vertex;
       && bp.vertexHash == v.hash && bp.round == v.round && bp.author == v.author
       && bp.sig == Signed(bp.voter, VERTEX_CERT, SigningBytes(v))
  }

  // Those whose signatures over it are stored.
  function StoredVoters(b: Book, h: Hash): set<Id> {
    if h in b.collecting then b.collecting[h].Keys else {}
  }

  // It brings an own vertex to a quorum for the first time.
  predicate Completes(b: Book, env: Env, bp: Partial) {
    && Wanted(b, env, bp) && bp.vertexHash !in b.emitted
    && |StoredVoters(b, bp.vertexHash) + {bp.voter}| >= 2 * ((|env.set_| - 1) / 3) + 1
  }

  ghost function Flagged(set_: ValidatorSet, bitmap: seq<bv8>): set<Id>
    requires |bitmap| == (|set_| + 7) / 8
  {
    set i | 0 <= i < |set_| && GetBit(bitmap, i) :: set_[i]
  }

  ghost function SignaturesBy(who: set<Id>, v: Vertex): set<VSig> {
    set x | x in who :: Signed(x, VERTEX_CERT, SigningBytes(v))
  }

  // A certificate for the vertex: one signature over it by each of the flagged validators
  // and nothing else.
  ghost predicate Certificate(set_: ValidatorSet, cv: CertifiedVertex, v: Vertex, who: set<Id>) {
    && cv.vertex == v && |cv.certificate.bitmap| == (|set_| + 7) / 8
    && Flagged(set_, cv.certificate.bitmap) == who
    && forall s :: cv.certificate.sig.parts[s] == if s in SignaturesBy(who, v) then 1 else 0
  }

  lemma IndexedKeys(set_: ValidatorSet, bitmap: seq<bv8>)
    requires Distinct(set_) && |bitmap| == ByteCount(|set_|)
    ensures var indices := Indices(bitmap, |set_|);
            && (forall i :: i in indices ==> i < |set_|)
            && Distinct(KeysAt(set_, indices)) && Members(KeysAt(set_, indices)) == Flagged(set_, bitmap)
            && |indices| == |Flagged(set_, bitmap)|
  {
    var indices := Indices(bitmap, |set_|);
    assert forall i :: i in indices <==> i in Members(indices);
    var keys := KeysAt(set_, indices);
    KeysDistinct(set_, indices);
    hide GetBit;
    forall x ensures x in Members(keys) <==> x in Flagged(set_, bitmap) {
      if x in Members(keys) {
        var j :| 0 <= j < |keys| && keys[j] == x;
        assert indices[j] in indices;
      }
      if x in Flagged(set_, bitmap) {
        var i :| 0 <= i < |set_| && GetBit(bitmap, i) && set_[i] == x;
        assert i in Members(indices);
        var j :| 0 <= j < |indices| && indices[j] == i;
        assert keys[j] == x;
      }
    }
    DistinctSize(keys);
  }

  /** A certified vertex passes verification exactly when its hash is its content hash and
      the certificate is by 2f + 1 flagged validators. */
  lemma VerifiesExactly(set_: ValidatorSet, cv: CertifiedVertex)
    requires Distinct(set_) && set_ != []
    ensures VerifyCertifiedVertex(cv, set_).Ok? <==>
              && cv.vertex.hash == OfBody(SigningBytes(cv.vertex))
              && |cv.certificate.bitmap| == (|set_| + 7) / 8
              && Certificate(set_, cv, cv.vertex, Flagged(set_, cv.certificate.bitmap))
              && |Flagged(set_, cv.certificate.bitmap)| >= 2 * ((|set_| - 1) / 3) + 1
  {
    if |cv.certificate.bitmap| == ByteCount(|set_|) {
      var indices, msg := Indices(cv.certificate.bitmap, |set_|), SigningBytes(cv.vertex);
      IndexedKeys(set_, cv.certificate.bitmap);
      var keys, parts := KeysAt(set_, indices), cv.certificate.sig.parts;
      OneEach(keys, VERTEX_CERT, msg);
      var all := multiset(SignAll(keys, VERTEX_CERT, msg));
      hide SignAll, Flagged, KeysAt, Indices;
      if Certificate(set_, cv, cv.vertex, Flagged(set_, cv.certificate.bitmap)) {
        forall s ensures parts[s] == all[s] {
          assert s.Signed? ==> (s.signer in keys <==> s.signer in Members(keys));
        }
        assert parts == all;
      }
    }
  }

  // The partial stored, and the certificate of its vertex announced.
  function Announced(b: Book, bp: Partial): Book {
    var h := bp.vertexHash;
    var held := if h in b.collecting then b.collecting[h] else map[];
    b.(collecting := b.collecting[h := held[bp.voter := bp.sig]], emitted := b.emitted + {h})
  }

  /** A certificate is announced exactly when a partial completes a quorum for an own vertex;
      it is by everyone whose signature is stored then, passes verification, and is then
      handled as if it had been delivered. Any other wanted partial is stored. */
  lemma QuorumAnnounces(b: Book, env: Env, bp: Partial)
    requires BookInv(b, env.set_) && Distinct(env.set_)
    ensures var s, h := OnVertexPartial(b, env, bp), bp.vertexHash;
            && (Completes(b, env, bp) ==>
                  && s.actions != [] && s.actions[0].BroadcastCert?
                  && Certificate(env.set_, s.actions[0].cert, b.mine[h].vertex, StoredVoters(b, h) + {bp.voter})
                  && VerifyCertifiedVertex(s.actions[0].cert, env.set_).Ok?
                  && var t := OnCertifiedVertex(Announced(b, bp), env, s.actions[0].cert);
                     s.book == t.book && s.actions[1..] == t.actions)
            && (!Completes(b, env, bp) ==> s.actions == [])
            && (Wanted(b, env, bp) && !Completes(b, env, bp) ==>
                  StoredVoters(s.book, h) == StoredVoters(b, h) + {bp.voter})
  {
    PartialCases(b, env, bp);
    WantedMeans(b, env, bp);
    StoredIs(b, bp);
    hide VertexCert.OnVertexPartial, VertexCert.OwnCertificate, Certificate, Accepts, Wanted, BookInv, VertexCert.Ready;
    hide Stored, VerifyCertifiedVertex, Announced, VertexCert.OnCertifiedVertex;
    if Accepts(b, env, bp) {
      var c, h := Stored(b, bp), bp.vertexHash;
      CompletesMeans(b, env, bp);
      if Ready(c, env, h) {
        StoredCore(b, env, bp);
        OwnCertificateVerifies(c, env, h);
        OwnCertificateIs(c, env, h);
        AnnouncesFirst(c, env, h);
        AnnouncedIs(b, bp);
      }
    }
  }

  lemma StoredIs(b: Book, bp: Partial)
    ensures var c, h := Stored(b, bp), bp.vertexHash;
            h in c.collecting && c.collecting[h].Keys == StoredVoters(b, h) + {bp.voter} && c.mine == b.mine
  {
  }

  lemma WantedMeans(b: Book, env: Env, bp: Partial)
    requires BookInv(b, env.set_)
    ensures (Wanted(b, env, bp) <==> Accepts(b, env, bp)) && env.set_ != []
  {
  }

  lemma CompletesMeans(b: Book, env: Env, bp: Partial)
    requires Accepts(b, env, bp) && Wanted(b, env, bp) && env.set_ != []
    ensures Ready(Stored(b, bp), env, bp.vertexHash) <==> Completes(b, env, bp)
    ensures bp.vertexHash in b.mine
  {
    var c, h := Stored(b, bp), bp.vertexHash;
    StoredIs(b, bp);
    assert |c.collecting[h]| == |c.collecting[h].Keys|;
    hide Wanted;
  }

  lemma StoredCore(b: Book, env: Env, bp: Partial)
    requires BookInv(b, env.set_) && Accepts(b, env, bp)
    ensures Core(Stored(b, bp), env.set_)
  {
    hide Core, Accepts;
    StoredKeeps(b, env, bp);
  }

  lemma AnnouncesFirst(b: Book, env: Env, h: Hash)
    requires Ready(b, env, h) && OwnCertificate(b, env, h).Some?
    ensures var s := TryFinalize(b, env, h);
            && s.actions != [] && s.actions[0] == BroadcastCert(OwnCertificate(b, env, h).value)
            && var t := OnCertifiedVertex(b.(emitted := b.emitted + {h}), env, OwnCertificate(b, env, h).value);
               s.book == t.book && s.actions[1..] == t.actions
  {
    hide VertexCert.OwnCertificate, VertexCert.MaybeAdvance, VertexCert.Ready;
  }

  lemma AnnouncedIs(b: Book, bp: Partial)
    ensures var c := Stored(b, bp); c.(emitted := c.emitted + {bp.vertexHash}) == Announced(b, bp)
  {
  }

  lemma OwnCertificateIs(b: Book, env: Env, h: Hash)
    requires Core(b, env.set_) && Distinct(env.set_) && Ready(b, env, h) && OwnCertificate(b, env, h).Some?
    requires env.set_ != []
    ensures Certificate(env.set_, OwnCertificate(b, env, h).value, b.mine[h].vertex, b.collecting[h].Keys)
  {
    var sigs, set_ := b.collecting[h], env.set_;
    var cs := Contributors(set_, sigs);
    hide GetBit, ContributorsFrom, Contributors, VerifyCertifiedVertex, Certificate, SetAll;
    var voters := OwnVoters(b, set_, h);
    hide Core, VertexCert.Ready, VertexCert.OwnCertificate;
    var cv := OwnBits(b, env, h, cs);
    SetAllBits(|set_|, cs);
    FlagsAreVoters(set_, cs, voters, cv.certificate.bitmap, sigs.Keys);
    VerifiesExactly(set_, cv);
    CertificateOf(set_, cv, b.mine[h].vertex, sigs.Keys);
  }

  lemma CertificateOf(set_: ValidatorSet, cv: CertifiedVertex, v: Vertex, who: set<Id>)
    requires |cv.certificate.bitmap| == ByteCount(|set_|) && cv.vertex == v
    requires Certificate(set_, cv, cv.vertex, Flagged(set_, cv.certificate.bitmap))
    requires Flagged(set_, cv.certificate.bitmap) == who
    ensures Certificate(set_, cv, v, who)
  {
    hide Flagged;
  }

  // Those whose signatures are stored, one by one as contributors.
  lemma OwnVoters(b: Book, set_: ValidatorSet, h: Hash) returns (voters: seq<Id>)
    requires Core(b, set_) && Distinct(set_) && h in b.mine && h in b.collecting
    ensures var cs := Contributors(set_, b.collecting[h]);
            && |cs| == |voters| && (forall v :: v in voters <==> v in b.collecting[h])
            && forall j :: 0 <= j < |cs| ==> cs[j].0 < |set_| && set_[cs[j].0] == voters[j]
  {
    var sigs := b.collecting[h];
    voters := Sorted(sigs.Keys);
    SortedSpec(sigs.Keys);
    forall x | x in voters ensures x in sigs && x in set_ {}
    hide Core, ContributorsFrom;
    ContributorsAre(set_, voters, sigs);
  }

  lemma OwnBits(b: Book, env: Env, h: Hash, cs: seq<Contributor>) returns (cv: CertifiedVertex)
    requires Ready(b, env, h) && OwnCertificate(b, env, h).Some? && cs == Contributors(env.set_, b.collecting[h])
    ensures cv == OwnCertificate(b, env, h).value && cv.vertex == b.mine[h].vertex
    ensures (forall j :: 0 <= j < |cs| ==> cs[j].0 < |env.set_|) && cv.certificate.bitmap == SetAll(|env.set_|, cs)
    ensures VerifyCertifiedVertex(cv, env.set_).Ok?
  {
    hide VerifyCertifiedVertex, Contributors, SetAll;
    cv := OwnCertificate(b, env, h).value;
  }

  lemma FlagsAreVoters(set_: ValidatorSet, cs: seq<Contributor>, voters: seq<Id>, bitmap: seq<bv8>, who: set<Id>)
    requires Distinct(set_) && |cs| == |voters| && |bitmap| == ByteCount(|set_|)
    requires forall j :: 0 <= j < |cs| ==> cs[j].0 < |set_| && set_[cs[j].0] == voters[j]
    requires Bits(bitmap, |set_|) == set j | 0 <= j < |cs| :: cs[j].0
    requires forall v :: v in voters <==> v in who
    ensures Flagged(set_, bitmap) == who
  {
    hide GetBit;
    forall x ensures x in Flagged(set_, bitmap) <==> x in who {
      if x in Flagged(set_, bitmap) {
        var i :| 0 <= i < |set_| && GetBit(bitmap, i) && set_[i] == x;
        assert i in Bits(bitmap, |set_|);
        var j :| 0 <= j < |cs| && cs[j].0 == i;
        assert voters[j] in voters;
      }
      if x in who {
        var j :| 0 <= j < |voters| && voters[j] == x;
        assert cs[j].0 in Bits(bitmap, |set_|);
      }
    }
  }

  // ---------------------------------------------------------------------
  // The fallback timer
  // ---------------------------------------------------------------------

  // A started node stores its proposal of the current round.
  ghost predicate HasCurrent(b: Book) {
    b.started ==> exists h :: h in b.mine && b.mine[h].vertex.round == b.currentRound
  }

  lemma ProposeHasCurrent(b: Book, env: Env, round: nat, parents: seq<Hash>)
    ensures HasCurrent(Propose(b, env, round, parents).book)
  {
    var p, c := MakeProposal(b, env, round, parents), Propose(b, env, round, parents).book;
    assert p.vertex.hash in c.mine && c.mine[p.vertex.hash] == p;
  }

  lemma {:induction false} AdvanceHasCurrent(b: Book, env: Env)
    requires HasCurrent(b)
    ensures HasCurrent(AdvanceLoop(b, env).book)
    decreases |AheadOf(b)|
  {
    if CertifiedCount(b, b.currentRound) >= Need(env) {
      ProposeHasCurrent(b, env, b.currentRound + 1, ValuesInOrder(b.certified[b.currentRound], Need(env)));
      AdvanceHasCurrent(ProposeNext(b, env).book, env);
    }
  }

  lemma PruneHasCurrent(b: Book)
    requires HasCurrent(b)
    ensures HasCurrent(Prune(b))
  {
    if b.started {
      var h :| h in b.mine && b.mine[h].vertex.round == b.currentRound;
      assert h in Prune(b).mine && Prune(b).mine[h] == b.mine[h];
    }
  }

  lemma MaybeAdvanceHasCurrent(b: Book, env: Env)
    requires HasCurrent(b)
    ensures HasCurrent(MaybeAdvance(b, env).book)
  {
    hide HasCurrent, VertexCert.Prune, VertexCert.AdvanceLoop;
    AdvanceHasCurrent(b, env);
    PruneHasCurrent(AdvanceLoop(b, env).book);
  }

  lemma PartialHasCurrent(b: Book, env: Env, bp: Partial)
    requires HasCurrent(b)
    ensures HasCurrent(OnVertexPartial(b, env, bp).book)
  {
    PartialCases(b, env, bp);
    hide VertexCert.OnVertexPartial, VertexCert.MaybeAdvance, VertexCert.OwnCertificate;
    if Accepts(b, env, bp) {
      var c, h := Stored(b, bp), bp.vertexHash;
      assert HasCurrent(c);
      if Ready(c, env, h) && OwnCertificate(c, env, h).Some? {
        var d := RecordCert(c.(emitted := c.emitted + {h}), OwnCertificate(c, env, h).value.vertex);
        assert HasCurrent(d);
        MaybeAdvanceHasCurrent(d, env);
      }
    }
  }

  /** Every handler leaves the proposal of the current round in the store. */
  lemma HandleHasCurrent(b: Book, env: Env, e: Event)
    requires HasCurrent(b)
    ensures HasCurrent(Handle(b, env, e).book)
  {
    match e
    case Start => if !b.started { ProposeHasCurrent(b.(started := true), env, 0, []); }
    case ProposalReceived(p) => ProposalCases(b, env, p);
    case PartialReceived(bp) => PartialHasCurrent(b, env, bp);
    case CertReceived(cv) => MaybeAdvanceHasCurrent(RecordCert(b, cv.vertex), env);
    case TimerFired(id) =>
  }

  /** When its timer fires short of a quorum, a node sends its proposal of the
      current round again and arms a timer that waits one round longer, up to nine. */
  lemma StalledResends(b: Book, env: Env, id: nat)
    requires HasCurrent(b) && b.started && MineOk(b) && b.roundTimer == Some(id)
    requires CertifiedCount(b, b.currentRound) < Need(env)
    ensures var s := OnTimerFired(b, env, id);
            && |s.actions| == 2 && s.actions[0].BroadcastProposal?
            && s.actions[0].proposal.vertex.hash in b.mine
            && b.mine[s.actions[0].proposal.vertex.hash] == s.actions[0].proposal
            && s.actions[0].proposal.vertex.round == b.currentRound
            && s.book.retries == (if b.retries < 8 then b.retries + 1 else 8)
            && s.actions[1] == ScheduleTimer(b.nextTimer, env.roundMillis * 1_000_000 * (s.book.retries + 1))
            && s.book.roundTimer == Some(b.nextTimer) && s.book.stalled == b.stalled + 1
  {
    var p := CurrentProposal(b.mine, b.currentRound);
    var h :| h in b.mine && b.mine[h].vertex.round == b.currentRound;
    assert p.Some?;
  }

  /** A timer that the node does not name changes nothing, and on a quorum in the current
      round the named one is merely forgotten. */
  lemma OtherTimersRest(b: Book, env: Env, id: nat)
    requires env.set_ != []
    requires b.roundTimer == Some(id) ==>
               b.currentRound in b.certified && |b.certified[b.currentRound]| >= 2 * ((|env.set_| - 1) / 3) + 1
    ensures OnTimerFired(b, env, id) == Step(if b.roundTimer == Some(id) then b.(roundTimer := None) else b, [], true)
  {
  }

  // One timer of a single round's length, armed last under the id the node names, and the
  // one named before cancelled.
  ghost predicate ArmsAfresh(b: Book, c: Book, env: Env, actions: seq<Action>) {
    && c.retries == 0 && c.roundTimer.Some? && b.nextTimer <= c.roundTimer.value < c.nextTimer
    && ScheduleTimer(c.roundTimer.value, env.roundMillis * 1_000_000) in actions
    && (forall id, d :: ScheduleTimer(id, d) in actions ==>
          d == env.roundMillis * 1_000_000 && (id == c.roundTimer.value || CancelTimer(id) in actions))
    && (b.roundTimer.Some? ==> CancelTimer(b.roundTimer.value) in actions)
  }

  lemma ProposeArms(b: Book, env: Env, round: nat, parents: seq<Hash>)
    ensures var s := Propose(b, env, round, parents); ArmsAfresh(b, s.book, env, s.actions)
  {
    hide VertexCert.MakeProposal;
    var s := Propose(b, env, round, parents);
    var k := |s.actions| - 2;
    assert s.actions[k] == ScheduleTimer(b.nextTimer, RoundDelay(env, 0));
    if b.roundTimer.Some? { assert s.actions[0] == CancelTimer(b.roundTimer.value); }
  }

  lemma ArmsTwice(b: Book, c: Book, d: Book, env: Env, x: seq<Action>, y: seq<Action>)
    requires ArmsAfresh(b, c, env, x) && ArmsAfresh(c, d, env, y)
    ensures ArmsAfresh(b, d, env, x + y)
  {
  }

  lemma {:induction false} AdvanceArms(b: Book, env: Env)
    ensures var s := AdvanceLoop(b, env);
            if s.book.currentRound == b.currentRound then s == Step(b, [], true)
            else ArmsAfresh(b, s.book, env, s.actions)
    decreases |AheadOf(b)|
  {
    hide ArmsAfresh;
    if CertifiedCount(b, b.currentRound) >= Need(env) {
      var s := ProposeNext(b, env);
      ProposeArms(b, env, b.currentRound + 1, ValuesInOrder(b.certified[b.currentRound], Need(env)));
      ProposeNextFrame(b, env);
      AdvanceArms(s.book, env);
      AdvanceStops(s.book, env);
      var t := AdvanceLoop(s.book, env);
      if t.book.currentRound == s.book.currentRound {
        assert s.actions + [] == s.actions;
      } else {
        ArmsTwice(b, s.book, t.book, env, s.actions, t.actions);
      }
    }
  }

  /** Entering a round arms a timer of one round's length and starts the retries over; a node
      that enters none leaves its timer alone. */
  lemma EnteringArms(b: Book, env: Env)
    requires b.started
    ensures var s := MaybeAdvance(b, env);
            if s.book.currentRound == b.currentRound
            then s.actions == [] && s.book.roundTimer == b.roundTimer && s.book.retries == b.retries
            else ArmsAfresh(b, s.book, env, s.actions)
  {
    AdvanceArms(b, env);
    hide VertexCert.AdvanceLoop;
  }

  /** The start proposes a vertex of round 0 without parents, signed by the node, under a
      timer of one round's length; a second start does nothing. */
  lemma StartProposes(b: Book, env: Env)
    ensures var s := Genesis(b, env);
            if b.started then s == Step(b, [], true)
            else
              var body := Body(0, b.selfId, [], env.pending(0));
              var p := Proposal(Vertex(0, b.selfId, [], env.pending(0), OfBody(body)),
                                Signed(b.selfId, VERTEX_PROPOSAL, body));
              && s.book.started && s.book.currentRound == 0 && s.book.mine == b.mine[OfBody(body) := p]
              && s.book.roundTimer == Some(b.nextTimer) && s.book.retries == 0
              && s.actions == (if b.roundTimer.Some? then [CancelTimer(b.roundTimer.value)] else [])
                              + [ScheduleTimer(b.nextTimer, env.roundMillis * 1_000_000), BroadcastProposal(p)]
  {
  }

  // ---------------------------------------------------------------------
  // What is forgotten
  // ---------------------------------------------------------------------

  /** Pruning forgets exactly what is of a round before the previous one: certificates, own
      proposals with what was collected and announced for them, seen proposals and votes. */
  lemma ForgetsExactly(b: Book)
    requires b.collecting.Keys <= b.mine.Keys && b.emitted <= b.mine.Keys
    ensures var c := Prune(b);
            && (forall r :: r in c.certified <==> r in b.certified && r + 1 >= b.currentRound)
            && (forall r :: r in c.certified ==> c.certified[r] == b.certified[r])
            && (forall h :: h in c.mine <==> h in b.mine && b.mine[h].vertex.round + 1 >= b.currentRound)
            && (forall h :: h in c.mine ==> c.mine[h] == b.mine[h])
            && (forall h :: h in c.collecting <==> h in b.collecting && b.mine[h].vertex.round + 1 >= b.currentRound)
            && (forall h :: h in c.collecting ==> c.collecting[h] == b.collecting[h])
            && (forall h :: h in c.emitted <==> h in b.emitted && b.mine[h].vertex.round + 1 >= b.currentRound)
            && (forall k :: k in c.seen <==> k in b.seen && k.round + 1 >= b.currentRound)
            && (forall k :: k in c.seen ==> c.seen[k] == b.seen[k])
            && (forall k :: k in c.voted <==> k in b.voted && k.round + 1 >= b.currentRound)
            && c == b.(certified := c.certified, mine := c.mine, collecting := c.collecting, emitted := c.emitted,
                       seen := c.seen, voted := c.voted)
  {
    var c := Prune(b);
    assert forall h :: h in b.collecting ==> h in b.mine;
    assert forall h :: h in b.emitted ==> h in b.mine;
  }

  /** A started node that looks for a quorum keeps nothing older than the round before the
      one it is in. */
  lemma AdvancingForgets(b: Book, env: Env)
    requires b.started
    ensures var c := MaybeAdvance(b, env).book;
            && (forall r :: r in c.certified ==> r + 1 >= c.currentRound)
            && (forall h :: h in c.mine ==> c.mine[h].vertex.round + 1 >= c.currentRound)
            && (forall k :: k in c.seen || k in c.voted ==> k.round + 1 >= c.currentRound)
            && c.emitted <= c.mine.Keys && c.collecting.Keys <= c.mine.Keys
  {
    hide VertexCert.AdvanceLoop;
  }
}
