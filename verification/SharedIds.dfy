/** Timer ids are allocated by each layer from 0 and share one registry: a wave can cancel
    the fallback timer of vertex certification, and a round change the slow-path timer of a
    wave. */
module SharedIds {
  import opened Validators
  import opened Certificates
  import opened Dag
  import opened Commit
  import opened Linearize
  import opened Timers
  import opened VertexInvariant
  import opened VertexProgress
  import opened WaveTimers
  import VertexCert
  import Waves

  // Vertex certification and wave bookkeeping of one host. Tasks of the first are `Own`.
  datatype Node = Node(book: VertexCert.Book, waves: Waves.Waves, tasks: Tasks, view: View)

  datatype Envs = Envs(vertex: VertexCert.Env, wave: Waves.Env)

  ghost predicate GoodEnvs(env: Envs) {
    && env.wave.set_ == env.vertex.set_ && |env.vertex.set_| == 4 && Distinct(env.vertex.set_)
    && env.wave.rule.shortcut >= 1 && Injective(env.wave.key)
  }

  ghost function Started(id: Id, env: Envs): Node {
    var s := VertexCert.Genesis(VertexCert.FreshBook(id), env.vertex);
    Node(s.book, Waves.FRESH, DoAll(map[], Own, OpsOf(s.actions)), View(map[], map[]))
  }

  // A certificate is indexed, then handled by vertex certification, then by the waves.
  ghost function OnCertificate(n: Node, env: Envs, cv: CertifiedVertex): Node
    requires Injective(env.wave.key)
  {
    var view := Ingest(n.view, cv.vertex);
    var s := VertexCert.Handle(n.book, env.vertex, VertexCert.CertReceived(cv));
    var t := Waves.OnCertifiedVertex(n.waves, env.wave, view, cv.vertex.round);
    Node(s.book, t.book, DoAll(DoAll(n.tasks, Own, OpsOf(s.actions)), Other, WaveOps(t.actions)), view)
  }

  lemma StartIs(id: Id, env: Envs)
    ensures var n := Started(id, env);
            && n.book.started && n.book.currentRound == 0 && n.book.certified == map[]
            && n.book.roundTimer == Some(0) && n.book.nextTimer == 1 && n.tasks == map[0 := Own]
            && n.waves == Waves.FRESH && n.view == View(map[], map[])
  {
    var b := VertexCert.FreshBook(id).(started := true);
    var p := VertexCert.MakeProposal(b, env.vertex, 0, []);
    var x, y := VertexCert.ScheduleTimer(0, VertexCert.RoundDelay(env.vertex, 0)), VertexCert.BroadcastProposal(p);
    var none: seq<VertexCert.Action> := [];
    assert none + [x, y] == [x] + [y];
    OpsAppend([x], [y]);
    OpsOne(x);
    OpsOne(y);
    var s := VertexCert.Genesis(VertexCert.FreshBook(id), env.vertex);
    assert s.actions == [x] + [y];
    assert OpsOf(s.actions) == [Schedule(0)];
    OneOp(map[], Own, Schedule(0));
  }

  lemma OneOp(tasks: Tasks, who: Owner, op: Op)
    ensures DoAll(tasks, who, [op]) == Do(tasks, who, op)
  {
    assert [op][..0] == [];
  }

  // ---------------------------------------------------------------------
  // Vertex certification
  // ---------------------------------------------------------------------

  // Short of a quorum in the current round 0, a certificate is only recorded.
  lemma OnlyRecorded(b: VertexCert.Book, env: VertexCert.Env, cv: CertifiedVertex)
    requires b.started && b.currentRound == 0
    requires VertexCert.CertifiedCount(VertexCert.RecordCert(b, cv.vertex), 0) < VertexCert.Need(env)
    ensures var s := VertexCert.Handle(b, env, VertexCert.CertReceived(cv));
            && OpsOf(s.actions) == [] && s.book.started && s.book.currentRound == 0
            && s.book.roundTimer == b.roundTimer && s.book.nextTimer == b.nextTimer
            && s.book.certified == VertexCert.RecordCert(b, cv.vertex).certified
  {
    var c := VertexCert.RecordCert(b, cv.vertex);
    assert VertexCert.AdvanceLoop(c, env).actions == [];
    assert VertexCert.RetainRounds(c.certified, 0) == c.certified;
  }

  // ---------------------------------------------------------------------
  // The wave
  // ---------------------------------------------------------------------

  // The view holds the anchor of wave 0, no other vertex of round 0 by its author, and
  // in rounds 1 and later only the listed vertices of round 1.
  ghost predicate Shows(view: View, env: Envs, a: Vertex, later: seq<Vertex>) {
    && Anchor(env.wave.rule, view, 0) == Some(a) && VerticesAt(view, 1) == later
    && forall r: nat :: r > 1 ==> VerticesAt(view, r) == []
  }

  lemma FewSupporters(view: View, env: Envs, a: Vertex, later: seq<Vertex>, s: set<Id>, window: nat)
    requires Shows(view, env, a, later) && AreSupporters(view, a.hash, 0, window, s)
    ensures |s| <= |later|
  {
    var authors: seq<Id> := seq(|later|, i requires 0 <= i < |later| => later[i].author);
    forall x | x in s ensures x in Members(authors) {
      assert Supporter(view, a.hash, 0, window, x);
      var r: nat :| 0 < r <= window && Supports(view, a.hash, r, x);
      var v :| v in VerticesAt(view, r) && v.author == x;
      assert r == 1;
      var i :| 0 <= i < |later| && later[i] == v;
      assert authors[i] == x;
    }
    assert s <= Members(authors);
    MembersSize(authors);
    var all: set<Id> := Members(authors);
    SubsetSize(s, all);
  }

  lemma {:induction false} MembersSize(s: seq<Id>)
    ensures |Members(s)| <= |s|
  {
    if s != [] {
      var m := |s| - 1;
      MembersSize(s[..m]);
      assert s == s[..m] + [s[m]];
      assert Members(s) == Members(s[..m]) + {s[m]};
    }
  }

  lemma Undecided(view: View, env: Envs, a: Vertex, later: seq<Vertex>)
    requires GoodEnvs(env) && Shows(view, env, a, later) && |later| < 3
    ensures Waves.Decided(env.wave, view, 0, false) == None
  {
    hide AreSupporters, Shows;
    if Enough(view, 4, a.hash, 0, env.wave.rule.shortcut) {
      var s :| AreSupporters(view, a.hash, 0, env.wave.rule.shortcut, s) && |s| >= 3;
      FewSupporters(view, env, a, later, s, env.wave.rule.shortcut);
    }
    AnchorShown(view, env, a, later);
  }

  lemma AnchorShown(view: View, env: Envs, a: Vertex, later: seq<Vertex>)
    requires Shows(view, env, a, later)
    ensures Anchor(env.wave.rule, view, 0) == Some(a)
  {
  }

  // Three children of the anchor by different authors decide it.
  lemma ThreeDecide(view: View, env: Envs, a: Vertex, later: seq<Vertex>)
    requires GoodEnvs(env) && Shows(view, env, a, later) && |later| == 3
    requires forall i :: 0 <= i < 3 ==> a.hash in later[i].parents
    requires later[0].author != later[1].author && later[0].author != later[2].author
    requires later[1].author != later[2].author
    ensures Waves.Decided(env.wave, view, 0, false) == Some(a.hash)
  {
    var window := env.wave.rule.shortcut;
    var s := SupportersExist(view, a.hash, 0, window);
    var authors := {later[0].author, later[1].author, later[2].author};
    forall i | 0 <= i < 3 ensures later[i].author in s {
      ReachesSelf(view, a.hash);
      assert VertexReachesSpec(view, later[i], a.hash);
      assert Supports(view, a.hash, 1, later[i].author);
      assert Supporter(view, a.hash, 0, window, later[i].author);
    }
    SubsetSize(authors, s);
    assert |authors| == 3;
    assert Enough(view, 4, a.hash, 0, window);
  }

  // ---------------------------------------------------------------------
  // The two accidents
  // ---------------------------------------------------------------------

  // Wave 0 after some certificate of rounds 0 to 3.
  lemma WaveZero(b: Waves.Waves, env: Envs, view: View, round: nat)
    requires GoodEnvs(env) && round < 4
    ensures Waves.OnCertifiedVertex(b, env.wave, view, round) == Waves.TryEmit(b, env.wave, view, 0, false)
  {
    hide Waves.TryEmit, Injective;
    var none: seq<Waves.Action> := [];
    var t := Waves.TryEmit(b, env.wave, view, 0, false);
    Waves.NoError(b, env.wave, view, 0, false);
    assert none + t.actions == t.actions;
    assert Waves.CertLoop(b, env.wave, view, 0) == Waves.WStep(b, [], true);
    assert Waves.CertLoop(b, env.wave, view, 1) == t;
  }

  // The first certificate is the anchor's: wave 0 takes timer id 0.
  lemma WaveWaits(env: Envs, view: View, a: Vertex)
    requires GoodEnvs(env) && Shows(view, env, a, [])
    ensures var t := Waves.TryEmit(Waves.FRESH, env.wave, view, 0, false);
            && t.book == Waves.FRESH.(slow := map[0 := 0], byTimer := map[0 := 0], nextTimer := 1)
            && WaveOps(t.actions) == [Schedule(0)]
  {
    hide Shows, Waves.Decided, Injective;
    Undecided(view, env, a, []);
    AnchorShown(view, env, a, []);
    var t := Waves.TryEmit(Waves.FRESH, env.wave, view, 0, false);
    assert t.actions == [Waves.ScheduleTimer(0, env.wave.delayNanos)];
    assert t.actions[..0] == [];
  }

  // While undecided, wave 0 keeps waiting.
  lemma WaveStays(b: Waves.Waves, env: Envs, view: View, a: Vertex, later: seq<Vertex>)
    requires GoodEnvs(env) && Shows(view, env, a, later) && |later| < 3 && 0 in b.slow && 0 !in b.committed
    ensures var t := Waves.TryEmit(b, env.wave, view, 0, false); t.book == b && WaveOps(t.actions) == []
  {
    hide Shows, Waves.Decided, Injective;
    Undecided(view, env, a, later);
  }

  // Deciding it cancels its timer.
  lemma WaveCommits(b: Waves.Waves, env: Envs, view: View, a: Vertex, later: seq<Vertex>, tasks: Tasks)
    requires GoodEnvs(env) && Waves.Decided(env.wave, view, 0, false) == Some(a.hash) && 0 in b.slow && b.slow[0] == 0
    requires 0 !in b.committed
    ensures var t := Waves.TryEmit(b, env.wave, view, 0, false); 0 !in DoAll(tasks, Other, WaveOps(t.actions))
  {
    hide Waves.Decided, Injective, Order, Waves.MicroOf;
    var t := Waves.TryEmit(b, env.wave, view, 0, false);
    var x := Waves.CancelTimer(0);
    assert t.actions[0] == x;
    if |t.actions| == 1 {
      assert t.actions == [x] && [x][..0] == [];
      assert WaveOps(t.actions) == [Cancel(0)];
    } else {
      assert |t.actions| == 2 && t.actions[1].BroadcastMicroQc?;
      assert t.actions[..1] == [x] && [x][..0] == [];
      assert WaveOps([x]) == [Cancel(0)];
      assert WaveOps(t.actions) == [Cancel(0)];
    }
    OneOp(tasks, Other, Cancel(0));
  }

  // The fallback timer and the wave's timer are both armed, under id 0; `own` round-0
  // certificates and the children of the anchor are in.
  ghost predicate BothArmed(n: Node, env: Envs, a: Vertex, own: nat, later: seq<Vertex>) {
    && n.book.started && n.book.currentRound == 0 && n.book.roundTimer == Some(0) && n.book.nextTimer == 1
    && VertexCert.CertifiedCount(n.book, 0) == own && n.book.certified.Keys <= {0, 1}
    && n.waves == Waves.FRESH.(slow := map[0 := 0], byTimer := map[0 := 0], nextTimer := 1)
    && n.tasks == map[0 := Other] && Shows(n.view, env, a, later)
  }

  lemma AnchorArrives(id: Id, env: Envs, a: CertifiedVertex)
    requires GoodEnvs(env) && a.vertex.round == 0 && a.vertex.author == env.wave.rule.leader(0)
    ensures BothArmed(OnCertificate(Started(id, env), env, a), env, a.vertex, 1, [])
    ensures OnCertificate(Started(id, env), env, a).book.certified == map[0 := map[a.vertex.author := a.vertex.hash]]
  {
    hide Waves.TryEmit, Injective, VertexCert.Handle, Started, Waves.OnCertifiedVertex;
    var n := Started(id, env);
    var view := Ingest(n.view, a.vertex);
    StartIs(id, env);
    assert VerticesAt(n.view, 0) == [] && VerticesAt(view, 0) == [a.vertex];
    WaveZero(n.waves, env, view, 0);
    WaveWaits(env, view, a.vertex);
    OnlyRecorded(n.book, env.vertex, a);
    OneOp(n.tasks, Other, Schedule(0));
  }

  // A child of the anchor arrives and the wave is not decided yet.
  lemma ChildArrives(n: Node, env: Envs, a: Vertex, later: seq<Vertex>, cv: CertifiedVertex)
    requires GoodEnvs(env) && BothArmed(n, env, a, 1, later) && |later| < 2 && cv.vertex.round == 1
    ensures BothArmed(OnCertificate(n, env, cv), env, a, 1, later + [cv.vertex])
  {
    hide Waves.TryEmit, Injective, VertexCert.Handle;
    var view := Ingest(n.view, cv.vertex);
    ShowsMore(n.view, env, a, later, cv.vertex);
    WaveZero(n.waves, env, view, 1);
    WaveStays(n.waves, env, view, a, later + [cv.vertex]);
    OnlyRecorded(n.book, env.vertex, cv);
  }

  lemma ShowsMore(view: View, env: Envs, a: Vertex, later: seq<Vertex>, v: Vertex)
    requires Shows(view, env, a, later) && v.round == 1
    ensures Shows(Ingest(view, v), env, a, later + [v])
  {
    forall r: nat ensures VerticesAt(Ingest(view, v), r) == VerticesAt(view, r) + if r == 1 then [v] else [] {
      IngestAt(view, v, r);
    }
  }

  /** Whenever, of four validators, a started node receives the certificate of the leader's
      round-0 vertex and then three children of it by different authors, wave 0 commits and
      no task is running for the fallback timer that the node still names. */
  lemma WaveCommitStopsFallback(id: Id, env: Envs, a: CertifiedVertex, b: CertifiedVertex, c: CertifiedVertex,
                                d: CertifiedVertex)
    requires GoodEnvs(env) && a.vertex.round == 0 && a.vertex.author == env.wave.rule.leader(0)
    requires b.vertex.round == c.vertex.round == d.vertex.round == 1
    requires b.vertex.author != c.vertex.author && b.vertex.author != d.vertex.author
    requires c.vertex.author != d.vertex.author
    requires a.vertex.hash in b.vertex.parents && a.vertex.hash in c.vertex.parents && a.vertex.hash in d.vertex.parents
    ensures var m := OnCertificate(OnCertificate(Started(id, env), env, a), env, b);
            var n := OnCertificate(OnCertificate(m, env, c), env, d);
            && n.book.started && n.book.roundTimer == Some(0) && VertexCert.CertifiedCount(n.book, 0) == 1
            && 0 !in n.tasks
  {
    hide Waves.TryEmit, Injective, VertexCert.Handle, Started;
    AnchorArrives(id, env, a);
    var n1 := OnCertificate(Started(id, env), env, a);
    ChildArrives(n1, env, a.vertex, [], b);
    var n2 := OnCertificate(n1, env, b);
    assert [] + [b.vertex] == [b.vertex];
    ChildArrives(n2, env, a.vertex, [b.vertex], c);
    var n3 := OnCertificate(n2, env, c);
    assert [b.vertex] + [c.vertex] == [b.vertex, c.vertex];
    LastChild(n3, env, a.vertex, b.vertex, c.vertex, d);
  }

  lemma LastChild(n: Node, env: Envs, a: Vertex, b: Vertex, c: Vertex, d: CertifiedVertex)
    requires GoodEnvs(env) && BothArmed(n, env, a, 1, [b, c]) && d.vertex.round == 1
    requires b.author != c.author && b.author != d.vertex.author && c.author != d.vertex.author
    requires a.hash in b.parents && a.hash in c.parents && a.hash in d.vertex.parents
    ensures var m := OnCertificate(n, env, d);
            m.book.started && m.book.roundTimer == Some(0) && VertexCert.CertifiedCount(m.book, 0) == 1 && 0 !in m.tasks
  {
    hide Waves.TryEmit, Injective, VertexCert.Handle, Waves.Decided;
    var view := Ingest(n.view, d.vertex);
    ShowsMore(n.view, env, a, [b, c], d.vertex);
    assert [b, c] + [d.vertex] == [b, c, d.vertex];
    WaveZero(n.waves, env, view, 1);
    ThreeDecide(view, env, a, [b, c, d.vertex]);
    OnlyRecorded(n.book, env.vertex, d);
    WaveCommits(n.waves, env, view, a, [b, c, d.vertex], n.tasks);
  }

  // Another certificate of round 0, still no quorum.
  lemma PeerArrives(n: Node, env: Envs, a: Vertex, cv: CertifiedVertex)
    requires GoodEnvs(env) && BothArmed(n, env, a, 1, []) && cv.vertex.round == 0
    requires 0 in n.book.certified && cv.vertex.author !in n.book.certified[0]
    ensures BothArmed(OnCertificate(n, env, cv), env, a, 2, [])
    ensures OnCertificate(n, env, cv).book.certified == VertexCert.RecordCert(n.book, cv.vertex).certified
  {
    hide Waves.TryEmit, Injective, VertexCert.Handle;
    var view := Ingest(n.view, cv.vertex);
    ShowsPeer(n.view, env, a, cv.vertex);
    WaveZero(n.waves, env, view, 0);
    WaveStays(n.waves, env, view, a, []);
    OnlyRecorded(n.book, env.vertex, cv);
  }

  lemma ShowsPeer(view: View, env: Envs, a: Vertex, v: Vertex)
    requires Shows(view, env, a, []) && v.round == 0
    ensures Shows(Ingest(view, v), env, a, [])
  {
    forall r: nat ensures VerticesAt(Ingest(view, v), r) == VerticesAt(view, r) + if r == 0 then [v] else [] {
      IngestAt(view, v, r);
    }
    FirstByAppend(VerticesAt(view, 0), v, env.wave.rule.leader(0));
  }

  // The certificate that completes round 0: the node enters round 1.
  lemma EntersNext(b: VertexCert.Book, env: VertexCert.Env, cv: CertifiedVertex)
    requires |env.set_| == 4 && b.started && b.currentRound == 0 && b.roundTimer == Some(0) && b.nextTimer == 1
    requires b.certified.Keys <= {0} && cv.vertex.round == 0
    requires VertexCert.CertifiedCount(VertexCert.RecordCert(b, cv.vertex), 0) == 3
    ensures var s := VertexCert.Handle(b, env, VertexCert.CertReceived(cv));
            OpsOf(s.actions) == [Cancel(0), Schedule(1)] && s.book.currentRound == 1
  {
    var c := VertexCert.RecordCert(b, cv.vertex);
    var parents := VertexCert.ValuesInOrder(c.certified[0], 3);
    var s := VertexCert.ProposeNext(c, env);
    assert s == VertexCert.Propose(c, env, 1, parents);
    assert VertexCert.AdvanceLoop(s.book, env) == VertexCert.Step(s.book, [], true);
    EnterOps(s.actions);
    assert s.actions + [] == s.actions;
  }

  lemma EnterOps(actions: seq<VertexCert.Action>)
    requires |actions| == 3 && actions[0] == VertexCert.CancelTimer(0) && actions[1].ScheduleTimer?
    requires actions[1].id == 1
    requires actions[2].BroadcastProposal?
    ensures OpsOf(actions) == [Cancel(0), Schedule(1)]
  {
    var x, y, z := actions[0], actions[1], actions[2];
    assert actions == [x] + ([y] + [z]);
    OpsAppend([x], [y] + [z]);
    OpsAppend([y], [z]);
    OpsOne(x);
    OpsOne(y);
    OpsOne(z);
  }

  /** Whenever, of four validators, a started node receives the leader's round-0 certificate
      and then two more of that round, it enters round 1, and no task is running for the
      slow-path timer that undecided wave 0 waits for. */
  lemma RoundChangeStopsWave(id: Id, env: Envs, a: CertifiedVertex, b: CertifiedVertex, c: CertifiedVertex)
    requires GoodEnvs(env) && a.vertex.round == 0 && a.vertex.author == env.wave.rule.leader(0)
    requires b.vertex.round == 0 && c.vertex.round == 0
    requires a.vertex.author != b.vertex.author && a.vertex.author != c.vertex.author
    requires b.vertex.author != c.vertex.author
    ensures var n := OnCertificate(OnCertificate(OnCertificate(Started(id, env), env, a), env, b), env, c);
            && n.book.currentRound == 1 && 0 !in n.waves.committed && n.waves.slow == map[0 := 0]
            && 0 !in n.tasks
  {
    hide Waves.TryEmit, Injective, VertexCert.Handle, Started;
    AnchorArrives(id, env, a);
    var n1 := OnCertificate(Started(id, env), env, a);
    PeerArrives(n1, env, a.vertex, b);
    var n2 := OnCertificate(n1, env, b);
    var view := Ingest(n2.view, c.vertex);
    ShowsPeer(n2.view, env, a.vertex, c.vertex);
    WaveZero(n2.waves, env, view, 0);
    WaveStays(n2.waves, env, view, a.vertex, []);
    CountThree(n1.book, n2.book, a.vertex, b.vertex, c.vertex);
    EntersNext(n2.book, env.vertex, c);
    TwoOps(n2.tasks);
  }

  lemma CountThree(m: VertexCert.Book, n: VertexCert.Book, a: Vertex, b: Vertex, c: Vertex)
    requires m.certified == map[0 := map[a.author := a.hash]] && b.round == 0 && c.round == 0
    requires n.certified == VertexCert.RecordCert(m, b).certified
    requires a.author != b.author && a.author != c.author && b.author != c.author
    ensures n.certified.Keys <= {0} && VertexCert.CertifiedCount(VertexCert.RecordCert(n, c), 0) == 3
  {
    assert n.certified[0] == map[a.author := a.hash][b.author := b.hash];
  }

  lemma TwoOps(tasks: Tasks)
    ensures DoAll(tasks, Own, [Cancel(0), Schedule(1)]) == (tasks - {0})[1 := Own]
  {
    assert [Cancel(0), Schedule(1)][..1] == [Cancel(0)];
    OneOp(tasks, Own, Cancel(0));
  }

  // A node that has started and received certificates.
  ghost function AfterCerts(id: Id, env: Envs, certs: seq<CertifiedVertex>): Node
    requires Injective(env.wave.key)
  {
    if certs == [] then Started(id, env)
    else OnCertificate(AfterCerts(id, env, certs[..|certs| - 1]), env, certs[|certs| - 1])
  }

  // Its book is what the handlers of vertex certification make of it.
  ghost function BookAfterCerts(id: Id, env: VertexCert.Env, certs: seq<CertifiedVertex>): VertexCert.Book {
    if certs == [] then VertexCert.Handle(VertexCert.FreshBook(id), env, VertexCert.Start).book
    else VertexCert.Handle(BookAfterCerts(id, env, certs[..|certs| - 1]), env,
                           VertexCert.CertReceived(certs[|certs| - 1])).book
  }

  lemma {:induction false} BookAfter(id: Id, env: Envs, certs: seq<CertifiedVertex>)
    requires Injective(env.wave.key)
    ensures AfterCerts(id, env, certs).book == BookAfterCerts(id, env.vertex, certs)
  {
    hide VertexCert.OnCertifiedVertex, Waves.OnCertifiedVertex, Injective;
    if certs != [] { BookAfter(id, env, certs[..|certs| - 1]); }
  }

  lemma CertsAppend(id: Id, env: Envs, certs: seq<CertifiedVertex>, cv: CertifiedVertex)
    requires Injective(env.wave.key)
    ensures AfterCerts(id, env, certs + [cv]) == OnCertificate(AfterCerts(id, env, certs), env, cv)
    ensures BookAfterCerts(id, env.vertex, certs + [cv])
            == VertexCert.Handle(BookAfterCerts(id, env.vertex, certs), env.vertex, VertexCert.CertReceived(cv)).book
  {
    hide VertexCert.Handle, Waves.OnCertifiedVertex, Injective, OnCertificate;
    assert (certs + [cv])[..|certs|] == certs;
  }
}
