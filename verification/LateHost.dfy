/** Runs of honest validators in which a host that lags behind loses its fallback timer, or
    the slow-path timer of wave 0, to the other layer. */
module LateHost {
  import opened Validators
  import opened Worlds
  import opened Certificates
  import opened VertexCert
  import opened VertexNetwork
  import opened HostViews
  import opened Stories
  import opened Dag
  import opened Grid
  import opened GridSteps
  import opened GridRuns
  import opened Ladder
  import SharedIds
  import Waves

  function VertexEnv(): Env { EnvFor(THREE) }

  function Arrives(cv: CertifiedVertex): Label { Label(3, VertexEnv(), CertReceived(cv)) }

  function StartLabel(): Label { Label(3, VertexEnv(), VertexCert.Start) }

  // The fourth validator does nothing before these labels.
  ghost predicate FirstSteps(run: seq<Net>, before: seq<Label>, steps: seq<Label>) {
    HonestRun(WorldFor(THREE), run, before + steps) && forall t :: 0 <= t < |before| ==> before[t].node != 3
  }

  // It starts and receives the certificates of some slots.
  lemma StartAndOne(q: nat, k: Id) returns (s: Story, before: seq<Label>, a: CertifiedVertex)
    requires q < 6 && k <= 2
    ensures Late(s) && s.labels == before + [StartLabel(), Arrives(a)] && a.vertex == Rung(q, k)
    ensures forall t :: 0 <= t < |before| ==> before[t].node != 3
    ensures Now(s).books[3]
            == Handle(Handle(FreshBook(3), VertexEnv(), VertexCert.Start).book, VertexEnv(), CertReceived(a)).book
  {
    ThreePlay();
    hide Playable, RowVoted, VertexCert.Handle, Late;
    var s1 := Draw(THREE, 6);
    SilentFourth(s1);
    before := s1.labels;
    var s2 := FourthStarts(s1);
    LateNow(s1, s2);
    s, a := OneMore(s2, q, k);
    assert before + [StartLabel()] + [Arrives(a)] == before + [StartLabel(), Arrives(a)];
  }

  lemma SilentFourth(s: Story)
    requires RowVoted(THREE, s, 6)
    ensures forall t :: 0 <= t < |s.labels| ==> s.labels[t].node != 3
  {
    hide Told, AtWork, OwnOpen, VotesOut, CertOut;
  }

  // All certificates of the lower rows can still be delivered to the fourth validator.
  ghost predicate Late(s: Story) {
    && s.run != [] && Told(WorldFor(THREE), s) && 3 in Now(s).books
    && forall q: nat, k: Id :: q < 6 && k <= 2 ==> CertOut(THREE, s, q, k)
  }

  lemma LateNow(s: Story, s': Story)
    requires RowVoted(THREE, s, 6) && Among(s, s', {3}) && s'.run != [] && Told(WorldFor(THREE), s')
    requires 3 in Now(s').books
    ensures Late(s')
  {
    RungsOut(s, s');
    hide Told, Among, CertOut, RowVoted, RowOf;
    forall q: nat, k: Id | q < 6 && k <= 2 ensures CertOut(THREE, s', q, k) { RowHas(q, k); }
  }

  lemma RowHas(q: nat, k: Id)
    requires q < 6 && k <= 2
    ensures k in RowOf(THREE, q)
  {
  }

  lemma OneMore(s: Story, q: nat, k: Id) returns (s': Story, cv: CertifiedVertex)
    requires Late(s) && q < 6 && k <= 2
    ensures Late(s') && s'.labels == s.labels + [Arrives(cv)] && cv.vertex == Rung(q, k)
    ensures Now(s').books[3] == Handle(Now(s).books[3], VertexEnv(), CertReceived(cv)).book
  {
    ThreePlay();
    hide Playable, Told, Among, CertOut, VertexCert.Handle, Delivered, Placed;
    s', cv := DeliverSlot(THREE, s, 3, q, k);
    CertsStay(THREE, s, s', {3});
  }

  lemma RungFacts(r: nat, i: Id)
    ensures Rung(r, i).round == r && Rung(r, i).author == i && (r > 0 ==> Rung(r - 1, 0).hash in Rung(r, i).parents)
  {
    RungFields(r, i);
    if r > 0 { RungNames(r - 1, i, 0); }
  }

  lemma LateHonest(s: Story)
    requires Late(s)
    ensures HonestRun(WorldFor(THREE), s.run, s.labels) && s.run != [] && 3 in Now(s).books
  {
    hide Told, CertOut;
    ThreeHonest(s);
  }

  /** A validator that lags behind starts, is delivered the certificate of the leader's
      round-0 vertex and then those of three children of it: its own timer is named, and no
      task is running under that id. */
  lemma FallbackStops(wave: Waves.Env)
    requires SharedIds.GoodEnvs(SharedIds.Envs(VertexEnv(), wave)) && wave.rule.leader(0) == 0
    ensures exists run: seq<Net>, before: seq<Label>,
                   a: CertifiedVertex, b: CertifiedVertex, c: CertifiedVertex, d: CertifiedVertex ::
              && FirstSteps(run, before, [StartLabel(), Arrives(a), Arrives(b), Arrives(c), Arrives(d)])
              && var n := SharedIds.AfterCerts(3, SharedIds.Envs(VertexEnv(), wave), [a, b, c, d]);
                 && run != [] && 3 in run[|run| - 1].books && run[|run| - 1].books[3] == n.book
                 && n.book.started && n.book.roundTimer == Some(0) && 0 !in n.tasks
  {
    hide VertexCert.Handle, Late, Rung, SharedIds.OnCertificate, SharedIds.Started, SharedIds.AfterCerts, HonestRun;
    var env := SharedIds.Envs(VertexEnv(), wave);
    var s1, before, a := StartAndOne(0, 0);
    var s2, b := OneMore(s1, 1, 0);
    var s3, c := OneMore(s2, 1, 1);
    var s4, d := OneMore(s3, 1, 2);
    RungFacts(0, 0);
    RungFacts(1, 0);
    RungFacts(1, 1);
    RungFacts(1, 2);
    SharedIds.WaveCommitStopsFallback(3, env, a, b, c, d);
    UnfoldsThree(env, a, b, c);
    UnfoldsFour(env, a, b, c, d);
    var x, y := [StartLabel(), Arrives(a)], [StartLabel(), Arrives(a), Arrives(b), Arrives(c), Arrives(d)];
    assert before + x + [Arrives(b)] + [Arrives(c)] + [Arrives(d)] == before + y;
    LateHonest(s4);
    assert FirstSteps(s4.run, before, y);
  }

  // The node and its book after the listed certificates, one after another.
  lemma UnfoldsFour(env: SharedIds.Envs, a: CertifiedVertex, b: CertifiedVertex, c: CertifiedVertex, d: CertifiedVertex)
    requires SharedIds.GoodEnvs(env)
    ensures SharedIds.AfterCerts(3, env, [a, b, c, d])
            == SharedIds.OnCertificate(SharedIds.AfterCerts(3, env, [a, b, c]), env, d)
    ensures SharedIds.AfterCerts(3, env, [a, b, c, d]).book
            == Handle(SharedIds.AfterCerts(3, env, [a, b, c]).book, env.vertex, CertReceived(d)).book
  {
    hide VertexCert.Handle, SharedIds.OnCertificate, SharedIds.AfterCerts, SharedIds.BookAfterCerts;
    assert [a, b, c] + [d] == [a, b, c, d];
    SharedIds.CertsAppend(3, env, [a, b, c], d);
    SharedIds.BookAfter(3, env, [a, b, c]);
    SharedIds.BookAfter(3, env, [a, b, c, d]);
  }

  lemma UnfoldsThree(env: SharedIds.Envs, a: CertifiedVertex, b: CertifiedVertex, c: CertifiedVertex)
    requires SharedIds.GoodEnvs(env)
    ensures SharedIds.AfterCerts(3, env, [a, b, c])
            == SharedIds.OnCertificate(
                 SharedIds.OnCertificate(SharedIds.OnCertificate(SharedIds.Started(3, env), env, a), env, b), env, c)
    ensures SharedIds.AfterCerts(3, env, [a, b, c]).book
            == Handle(Handle(Handle(Handle(FreshBook(3), env.vertex, VertexCert.Start).book,
                                    env.vertex, CertReceived(a)).book,
                             env.vertex, CertReceived(b)).book, env.vertex, CertReceived(c)).book
  {
    hide VertexCert.Handle, SharedIds.OnCertificate, SharedIds.Started;
    var none: seq<CertifiedVertex> := [];
    assert none + [a] == [a] && [a] + [b] == [a, b] && [a, b] + [c] == [a, b, c];
    SharedIds.CertsAppend(3, env, none, a);
    SharedIds.CertsAppend(3, env, [a], b);
    SharedIds.CertsAppend(3, env, [a, b], c);
    SharedIds.BookAfter(3, env, [a, b, c]);
  }

  /** A validator that lags behind is delivered three certificates of round 0, the leader's
      first: it enters round 1, and no task is running for wave 0, which still waits. */
  lemma WaveStops(wave: Waves.Env)
    requires SharedIds.GoodEnvs(SharedIds.Envs(VertexEnv(), wave)) && wave.rule.leader(0) == 0
    ensures exists run: seq<Net>, before: seq<Label>, a: CertifiedVertex, b: CertifiedVertex, c: CertifiedVertex ::
              && FirstSteps(run, before, [StartLabel(), Arrives(a), Arrives(b), Arrives(c)])
              && var n := SharedIds.AfterCerts(3, SharedIds.Envs(VertexEnv(), wave), [a, b, c]);
                 && run != [] && 3 in run[|run| - 1].books && run[|run| - 1].books[3] == n.book
                 && n.book.currentRound == 1 && 0 !in n.waves.committed && n.waves.slow == map[0 := 0] && 0 !in n.tasks
  {
    hide VertexCert.Handle, Late, Rung, SharedIds.OnCertificate, SharedIds.Started, SharedIds.AfterCerts, HonestRun;
    var env := SharedIds.Envs(VertexEnv(), wave);
    var s1, before, a := StartAndOne(0, 0);
    var s2, b := OneMore(s1, 0, 1);
    var s3, c := OneMore(s2, 0, 2);
    RungFacts(0, 0);
    RungFacts(0, 1);
    RungFacts(0, 2);
    SharedIds.RoundChangeStopsWave(3, env, a, b, c);
    UnfoldsThree(env, a, b, c);
    var x, y := [StartLabel(), Arrives(a)], [StartLabel(), Arrives(a), Arrives(b), Arrives(c)];
    assert before + x + [Arrives(b)] + [Arrives(c)] == before + y;
    LateHonest(s3);
    assert FirstSteps(s3.run, before, y);
  }
}
