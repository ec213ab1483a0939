/** What the hosts of a run have indexed: the views that the claims about two nodes are
    about. */
module HostViews {
  import opened Validators
  import opened Worlds
  import opened Certificates
  import opened VertexCert
  import opened VertexNetwork
  import opened VertexSafety
  import opened Dag
  import opened Commit
  import opened Linearize
  import opened CertifiedDag
  import Waves

  // The vertices of the certificates delivered to a host, in order. The host passes on to
  // the state machine only what it has verified and indexed.
  function Delivered(labels: seq<Label>, i: Id): seq<Vertex> {
    if labels == [] then []
    else
      var m := |labels| - 1;
      Delivered(labels[..m], i)
      + if labels[m].node == i && labels[m].event.CertReceived? then [labels[m].event.cert.vertex] else []
  }

  function HostView(labels: seq<Label>, i: Id): View { Ingested(Delivered(labels, i)) }

  lemma {:induction false} DeliveredIsCertified(w: World, run: seq<Net>, labels: seq<Label>, i: Id, t: nat, v: Vertex)
    requires Distinct(w.set_) && Run(w, run, labels) && t <= |labels| && v in Delivered(labels[..t], i)
    ensures v.hash == ContentHash(v) && Certifiable(w, run[t].signed, SigningBytes(v))
  {
    hide VertexCert.Handle, VertexNetwork.Deliverable, Certifiable;
    var l, earlier := labels[t - 1], labels[..t - 1];
    assert labels[..t][..t - 1] == earlier && labels[..t][t - 1] == l;
    assert NodeStep(w, run[t - 1], run[t - 1 + 1], l.node, l.env, l.event);
    SignedGrows(w, run, labels, t - 1, t);
    if v in Delivered(earlier, i) {
      DeliveredIsCertified(w, run, labels, i, t - 1, v);
    } else {
      AcceptedIsCertifiable(w, run[t - 1].signed, l.event.cert);
    }
    CertifiableGrows(w, run[t - 1].signed, run[t].signed, SigningBytes(v));
  }

  /** In every run the view of every host is a certified one. */
  lemma HostIsCertified(w: World, run: seq<Net>, labels: seq<Label>, i: Id, t: nat)
    requires Distinct(w.set_) && Run(w, run, labels) && t <= |labels|
    ensures CertifiedView(w, run[t], HostView(labels[..t], i))
  {
    RunShape(w, run, labels);
    hide Run, Certifiable, Ingested, Delivered;
    var vs := Delivered(labels[..t], i);
    forall v | v in vs ensures v.hash == ContentHash(v) && Certifiable(w, run[t].signed, SigningBytes(v)) {
      DeliveredIsCertified(w, run, labels, i, t, v);
    }
    IngestedIsCertified(w, run[t], vs);
  }

  lemma IngestedIsCertified(w: World, n: Net, vs: seq<Vertex>)
    requires forall v :: v in vs ==> v.hash == ContentHash(v) && Certifiable(w, n.signed, SigningBytes(v))
    ensures CertifiedView(w, n, Ingested(vs))
  {
    hide Certifiable, Ingested;
    var view := Ingested(vs);
    forall r: nat, v | v in VerticesAt(view, r) ensures Filed(w, n, view, r, v) {
      IngestedRounds(vs, r, v);
      IngestedFinds(vs, v);
    }
    forall h | h in view.byHash
      ensures view.byHash[h].hash == h && view.byHash[h] in VerticesAt(view, view.byHash[h].round)
    {
      IngestedHashes(vs, h);
      IngestedRounds(vs, view.byHash[h].round, view.byHash[h]);
    }
  }

  /** If host i, on whatever it has indexed, commits a wave by the two-round shortcut, then
      the anchor is in the past of every honest author's vertex from the third round after
      it on that host j has indexed, at whatever times, if j lacks no parent above it. */
  lemma HostsKeepAnchor(w: World, run: seq<Net>, labels: seq<Label>, i: Id, s: nat, j: Id, t: nat,
                        rule: Rule, wave: nat, anchor: Hash, round: nat, v: Vertex)
    requires GoodWorld(w) && Run(w, run, labels) && s <= |labels| && t <= |labels|
    requires rule.shortcut == 2 && Commits(rule, |w.set_|, HostView(labels[..s], i), wave, false, anchor)
    requires CompleteAbove(HostView(labels[..t], j), FirstRound(wave))
    requires round >= FirstRound(wave) + 3 && v in VerticesAt(HostView(labels[..t], j), round) && Honest(w, v.author)
    ensures Reaches(HostView(labels[..t], j), v.hash, anchor)
  {
    hide Inv, CertifiedView, Run, HostView, CompleteAbove, Commits, Reaches;
    var m := if s < t then t else s;
    RunShape(w, run, labels);
    SignedGrows(w, run, labels, s, m);
    SignedGrows(w, run, labels, t, m);
    HostIsCertified(w, run, labels, i, s);
    HostIsCertified(w, run, labels, j, t);
    ViewStays(w, run[s], run[m], HostView(labels[..s], i));
    ViewStays(w, run[t], run[m], HostView(labels[..t], j));
    CommittedAnchorIsKeptEverywhere(w, run, labels, m, HostView(labels[..s], i), HostView(labels[..t], j), rule, wave,
                                    anchor, round, v);
  }

  lemma RunShape(w: World, run: seq<Net>, labels: seq<Label>)
    requires Run(w, run, labels)
    ensures |run| == |labels| + 1
  {
  }

  /** Two hosts that commit a wave, by either path and at any times, commit the same anchor;
      the same order, and the same micro certificate, if both hold all it reaches. */
  lemma HostsAgreeOnWave(w: World, run: seq<Net>, labels: seq<Label>, i: Id, s: nat, j: Id, t: nat,
                         env: Waves.Env, wave: nat, early: bool, late: bool)
    requires GoodWorld(w) && Run(w, run, labels) && s <= |labels| && t <= |labels| && Injective(env.key)
    requires env.set_ == w.set_
    requires Waves.Decided(env, HostView(labels[..s], i), wave, early).Some?
    requires Waves.Decided(env, HostView(labels[..t], j), wave, late).Some?
    ensures var x, y := HostView(labels[..s], i), HostView(labels[..t], j);
            var a, b := Waves.Decided(env, x, wave, early).value, Waves.Decided(env, y, wave, late).value;
            && a == b
            && (HoldsClosure(x, a) && HoldsClosure(y, b) ==>
                  Order(x, env.key, a) == Order(y, env.key, b)
                  && Waves.MicroOf(env, x, Order(x, env.key, a)) == Waves.MicroOf(env, y, Order(y, env.key, b)))
            && (AgreeOn(x, y, a) ==> Order(x, env.key, a) == Order(y, env.key, b))
  {
    hide Inv, CertifiedView, Run, HostView, Injective, Order, Enough, HoldsClosure, AgreeOn, Waves.MicroOf;
    RunShape(w, run, labels);
    HostIsCertified(w, run, labels, i, s);
    HostIsCertified(w, run, labels, j, t);
    var x, y := HostView(labels[..s], i), HostView(labels[..t], j);
    var a, b := Waves.Decided(env, x, wave, early).value, Waves.Decided(env, y, wave, late).value;
    SameWaveSameOrder(w, run, labels, s, t, x, y, env.rule, env.key, wave, a, b, early, late);
    if HoldsClosure(x, a) && HoldsClosure(y, b) {
      SameMicroCertificate(w, run, labels, s, t, x, y, env, wave, early, late);
    }
  }

  lemma {:induction false} DeliveredAppend(a: seq<Label>, b: seq<Label>, i: Id)
    ensures Delivered(a + b, i) == Delivered(a, i) + Delivered(b, i)
  {
    if b == [] {
      assert a + b == a;
    } else {
      var m := |b| - 1;
      DeliveredAppend(a, b[..m], i);
      assert (a + b)[..|a + b| - 1] == a + b[..m];
    }
  }
}
