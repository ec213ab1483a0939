/** Runs put together step by step, in which nothing is delivered that was not sent. */
module Stories {
  import opened Validators
  import opened Worlds
  import opened Certificates
  import opened VertexCert
  import opened VertexInvariant
  import opened VertexNetwork
  import opened VertexSafety
  import opened HostViews

  // Everything nodes have sent in the first t steps.
  ghost function Posts(run: seq<Net>, labels: seq<Label>, t: nat): set<Action>
    requires t <= |labels| < |run|
  {
    if t == 0 then {}
    else
      Posts(run, labels, t - 1)
      + if labels[t - 1].node in run[t - 1].books then Members(ActionsAt(run, labels, t - 1)) else {}
  }

  // A message was sent by the honest node it comes from, or comes from another.
  ghost predicate Sent(w: World, posts: set<Action>, e: Event) {
    match e
    case Start => true
    case ProposalReceived(p) => p.vertex.author in w.byzantine || BroadcastProposal(p) in posts
    case PartialReceived(bp) => bp.voter in w.byzantine || BroadcastPartial(bp) in posts
    case CertReceived(cv) => cv.vertex.author in w.byzantine || BroadcastCert(cv) in posts
    case TimerFired(_) => true
  }

  ghost predicate Posted(w: World, run: seq<Net>, labels: seq<Label>) {
    |labels| < |run| && forall t :: 0 <= t < |labels| ==> Sent(w, Posts(run, labels, t), labels[t].event)
  }

  // A run of honest validators only.
  ghost predicate HonestRun(w: World, run: seq<Net>, labels: seq<Label>) {
    GoodWorld(w) && w.byzantine == {} && Run(w, run, labels) && Posted(w, run, labels)
  }

  datatype Story = Story(run: seq<Net>, labels: seq<Label>)

  ghost predicate Told(w: World, s: Story) {
    Run(w, s.run, s.labels) && Posted(w, s.run, s.labels)
  }

  ghost function Now(s: Story): Net
    requires s.run != []
  {
    s.run[|s.run| - 1]
  }

  ghost function Said(s: Story): set<Action> {
    if |s.labels| < |s.run| then Posts(s.run, s.labels, |s.labels|) else {}
  }

  // The story goes on with steps of the listed nodes only.
  ghost predicate Among(s: Story, s': Story, ids: set<Id>) {
    && s.run != [] && s'.run != [] && s.labels <= s'.labels && s.run <= s'.run
    && Now(s').books.Keys == Now(s).books.Keys && Now(s).signed <= Now(s').signed && Said(s) <= Said(s')
    && (forall j :: j in Now(s).books && j !in ids ==> Now(s').books[j] == Now(s).books[j])
    && (forall j: Id :: j !in ids ==> Delivered(s'.labels, j) == Delivered(s.labels, j))
    && forall t :: |s.labels| <= t < |s'.labels| ==> s'.labels[t].node in ids
  }

  lemma AmongSelf(s: Story, ids: set<Id>)
    requires s.run != []
    ensures Among(s, s, ids)
  {
  }

  lemma AmongJoin(a: Story, b: Story, c: Story, x: set<Id>, y: set<Id>)
    requires Among(a, b, x) && Among(b, c, y)
    ensures Among(a, c, x + y)
  {
    hide Said, Now, Delivered;
    forall t | |a.labels| <= t < |c.labels| ensures c.labels[t].node in x + y {
      if t < |b.labels| { assert c.labels[t] == b.labels[t]; }
    }
  }

  lemma {:induction false} PostsPrefix(run: seq<Net>, labels: seq<Label>, n: Net, l: Label, t: nat)
    requires t <= |labels| < |run|
    ensures Posts(run + [n], labels + [l], t) == Posts(run, labels, t)
  {
    hide VertexCert.Handle;
    if t > 0 { PostsPrefix(run, labels, n, l, t - 1); }
  }

  lemma RunExtend(w: World, run: seq<Net>, labels: seq<Label>, n: Net, l: Label)
    requires Run(w, run, labels) && NodeStep(w, run[|labels|], n, l.node, l.env, l.event)
    ensures Run(w, run + [n], labels + [l])
  {
    hide NodeStep, Init;
    var r, ls := run + [n], labels + [l];
    forall t | 0 <= t < |ls| ensures NodeStep(w, r[t], r[t + 1], ls[t].node, ls[t].env, ls[t].event) {
      if t < |labels| { assert r[t] == run[t] && r[t + 1] == run[t + 1] && ls[t] == labels[t]; }
    }
  }

  lemma PostedExtend(w: World, run: seq<Net>, labels: seq<Label>, n: Net, l: Label)
    requires Posted(w, run, labels) && |run| == |labels| + 1 && Sent(w, Posts(run, labels, |labels|), l.event)
    ensures Posted(w, run + [n], labels + [l])
  {
    hide Posts, Sent;
    var r, ls := run + [n], labels + [l];
    forall t | 0 <= t < |ls| ensures Sent(w, Posts(r, ls, t), ls[t].event) {
      PostsPrefix(run, labels, n, l, t);
      if t < |labels| { assert ls[t] == labels[t]; }
    }
  }

  lemma TellFirst(w: World, n: Net)
    requires Init(w, n)
    ensures Told(w, Story([n], [])) && Now(Story([n], [])) == n
  {
  }

  lemma ToldShape(w: World, s: Story)
    requires Told(w, s)
    ensures |s.run| == |s.labels| + 1
  {
    hide Posts;
  }

  // The story after one more step.
  ghost function Next(s: Story, i: Id, env: Env, e: Event): Story
    requires s.run != [] && i in Now(s).books
  {
    var h := Handle(Now(s).books[i], env, e);
    Story(s.run + [Net(Now(s).books[i := h.book], Now(s).signed + Sigs(i, h.actions))], s.labels + [Label(i, env, e)])
  }

  lemma NextTold(w: World, s: Story, i: Id, env: Env, e: Event)
    requires Told(w, s) && s.run != [] && i in Now(s).books && env.set_ == w.set_
    requires Deliverable(w, Now(s).signed, e) && Sent(w, Said(s), e)
    ensures Told(w, Next(s, i, env, e))
  {
    hide VertexCert.Handle, Deliverable, Sent, Init, Run, Posted;
    ToldShape(w, s);
    var n, l := Now(Next(s, i, env, e)), Label(i, env, e);
    RunExtend(w, s.run, s.labels, n, l);
    PostedExtend(w, s.run, s.labels, n, l);
  }

  lemma NextSaid(s: Story, i: Id, env: Env, e: Event)
    requires |s.run| == |s.labels| + 1 && i in Now(s).books
    ensures Said(Next(s, i, env, e)) == Said(s) + Members(Handle(Now(s).books[i], env, e).actions)
  {
    hide VertexCert.Handle;
    var s' := Next(s, i, env, e);
    PostsPrefix(s.run, s.labels, Now(s'), Label(i, env, e), |s.labels|);
    assert s'.run[|s.labels|] == Now(s) && s'.labels[|s.labels|] == Label(i, env, e);
  }

  lemma NextDelivered(s: Story, i: Id, env: Env, e: Event, j: Id)
    requires s.run != [] && i in Now(s).books
    ensures Delivered(Next(s, i, env, e).labels, j)
            == Delivered(s.labels, j) + if j == i && e.CertReceived? then [e.cert.vertex] else []
  {
    hide VertexCert.Handle;
    var s' := Next(s, i, env, e);
    assert s'.labels[..|s.labels|] == s.labels;
  }

  /** One more step of a node: the event has to be deliverable, and sent. */
  lemma Take(w: World, s: Story, i: Id, env: Env, e: Event) returns (s': Story)
    requires Told(w, s) && s.run != [] && i in Now(s).books && env.set_ == w.set_
    requires Deliverable(w, Now(s).signed, e) && Sent(w, Said(s), e)
    ensures Told(w, s') && Among(s, s', {i})
    ensures s'.run != [] && i in Now(s').books && Now(s').books[i] == Handle(Now(s).books[i], env, e).book
    ensures forall a :: a in Handle(Now(s).books[i], env, e).actions ==>
              a in Said(s') && ActionSigs(i, a) <= Now(s').signed
    ensures Delivered(s'.labels, i) == Delivered(s.labels, i) + if e.CertReceived? then [e.cert.vertex] else []
    ensures s'.labels == s.labels + [Label(i, env, e)]
  {
    hide VertexCert.Handle, Deliverable, Sent, ActionSigs, Told, Said, Delivered;
    ToldShape(w, s);
    s' := Next(s, i, env, e);
    NextTold(w, s, i, env, e);
    NextSaid(s, i, env, e);
    forall j: Id
      ensures Delivered(s'.labels, j) == Delivered(s.labels, j)
              + if j == i && e.CertReceived? then [e.cert.vertex] else []
    {
      NextDelivered(s, i, env, e, j);
    }
    var h := Handle(Now(s).books[i], env, e);
    forall a | a in h.actions ensures a in Said(s') && ActionSigs(i, a) <= Now(s').signed {
      SigOfAction(i, h.actions, a);
    }
  }

  lemma ToldInv(w: World, s: Story, i: Id)
    requires Distinct(w.set_) && Told(w, s) && s.run != [] && i in Now(s).books
    ensures Inv(w, Now(s)) && BookInv(Now(s).books[i], w.set_)
  {
    hide Run, Posts;
    RunInv(w, s.run, s.labels, |s.run| - 1);
  }
}
