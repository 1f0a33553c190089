/** In which order a client of the Broadcaster (internal/broadcast/broadcast.go) gets its messages. */
module BroadcastOrder {
  import opened Common
  import opened Broadcaster

  function AsSeq(m: Option<Msg>): seq<Msg> {
    match m case Some(x) => [x] case None => []
  }

  /** What has gone through the client's queue, in the order in which it went. */
  function Pipeline(k: Client): seq<Msg> { k.appended + AsSeq(k.hand) + k.queue }

  /** A step of the goroutines of client c: one that was started for it, or its processQueue. */
  predicate OnClient(e: Event, c: nat) {
    match e
    case Enqueue(d, _) => d == c
    case Dequeue(d) => d == c
    case Append(d) => d == c
    case _ => false
  }

  predicate AllOnClient(es: seq<Event>, c: nat) { forall e :: e in es ==> OnClient(e, c) }

  predicate Quiet(k: Client) { k.inFlight == multiset{} && k.queue == [] && k.hand == None }

  /** A run of the client's own steps until nothing is left to do for it. */
  ghost predicate Drains(h: Hub, es: seq<Event>, c: nat) {
    ValidRun(h, es) && AllOnClient(es, c) && c < |Run(h, es).objects| && Quiet(Run(h, es).objects[c])
  }

  // ---------------------------------------------------------------- every order is possible, and no other result

  lemma {:induction false} RunsCompose(h: Hub, es: seq<Event>, fs: seq<Event>)
    requires ValidRun(h, es) && ValidRun(Run(h, es), fs)
    ensures ValidRun(h, es + fs) && Run(h, es + fs) == Run(Run(h, es), fs)
    decreases |es|
  {
    var all := es + fs;
    if es == [] {
      assert all == fs;
    } else {
      RunsCompose(Apply(h, es[0]), es[1..], fs);
      assert all[1..] == es[1..] + fs;
    }
  }

  lemma OneStep(h: Hub, e: Event)
    requires Enabled(h, e)
    ensures ValidRun(h, [e]) && Run(h, [e]) == Apply(h, e)
  {
    assert [e][1..] == [];
  }

  lemma EnqueueFlows(k: Client, m: Msg)
    requires m in k.inFlight
    ensures Pipeline(Enqueued(k, m)) == Pipeline(k) + [m]
  {
  }

  lemma DequeueFlows(k: Client)
    requires k.hand == None && k.queue != []
    ensures Pipeline(Dequeued(k)) == Pipeline(k)
  {
    assert k.queue == [k.queue[0]] + k.queue[1..];
  }

  lemma AppendFlows(k: Client)
    requires k.hand.Some?
    ensures Pipeline(Appended(k)) == Pipeline(k)
  {
  }

  /** One step of a client's own goroutines. */
  predicate Flows(k: Client, l: Client) { Pipeline(k) <= Pipeline(l) && Accounted(l) == Accounted(k) }

  lemma StepOnClient(h: Hub, e: Event, c: nat)
    requires c < |h.objects| && Enabled(h, e) && OnClient(e, c)
    ensures |Apply(h, e).objects| == |h.objects| && Flows(h.objects[c], Apply(h, e).objects[c])
  {
    var k := h.objects[c];
    match e
    case Enqueue(_, m) => EnqueueAccounts(k, m); EnqueueFlows(k, m);
    case Dequeue(_) => DequeueAccounts(k); DequeueFlows(k);
    case Append(_) => AppendAccounts(k); AppendFlows(k);
  }

  lemma {:induction false} RunOnClient(h: Hub, es: seq<Event>, c: nat)
    requires c < |h.objects| && ValidRun(h, es) && AllOnClient(es, c)
    ensures |Run(h, es).objects| == |h.objects| && Flows(h.objects[c], Run(h, es).objects[c])
    decreases |es|
  {
    if es != [] {
      StepOnClient(h, es[0], c);
      RunOnClient(Apply(h, es[0]), es[1..], c);
    }
  }

  /** processQueue alone can move everything queued into the buffer. */
  lemma {:induction false} Settle(h: Hub, c: nat) returns (es: seq<Event>)
    requires c < |h.objects|
    ensures ValidRun(h, es) && AllOnClient(es, c)
    ensures Run(h, es).loop == h.loop && |Run(h, es).objects| == |h.objects|
    ensures var k := h.objects[c];
            Run(h, es).objects[c] == k.(hand := None, queue := [], appended := Pipeline(k))
    decreases |h.objects[c].queue|, h.objects[c].hand.Some?
  {
    var k := h.objects[c];
    if k.hand == None && k.queue == [] {
      es := [];
    } else {
      var e := if k.hand.Some? then Append(c) else Dequeue(c);
      var t := Apply(h, e);
      if k.hand.Some? { AppendFlows(k); } else { DequeueFlows(k); }
      var rest := Settle(t, c);
      es := [e] + rest;
      assert es[1..] == rest;
    }
  }

  /** The queue and the hand can be emptied, and then any message m in flight can be the next one through. */
  lemma NextThrough(h: Hub, c: nat, m: Msg) returns (es: seq<Event>)
    requires c < |h.objects| && m in h.objects[c].inFlight
    ensures ValidRun(h, es) && AllOnClient(es, c) && |Run(h, es).objects| == |h.objects|
    ensures Pipeline(Run(h, es).objects[c]) == Pipeline(h.objects[c]) + [m]
    ensures Run(h, es).objects[c].inFlight == h.objects[c].inFlight - multiset{m}
  {
    es := Settle(h, c);
    var t := Run(h, es);
    EnqueueFlows(t.objects[c], m);
    OneStep(t, Enqueue(c, m));
    RunsCompose(h, es, [Enqueue(c, m)]);
    es := es + [Enqueue(c, m)];
  }

  lemma TakeFirst(p: seq<Msg>)
    requires p != []
    ensures p == [p[0]] + p[1..] && p[0] in multiset(p) && multiset(p[1..]) == multiset(p) - multiset{p[0]}
  {
    assert p == [p[0]] + p[1..];
  }

  /** The goroutines in flight can get through in any order p. */
  lemma {:induction false} DrainInOrder(h: Hub, c: nat, p: seq<Msg>) returns (es: seq<Event>)
    requires c < |h.objects| && multiset(p) == h.objects[c].inFlight
    ensures Drains(h, es, c) && Run(h, es).objects[c].appended == Pipeline(h.objects[c]) + p
    decreases |p|
  {
    if p == [] {
      es := Settle(h, c);
    } else {
      TakeFirst(p);
      var fs := NextThrough(h, c, p[0]);
      var rest := DrainInOrder(Run(h, fs), c, p[1..]);
      RunsCompose(h, fs, rest);
      es := fs + rest;
      assert Pipeline(h.objects[c]) + [p[0]] + p[1..] == Pipeline(h.objects[c]) + p;
    }
  }

  lemma PipelineAccounts(k: Client)
    ensures Accounted(k) == multiset(Pipeline(k)) + k.inFlight
  {
  }

  lemma SumsCancel(a: multiset<Msg>, b: multiset<Msg>, c: multiset<Msg>)
    requires a + b == a + c
    ensures b == c
  {
    forall m
      ensures b[m] == c[m]
    {
      assert (a + b)[m] == a[m] + b[m] && (a + c)[m] == a[m] + c[m];
    }
  }

  lemma RestIs(a: seq<Msg>, l: seq<Msg>, s: multiset<Msg>)
    requires a <= l && multiset(l) == multiset(a) + s
    ensures l == a + l[|a|..] && multiset(l[|a|..]) == s
  {
    var p := l[|a|..];
    assert l == a + p;
    assert multiset(l) == multiset(a) + multiset(p);
    SumsCancel(multiset(a), multiset(p), s);
  }

  /** Whatever way a client is drained, only the messages in flight have a choice. */
  lemma DrainedResult(h: Hub, es: seq<Event>, c: nat) returns (p: seq<Msg>)
    requires c < |h.objects| && Drains(h, es, c)
    ensures multiset(p) == h.objects[c].inFlight && Run(h, es).objects[c].appended == Pipeline(h.objects[c]) + p
  {
    var k, l := h.objects[c], Run(h, es).objects[c];
    RunOnClient(h, es, c);
    PipelineAccounts(k);
    PipelineAccounts(l);
    assert Pipeline(l) == l.appended;
    RestIs(Pipeline(k), l.appended, k.inFlight);
    p := l.appended[|Pipeline(k)|..];
  }

  /**
   What a client can end up with, in every state of the hub: exactly what it has appended, has in hand and
   has queued, in that order, followed by the messages in flight in any order whatever.
   */
  lemma DrainedExactly(h: Hub, c: nat, final: seq<Msg>)
    requires c < |h.objects|
    ensures (exists es :: Drains(h, es, c) && Run(h, es).objects[c].appended == final)
            <==> (exists p :: multiset(p) == h.objects[c].inFlight && final == Pipeline(h.objects[c]) + p)
  {
    if es :| Drains(h, es, c) && Run(h, es).objects[c].appended == final {
      var p := DrainedResult(h, es, c);
    }
    if p :| multiset(p) == h.objects[c].inFlight && final == Pipeline(h.objects[c]) + p {
      var es := DrainInOrder(h, c, p);
    }
  }

  lemma {:induction false} Listing(s: multiset<Msg>) returns (p: seq<Msg>)
    ensures multiset(p) == s
    decreases |s|
  {
    p := [];
    if s != multiset{} {
      var m :| m in s;
      p := Listing(s - multiset{m});
      p := [m] + p;
    }
  }

  /** Two orderings of the same messages that differ somewhere show two different messages. */
  lemma TwoMessages(p: seq<Msg>, q: seq<Msg>) returns (m: Msg, n: Msg)
    requires multiset(p) == multiset(q) && p != q
    ensures m in multiset(p) && n in multiset(p) && m != n
  {
    assert |p| == |multiset(p)| && |q| == |multiset(q)|;
    var i :| 0 <= i < |p| && p[i] != q[i];
    m, n := p[i], q[i];
    assert n in multiset(q);
  }

  lemma PutBack(s: multiset<Msg>, m: Msg, p: seq<Msg>)
    requires m in s && multiset(p) == s - multiset{m}
    ensures multiset([m] + p) == s
  {
  }

  lemma TwoOrders(s: multiset<Msg>, m: Msg, n: Msg) returns (p: seq<Msg>, q: seq<Msg>)
    requires m in s && n in s && m != n
    ensures multiset(p) == s && multiset(q) == s && p != q
  {
    p := Listing(s - multiset{m});
    q := Listing(s - multiset{n});
    PutBack(s, m, p);
    PutBack(s, n, q);
    p, q := [m] + p, [n] + q;
    assert p[0] == m && q[0] == n;
  }

  lemma SamePrefix(a: seq<Msg>, p: seq<Msg>, q: seq<Msg>)
    requires p != q
    ensures a + p != a + q
  {
    assert (a + p)[|a|..] == p && (a + q)[|a|..] == q;
  }

  /** Two ways of draining a client can end differently iff two different messages are in flight at once. */
  lemma OrderIsFreeExactly(h: Hub, c: nat)
    requires c < |h.objects|
    ensures (exists es, fs :: Drains(h, es, c) && Drains(h, fs, c)
                              && Run(h, es).objects[c].appended != Run(h, fs).objects[c].appended)
            <==> (exists m, n :: m in h.objects[c].inFlight && n in h.objects[c].inFlight && m != n)
  {
    var k := h.objects[c];
    if es, fs :| Drains(h, es, c) && Drains(h, fs, c)
                 && Run(h, es).objects[c].appended != Run(h, fs).objects[c].appended {
      var p := DrainedResult(h, es, c);
      var q := DrainedResult(h, fs, c);
      var m, n := TwoMessages(p, q);
    }
    if m, n :| m in k.inFlight && n in k.inFlight && m != n {
      var p, q := TwoOrders(k.inFlight, m, n);
      var es := DrainInOrder(h, c, p);
      var fs := DrainInOrder(h, c, q);
      SamePrefix(Pipeline(k), p, q);
    }
  }

  // ---------------------------------------------------------------- one goroutine at a time keeps the order

  /** Every goroutine started for c finds no other one of c in flight. */
  ghost predicate OneAtATime(h: Hub, es: seq<Event>, c: nat)
    requires ValidRun(h, es)
    decreases |es|
  {
    es == [] || ((es[0] == Spawn(c) ==> h.objects[c].inFlight == multiset{})
                 && OneAtATime(Apply(h, es[0]), es[1..], c))
  }

  function Coming(h: Hub, c: nat): Option<Msg> {
    if h.loop.Processing? && c in h.loop.remaining then Some(h.loop.msg) else None
  }

  /** The history is what went through the queue, then the message in flight, then the one to be started. */
  predicate InOrder(k: Client, flying: Option<Msg>, coming: Option<Msg>) {
    k.inFlight == OfOption(flying) && k.owed == Pipeline(k) + AsSeq(flying) + AsSeq(coming)
  }

  ghost predicate Ordered(h: Hub, c: nat)
    requires c < |h.objects|
  {
    exists flying :: InOrder(h.objects[c], flying, Coming(h, c))
  }

  lemma StaysOrdered(h: Hub, t: Hub, c: nat)
    requires c < |h.objects| && c < |t.objects| && Ordered(h, c)
    requires t.objects[c] == h.objects[c] && Coming(t, c) == Coming(h, c)
    ensures Ordered(t, c)
  {
    var flying :| InOrder(h.objects[c], flying, Coming(h, c));
    assert InOrder(t.objects[c], flying, Coming(t, c));
  }

  lemma EnqueueInOrder(k: Client, m: Msg, flying: Option<Msg>, coming: Option<Msg>)
    requires InOrder(k, flying, coming) && m in k.inFlight
    ensures InOrder(Enqueued(k, m), None, coming)
  {
    EnqueueFlows(k, m);
    assert flying == Some(m);
  }

  lemma EnqueueOrders(h: Hub, m: Msg, c: nat)
    requires Enabled(h, Enqueue(c, m)) && Ordered(h, c)
    ensures Ordered(Apply(h, Enqueue(c, m)), c)
  {
    var flying :| InOrder(h.objects[c], flying, Coming(h, c));
    var t := Apply(h, Enqueue(c, m));
    EnqueueInOrder(h.objects[c], m, flying, Coming(h, c));
    assert InOrder(t.objects[c], None, Coming(t, c));
  }

  lemma DequeueOrders(h: Hub, c: nat)
    requires Enabled(h, Dequeue(c)) && Ordered(h, c)
    ensures Ordered(Apply(h, Dequeue(c)), c)
  {
    var flying :| InOrder(h.objects[c], flying, Coming(h, c));
    var t := Apply(h, Dequeue(c));
    DequeueFlows(h.objects[c]);
    assert InOrder(t.objects[c], flying, Coming(t, c));
  }

  lemma AppendOrders(h: Hub, c: nat)
    requires Enabled(h, Append(c)) && Ordered(h, c)
    ensures Ordered(Apply(h, Append(c)), c)
  {
    var flying :| InOrder(h.objects[c], flying, Coming(h, c));
    var t := Apply(h, Append(c));
    AppendFlows(h.objects[c]);
    assert InOrder(t.objects[c], flying, Coming(t, c));
  }

  lemma SpawnOrders(h: Hub, c: nat)
    requires Enabled(h, Spawn(c)) && Ordered(h, c) && h.objects[c].inFlight == multiset{}
    ensures Ordered(Apply(h, Spawn(c)), c)
  {
    var k := h.objects[c];
    var flying :| InOrder(k, flying, Coming(h, c));
    assert flying == None;
    var t := Apply(h, Spawn(c));
    assert t.objects[c] == Spawned(k, h.loop.msg) && Pipeline(t.objects[c]) == Pipeline(k);
    assert InOrder(t.objects[c], Some(h.loop.msg), Coming(t, c));
  }

  lemma ReadLockOrders(h: Hub, c: nat)
    requires Enabled(h, ReadLock) && c < |h.objects| && Ordered(h, c)
    ensures Ordered(Apply(h, ReadLock), c)
  {
    var k := h.objects[c];
    var flying :| InOrder(k, flying, Coming(h, c));
    var t := Apply(h, ReadLock);
    assert t.objects[c] == Owing(h, c, h.loop.msg) && Pipeline(t.objects[c]) == Pipeline(k);
    assert InOrder(t.objects[c], flying, Coming(t, c));
  }

  lemma StepKeepsOrder(h: Hub, e: Event, c: nat)
    requires Enabled(h, e) && c < |h.objects| && Ordered(h, c)
    requires e == Spawn(c) ==> h.objects[c].inFlight == multiset{}
    ensures c < |Apply(h, e).objects| && Ordered(Apply(h, e), c)
  {
    if e == ReadLock {
      ReadLockOrders(h, c);
    } else if e == Spawn(c) {
      SpawnOrders(h, c);
    } else if OnClient(e, c) {
      match e
      case Enqueue(_, m) => EnqueueOrders(h, m, c);
      case Dequeue(_) => DequeueOrders(h, c);
      case Append(_) => AppendOrders(h, c);
    } else {
      StaysOrdered(h, Apply(h, e), c);
    }
  }

  /** A client object that has just been made. */
  lemma NewIsOrdered(h: Hub, id: string)
    requires Scoped(h)
    ensures Ordered(Apply(h, NewClient(id)), |h.objects|)
  {
    var t := Apply(h, NewClient(id));
    assert InOrder(t.objects[|h.objects|], None, Coming(t, |h.objects|));
  }

  lemma {:induction false} RunKeepsOrder(h: Hub, es: seq<Event>, c: nat)
    requires Scoped(h) && ValidRun(h, es) && OneAtATime(h, es, c) && c < |Run(h, es).objects|
    requires c < |h.objects| ==> Ordered(h, c)
    ensures Ordered(Run(h, es), c)
    decreases |es|
  {
    if es != [] {
      var t := Apply(h, es[0]);
      StepKeepsScope(h, es[0]);
      if c < |h.objects| {
        StepKeepsOrder(h, es[0], c);
      } else if c < |t.objects| {
        NewIsOrdered(h, es[0].id);
      }
      RunKeepsOrder(t, es[1..], c);
    }
  }

  /**
   If every goroutine started for the client finds no other one in flight, then at every moment the history
   of processed messages is what went through the client's queue, in that order, followed by at most one
   message in flight and at most one still to be started.
   */
  lemma OneAtATimeKeepsOrder(es: seq<Event>, c: nat)
    requires ValidRun(Init(), es) && OneAtATime(Init(), es, c) && c < |Run(Init(), es).objects|
    ensures var h := Run(Init(), es);
            Pipeline(h.objects[c]) <= h.objects[c].owed
            && exists flying :: InOrder(h.objects[c], flying, Coming(h, c))
  {
    RunKeepsOrder(Init(), es, c);
  }
}
