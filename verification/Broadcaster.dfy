/**
 internal/broadcast/broadcast.go: the processing goroutine starts one goroutine per client and message, so
 deliveries race. A step is a channel operation, a critical section, or the start of one goroutine.
 Client objects are numbered; the client map goes from ids to objects, and two objects may share an id.
 */
module Broadcaster {
  import opened Common

  type Msg = seq<byte>

  const QUEUE_CAP: nat := 1024

  /**
   `inFlight` are the goroutines started for this client and not yet through the queue send, `hand` is the
   message between queue and buffer. `owed` is the history of messages processed while registered, in order.
   */
  datatype Client = Client(
    id: string, inFlight: multiset<Msg>, queue: seq<Msg>, hand: Option<Msg>, appended: seq<Msg>, owed: seq<Msg>)

  /** Lines 38, 39 and 41 of process; the read lock is held while Processing. */
  datatype Loop = Idle | Holding(msg: Msg) | Processing(msg: Msg, remaining: set<nat>)

  datatype Hub = Hub(input: seq<Msg>, loop: Loop, objects: seq<Client>, clients: map<string, nat>)

  datatype Event =
    | Broadcast(msg: Msg)
    | NewClient(id: string)
    | AddClient(obj: nat)
    | RemoveClient(obj: nat)
    | Receive
    | ReadLock
    | Spawn(obj: nat)
    | ReadUnlock
    | Enqueue(obj: nat, msg: Msg)
    | Dequeue(obj: nat)
    | Append(obj: nat)

  function Init(): Hub { Hub([], Idle, [], map[]) }

  predicate Enabled(h: Hub, e: Event) {
    match e
    case Broadcast(_) => |h.input| < QUEUE_CAP
    case NewClient(_) => true
    case AddClient(c) => c < |h.objects| && !h.loop.Processing?
    case RemoveClient(c) => c < |h.objects| && !h.loop.Processing?
    case Receive => h.loop.Idle? && h.input != []
    case ReadLock => h.loop.Holding?
    case Spawn(c) => h.loop.Processing? && c in h.loop.remaining && c < |h.objects|
    case ReadUnlock => h.loop.Processing? && h.loop.remaining == {}
    case Enqueue(c, m) =>
      c < |h.objects| && m in h.objects[c].inFlight && |h.objects[c].queue| < QUEUE_CAP
    case Dequeue(c) => c < |h.objects| && h.objects[c].hand == None && h.objects[c].queue != []
    case Append(c) => c < |h.objects| && h.objects[c].hand.Some?
  }

  /** Taking the read lock fixes who is owed the message. */
  function Owing(h: Hub, c: nat, msg: Msg): Client
    requires c < |h.objects|
  {
    if c in h.clients.Values then h.objects[c].(owed := h.objects[c].owed + [msg]) else h.objects[c]
  }

  /** MockClient.Send of one goroutine gets through. */
  function Enqueued(k: Client, m: Msg): Client {
    k.(inFlight := k.inFlight - multiset{m}, queue := k.queue + [m])
  }

  /** processQueue takes the oldest queued message ... */
  function Dequeued(k: Client): Client
    requires k.queue != []
  {
    k.(hand := Some(k.queue[0]), queue := k.queue[1..])
  }

  /** ... and appends it to the buffer. */
  function Appended(k: Client): Client
    requires k.hand.Some?
  {
    k.(hand := None, appended := k.appended + [k.hand.value])
  }

  function Apply(h: Hub, e: Event): Hub
    requires Enabled(h, e)
  {
    match e
    case Broadcast(m) => h.(input := h.input + [m])
    case NewClient(id) => h.(objects := h.objects + [Client(id, multiset{}, [], None, [], [])])
    case AddClient(c) => h.(clients := h.clients[h.objects[c].id := c])
    case RemoveClient(c) => h.(clients := h.clients - {h.objects[c].id})
    case Receive => h.(loop := Holding(h.input[0]), input := h.input[1..])
    case ReadLock =>
      h.(loop := Processing(h.loop.msg, h.clients.Values),
         objects := seq(|h.objects|, c requires 0 <= c < |h.objects| => Owing(h, c, h.loop.msg)))
    case Spawn(c) =>
      h.(loop := Processing(h.loop.msg, h.loop.remaining - {c}),
         objects := h.objects[c := h.objects[c].(inFlight := h.objects[c].inFlight + multiset{h.loop.msg})])
    case ReadUnlock => h.(loop := Idle)
    case Enqueue(c, m) => h.(objects := h.objects[c := Enqueued(h.objects[c], m)])
    case Dequeue(c) => h.(objects := h.objects[c := Dequeued(h.objects[c])])
    case Append(c) => h.(objects := h.objects[c := Appended(h.objects[c])])
  }

  predicate ValidRun(h: Hub, es: seq<Event>)
    decreases |es|
  {
    es == [] || (Enabled(h, es[0]) && ValidRun(Apply(h, es[0]), es[1..]))
  }

  function Run(h: Hub, es: seq<Event>): Hub
    requires ValidRun(h, es)
    decreases |es|
  {
    if es == [] then h else Run(Apply(h, es[0]), es[1..])
  }

  // ---------------------------------------------------------------- conservation per client

  function OfOption(m: Option<Msg>): multiset<Msg> {
    match m case Some(x) => multiset{x} case None => multiset{}
  }

  /** Everything that has been started for the client, wherever it is now. */
  function Accounted(k: Client): multiset<Msg> {
    multiset(k.appended) + OfOption(k.hand) + multiset(k.queue) + k.inFlight
  }

  /** The message being processed, if the goroutine for this client is still to be started. */
  function Unstarted(h: Hub, c: nat): multiset<Msg> {
    if h.loop.Processing? && c in h.loop.remaining then multiset{h.loop.msg} else multiset{}
  }

  ghost predicate Balanced(h: Hub, c: nat)
    requires c < |h.objects|
  {
    Accounted(h.objects[c]) + Unstarted(h, c) == multiset(h.objects[c].owed)
  }

  /** The map and the loop refer to existing objects. */
  ghost predicate Scoped(h: Hub) {
    && (forall id :: id in h.clients ==> h.clients[id] < |h.objects|)
    && (h.loop.Processing? ==> forall c :: c in h.loop.remaining ==> c < |h.objects|)
  }

  ghost predicate Inv(h: Hub) {
    Scoped(h) && forall c :: 0 <= c < |h.objects| ==> Balanced(h, c)
  }

  lemma EnqueueAccounts(k: Client, m: Msg)
    requires m in k.inFlight
    ensures Accounted(Enqueued(k, m)) == Accounted(k)
  {
  }

  lemma DequeueAccounts(k: Client)
    requires k.hand == None && k.queue != []
    ensures Accounted(Dequeued(k)) == Accounted(k)
  {
    assert k.queue == [k.queue[0]] + k.queue[1..];
    assert multiset(k.queue) == multiset{k.queue[0]} + multiset(k.queue[1..]);
  }

  lemma AppendAccounts(k: Client)
    requires k.hand.Some?
    ensures Accounted(Appended(k)) == Accounted(k)
  {
  }

  /** A step that changes neither the object nor what is still to be started for it. */
  lemma Untouched(h: Hub, t: Hub, c: nat)
    requires c < |h.objects| && c < |t.objects| && Balanced(h, c)
    requires t.objects[c] == h.objects[c] && Unstarted(t, c) == Unstarted(h, c)
    ensures Balanced(t, c)
  {
  }

  /** A step of the client's own goroutines that keeps its account. */
  lemma SameAccount(h: Hub, t: Hub, c: nat)
    requires c < |h.objects| && c < |t.objects| && Balanced(h, c) && t.loop == h.loop
    requires Accounted(t.objects[c]) == Accounted(h.objects[c]) && t.objects[c].owed == h.objects[c].owed
    ensures Balanced(t, c)
  {
  }

  lemma EnqueueBalances(h: Hub, d: nat, m: Msg, c: nat)
    requires Enabled(h, Enqueue(d, m)) && c < |h.objects| && Balanced(h, c)
    ensures Balanced(Apply(h, Enqueue(d, m)), c)
  {
    EnqueueAccounts(h.objects[d], m);
    SameAccount(h, Apply(h, Enqueue(d, m)), c);
  }

  lemma DequeueBalances(h: Hub, d: nat, c: nat)
    requires Enabled(h, Dequeue(d)) && c < |h.objects| && Balanced(h, c)
    ensures Balanced(Apply(h, Dequeue(d)), c)
  {
    DequeueAccounts(h.objects[d]);
    SameAccount(h, Apply(h, Dequeue(d)), c);
  }

  lemma AppendBalances(h: Hub, d: nat, c: nat)
    requires Enabled(h, Append(d)) && c < |h.objects| && Balanced(h, c)
    ensures Balanced(Apply(h, Append(d)), c)
  {
    AppendAccounts(h.objects[d]);
    SameAccount(h, Apply(h, Append(d)), c);
  }

  lemma SpawnBalances(h: Hub, d: nat, c: nat)
    requires Enabled(h, Spawn(d)) && c < |h.objects| && Balanced(h, c)
    ensures Balanced(Apply(h, Spawn(d)), c)
  {
    var t := Apply(h, Spawn(d));
    if c == d {
      assert t.objects[c] == h.objects[c].(inFlight := h.objects[c].inFlight + multiset{h.loop.msg});
      assert Accounted(t.objects[c]) == Accounted(h.objects[c]) + multiset{h.loop.msg};
    } else {
      Untouched(h, t, c);
    }
  }

  lemma ReadLockBalances(h: Hub, c: nat)
    requires Enabled(h, ReadLock) && c < |h.objects| && Balanced(h, c)
    ensures Balanced(Apply(h, ReadLock), c)
  {
    var t := Apply(h, ReadLock);
    assert t.objects[c] == Owing(h, c, h.loop.msg);
    assert Accounted(t.objects[c]) == Accounted(h.objects[c]);
  }

  lemma StepKeepsBalance(h: Hub, e: Event, c: nat)
    requires Enabled(h, e) && c < |h.objects| && Balanced(h, c)
    ensures c < |Apply(h, e).objects| && Balanced(Apply(h, e), c)
  {
    match e
    case Enqueue(d, m) => EnqueueBalances(h, d, m, c);
    case Dequeue(d) => DequeueBalances(h, d, c);
    case Append(d) => AppendBalances(h, d, c);
    case Spawn(d) => SpawnBalances(h, d, c);
    case ReadLock => ReadLockBalances(h, c);
    case _ => Untouched(h, Apply(h, e), c);
  }

  lemma StepKeepsScope(h: Hub, e: Event)
    requires Scoped(h) && Enabled(h, e)
    ensures Scoped(Apply(h, e)) && |h.objects| <= |Apply(h, e).objects|
  {
  }

  lemma StepKeepsInv(h: Hub, e: Event)
    requires Inv(h) && Enabled(h, e)
    ensures Inv(Apply(h, e))
  {
    StepKeepsScope(h, e);
    var t := Apply(h, e);
    forall c | 0 <= c < |t.objects|
      ensures Balanced(t, c)
    {
      if c < |h.objects| {
        StepKeepsBalance(h, e, c);
      }
    }
  }

  lemma {:induction false} RunKeepsInv(h: Hub, es: seq<Event>)
    requires Inv(h) && ValidRun(h, es)
    ensures Inv(Run(h, es))
    decreases |es|
  {
    if es != [] {
      StepKeepsInv(h, es[0]);
      RunKeepsInv(Apply(h, es[0]), es[1..]);
    }
  }

  /**
   In every interleaving, what a client has appended, has in hand, has queued and has in flight is, as a
   multiset, exactly what was processed while it was registered; only the message whose goroutine is
   about to be started is not yet in flight.
   */
  lemma EveryMessageIsAccountedFor(es: seq<Event>, c: nat)
    requires ValidRun(Init(), es) && c < |Run(Init(), es).objects|
    ensures var h := Run(Init(), es);
            Accounted(h.objects[c]) + Unstarted(h, c) == multiset(h.objects[c].owed)
  {
    RunKeepsInv(Init(), es);
    assert Balanced(Run(Init(), es), c);
  }

  // ---------------------------------------------------------------- the loop waits for nobody

  predicate LoopEvent(e: Event) { e.ReadLock? || e.Spawn? || e.ReadUnlock? }

  /** One goroutine is started for this client; its queue and buffer are where they were. */
  function Spawned(k: Client, msg: Msg): Client {
    k.(inFlight := k.inFlight + multiset{msg})
  }

  predicate SpawnedFor(h: Hub, t: Hub, todo: set<nat>, msg: Msg) {
    && |t.objects| == |h.objects| && t.input == h.input
    && forall c :: 0 <= c < |h.objects| ==>
         t.objects[c] == if c in todo then Spawned(h.objects[c], msg) else h.objects[c]
  }

  /** The rest of a message can be processed by the loop's own steps, however full the queues are. */
  lemma {:induction false} SpawnsNeverBlock(h: Hub) returns (es: seq<Event>)
    requires h.loop.Processing? && forall c :: c in h.loop.remaining ==> c < |h.objects|
    ensures ValidRun(h, es) && (forall e :: e in es ==> LoopEvent(e))
    ensures Run(h, es).loop == Idle && SpawnedFor(h, Run(h, es), h.loop.remaining, h.loop.msg)
    decreases |h.loop.remaining|
  {
    if h.loop.remaining == {} {
      es := [ReadUnlock];
      assert es[1..] == [];
    } else {
      var c :| c in h.loop.remaining;
      var t := Apply(h, Spawn(c));
      assert t.loop.remaining < h.loop.remaining;
      var rest := SpawnsNeverBlock(t);
      es := [Spawn(c)] + rest;
      assert es[1..] == rest;
    }
  }

  /**
   So the processing loop never waits on a client: a received message is disposed of by the loop alone,
   leaving one goroutine for each registered client and every queue as it was.
   */
  lemma ProcessingNeverWaits(es: seq<Event>)
    requires ValidRun(Init(), es) && Run(Init(), es).loop.Holding?
    ensures exists fs :: ValidRun(Run(Init(), es), fs) && (forall e :: e in fs ==> LoopEvent(e))
                         && Run(Run(Init(), es), fs).loop == Idle
                         && SpawnedFor(Apply(Run(Init(), es), ReadLock), Run(Run(Init(), es), fs),
                                       Run(Init(), es).clients.Values, Run(Init(), es).loop.msg)
  {
    var h := Run(Init(), es);
    RunKeepsInv(Init(), es);
    StepKeepsInv(h, ReadLock);
    var t := Apply(h, ReadLock);
    var rest := SpawnsNeverBlock(t);
    var fs := [ReadLock] + rest;
    assert fs[1..] == rest;
    assert ValidRun(h, fs) && Run(h, fs) == Run(t, rest);
  }

  // ---------------------------------------------------------------- only multisets, not order

  /** The messages broadcast in a run, in order. */
  function Sent(es: seq<Event>): seq<Msg> {
    if es == [] then []
    else (if es[0].Broadcast? then [es[0].msg] else []) + Sent(es[1..])
  }

  lemma {:induction false} RunSnoc(h: Hub, es: seq<Event>, e: Event)
    requires ValidRun(h, es) && Enabled(Run(h, es), e)
    ensures ValidRun(h, es + [e]) && Run(h, es + [e]) == Apply(Run(h, es), e)
    ensures Sent(es + [e]) == Sent(es) + if e.Broadcast? then [e.msg] else []
    decreases |es|
  {
    var more := es + [e];
    if es == [] {
      assert more[1..] == [];
    } else {
      RunSnoc(Apply(h, es[0]), es[1..], e);
      assert more[1..] == es[1..] + [e];
    }
  }

  /** Some run that broadcasts exactly `sent` leads to h. */
  ghost predicate Reachable(h: Hub, sent: seq<Msg>) {
    exists es :: ValidRun(Init(), es) && Run(Init(), es) == h && Sent(es) == sent
  }

  lemma Onward(h: Hub, sent: seq<Msg>, e: Event) returns (t: Hub)
    requires Reachable(h, sent) && Enabled(h, e)
    ensures t == Apply(h, e) && Reachable(t, sent + if e.Broadcast? then [e.msg] else [])
  {
    t := Apply(h, e);
    var es :| ValidRun(Init(), es) && Run(Init(), es) == h && Sent(es) == sent;
    RunSnoc(Init(), es, e);
  }

  /** A step that broadcasts nothing. */
  lemma Along(h: Hub, sent: seq<Msg>, e: Event) returns (t: Hub)
    requires Reachable(h, sent) && Enabled(h, e) && !e.Broadcast?
    ensures t == Apply(h, e) && Reachable(t, sent)
  {
    t := Onward(h, sent, e);
    assert sent + [] == sent;
  }

  function Lone(inFlight: multiset<Msg>, owed: seq<Msg>): Client {
    Client("a", inFlight, [], None, [], owed)
  }

  /** One message, from the input to a goroutine of the only client. */
  lemma Process(h: Hub, sent: seq<Msg>, m: Msg) returns (t: Hub)
    requires Reachable(h, sent) && h.input == [] && h.loop == Idle && h.clients == map["a" := 0]
    requires |h.objects| == 1 && h.objects[0] == Lone(h.objects[0].inFlight, h.objects[0].owed)
    ensures Reachable(t, sent + [m])
    ensures t == h.(objects := [Lone(h.objects[0].inFlight + multiset{m}, h.objects[0].owed + [m])])
  {
    t := Onward(h, sent, Broadcast(m));
    t := Along(t, sent + [m], Receive);
    t := Along(t, sent + [m], ReadLock);
    assert "a" in h.clients && 0 in h.clients.Values;
    assert t.loop == Processing(m, {0});
    t := Along(t, sent + [m], Spawn(0));
    t := Along(t, sent + [m], ReadUnlock);
  }

  /** One message, from a goroutine through the queue into the buffer. */
  lemma Arrive(h: Hub, sent: seq<Msg>, m: Msg) returns (t: Hub)
    requires Reachable(h, sent) && |h.objects| == 1
    requires m in h.objects[0].inFlight && h.objects[0].queue == [] && h.objects[0].hand == None
    ensures Reachable(t, sent) && |t.objects| == 1
    ensures t.objects[0] == h.objects[0].(inFlight := h.objects[0].inFlight - multiset{m},
                                          appended := h.objects[0].appended + [m])
  {
    t := Along(h, sent, Enqueue(0, m));
    t := Along(t, sent, Dequeue(0));
    t := Along(t, sent, Append(0));
  }

  /** Any two messages can reach a client in the opposite order of their broadcast. */
  lemma OrderCanFlip(m: Msg, n: Msg)
    ensures exists es :: ValidRun(Init(), es) && Sent(es) == [m, n]
                         && |Run(Init(), es).objects| == 1 && Run(Init(), es).objects[0].appended == [n, m]
  {
    var h := Init();
    assert ValidRun(h, []) && Run(h, []) == h && Sent([]) == [];
    h := Along(h, [], NewClient("a"));
    h := Along(h, [], AddClient(0));
    h := Process(h, [], m);
    h := Process(h, [m], n);
    assert [] + [m] == [m] && [m] + [n] == [m, n];
    h := Arrive(h, [m, n], n);
    h := Arrive(h, [m, n], m);
    assert h.objects[0].appended == [n, m];
    var es :| ValidRun(Init(), es) && Run(Init(), es) == h && Sent(es) == [m, n];
  }

  // ---------------------------------------------------------------- the messages are processed first come, first served

  /** The messages that a run starts to process. */
  function Handled(h: Hub, es: seq<Event>): seq<Msg>
    requires ValidRun(h, es)
    decreases |es|
  {
    if es == [] then []
    else (if es[0].ReadLock? then [h.loop.msg] else []) + Handled(Apply(h, es[0]), es[1..])
  }

  function Held(loop: Loop): seq<Msg> { if loop.Holding? then [loop.msg] else [] }

  lemma InputStep(h: Hub, e: Event)
    requires Enabled(h, e)
    ensures (if e.ReadLock? then [h.loop.msg] else []) + (Held(Apply(h, e).loop) + Apply(h, e).input)
         == Held(h.loop) + h.input + if e.Broadcast? then [e.msg] else []
  {
    if e.Receive? {
      assert h.input == [h.input[0]] + h.input[1..];
    }
  }

  lemma Regroup(x: seq<Msg>, y: seq<Msg>, z: seq<Msg>, u: seq<Msg>, v: seq<Msg>, w: seq<Msg>, base: seq<Msg>)
    requires y + z == u + w && x + u == base + v
    ensures (x + y) + z == base + (v + w)
  {
    assert (x + y) + z == x + (u + w) == (x + u) + w;
  }

  lemma {:induction false} HandledInOrder(h: Hub, es: seq<Event>)
    requires ValidRun(h, es)
    ensures Handled(h, es) + (Held(Run(h, es).loop) + Run(h, es).input) == Held(h.loop) + h.input + Sent(es)
    decreases |es|
  {
    if es != [] {
      var t := Apply(h, es[0]);
      InputStep(h, es[0]);
      HandledInOrder(t, es[1..]);
      Regroup(if es[0].ReadLock? then [h.loop.msg] else [], Handled(t, es[1..]),
              Held(Run(h, es).loop) + Run(h, es).input, Held(t.loop) + t.input,
              if es[0].Broadcast? then [es[0].msg] else [], Sent(es[1..]), Held(h.loop) + h.input);
    }
  }

  /** In every run what has been processed, what the loop holds and what is queued is what was broadcast, in order. */
  lemma ProcessedInOrder(es: seq<Event>)
    requires ValidRun(Init(), es)
    ensures Handled(Init(), es) + (Held(Run(Init(), es).loop) + Run(Init(), es).input) == Sent(es)
  {
    HandledInOrder(Init(), es);
  }

  // ---------------------------------------------------------------- who is owed a message

  predicate Registered(h: Hub, c: nat) { c in h.clients.Values }

  /** The step files an object under the id of object c, or removes that id. */
  predicate Files(h: Hub, e: Event, c: nat)
    requires c < |h.objects|
  {
    || (e.AddClient? && e.obj < |h.objects| && h.objects[e.obj].id == h.objects[c].id)
    || (e.RemoveClient? && e.obj < |h.objects| && h.objects[e.obj].id == h.objects[c].id)
  }

  ghost predicate NeverFiles(h: Hub, es: seq<Event>, c: nat)
    requires ValidRun(h, es) && c < |h.objects|
    decreases |es|
  {
    es == [] || (!Files(h, es[0], c) && c < |Apply(h, es[0]).objects| && NeverFiles(Apply(h, es[0]), es[1..], c))
  }

  /** Every entry of the map is an object with that id. */
  ghost predicate Filed(h: Hub) {
    forall id :: id in h.clients ==> h.clients[id] < |h.objects| && h.objects[h.clients[id]].id == id
  }

  lemma FiledStep(h: Hub, e: Event)
    requires Filed(h) && Enabled(h, e)
    ensures Filed(Apply(h, e)) && |h.objects| <= |Apply(h, e).objects|
    ensures forall c :: 0 <= c < |h.objects| ==> Apply(h, e).objects[c].id == h.objects[c].id
  {
  }

  lemma RegisteredById(h: Hub, c: nat)
    requires Filed(h) && c < |h.objects|
    ensures Registered(h, c) <==> h.objects[c].id in h.clients && h.clients[h.objects[c].id] == c
  {
  }

  /** What one step does to the registration and the debt of object c. */
  lemma DebtStep(h: Hub, e: Event, c: nat)
    requires Filed(h) && Enabled(h, e) && c < |h.objects|
    ensures var t := Apply(h, e);
            && c < |t.objects|
            && (!Files(h, e, c) ==> (Registered(t, c) <==> Registered(h, c)))
            && t.objects[c].owed == h.objects[c].owed + if e.ReadLock? && Registered(h, c) then [h.loop.msg] else []
  {
    FiledStep(h, e);
    RegisteredById(h, c);
    RegisteredById(Apply(h, e), c);
  }

  /** What is added to the debt of object c. */
  function Debt(h: Hub, es: seq<Event>, c: nat): seq<Msg>
    requires ValidRun(h, es)
  {
    if Registered(h, c) then Handled(h, es) else []
  }

  lemma {:induction false} DebtRun(h: Hub, es: seq<Event>, c: nat)
    requires Filed(h) && ValidRun(h, es) && c < |h.objects| && NeverFiles(h, es, c)
    ensures c < |Run(h, es).objects| && Run(h, es).objects[c].owed == h.objects[c].owed + Debt(h, es, c)
    decreases |es|
  {
    if es != [] {
      var t := Apply(h, es[0]);
      FiledStep(h, es[0]);
      DebtStep(h, es[0], c);
      DebtRun(t, es[1..], c);
      var now := if es[0].ReadLock? && Registered(h, c) then [h.loop.msg] else [];
      assert Debt(h, es, c) == now + Debt(t, es[1..], c);
      assert t.objects[c].owed == h.objects[c].owed + now;
    }
  }

  lemma {:induction false} RunKeepsFiled(h: Hub, es: seq<Event>)
    requires Filed(h) && ValidRun(h, es)
    ensures Filed(Run(h, es)) && |h.objects| <= |Run(h, es).objects|
    ensures forall c :: 0 <= c < |h.objects| ==> Run(h, es).objects[c].id == h.objects[c].id
    decreases |es|
  {
    if es != [] {
      FiledStep(h, es[0]);
      RunKeepsFiled(Apply(h, es[0]), es[1..]);
    }
  }

  /**
   In every run, from the moment at which a client is added until its id is filed again or removed, it is owed
   every message processed, in order; and from the moment at which its id is removed, or given to another
   client, until it is filed again, it is owed nothing.
   */
  lemma OwedExactlyWhileRegistered(es: seq<Event>, e: Event, fs: seq<Event>, c: nat)
    requires ValidRun(Init(), es) && c < |Run(Init(), es).objects| && Enabled(Run(Init(), es), e)
    requires Files(Run(Init(), es), e, c) && ValidRun(Apply(Run(Init(), es), e), fs)
    requires c < |Apply(Run(Init(), es), e).objects| && NeverFiles(Apply(Run(Init(), es), e), fs, c)
    ensures var h := Run(Init(), es);
            var t := Apply(h, e);
            var u := Run(t, fs);
            && c < |u.objects|
            && u.objects[c].owed == h.objects[c].owed + if e == AddClient(c) then Handled(t, fs) else []
  {
    var h := Run(Init(), es);
    RunKeepsFiled(Init(), es);
    FiledStep(h, e);
    DebtStep(h, e, c);
    FilingDecides(h, e, c);
    DebtRun(Apply(h, e), fs, c);
  }

  lemma FilingDecides(h: Hub, e: Event, c: nat)
    requires Filed(h) && Enabled(h, e) && c < |h.objects| && Files(h, e, c)
    ensures Registered(Apply(h, e), c) <==> e == AddClient(c)
  {
    FiledStep(h, e);
    RegisteredById(Apply(h, e), c);
  }

  ghost predicate ReceiversRegistered(h: Hub) {
    h.loop.Processing? ==> h.loop.remaining <= h.clients.Values
  }

  lemma {:induction false} ReceiversRun(h: Hub, es: seq<Event>)
    requires ReceiversRegistered(h) && ValidRun(h, es)
    ensures ReceiversRegistered(Run(h, es))
    decreases |es|
  {
    if es != [] {
      ReceiversRun(Apply(h, es[0]), es[1..]);
    }
  }

  /** While a message is processed the map does not change: whoever a goroutine is started for is registered. */
  lemma OnlyRegisteredAreServed(es: seq<Event>, c: nat)
    requires ValidRun(Init(), es) && Enabled(Run(Init(), es), Spawn(c))
    ensures Registered(Run(Init(), es), c)
  {
    ReceiversRun(Init(), es);
  }

  /**
   Clients come and go: from every reachable state the loop's own steps lead to one in which any object can be
   added, and any registered one removed, with the effect that it is registered, or is not.
   */
  lemma MembershipIsNeverBlocked(es: seq<Event>, c: nat)
    requires ValidRun(Init(), es) && c < |Run(Init(), es).objects|
    ensures exists fs :: ValidRun(Run(Init(), es), fs) && (forall e :: e in fs ==> LoopEvent(e))
                         && MembershipIsFree(Run(Run(Init(), es), fs), c)
  {
    var h := Run(Init(), es);
    RunKeepsInv(Init(), es);
    RunKeepsFiled(Init(), es);
    if h.loop.Processing? {
      var fs := SpawnsNeverBlock(h);
      RunKeepsFiled(h, fs);
      FreeWhenIdle(Run(h, fs), c);
    } else {
      assert ValidRun(h, []) && Run(h, []) == h;
      FreeWhenIdle(h, c);
    }
  }

  ghost predicate MembershipIsFree(h: Hub, c: nat) {
    && c < |h.objects|
    && Enabled(h, AddClient(c)) && Registered(Apply(h, AddClient(c)), c)
    && Enabled(h, RemoveClient(c)) && !Registered(Apply(h, RemoveClient(c)), c)
  }

  lemma FreeWhenIdle(h: Hub, c: nat)
    requires Filed(h) && c < |h.objects| && !h.loop.Processing?
    ensures MembershipIsFree(h, c)
  {
    FilingDecides(h, AddClient(c), c);
    FilingDecides(h, RemoveClient(c), c);
  }

  // ---------------------------------------------------------------- the capacities

  lemma {:induction false} FillInput(n: nat) returns (es: seq<Event>)
    requires n <= 1024
    ensures ValidRun(Init(), es) && |Run(Init(), es).input| == n
  {
    es := [];
    if n > 0 {
      es := FillInput(n - 1);
      RunSnoc(Init(), es, Broadcast([]));
      es := es + [Broadcast([])];
    }
  }

  ghost predicate WithinCapacity(h: Hub) {
    |h.input| <= 1024 && forall c :: 0 <= c < |h.objects| ==> |h.objects[c].queue| <= 1024
  }

  lemma {:induction false} CapacityRun(h: Hub, es: seq<Event>)
    requires WithinCapacity(h) && ValidRun(h, es)
    ensures WithinCapacity(Run(h, es))
    decreases |es|
  {
    if es != [] {
      CapacityStep(h, es[0]);
      CapacityRun(Apply(h, es[0]), es[1..]);
    }
  }

  lemma CapacityStep(h: Hub, e: Event)
    requires WithinCapacity(h) && Enabled(h, e)
    ensures WithinCapacity(Apply(h, e))
  {
    if e.ReadLock? {
      assert forall c :: 0 <= c < |h.objects| ==> Apply(h, e).objects[c].queue == h.objects[c].queue;
    }
  }

  /** One client, n messages in its queue and k goroutines waiting with the empty message. */
  lemma {:induction false} FillQueue(n: nat, k: nat) returns (h: Hub, sent: seq<Msg>)
    requires n <= 1024
    ensures Reachable(h, sent) && h.input == [] && h.loop == Idle && h.clients == map["a" := 0]
    ensures |h.objects| == 1 && |h.objects[0].queue| == n && h.objects[0].inFlight[[]] == k
    decreases n, k
  {
    if n > 0 {
      h, sent := FillQueue(n - 1, k + 1);
      h := Along(h, sent, Enqueue(0, []));
    } else if k > 0 {
      h, sent := FillQueue(0, k - 1);
      h, sent := OneMoreGoroutine(h, sent, []);
    } else {
      h := Init();
      sent := [];
      assert ValidRun(h, []) && Run(h, []) == h && Sent([]) == [];
      h := Along(h, [], NewClient("a"));
      h := Along(h, [], AddClient(0));
    }
  }

  /** One more goroutine of the only client. */
  lemma OneMoreGoroutine(h: Hub, sent: seq<Msg>, m: Msg) returns (t: Hub, more: seq<Msg>)
    requires Reachable(h, sent) && h.input == [] && h.loop == Idle && h.clients == map["a" := 0] && |h.objects| == 1
    ensures Reachable(t, more) && t.input == [] && t.loop == Idle && t.clients == h.clients && |t.objects| == 1
    ensures t.objects[0] == h.objects[0].(inFlight := h.objects[0].inFlight + multiset{m},
                                          owed := h.objects[0].owed + [m])
  {
    more := sent + [m];
    t := Onward(h, sent, Broadcast(m));
    t := Along(t, more, Receive);
    t := Along(t, more, ReadLock);
    assert "a" in h.clients && 0 in h.clients.Values;
    assert t.loop == Processing(m, {0});
    t := Along(t, more, Spawn(0));
    t := Along(t, more, ReadUnlock);
  }

  /** Some client has n messages queued. */
  ghost predicate Queues(h: Hub, n: nat) { exists c :: 0 <= c < |h.objects| && |h.objects[c].queue| == n }

  lemma QueueFills(n: nat)
    requires n <= 1024
    ensures exists es :: ValidRun(Init(), es) && Queues(Run(Init(), es), n)
  {
    var h, sent := FillQueue(n, 0);
    assert Queues(h, n);
    var es :| ValidRun(Init(), es) && Run(Init(), es) == h && Sent(es) == sent;
  }

  /** The input channel and a client's queue can hold any number of messages up to 1024, and never hold more. */
  lemma CapacitiesExactly(n: nat)
    ensures (exists es :: ValidRun(Init(), es) && |Run(Init(), es).input| == n) <==> n <= 1024
    ensures (exists es :: ValidRun(Init(), es) && Queues(Run(Init(), es), n)) <==> n <= 1024
  {
    forall es | ValidRun(Init(), es)
      ensures WithinCapacity(Run(Init(), es))
    {
      CapacityRun(Init(), es);
    }
    if n <= 1024 {
      var es := FillInput(n);
      assert |Run(Init(), es).input| == n;
      QueueFills(n);
    }
  }
}
