/**
 The read path: the port buffer (pkg/serial/serial.go), readSerialAndBroadcast (cmd/server/main.go), the
 bounded broadcast channel and broadcastLoop with its per-message snapshot of the client map
 (internal/server/server.go). Connections join, leave and die at any moment, also between the snapshot
 and the delivery of a message. A connection that displaces another one of the same address from the map is a
 Leave of that one and a Join, and the deletion of its entry by the old handler is a Leave.
 */
module BroadcastLog {
  import opened Common

  type Msg = seq<byte>

  const CHANNEL_CAP: nat := 1024
  const READ_BUFFER: nat := 4096

  /** Where broadcastLoop stands: lines 146, 151, 159 and after the range loop. */
  datatype Loop =
    | Waiting
    | Holding(msg: Msg)
    | Delivering(msg: Msg, remaining: set<nat>)
    | Finished

  /**
   `joined` is the length of the log at registration, `left` its length at removal from the client map.
   `alive` means that writes to the connection still succeed.
   */
  datatype Conn = Conn(joined: nat, left: nat, alive: bool, received: seq<Msg>)

  /** `injected` and `log` are histories: the device's bytes, and the messages whose snapshot was taken. */
  datatype Net = Net(
    injected: seq<byte>,
    port: seq<byte>,
    inHand: Option<Msg>,
    channel: seq<Msg>,
    closed: bool,
    loop: Loop,
    log: seq<Msg>,
    conns: seq<Conn>,
    clients: set<nat>)

  datatype Event =
    | Inject(data: seq<byte>)
    | ReadPort(n: nat)
    | Send
    | Take
    | Snapshot
    | Deliver(conn: nat)
    | EndMessage
    | Join
    | Leave(conn: nat)
    | Die(conn: nat)
    | Stop
    | Drained

  function Init(): Net {
    Net([], [], None, [], false, Waiting, [], [], {})
  }

  predicate Enabled(s: Net, e: Event) {
    match e
    case Inject(_) => true
    // any chunking the port may choose, within the reader's buffer
    case ReadPort(n) => s.inHand == None && 0 < n <= READ_BUFFER && n <= |s.port|
    // Broadcast blocks while the channel is full; it is not called after Stop
    case Send => s.inHand.Some? && |s.channel| < CHANNEL_CAP && !s.closed
    case Take => s.loop.Waiting? && s.channel != []
    case Snapshot => s.loop.Holding?
    case Deliver(c) => s.loop.Delivering? && c in s.loop.remaining && c < |s.conns|
    case EndMessage => s.loop.Delivering? && s.loop.remaining == {}
    case Join => true
    case Leave(c) => c in s.clients
    case Die(c) => c < |s.conns|
    case Stop => !s.closed
    case Drained => s.loop.Waiting? && s.channel == [] && s.closed
  }

  function Written(k: Conn, msg: Msg): Conn {
    if k.alive then k.(received := k.received + [msg]) else k
  }

  /** Stop closes the registered connections and forgets them. */
  function Dropped(s: Net, c: nat): Conn
    requires c < |s.conns|
  {
    if c in s.clients then s.conns[c].(alive := false, left := |s.log|) else s.conns[c]
  }

  function Apply(s: Net, e: Event): Net
    requires Enabled(s, e)
  {
    match e
    case Inject(data) => s.(injected := s.injected + data, port := s.port + data)
    case ReadPort(n) => s.(inHand := Some(s.port[..n]), port := s.port[n..])
    case Send => s.(channel := s.channel + [s.inHand.value], inHand := None)
    case Take => s.(loop := Holding(s.channel[0]), channel := s.channel[1..])
    case Snapshot => s.(loop := Delivering(s.loop.msg, s.clients), log := s.log + [s.loop.msg])
    case Deliver(c) =>
      s.(conns := s.conns[c := Written(s.conns[c], s.loop.msg)],
         loop := Delivering(s.loop.msg, s.loop.remaining - {c}))
    case EndMessage => s.(loop := Waiting)
    case Join =>
      s.(conns := s.conns + [Conn(|s.log|, |s.log|, true, [])], clients := s.clients + {|s.conns|})
    case Leave(c) =>
      s.(clients := s.clients - {c},
         conns := if c < |s.conns| then s.conns[c := s.conns[c].(left := |s.log|)] else s.conns)
    case Die(c) => s.(conns := s.conns[c := s.conns[c].(alive := false)])
    case Stop =>
      s.(conns := seq(|s.conns|, c requires 0 <= c < |s.conns| => Dropped(s, c)), clients := {}, closed := true)
    case Drained => s.(loop := Finished)
  }

  predicate ValidRun(s: Net, es: seq<Event>)
    decreases |es|
  {
    es == [] || (Enabled(s, es[0]) && ValidRun(Apply(s, es[0]), es[1..]))
  }

  function Run(s: Net, es: seq<Event>): Net
    requires ValidRun(s, es)
    decreases |es|
  {
    if es == [] then s else Run(Apply(s, es[0]), es[1..])
  }

  // ---------------------------------------------------------------- each client's view of the log

  /** The write of the message at hand to connection c is still outstanding. */
  predicate Pending(s: Net, c: nat) { s.loop.Delivering? && c in s.loop.remaining }

  /** One past the last log position that connection c is entitled to. */
  function EndOf(s: Net, c: nat): nat
    requires c < |s.conns|
  {
    if c in s.clients then |s.log| else s.conns[c].left
  }

  ghost predicate Slice(s: Net, c: nat)
    requires c < |s.conns|
  {
    var k := s.conns[c];
    && k.joined + |k.received| <= EndOf(s, c) <= |s.log|
    && k.received == s.log[k.joined..k.joined + |k.received|]
    && (k.alive ==> k.joined + |k.received| + (if Pending(s, c) then 1 else 0) == EndOf(s, c))
  }

  ghost predicate ViewInv(s: Net) {
    && (forall c :: c in s.clients ==> c < |s.conns|)
    && (s.loop.Delivering? ==>
          && s.log != [] && s.log[|s.log| - 1] == s.loop.msg
          && (forall c :: c in s.loop.remaining ==> c < |s.conns| && EndOf(s, c) == |s.log|))
    && (forall c :: 0 <= c < |s.conns| ==> Slice(s, c))
  }

  lemma SnapshotKeepsViews(s: Net)
    requires ViewInv(s) && Enabled(s, Snapshot)
    ensures ViewInv(Apply(s, Snapshot))
  {
    var t := Apply(s, Snapshot);
    forall c | 0 <= c < |t.conns|
      ensures Slice(t, c)
    {
      assert Slice(s, c);
    }
  }

  lemma DeliverKeepsViews(s: Net, c: nat)
    requires ViewInv(s) && Enabled(s, Deliver(c))
    ensures ViewInv(Apply(s, Deliver(c)))
  {
    var t := Apply(s, Deliver(c));
    assert Slice(s, c);
    forall d | 0 <= d < |t.conns|
      ensures Slice(t, d)
    {
      assert Slice(s, d);
    }
  }

  lemma StopKeepsViews(s: Net)
    requires ViewInv(s) && Enabled(s, Stop)
    ensures ViewInv(Apply(s, Stop))
  {
    var t := Apply(s, Stop);
    forall d | 0 <= d < |t.conns|
      ensures Slice(t, d) && EndOf(t, d) == EndOf(s, d)
    {
      assert Slice(s, d);
      assert t.conns[d] == Dropped(s, d);
    }
  }

  lemma JoinKeepsViews(s: Net)
    requires ViewInv(s)
    ensures ViewInv(Apply(s, Join))
  {
    var t := Apply(s, Join);
    forall d | 0 <= d < |s.conns|
      ensures Slice(t, d) && EndOf(t, d) == EndOf(s, d)
    {
      assert Slice(s, d);
    }
    assert Slice(t, |s.conns|);
  }

  lemma LeaveKeepsViews(s: Net, c: nat)
    requires ViewInv(s) && Enabled(s, Leave(c))
    ensures ViewInv(Apply(s, Leave(c)))
  {
    var t := Apply(s, Leave(c));
    forall d | 0 <= d < |s.conns|
      ensures Slice(t, d) && EndOf(t, d) == EndOf(s, d)
    {
      assert Slice(s, d);
    }
  }

  lemma DieKeepsViews(s: Net, c: nat)
    requires ViewInv(s) && Enabled(s, Die(c))
    ensures ViewInv(Apply(s, Die(c)))
  {
    var t := Apply(s, Die(c));
    forall d | 0 <= d < |s.conns|
      ensures Slice(t, d) && EndOf(t, d) == EndOf(s, d)
    {
      assert Slice(s, d);
    }
  }

  lemma OtherStepKeepsViews(s: Net, e: Event)
    requires ViewInv(s) && Enabled(s, e)
    requires Apply(s, e).conns == s.conns && Apply(s, e).clients == s.clients && Apply(s, e).log == s.log
    requires !s.loop.Delivering? || s.loop.remaining == {} || Apply(s, e).loop == s.loop
    requires Apply(s, e).loop.Delivering? ==> Apply(s, e).loop == s.loop
    ensures ViewInv(Apply(s, e))
  {
    var t := Apply(s, e);
    forall d | 0 <= d < |t.conns|
      ensures Slice(t, d)
    {
      assert Slice(s, d);
      assert Pending(t, d) == Pending(s, d);
    }
  }

  lemma StepKeepsViews(s: Net, e: Event)
    requires ViewInv(s) && Enabled(s, e)
    ensures ViewInv(Apply(s, e))
  {
    match e
    case Snapshot => SnapshotKeepsViews(s);
    case Deliver(c) => DeliverKeepsViews(s, c);
    case Stop => StopKeepsViews(s);
    case Join => JoinKeepsViews(s);
    case Leave(c) => LeaveKeepsViews(s, c);
    case Die(c) => DieKeepsViews(s, c);
    case _ => OtherStepKeepsViews(s, e);
  }

  // ---------------------------------------------------------------- conservation of the device's bytes

  function OfOption(m: Option<Msg>): Msg {
    match m case Some(x) => x case None => []
  }

  function InLoop(loop: Loop): Msg { if loop.Holding? then loop.msg else [] }

  ghost predicate Conserved(s: Net) {
    s.injected == Flatten(s.log) + InLoop(s.loop) + Flatten(s.channel) + OfOption(s.inHand) + s.port
  }

  /** The loop takes a message from the channel ... */
  lemma TakeConserves(s: Net)
    requires Conserved(s) && Enabled(s, Take)
    ensures Conserved(Apply(s, Take))
  {
    Regroup(Flatten(s.log), s.channel[0], Flatten(s.channel[1..]));
  }

  /** ... and logs it. */
  lemma SnapshotConserves(s: Net)
    requires Conserved(s) && Enabled(s, Snapshot)
    ensures Conserved(Apply(s, Snapshot))
  {
    FlattenSnoc(s.log, s.loop.msg);
  }

  /** The reader takes bytes from the port ... */
  lemma ReadConserves(s: Net, n: nat)
    requires Conserved(s) && Enabled(s, ReadPort(n))
    ensures Conserved(Apply(s, ReadPort(n)))
  {
    Regroup(Flatten(s.log) + InLoop(s.loop) + Flatten(s.channel), s.port[..n], s.port[n..]);
    assert s.port == s.port[..n] + s.port[n..];
  }

  /** ... and puts them into the channel. */
  lemma SendConserves(s: Net)
    requires Conserved(s) && Enabled(s, Send)
    ensures Conserved(Apply(s, Send))
  {
    FlattenSnoc(s.channel, s.inHand.value);
    Regroup(Flatten(s.log) + InLoop(s.loop), Flatten(s.channel), s.inHand.value);
  }

  lemma InjectConserves(s: Net, data: seq<byte>)
    requires Conserved(s)
    ensures Conserved(Apply(s, Inject(data)))
  {
    Regroup(Flatten(s.log) + InLoop(s.loop) + Flatten(s.channel) + OfOption(s.inHand), s.port, data);
  }

  lemma Regroup(x: seq<byte>, y: seq<byte>, z: seq<byte>)
    ensures x + (y + z) == x + y + z && x + [] == x
  {
  }

  lemma StepConserves(s: Net, e: Event)
    requires Conserved(s) && Enabled(s, e)
    ensures Conserved(Apply(s, e))
  {
    match e
    case Take => TakeConserves(s);
    case Snapshot => SnapshotConserves(s);
    case ReadPort(n) => ReadConserves(s, n);
    case Send => SendConserves(s);
    case Inject(data) => InjectConserves(s, data);
    case _ =>
  }

  ghost predicate Bounded(s: Net) {
    |s.channel| <= CHANNEL_CAP && (s.inHand.Some? ==> 0 < |s.inHand.value| <= READ_BUFFER)
  }

  ghost predicate Inv(s: Net) { ViewInv(s) && Conserved(s) && Bounded(s) }

  lemma {:induction false} RunKeepsInv(s: Net, es: seq<Event>)
    requires Inv(s) && ValidRun(s, es)
    ensures Inv(Run(s, es))
    decreases |es|
  {
    if es != [] {
      StepKeepsViews(s, es[0]);
      StepConserves(s, es[0]);
      RunKeepsInv(Apply(s, es[0]), es[1..]);
    }
  }

  lemma ReachableInv(es: seq<Event>)
    requires ValidRun(Init(), es)
    ensures Inv(Run(Init(), es))
  {
    RunKeepsInv(Init(), es);
  }

  /**
   Whatever the interleaving, what a connection has received is one contiguous slice of the broadcast
   log beginning where it joined. A live connection misses at most the message now being delivered.
   */
  lemma ClientSeesContiguousSlice(es: seq<Event>, c: nat)
    requires ValidRun(Init(), es) && c < |Run(Init(), es).conns|
    ensures var s := Run(Init(), es);
            var k := s.conns[c];
            && k.joined + |k.received| <= EndOf(s, c) <= |s.log|
            && k.received == s.log[k.joined..k.joined + |k.received|]
            && (k.alive ==> k.joined + |k.received| + (if Pending(s, c) then 1 else 0) == EndOf(s, c))
  {
    ReachableInv(es);
    assert Slice(Run(Init(), es), c);
  }

  /** Every byte of the device is in the log, in the loop, in the channel, in the reader's hand or in the port. */
  lemma DeviceBytesAreConserved(es: seq<Event>)
    requires ValidRun(Init(), es)
    ensures Conserved(Run(Init(), es)) && Bounded(Run(Init(), es))
  {
    ReachableInv(es);
  }

  /** A connection's bytes are a contiguous part of the device's byte stream. */
  lemma ClientSeesDeviceSubstring(es: seq<Event>, c: nat)
    requires ValidRun(Init(), es) && c < |Run(Init(), es).conns|
    ensures var s := Run(Init(), es);
            var from := |Flatten(s.log[..Min(s.conns[c].joined, |s.log|)])|;
            var bytes := Flatten(s.conns[c].received);
            && from + |bytes| <= |s.injected|
            && bytes == s.injected[from..from + |bytes|]
  {
    ReachableInv(es);
    var s := Run(Init(), es);
    assert Slice(s, c);
    var k := s.conns[c];
    FlattenSlice(s.log, k.joined, k.joined + |k.received|);
    LogLeads(s);
    SliceOfPrefix(Flatten(s.log), s.injected, |Flatten(s.log[..k.joined])|,
                  |Flatten(s.log[..k.joined])| + |Flatten(k.received)|);
  }

  lemma LogLeads(s: Net)
    requires Conserved(s)
    ensures Flatten(s.log) <= s.injected
  {
  }

  lemma SliceOfPrefix(a: seq<byte>, b: seq<byte>, i: nat, j: nat)
    requires a <= b && i <= j <= |a|
    ensures a[i..j] == b[i..j]
  {
  }

  // ---------------------------------------------------------------- runs, put together and taken apart

  lemma {:induction false} RunsCompose(s: Net, a: seq<Event>, b: seq<Event>)
    requires ValidRun(s, a) && ValidRun(Run(s, a), b)
    ensures ValidRun(s, a + b) && Run(s, a + b) == Run(Run(s, a), b)
    decreases |a|
  {
    if a == [] {
      assert a + b == b;
    } else {
      assert (a + b)[1..] == a[1..] + b;
      RunsCompose(Apply(s, a[0]), a[1..], b);
    }
  }

  lemma {:induction false} RunsSplit(s: Net, a: seq<Event>, b: seq<Event>)
    requires ValidRun(s, a + b)
    ensures ValidRun(s, a) && ValidRun(Run(s, a), b) && Run(s, a + b) == Run(Run(s, a), b)
    decreases |a|
  {
    if a == [] {
      assert a + b == b;
    } else {
      assert (a + b)[1..] == a[1..] + b;
      RunsSplit(Apply(s, a[0]), a[1..], b);
    }
  }

  lemma OneStep(s: Net, e: Event)
    requires Enabled(s, e)
    ensures ValidRun(s, [e]) && Run(s, [e]) == Apply(s, e)
  {
    assert [e][1..] == [];
  }

  // ---------------------------------------------------------------- a round of the loop

  /** The effect of delivering msg to the connections in `todo`. */
  predicate DeliveredTo(s: Net, t: Net, todo: set<nat>, msg: Msg) {
    && |t.conns| == |s.conns|
    && forall c :: 0 <= c < |s.conns| ==> t.conns[c] == if c in todo then Written(s.conns[c], msg) else s.conns[c]
  }

  /** Events that leave the set of connections alone: deliveries, and whatever the reader does meanwhile. */
  predicate Undisturbing(e: Event) { e.Deliver? || e.Inject? || e.ReadPort? || e.Send? }

  /** However the deliveries of a message are ordered and interleaved, each one writes it once. */
  lemma {:induction false} DeliveriesSoFar(s: Net, fs: seq<Event>)
    requires s.loop.Delivering? && ValidRun(s, fs) && forall e :: e in fs ==> Undisturbing(e)
    ensures var t := Run(s, fs);
            && t.loop.Delivering? && t.loop.msg == s.loop.msg && t.loop.remaining <= s.loop.remaining
            && t.log == s.log && t.clients == s.clients
            && DeliveredTo(s, t, s.loop.remaining - t.loop.remaining, s.loop.msg)
    decreases |fs|
  {
    if fs != [] {
      assert fs[0] in fs;
      assert forall e :: e in fs[1..] ==> e in fs;
      DeliveriesSoFar(Apply(s, fs[0]), fs[1..]);
    }
  }

  /**
   Every complete round in which no connection joins, leaves or dies, whatever the order of its deliveries
   and the activity of the reader, gives the message at hand once to exactly the registered connections.
   */
  lemma UndisturbedRound(es: seq<Event>, fs: seq<Event>)
    requires ValidRun(Init(), es) && Run(Init(), es).loop.Holding?
    requires ValidRun(Run(Init(), es), [Snapshot] + fs + [EndMessage])
    requires forall e :: e in fs ==> Undisturbing(e)
    ensures var s := Run(Init(), es);
            var t := Run(s, [Snapshot] + fs + [EndMessage]);
            && t.loop == Waiting && t.log == s.log + [s.loop.msg]
            && DeliveredTo(s, t, s.clients, s.loop.msg)
  {
    var s := Run(Init(), es);
    OneStep(s, Snapshot);
    RunsSplit(s, [Snapshot] + fs, [EndMessage]);
    RunsSplit(s, [Snapshot], fs);
    var u := Apply(s, Snapshot);
    DeliveriesSoFar(u, fs);
    OneStep(Run(u, fs), EndMessage);
    assert u.loop.remaining - Run(u, fs).loop.remaining == s.clients;
  }

  // ---------------------------------------------------------------- a client that does not drain

  /**
   Writes are made one after the other in the loop itself, so while one connection does not accept its
   bytes no further message is broadcast to anybody, against the promise that a slow client does not
   affect the others.
   */
  lemma {:induction false} StalledClientStopsTheLog(s: Net, es: seq<Event>, c: nat)
    requires Pending(s, c) && ValidRun(s, es) && Deliver(c) !in es
    ensures Pending(Run(s, es), c) && Run(s, es).log == s.log && Run(s, es).loop.msg == s.loop.msg
    decreases |es|
  {
    if es != [] {
      assert es[0] in es;
      assert forall e :: e in es[1..] ==> e in es;
      StalledClientStopsTheLog(Apply(s, es[0]), es[1..], c);
    }
  }

  /** Meanwhile no client gets beyond the log as it was when the stall began. */
  lemma StalledClientStarvesOthers(es: seq<Event>, fs: seq<Event>, c: nat, d: nat)
    requires ValidRun(Init(), es) && Pending(Run(Init(), es), c)
    requires ValidRun(Run(Init(), es), fs) && Deliver(c) !in fs
    requires d < |Run(Init(), es).conns| && d < |Run(Run(Init(), es), fs).conns|
    ensures |Run(Run(Init(), es), fs).conns[d].received| + Run(Run(Init(), es), fs).conns[d].joined
            <= |Run(Init(), es).log|
  {
    ReachableInv(es);
    var s := Run(Init(), es);
    StalledClientStopsTheLog(s, fs, c);
    RunKeepsInv(s, fs);
    assert Slice(Run(s, fs), d);
  }

  /** The other outstanding deliveries, and then the end of the message. */
  lemma {:induction false} DeliverAll(s: Net) returns (es: seq<Event>)
    requires s.loop.Delivering? && forall c :: c in s.loop.remaining ==> c < |s.conns|
    ensures ValidRun(s, es)
    ensures forall c :: c !in s.loop.remaining ==> Deliver(c) !in es
    ensures Run(s, es) == s.(loop := Waiting, conns := Run(s, es).conns)
    decreases |s.loop.remaining|
  {
    if s.loop.remaining == {} {
      es := [EndMessage];
      OneStep(s, EndMessage);
    } else {
      var c :| c in s.loop.remaining;
      var t := Apply(s, Deliver(c));
      assert t.loop.remaining < s.loop.remaining;
      var rest := DeliverAll(t);
      es := [Deliver(c)] + rest;
      assert es[1..] == rest;
    }
  }

  /** A message is, or can be, in the channel while the loop waits. */
  lemma Supply(s: Net) returns (es: seq<Event>)
    requires s.loop == Waiting && Bounded(s) && (s.channel != [] || !s.closed)
    ensures ValidRun(s, es) && Run(s, es).loop == Waiting && Run(s, es).channel != []
    ensures Run(s, es).log == s.log && forall e :: e in es ==> !e.Deliver?
  {
    es := [];
    if s.channel == [] {
      var t := s;
      if s.inHand == None {
        es := [Inject([0]), ReadPort(1)];
        var u := Apply(s, Inject([0]));
        t := Apply(u, ReadPort(1));
        OneStep(s, Inject([0]));
        OneStep(u, ReadPort(1));
        RunsCompose(s, [Inject([0])], [ReadPort(1)]);
        assert es == [Inject([0])] + [ReadPort(1)];
      }
      OneStep(t, Send);
      RunsCompose(s, es, [Send]);
      es := es + [Send];
    }
  }

  lemma LogAdvances(s: Net, c: nat) returns (es: seq<Event>)
    requires ViewInv(s) && Bounded(s) && s.loop.Delivering? && !Pending(s, c)
    requires s.channel != [] || !s.closed
    ensures ValidRun(s, es) && Deliver(c) !in es && |Run(s, es).log| > |s.log|
  {
    var finish := DeliverAll(s);
    var t := Run(s, finish);
    var supply := Supply(t);
    var u := Run(t, supply);
    var v := Apply(u, Take);
    OneStep(u, Take);
    OneStep(v, Snapshot);
    RunsCompose(u, [Take], [Snapshot]);
    RunsCompose(t, supply, [Take] + [Snapshot]);
    RunsCompose(s, finish, supply + ([Take] + [Snapshot]));
    es := finish + (supply + ([Take] + [Snapshot]));
  }

  predicate AdvancesWithout(s: Net, fs: seq<Event>, c: nat) {
    ValidRun(s, fs) && Deliver(c) !in fs && |Run(s, fs).log| > |s.log|
  }

  /**
   The promise that a stalled client does not affect the others holds exactly for the clients that the
   message at hand has already been delivered to, or is not meant for: in any reachable delivery, with
   the channel not empty or still open, the log can move on without c's cooperation iff the write to c is
   not outstanding.
   */
  lemma StallHurtsExactly(es: seq<Event>, c: nat)
    requires ValidRun(Init(), es) && Run(Init(), es).loop.Delivering?
    requires Run(Init(), es).channel != [] || !Run(Init(), es).closed
    ensures (exists fs :: AdvancesWithout(Run(Init(), es), fs, c)) <==> !Pending(Run(Init(), es), c)
  {
    var s := Run(Init(), es);
    ReachableInv(es);
    if Pending(s, c) {
      forall fs
        ensures !AdvancesWithout(s, fs, c)
      {
        if ValidRun(s, fs) && Deliver(c) !in fs {
          StalledClientStopsTheLog(s, fs, c);
        }
      }
    } else {
      var fs := LogAdvances(s, c);
      assert AdvancesWithout(s, fs, c);
    }
  }

  // ---------------------------------------------------------------- a reachable stall

  ghost predicate Reachable(s: Net) {
    exists es :: ValidRun(Init(), es) && Run(Init(), es) == s
  }

  lemma Onward(s: Net, e: Event) returns (t: Net)
    requires Reachable(s) && Enabled(s, e)
    ensures t == Apply(s, e) && Reachable(t)
  {
    t := Apply(s, e);
    var es :| ValidRun(Init(), es) && Run(Init(), es) == s;
    OneStep(s, e);
    RunsCompose(Init(), es, [e]);
  }

  /** One message from the port into the channel. */
  lemma Feed(s: Net, b: byte) returns (t: Net)
    requires Reachable(s) && s.port == [] && s.inHand == None && !s.closed && |s.channel| < CHANNEL_CAP
    ensures Reachable(t)
    ensures t == s.(injected := s.injected + [b], channel := s.channel + [[b]])
  {
    t := Onward(s, Inject([b]));
    assert t.port == [b] && [b][..1] == [b] && [b][1..] == [];
    t := Onward(t, ReadPort(1));
    t := Onward(t, Send);
  }

  /** Two clients are registered and two messages queued. */
  lemma TwoClientsTwoMessages() returns (s: Net)
    ensures Reachable(s)
    ensures s == Init().(injected := [1, 2], channel := [[1], [2]],
                         conns := [Conn(0, 0, true, []), Conn(0, 0, true, [])], clients := {0, 1})
  {
    s := Init();
    assert ValidRun(s, []) && Run(s, []) == s;
    s := Onward(s, Join);
    s := Onward(s, Join);
    assert s.conns == [Conn(0, 0, true, []), Conn(0, 0, true, [])] && s.clients == {0, 1};
    s := Feed(s, 1);
    s := Feed(s, 2);
    assert s.channel == [[1], [2]] && s.injected == [1, 2];
  }

  /**
   Such a stall is reachable: client 0 has not taken the first message, and client 1, alive and with
   everything delivered that was logged, waits for the second, which is queued.
   */
  lemma StallIsReachable()
    ensures exists es ::
              && ValidRun(Init(), es)
              && var s := Run(Init(), es);
                 && Pending(s, 0) && s.channel == [[2]] && s.log == [[1]]
                 && |s.conns| == 2 && s.clients == {0, 1}
                 && s.conns[0] == Conn(0, 0, true, []) && s.conns[1] == Conn(0, 0, true, [[1]])
  {
    var s := TwoClientsTwoMessages();
    s := Onward(s, Take);
    s := Onward(s, Snapshot);
    assert s.loop == Delivering([1], {0, 1}) && s.channel == [[2]] && s.log == [[1]];
    s := Onward(s, Deliver(1));
    assert s.conns[1].received == [[1]];
    var es :| ValidRun(Init(), es) && Run(Init(), es) == s;
  }

  // ---------------------------------------------------------------- the end of the loop after Stop

  /** No connection dies or leaves, and no live one accepts a message: the peers do nothing. */
  ghost predicate Unaided(s: Net, fs: seq<Event>)
    requires ValidRun(s, fs)
    decreases |fs|
  {
    fs == []
    || (&& !fs[0].Die? && !fs[0].Leave? && (fs[0].Deliver? ==> !s.conns[fs[0].conn].alive)
        && Unaided(Apply(s, fs[0]), fs[1..]))
  }

  /** A live connection has the message at hand outstanding, or will have one of those still to come. */
  predicate HeldUpBy(s: Net, c: nat) {
    && c < |s.conns| && s.conns[c].alive
    && (Pending(s, c) || (c in s.clients && (s.loop.Holding? || (s.channel != [] && !s.loop.Finished?))))
  }

  lemma {:induction false} HeldUpForGood(s: Net, fs: seq<Event>, c: nat)
    requires s.closed && HeldUpBy(s, c) && ValidRun(s, fs) && Unaided(s, fs)
    ensures HeldUpBy(Run(s, fs), c)
    decreases |fs|
  {
    if fs != [] {
      HeldUpForGood(Apply(s, fs[0]), fs[1..], c);
    }
  }

  /** The next step of broadcastLoop itself. */
  function LoopEvent(s: Net, c: nat): Event {
    match s.loop
    case Waiting => if s.channel != [] then Take else Drained
    case Holding(_) => Snapshot
    case Delivering(_, remaining) => if remaining == {} then EndMessage else Deliver(c)
    case Finished => Drained
  }

  function LoopRank(loop: Loop): nat {
    match loop
    case Holding(_) => 2
    case Delivering(_, _) => 1
    case _ => 0
  }

  lemma {:induction false} LoopEnds(s: Net) returns (fs: seq<Event>)
    requires ViewInv(s) && s.closed && forall c: nat :: !HeldUpBy(s, c)
    ensures ValidRun(s, fs) && Unaided(s, fs) && Run(s, fs).loop.Finished?
    decreases |s.channel|, LoopRank(s.loop), if s.loop.Delivering? then |s.loop.remaining| else 0,
              !s.loop.Finished?
  {
    if s.loop.Finished? {
      fs := [];
    } else {
      var c: nat := 0;
      if s.loop.Delivering? && s.loop.remaining != {} {
        c :| c in s.loop.remaining;
        assert !HeldUpBy(s, c);
        assert s.loop.remaining - {c} < s.loop.remaining;
      }
      var e := LoopEvent(s, c);
      var t := Apply(s, e);
      NobodyHeldUp(s, c);
      StepKeepsViews(s, e);
      var rest := LoopEnds(t);
      fs := [e] + rest;
      assert fs[1..] == rest;
    }
  }

  lemma NobodyHeldUp(s: Net, c: nat)
    requires ViewInv(s) && s.closed && (forall d: nat :: !HeldUpBy(s, d)) && !s.loop.Finished?
    requires s.loop.Delivering? && s.loop.remaining != {} ==> c in s.loop.remaining
    ensures Enabled(s, LoopEvent(s, c))
    ensures forall d: nat :: !HeldUpBy(Apply(s, LoopEvent(s, c)), d)
  {
    var t := Apply(s, LoopEvent(s, c));
    forall d: nat
      ensures !HeldUpBy(t, d)
    {
      assert !HeldUpBy(s, d) && !HeldUpBy(s, c);
    }
  }

  /**
   After Stop broadcastLoop comes to its end without the help of any peer iff nobody holds it up. Stop closes
   only the connections in the map, so with an empty map that is: iff the message at hand is not outstanding
   to a live connection that had left the map before.
   */
  lemma StopEndsTheLoopExactly(es: seq<Event>)
    requires ValidRun(Init(), es) && Run(Init(), es).closed
    ensures var s := Run(Init(), es);
            && ((exists fs :: ValidRun(s, fs) && Unaided(s, fs) && Run(s, fs).loop.Finished?)
                <==> !exists c: nat :: HeldUpBy(s, c))
            && (s.clients == {} ==>
                  forall c: nat :: HeldUpBy(s, c) <==> c < |s.conns| && s.conns[c].alive && Pending(s, c))
  {
    var s := Run(Init(), es);
    ReachableInv(es);
    if c: nat :| HeldUpBy(s, c) {
      forall fs | ValidRun(s, fs) && Unaided(s, fs)
        ensures !Run(s, fs).loop.Finished?
      {
        HeldUpForGood(s, fs, c);
      }
    } else {
      var fs := LoopEnds(s);
    }
  }

  /** A peer that has shut down only its sending half: its handler is gone, the write to it is outstanding. */
  lemma StopCanLeaveTheLoopHanging()
    ensures exists es ::
              && ValidRun(Init(), es)
              && var s := Run(Init(), es);
                 s.closed && s.clients == {} && s.channel == [] && HeldUpBy(s, 0)
  {
    var s := Init();
    assert ValidRun(s, []) && Run(s, []) == s;
    s := Onward(s, Join);
    s := Feed(s, 1);
    s := Onward(s, Take);
    s := Onward(s, Snapshot);
    s := Onward(s, Leave(0));
    s := Onward(s, Stop);
    assert s.conns[0].alive && Pending(s, 0);
    var es :| ValidRun(Init(), es) && Run(Init(), es) == s;
  }

  // ---------------------------------------------------------------- who receives nothing any more

  /** Nothing can reach the connection: its writes fail, or nobody has it on a list. */
  predicate Silenced(s: Net, c: nat) {
    c < |s.conns| && (!s.conns[c].alive || (c !in s.clients && !Pending(s, c)))
  }

  lemma {:induction false} SilencedForGood(s: Net, fs: seq<Event>, c: nat)
    requires Silenced(s, c) && ValidRun(s, fs)
    ensures Silenced(Run(s, fs), c) && Run(s, fs).conns[c].received == s.conns[c].received
    decreases |fs|
  {
    if fs != [] {
      SilencedForGood(Apply(s, fs[0]), fs[1..], c);
    }
  }

  /**
   In every run after Stop a connection that was registered receives nothing more, and neither does one that
   died, or one that left with no write to it outstanding.
   */
  lemma CutOffReceivesNothing(es: seq<Event>, e: Event, fs: seq<Event>, c: nat)
    requires ValidRun(Init(), es) && c < |Run(Init(), es).conns| && Enabled(Run(Init(), es), e)
    requires var s := Run(Init(), es);
             (e == Stop && c in s.clients) || e == Die(c) || (e == Leave(c) && !Pending(s, c))
    requires ValidRun(Apply(Run(Init(), es), e), fs)
    ensures var s := Run(Init(), es);
            var t := Run(Apply(s, e), fs);
            c < |t.conns| && t.conns[c].received == s.conns[c].received
  {
    SilencedForGood(Apply(Run(Init(), es), e), fs, c);
  }

  // ---------------------------------------------------------------- the histories, told from the events

  /** The bytes that the device sent. */
  function InjectedBy(es: seq<Event>): seq<byte> {
    if es == [] then [] else (if es[0].Inject? then es[0].data else []) + InjectedBy(es[1..])
  }

  lemma {:induction false} InjectedIsWhatCameIn(s: Net, es: seq<Event>)
    requires ValidRun(s, es)
    ensures Run(s, es).injected == s.injected + InjectedBy(es)
    decreases |es|
  {
    if es != [] {
      InjectedIsWhatCameIn(Apply(s, es[0]), es[1..]);
    }
  }

  /** The messages on their way, oldest first: logged, held by the loop, queued, in the reader's hand. */
  function Messages(s: Net): seq<Msg> {
    s.log + (if s.loop.Holding? then [s.loop.msg] else []) + s.channel
    + (match s.inHand case Some(m) => [m] case None => [])
  }

  /** The lengths of the reads of the port, in order. */
  function ReadSizes(es: seq<Event>): seq<nat> {
    if es == [] then [] else (if es[0].ReadPort? then [es[0].n] else []) + ReadSizes(es[1..])
  }

  function Lengths(ms: seq<Msg>): (r: seq<nat>)
    ensures |r| == |ms| && forall i :: 0 <= i < |r| ==> r[i] == |ms[i]|
  {
    seq(|ms|, i requires 0 <= i < |ms| => |ms[i]|)
  }

  lemma LengthsAppend(a: seq<Msg>, b: seq<Msg>)
    ensures Lengths(a + b) == Lengths(a) + Lengths(b)
  {
  }

  lemma SnapshotMessages(s: Net)
    requires Enabled(s, Snapshot)
    ensures Messages(Apply(s, Snapshot)) == Messages(s)
  {
  }

  lemma TakeMessages(s: Net)
    requires Enabled(s, Take)
    ensures Messages(Apply(s, Take)) == Messages(s)
  {
    assert s.channel == [s.channel[0]] + s.channel[1..];
  }

  lemma SendMessages(s: Net)
    requires Enabled(s, Send)
    ensures Messages(Apply(s, Send)) == Messages(s)
  {
  }

  lemma MessagesStep(s: Net, e: Event)
    requires Enabled(s, e)
    ensures Messages(Apply(s, e)) == Messages(s) + if e.ReadPort? then [s.port[..e.n]] else []
  {
    match e
    case Take => TakeMessages(s);
    case Snapshot => SnapshotMessages(s);
    case Send => SendMessages(s);
    case _ =>
  }

  lemma {:induction false} MessagesAreReads(s: Net, es: seq<Event>)
    requires ValidRun(s, es)
    ensures Lengths(Messages(Run(s, es))) == Lengths(Messages(s)) + ReadSizes(es)
    ensures Messages(s) <= Messages(Run(s, es))
    decreases |es|
  {
    if es != [] {
      var t := Apply(s, es[0]);
      MessagesStep(s, es[0]);
      LengthsAppend(Messages(s), if es[0].ReadPort? then [s.port[..es[0].n]] else []);
      MessagesAreReads(t, es[1..]);
    }
  }

  /**
   In every run the messages are the reads of the port, one each and in order, never split or joined, and their
   bytes with those left in the port are the bytes that the device sent.
   */
  lemma EveryReadIsAMessage(es: seq<Event>)
    requires ValidRun(Init(), es)
    ensures var s := Run(Init(), es);
            && Lengths(Messages(s)) == ReadSizes(es)
            && s.injected == InjectedBy(es)
            && Flatten(s.log) + InLoop(s.loop) + Flatten(s.channel) + OfOption(s.inHand) + s.port == InjectedBy(es)
  {
    ReachableInv(es);
    InjectedIsWhatCameIn(Init(), es);
    MessagesAreReads(Init(), es);
  }

  // ---------------------------------------------------------------- before and after Stop

  /** The messages that the loop has taken over or will take over. */
  function Accepted(s: Net): nat { |s.log| + |s.channel| + if s.loop.Holding? then 1 else 0 }

  lemma {:induction false} ClosedRun(s: Net, fs: seq<Event>)
    requires s.closed && ValidRun(s, fs)
    ensures Run(s, fs).closed && Accepted(Run(s, fs)) == Accepted(s)
    decreases |fs|
  {
    if fs != [] {
      ClosedRun(Apply(s, fs[0]), fs[1..]);
    }
  }

  /** After Stop no further message is accepted, but those accepted before can all still be logged. */
  lemma NothingAcceptedAfterStop(es: seq<Event>, fs: seq<Event>)
    requires ValidRun(Init(), es) && Enabled(Run(Init(), es), Stop)
    requires ValidRun(Apply(Run(Init(), es), Stop), fs)
    ensures Accepted(Run(Apply(Run(Init(), es), Stop), fs)) == Accepted(Run(Init(), es))
  {
    ClosedRun(Apply(Run(Init(), es), Stop), fs);
  }

  lemma {:induction false} FinishedRun(s: Net, es: seq<Event>)
    requires ValidRun(s, es) && (s.loop.Finished? ==> s.closed && s.channel == [])
    ensures Run(s, es).loop.Finished? ==> Run(s, es).closed && Run(s, es).channel == []
    decreases |es|
  {
    if es != [] {
      FinishedRun(Apply(s, es[0]), es[1..]);
    }
  }

  /** The loop ends only after Stop, and only when every message accepted before has been logged. */
  lemma LoopEndsOnlyAfterStop(es: seq<Event>)
    requires ValidRun(Init(), es) && Run(Init(), es).loop.Finished?
    ensures var s := Run(Init(), es);
            s.closed && s.channel == [] && |s.log| == Accepted(s)
  {
    FinishedRun(Init(), es);
  }

  // ---------------------------------------------------------------- the capacities

  lemma {:induction false} FillChannel(n: nat) returns (s: Net)
    requires n <= 1024
    ensures Reachable(s) && |s.channel| == n && s.port == [] && s.inHand == None && !s.closed
  {
    if n == 0 {
      s := Init();
      assert ValidRun(s, []) && Run(s, []) == s;
    } else {
      s := FillChannel(n - 1);
      s := Feed(s, 1);
    }
  }

  /** The channel can hold any number of messages up to 1024, and never holds more. */
  lemma ChannelCapacityExactly(n: nat)
    ensures (exists es :: ValidRun(Init(), es) && |Run(Init(), es).channel| == n) <==> n <= 1024
  {
    if es :| ValidRun(Init(), es) && |Run(Init(), es).channel| == n {
      ReachableInv(es);
    }
    if n <= 1024 {
      var s := FillChannel(n);
      var es :| ValidRun(Init(), es) && Run(Init(), es) == s;
      assert |Run(Init(), es).channel| == n;
    }
  }

  /** A message read from the port can have any length from 1 to 4096, and no other. */
  lemma MessageLengthsExactly(n: nat)
    ensures (exists es :: ValidRun(Init(), es) && Run(Init(), es).inHand.Some? && |Run(Init(), es).inHand.value| == n)
            <==> 1 <= n <= 4096
  {
    if es :| ValidRun(Init(), es) && Run(Init(), es).inHand.Some? && |Run(Init(), es).inHand.value| == n {
      ReachableInv(es);
    }
    if 1 <= n <= 4096 {
      var s := Init();
      assert ValidRun(s, []) && Run(s, []) == s;
      s := Onward(s, Inject(seq(n, _ => 1 as byte)));
      assert |s.port| == n;
      s := Onward(s, ReadPort(n));
      var es :| ValidRun(Init(), es) && Run(Init(), es) == s;
      assert Run(Init(), es).inHand.Some? && |Run(Init(), es).inHand.value| == n;
    }
  }
}
