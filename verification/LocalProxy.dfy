/**
 internal/localproxy/proxy.go: the replay buffer and the dispatch of live data, as steps under the proxy's
 mutex. acceptLoop is one goroutine, so a connection goes through registration, snapshot and replay before
 the next one is accepted; remoteReadLoop runs beside it.

 Stream positions count the bytes received from the remote side since the start.
 */
module LocalProxy {
  import opened Common

  const REPLAY_CAP: nat := 1024 * 1024
  const REPLAY_MAX: nat := 64 * 1024
  const READ_BUFFER: nat := 4096

  /** Bytes handed to one connection in one write; `from` is the stream position of the first. */
  datatype Piece = Piece(from: nat, data: seq<byte>) {
    function Upto(): nat { from + |data| }
    predicate Covers(q: nat) { from <= q < Upto() }
  }

  /** Where a local connection stands: registered (line 76), replayed (line 80), removed (line 92). */
  datatype Phase = Registered | Replayed | Removed

  /**
   `at` is the stream position at registration, `base` and `end` delimit the part of the stream that the
   replay buffer held at the snapshot, `snap` is the stream position then.
   `live` lists the pieces dispatched by remoteReadLoop, one goroutine each.
   */
  datatype Conn = Conn(phase: Phase, at: nat, base: nat, end: nat, snap: nat, replay: Piece, live: seq<Piece>)

  /** `chunks` is the history of remote reads, `cleared` and `stored` mark which of them the buffer holds. */
  datatype Proxy = Proxy(
    chunks: seq<seq<byte>>,
    cleared: nat,
    stored: nat,
    remoteBuffer: seq<byte>,
    accepting: Option<nat>,
    conns: seq<Conn>,
    localConns: set<nat>)

  datatype Event =
    | RemoteData(data: seq<byte>)
    | Register
    | SendBuffered
    | Remove(conn: nat)
    | ClearBuffer
    | Stop

  function Init(): Proxy { Proxy([], 0, 0, [], None, [], {}) }

  function Stream(p: Proxy): seq<byte> { Flatten(p.chunks) }

  function Now(p: Proxy): nat { |Stream(p)| }

  /** The stream position of the last clear. */
  function Base(p: Proxy): nat
  {
    |Flatten(p.chunks[..Min(p.cleared, |p.chunks|)])|
  }

  predicate Enabled(p: Proxy, e: Event) {
    match e
    case RemoteData(data) => 0 < |data| <= READ_BUFFER
    case Register => p.accepting == None
    case SendBuffered => p.accepting.Some? && p.accepting.value < |p.conns|
    case Remove(c) => c < |p.conns| && p.conns[c].phase == Replayed
    case ClearBuffer => true
    case Stop => true
  }

  function Dispatched(p: Proxy, c: nat, piece: Piece): Conn
    requires c < |p.conns|
  {
    if c in p.localConns then p.conns[c].(live := p.conns[c].live + [piece]) else p.conns[c]
  }

  /** Appends while the buffer is below its cap, then starts one write per registered connection. */
  function AfterRemoteData(p: Proxy, data: seq<byte>): Proxy {
    var fits := |p.remoteBuffer| < REPLAY_CAP;
    p.(chunks := p.chunks + [data],
       remoteBuffer := if fits then p.remoteBuffer + data else p.remoteBuffer,
       stored := if fits then |p.chunks| + 1 else p.stored,
       conns := seq(|p.conns|, c requires 0 <= c < |p.conns| => Dispatched(p, c, Piece(Now(p), data))))
  }

  /** Only the most recent 64 KiB of the buffer are replayed. */
  function ReplayStart(bufferLen: nat): (start: nat)
    ensures start <= bufferLen
  {
    if bufferLen > REPLAY_MAX then bufferLen - REPLAY_MAX else 0
  }

  /** sendBufferedData for one connection: the captured buffer and what of it is written. */
  function Snapshot(k: Conn, base: nat, buffer: seq<byte>, now: nat): Conn {
    var start := ReplayStart(|buffer|);
    k.(phase := Replayed, base := base, end := base + |buffer|, snap := now,
       replay := Piece(base + start, buffer[start..]))
  }

  function OnSendBuffered(p: Proxy): Proxy
    requires Enabled(p, SendBuffered)
  {
    var c := p.accepting.value;
    p.(conns := p.conns[c := Snapshot(p.conns[c], Base(p), p.remoteBuffer, Now(p))], accepting := None)
  }

  function Apply(p: Proxy, e: Event): Proxy
    requires Enabled(p, e)
  {
    match e
    case RemoteData(data) => AfterRemoteData(p, data)
    case Register =>
      p.(conns := p.conns + [Conn(Registered, Now(p), 0, 0, 0, Piece(0, []), [])],
         localConns := p.localConns + {|p.conns|},
         accepting := Some(|p.conns|))
    case SendBuffered => OnSendBuffered(p)
    case Remove(c) =>
      p.(localConns := p.localConns - {c}, conns := p.conns[c := p.conns[c].(phase := Removed)])
    case ClearBuffer => p.(remoteBuffer := [], cleared := |p.chunks|, stored := |p.chunks|)
    case Stop => p.(localConns := {})
  }

  predicate ValidRun(p: Proxy, es: seq<Event>)
    decreases |es|
  {
    es == [] || (Enabled(p, es[0]) && ValidRun(Apply(p, es[0]), es[1..]))
  }

  function Run(p: Proxy, es: seq<Event>): Proxy
    requires ValidRun(p, es)
    decreases |es|
  {
    if es == [] then p else Run(Apply(p, es[0]), es[1..])
  }

  // ---------------------------------------------------------------- the replay buffer

  /**
   The buffer is the stream from the last clear on: all of it, or, once it has reached the cap, the
   shortest prefix of whole chunks that did.
   */
  ghost predicate BufferInv(p: Proxy) {
    && p.cleared <= p.stored <= |p.chunks|
    && p.remoteBuffer == Flatten(p.chunks[p.cleared..p.stored])
    && (forall i :: 0 <= i < |p.chunks| ==> 0 < |p.chunks[i]| <= READ_BUFFER)
    && (p.stored == |p.chunks| || |p.remoteBuffer| >= REPLAY_CAP)
    && (p.cleared < p.stored ==> |Flatten(p.chunks[p.cleared..p.stored - 1])| < REPLAY_CAP)
  }

  lemma RemoteDataKeepsBuffer(p: Proxy, data: seq<byte>)
    requires BufferInv(p) && Enabled(p, RemoteData(data))
    ensures BufferInv(Apply(p, RemoteData(data)))
  {
    var t := Apply(p, RemoteData(data));
    if |p.remoteBuffer| < REPLAY_CAP {
      SliceWithLast(p.chunks, data, p.cleared);
      FlattenSnoc(p.chunks[p.cleared..p.stored], data);
      SliceBefore(p.chunks, data, p.cleared, p.stored);
    } else {
      SliceBefore(p.chunks, data, p.cleared, p.stored);
      if p.cleared < p.stored {
        SliceBefore(p.chunks, data, p.cleared, p.stored - 1);
      }
    }
  }

  lemma SliceBefore<T>(s: seq<T>, x: T, i: nat, j: nat)
    requires i <= j <= |s|
    ensures (s + [x])[i..j] == s[i..j]
  {
  }

  lemma SliceWithLast<T>(s: seq<T>, x: T, i: nat)
    requires i <= |s|
    ensures (s + [x])[i..|s| + 1] == s[i..|s|] + [x]
  {
  }

  lemma StepKeepsBuffer(p: Proxy, e: Event)
    requires BufferInv(p) && Enabled(p, e)
    ensures BufferInv(Apply(p, e))
  {
    match e
    case RemoteData(data) => RemoteDataKeepsBuffer(p, data);
    case _ =>
  }

  /** The bound that the cap really gives: the last chunk accepted may overshoot it. */
  lemma BufferBound(p: Proxy)
    requires BufferInv(p)
    ensures |p.remoteBuffer| <= REPLAY_CAP - 1 + READ_BUFFER
  {
    if p.cleared < p.stored {
      var last := p.chunks[p.stored - 1];
      assert p.chunks[p.cleared..p.stored] == p.chunks[p.cleared..p.stored - 1] + [last];
      FlattenSnoc(p.chunks[p.cleared..p.stored - 1], last);
    }
  }

  /** The buffer sits in the stream at the position of the last clear. */
  lemma BufferInStream(p: Proxy)
    requires BufferInv(p)
    ensures Base(p) + |p.remoteBuffer| <= Now(p)
    ensures p.remoteBuffer == Stream(p)[Base(p)..Base(p) + |p.remoteBuffer|]
    ensures |p.remoteBuffer| < 1048576 ==> Base(p) + |p.remoteBuffer| == Now(p)
  {
    FlattenSlice(p.chunks, p.cleared, p.stored);
    if p.stored == |p.chunks| {
      WholeTail(p.chunks, p.cleared);
    }
  }

  lemma WholeTail(chunks: seq<seq<byte>>, i: nat)
    requires i <= |chunks|
    ensures |Flatten(chunks[..i])| + |Flatten(chunks[i..|chunks|])| == |Flatten(chunks)|
  {
    assert chunks == chunks[..i] + chunks[i..|chunks|];
    FlattenAppend(chunks[..i], chunks[i..|chunks|]);
  }

  // ---------------------------------------------------------------- what one connection is sent

  predicate Genuine(stream: seq<byte>, x: Piece) {
    x.Upto() <= |stream| && x.data == stream[x.from..x.Upto()]
  }

  predicate AllGenuine(stream: seq<byte>, live: seq<Piece>) {
    forall i :: 0 <= i < |live| ==> Genuine(stream, live[i])
  }

  /** The live pieces follow one another from the registration on. */
  ghost predicate Chained(at: nat, live: seq<Piece>) {
    forall i :: 0 <= i < |live| ==> live[i].from == LiveEnd(at, live[..i])
  }

  function LiveEnd(at: nat, live: seq<Piece>): nat {
    if live == [] then at else live[|live| - 1].Upto()
  }

  /** What holds of connection k over a given stream; `open`: still in the map, `accepting`: being accepted. */
  ghost predicate Served(stream: seq<byte>, k: Conn, open: bool, accepting: bool) {
    && k.at <= |stream|
    && Chained(k.at, k.live)
    && AllGenuine(stream, k.live)
    && (open ==> LiveEnd(k.at, k.live) == |stream|)
    && (accepting <==> k.phase == Registered)
    && (k.phase == Removed ==> !open)
    && (!accepting ==> ReplayOk(stream, k))
  }

  predicate ReplayOk(stream: seq<byte>, k: Conn) {
    && k.base <= k.end <= k.snap <= |stream| && k.at <= k.snap
    && k.replay.from == k.base + ReplayStart(k.end - k.base)
    && k.replay.Upto() == k.end
    && Genuine(stream, k.replay)
    && (k.end == k.snap || k.end - k.base >= REPLAY_CAP)
  }

  ghost predicate ConnOk(p: Proxy, c: nat)
    requires c < |p.conns|
  {
    Served(Stream(p), p.conns[c], c in p.localConns, p.accepting == Some(c))
  }

  ghost predicate Inv(p: Proxy) {
    && BufferInv(p)
    && (p.accepting.Some? ==> p.accepting.value < |p.conns|)
    && (forall c :: c in p.localConns ==> c < |p.conns|)
    && (forall c :: 0 <= c < |p.conns| ==> ConnOk(p, c))
  }

  lemma ChainGrows(at: nat, live: seq<Piece>, x: Piece)
    requires Chained(at, live) && x.from == LiveEnd(at, live)
    ensures Chained(at, live + [x]) && LiveEnd(at, live + [x]) == x.Upto()
  {
  }

  lemma AllGenuineGrows(stream: seq<byte>, data: seq<byte>, live: seq<Piece>)
    requires AllGenuine(stream, live)
    ensures AllGenuine(stream + data, live)
    ensures AllGenuine(stream + data, live + [Piece(|stream|, data)])
  {
  }

  lemma ReplayGrows(stream: seq<byte>, data: seq<byte>, k: Conn)
    requires ReplayOk(stream, k)
    ensures ReplayOk(stream + data, k)
  {
  }

  lemma StreamGrows(stream: seq<byte>, data: seq<byte>, k: Conn, accepting: bool)
    requires Served(stream, k, false, accepting)
    ensures Served(stream + data, k, false, accepting)
  {
  }

  lemma LiveGrows(stream: seq<byte>, data: seq<byte>, k: Conn, accepting: bool)
    requires Served(stream, k, true, accepting)
    ensures Served(stream + data, k.(live := k.live + [Piece(|stream|, data)]), true, accepting)
  {
    var g := k.(live := k.live + [Piece(|stream|, data)]);
    AllGenuineGrows(stream, data, k.live);
    ChainGrows(k.at, k.live, Piece(|stream|, data));
    if !accepting {
      ReplayGrows(stream, data, k);
      assert ReplayOk(stream + data, g);
    }
  }

  lemma DispatchKeepsConn(p: Proxy, data: seq<byte>, c: nat)
    requires c < |p.conns| && ConnOk(p, c)
    ensures ConnOk(AfterRemoteData(p, data), c)
  {
    var t := AfterRemoteData(p, data);
    assert Stream(t) == Stream(p) + data by {
      FlattenSnoc(p.chunks, data);
    }
    assert t.conns[c] == Dispatched(p, c, Piece(|Stream(p)|, data));
    assert ConnOk(p, c);
    if c in p.localConns {
      LiveGrows(Stream(p), data, p.conns[c], p.accepting == Some(c));
    } else {
      StreamGrows(Stream(p), data, p.conns[c], p.accepting == Some(c));
    }
  }

  lemma SnapshotServes(stream: seq<byte>, k: Conn, open: bool, base: nat, buffer: seq<byte>)
    requires Served(stream, k, open, true)
    requires base + |buffer| <= |stream| && buffer == stream[base..base + |buffer|]
    requires |buffer| < REPLAY_CAP ==> base + |buffer| == |stream|
    ensures Served(stream, Snapshot(k, base, buffer, |stream|), open, false)
  {
  }

  lemma ReplayKeepsConn(p: Proxy, c: nat)
    requires Inv(p) && Enabled(p, SendBuffered) && c < |p.conns|
    ensures ConnOk(OnSendBuffered(p), c)
  {
    assert ConnOk(p, c);
    if p.accepting == Some(c) {
      BufferInStream(p);
      SnapshotServes(Stream(p), p.conns[c], c in p.localConns, Base(p), p.remoteBuffer);
    }
  }

  lemma StepKeepsInv(p: Proxy, e: Event)
    requires Inv(p) && Enabled(p, e)
    ensures Inv(Apply(p, e))
  {
    StepKeepsBuffer(p, e);
    var t := Apply(p, e);
    forall c | 0 <= c < |t.conns|
      ensures ConnOk(t, c)
    {
      if c < |p.conns| {
        assert ConnOk(p, c);
        match e {
          case RemoteData(data) => DispatchKeepsConn(p, data, c);
          case SendBuffered => ReplayKeepsConn(p, c);
          case _ =>
        }
      }
    }
  }

  lemma {:induction false} RunKeepsInv(p: Proxy, es: seq<Event>)
    requires Inv(p) && ValidRun(p, es)
    ensures Inv(Run(p, es))
    decreases |es|
  {
    if es != [] {
      StepKeepsInv(p, es[0]);
      RunKeepsInv(Apply(p, es[0]), es[1..]);
    }
  }

  /** How often the byte at stream position q has been handed to the connection. */
  function LiveCopies(live: seq<Piece>, q: nat): nat {
    if live == [] then 0
    else LiveCopies(live[..|live| - 1], q) + if live[|live| - 1].Covers(q) then 1 else 0
  }

  function Copies(k: Conn, q: nat): nat {
    (if k.replay.Covers(q) then 1 else 0) + LiveCopies(k.live, q)
  }

  lemma {:induction false} ChainCopies(at: nat, live: seq<Piece>, q: nat)
    requires Chained(at, live)
    ensures at <= LiveEnd(at, live)
    ensures LiveCopies(live, q) == if at <= q < LiveEnd(at, live) then 1 else 0
  {
    if live != [] {
      var front := live[..|live| - 1];
      assert forall i :: 0 <= i < |front| ==> front[..i] == live[..i];
      ChainCopies(at, front, q);
    }
  }

  // ---------------------------------------------------------------- main results

  /**
   In every run the buffer is one contiguous segment of the stream starting at the last clear, everything
   since then or the shortest whole-chunk prefix reaching 1 MiB, and never longer than 1 MiB - 1 + 4096.
   */
  lemma ReplayBufferIsBoundedSegment(es: seq<Event>)
    requires ValidRun(Init(), es)
    ensures var p := Run(Init(), es);
            && p.cleared <= p.stored <= |p.chunks|
            && p.remoteBuffer == Flatten(p.chunks[p.cleared..p.stored])
            && (p.stored == |p.chunks| || |p.remoteBuffer| >= 1048576)
            && (p.cleared < p.stored ==> |Flatten(p.chunks[p.cleared..p.stored - 1])| < 1048576)
            && Base(p) + |p.remoteBuffer| <= Now(p)
            && p.remoteBuffer == Stream(p)[Base(p)..Base(p) + |p.remoteBuffer|]
            && |p.remoteBuffer| <= 1048575 + 4096
  {
    ReachableBuffer(es);
    BufferInStream(Run(Init(), es));
    BufferBound(Run(Init(), es));
  }

  /**
   A connection that is still registered has been handed, in one or two copies, exactly the replayed part
   [a, end) and the live part [at, now) of the stream, where a is the later of the buffer's start and
   65536 bytes before its end; and every piece holds the bytes of its stream position.
   */
  lemma ConnectionCopies(es: seq<Event>, c: nat, q: nat)
    requires ValidRun(Init(), es)
    requires c in Run(Init(), es).localConns && c < |Run(Init(), es).conns|
    requires Run(Init(), es).conns[c].phase != Registered
    ensures var p := Run(Init(), es);
            var k := p.conns[c];
            && Genuine(Stream(p), k.replay) && AllGenuine(Stream(p), k.live)
            && k.replay.from == Max(k.base, k.end - 65536)
            && Copies(k, q) == (if Max(k.base, k.end - 65536) <= q < k.end then 1 else 0)
                               + (if k.at <= q < Now(p) then 1 else 0)
  {
    ReachableConn(es, c);
    CopiesOf(Run(Init(), es), c, q);
  }

  lemma CopiesOf(p: Proxy, c: nat, q: nat)
    requires c < |p.conns| && Served(Stream(p), p.conns[c], true, false)
    ensures var k := p.conns[c];
            && Genuine(Stream(p), k.replay) && AllGenuine(Stream(p), k.live)
            && k.replay.from == Max(k.base, k.end - 65536)
            && Copies(k, q) == (if Max(k.base, k.end - 65536) <= q < k.end then 1 else 0)
                               + (if k.at <= q < Now(p) then 1 else 0)
  {
    ServedCopies(Stream(p), p.conns[c], q);
  }

  lemma ReachableConn(es: seq<Event>, c: nat)
    requires ValidRun(Init(), es) && c < |Run(Init(), es).conns|
    ensures var p := Run(Init(), es);
            Served(Stream(p), p.conns[c], c in p.localConns, p.conns[c].phase == Registered)
  {
    RunKeepsInv(Init(), es);
    assert ConnOk(Run(Init(), es), c);
  }

  lemma ServedCopies(stream: seq<byte>, k: Conn, q: nat)
    requires Served(stream, k, true, false)
    ensures Genuine(stream, k.replay) && AllGenuine(stream, k.live)
    ensures k.replay.from == Max(k.base, k.end - REPLAY_MAX)
    ensures Copies(k, q) == (if Max(k.base, k.end - REPLAY_MAX) <= q < k.end then 1 else 0)
                            + (if k.at <= q < |stream| then 1 else 0)
  {
    ChainCopies(k.at, k.live, q);
  }

  /**
   With the buffer below its cap at the snapshot (so that it ended at the snapshot position s), nothing
   from a = max(b, s - 65536) on is missing, and the bytes sent twice are exactly [max(r, b, s - 65536), s).
   */
  lemma ReplayCoversWithKnownOverlap(es: seq<Event>, c: nat, q: nat)
    requires ValidRun(Init(), es)
    requires c in Run(Init(), es).localConns && c < |Run(Init(), es).conns|
    requires var k := Run(Init(), es).conns[c];
             k.phase != Registered && k.end - k.base < 1048576
    ensures var p := Run(Init(), es);
            var k := p.conns[c];
            var a := Max(k.base, k.snap - 65536);
            && k.at <= k.snap <= Now(p)
            && (a <= q < Now(p) ==> Copies(k, q) >= 1)
            && (Copies(k, q) == 2 <==> Max(k.at, a) <= q < k.snap)
            && Copies(k, q) <= 2
  {
    ReachableConn(es, c);
    CoverageOf(Stream(Run(Init(), es)), Run(Init(), es).conns[c], q);
  }

  lemma CoverageOf(stream: seq<byte>, k: Conn, q: nat)
    requires Served(stream, k, true, false) && k.end - k.base < 1048576
    ensures var a := Max(k.base, k.snap - 65536);
            && k.at <= k.snap <= |stream|
            && (a <= q < |stream| ==> Copies(k, q) >= 1)
            && (Copies(k, q) == 2 <==> Max(k.at, a) <= q < k.snap)
            && Copies(k, q) <= 2
  {
    ServedCopies(stream, k, q);
  }

  /**
   Beyond the cap the claim fails: chunks that arrive while the buffer is full are not stored. There is
   a hole in what the connection got exactly when it registered after the position where the buffer ends.
   */
  lemma CoverageHasNoHoleExactly(es: seq<Event>, c: nat)
    requires ValidRun(Init(), es)
    requires c in Run(Init(), es).localConns && c < |Run(Init(), es).conns|
    requires Run(Init(), es).conns[c].phase != Registered
    ensures var p := Run(Init(), es);
            var k := p.conns[c];
            (forall q: nat :: k.replay.from <= q < Now(p) ==> Copies(k, q) >= 1) <==> k.at <= k.end
  {
    RunKeepsInv(Init(), es);
    var p := Run(Init(), es);
    var k := p.conns[c];
    assert ConnOk(p, c);
    forall q: nat
      ensures Copies(k, q) == (if k.replay.from <= q < k.end then 1 else 0)
                              + (if k.at <= q < Now(p) then 1 else 0)
    {
      ConnectionCopies(es, c, q);
    }
    if k.end < k.at {
      assert Copies(k, k.end) == 0;
    }
  }

  // ---------------------------------------------------------------- who is listening

  /** A step that is neither the removal of c nor the stop. */
  predicate Keeps(e: Event, c: nat) { e != Remove(c) && e != Stop }

  /** The pieces that the remote reads of a run make, from stream position `at` on. */
  function PiecesFrom(at: nat, es: seq<Event>): seq<Piece>
    decreases |es|
  {
    if es == [] then []
    else if es[0].RemoteData? then [Piece(at, es[0].data)] + PiecesFrom(at + |es[0].data|, es[1..])
    else PiecesFrom(at, es[1..])
  }

  lemma NowGrows(p: Proxy, e: Event)
    requires Enabled(p, e)
    ensures Now(Apply(p, e)) == Now(p) + if e.RemoteData? then |e.data| else 0
  {
    if e.RemoteData? {
      FlattenSnoc(p.chunks, e.data);
    }
  }

  /** A connection in the map stays there exactly until it is removed or the proxy is stopped. */
  lemma ListenStep(p: Proxy, e: Event, c: nat)
    requires Enabled(p, e) && c < |p.conns|
    ensures var t := Apply(p, e);
            && c < |t.conns| && (c in t.localConns <==> c in p.localConns && Keeps(e, c))
            && t.conns[c].live ==
               p.conns[c].live + if e.RemoteData? && c in p.localConns then [Piece(Now(p), e.data)] else []
  {
  }

  /**
   For every continuation of every state: a connection listens at its end iff it listened before and is neither
   removed nor cut off by Stop on the way; one that does not listen is never sent another live piece, and one
   that listens throughout is sent every piece that arrives, each at its position in the stream.
   */
  lemma {:induction false} ListensExactly(p: Proxy, es: seq<Event>, c: nat)
    requires ValidRun(p, es) && c < |p.conns|
    ensures var t := Run(p, es);
            && c < |t.conns|
            && (c in t.localConns <==> c in p.localConns && Remove(c) !in es && Stop !in es)
            && (c !in p.localConns ==> t.conns[c].live == p.conns[c].live)
            && (c in t.localConns ==> t.conns[c].live == p.conns[c].live + PiecesFrom(Now(p), es))
    decreases |es|
  {
    if es != [] {
      var t := Apply(p, es[0]);
      ListenStep(p, es[0], c);
      NowGrows(p, es[0]);
      ListensExactly(t, es[1..], c);
      assert es == [es[0]] + es[1..];
    }
  }

  /**
   From its registration on, in every run: a new connection listens until it is removed or the proxy is
   stopped, and while it listens its live part is exactly what has arrived since.
   */
  lemma ServedSinceRegistration(es: seq<Event>, fs: seq<Event>)
    requires ValidRun(Init(), es) && Enabled(Run(Init(), es), Register)
    requires ValidRun(Apply(Run(Init(), es), Register), fs)
    ensures var p := Run(Init(), es);
            var t := Run(Apply(p, Register), fs);
            var c := |p.conns|;
            && c < |t.conns|
            && (c in t.localConns <==> Remove(c) !in fs && Stop !in fs)
            && (c in t.localConns ==> t.conns[c].live == PiecesFrom(Now(p), fs))
  {
    var p := Run(Init(), es);
    ListensExactly(Apply(p, Register), fs, |p.conns|);
  }

  /** So nothing that arrives after the removal of a connection, or after Stop, is sent to it. */
  lemma NothingAfterRemoval(es: seq<Event>, e: Event, fs: seq<Event>, c: nat)
    requires ValidRun(Init(), es) && c < |Run(Init(), es).conns|
    requires Enabled(Run(Init(), es), e) && (e == Remove(c) || e == Stop)
    requires ValidRun(Apply(Run(Init(), es), e), fs)
    ensures var p := Run(Init(), es);
            var t := Run(Apply(p, e), fs);
            c < |t.conns| && c !in t.localConns && t.conns[c].live == p.conns[c].live
  {
    var p := Run(Init(), es);
    ListenStep(p, e, c);
    ListensExactly(Apply(p, e), fs, c);
  }

  /** A connection whose handler has removed it is not in the map. */
  lemma RemovedIsNotListening(es: seq<Event>, c: nat)
    requires ValidRun(Init(), es) && c < |Run(Init(), es).conns|
    ensures Run(Init(), es).conns[c].phase == Removed ==> c !in Run(Init(), es).localConns
  {
    RunKeepsInv(Init(), es);
    assert ConnOk(Run(Init(), es), c);
  }

  /** A connection can be removed, once it has been replayed to; the proxy can be stopped at any time. */
  lemma CanBeRemoved(es: seq<Event>, c: nat)
    requires ValidRun(Init(), es) && c < |Run(Init(), es).conns|
    ensures exists fs :: ValidRun(Run(Init(), es), fs) && |fs| <= 2 && c !in Run(Run(Init(), es), fs).localConns
    ensures Enabled(Run(Init(), es), Stop) && Apply(Run(Init(), es), Stop).localConns == {}
  {
    var p := Run(Init(), es);
    RunKeepsInv(Init(), es);
    assert ConnOk(p, c);
    match p.conns[c].phase
    case Registered => RemovedAfterReplay(p, c);
    case Replayed => RemovedAtOnce(p, c);
    case Removed => assert ValidRun(p, []) && Run(p, []) == p;
  }

  lemma RemovedAtOnce(p: Proxy, c: nat)
    requires c < |p.conns| && p.conns[c].phase == Replayed
    ensures ValidRun(p, [Remove(c)]) && c !in Run(p, [Remove(c)]).localConns
  {
    assert [Remove(c)][1..] == [];
    assert Run(p, [Remove(c)]) == Apply(p, Remove(c));
  }

  lemma RemovedAfterReplay(p: Proxy, c: nat)
    requires c < |p.conns| && p.accepting == Some(c)
    ensures ValidRun(p, [SendBuffered, Remove(c)]) && c !in Run(p, [SendBuffered, Remove(c)]).localConns
  {
    assert [SendBuffered, Remove(c)][1..] == [Remove(c)];
    RemovedAtOnce(Apply(p, SendBuffered), c);
  }

  // ---------------------------------------------------------------- the histories, told from the events

  /** What the remote side has sent. */
  function Arrived(es: seq<Event>): seq<byte> {
    if es == [] then [] else (if es[0].RemoteData? then es[0].data else []) + Arrived(es[1..])
  }

  /** The stream position of the last clear, for a run that starts at position `at` with the last clear at `base`. */
  function LastClear(es: seq<Event>, at: nat, base: nat): nat
    decreases |es|
  {
    if es == [] then base
    else
      match es[0]
      case RemoteData(data) => LastClear(es[1..], at + |data|, base)
      case ClearBuffer => LastClear(es[1..], at, at)
      case _ => LastClear(es[1..], at, base)
  }

  lemma StreamStep(p: Proxy, e: Event)
    requires BufferInv(p) && Enabled(p, e)
    ensures Stream(Apply(p, e)) == Stream(p) + if e.RemoteData? then e.data else []
    ensures Base(Apply(p, e)) == if e.ClearBuffer? then Now(p) else Base(p)
  {
    var t := Apply(p, e);
    match e
    case RemoteData(data) =>
      FlattenSnoc(p.chunks, data);
      assert t.chunks[..p.cleared] == p.chunks[..p.cleared];
    case ClearBuffer => assert p.chunks[..|p.chunks|] == p.chunks;
    case _ =>
  }

  lemma {:induction false} StreamRun(p: Proxy, es: seq<Event>)
    requires BufferInv(p) && ValidRun(p, es)
    ensures Stream(Run(p, es)) == Stream(p) + Arrived(es)
    decreases |es|
  {
    if es == [] {
      assert Stream(p) + [] == Stream(p);
    } else {
      var now := if es[0].RemoteData? then es[0].data else [];
      StreamStep(p, es[0]);
      StepKeepsBuffer(p, es[0]);
      StreamRun(Apply(p, es[0]), es[1..]);
      Regroup(Stream(p), now, Arrived(es[1..]));
    }
  }

  lemma Regroup(x: seq<byte>, y: seq<byte>, z: seq<byte>)
    ensures (x + y) + z == x + (y + z)
  {
  }

  lemma {:induction false} BaseRun(p: Proxy, es: seq<Event>)
    requires BufferInv(p) && ValidRun(p, es)
    ensures Base(Run(p, es)) == LastClear(es, Now(p), Base(p))
    decreases |es|
  {
    if es != [] {
      StreamStep(p, es[0]);
      StepKeepsBuffer(p, es[0]);
      BaseRun(Apply(p, es[0]), es[1..]);
    }
  }

  /**
   In every run the stream is what the remote side has sent, and the replay buffer is the part of it that begins at
   the last clear, or at the start if there was none.
   */
  lemma BufferStartsAtLastClear(es: seq<Event>)
    requires ValidRun(Init(), es)
    ensures var p := Run(Init(), es);
            var from := LastClear(es, 0, 0);
            && Stream(p) == Arrived(es)
            && from + |p.remoteBuffer| <= |Arrived(es)|
            && p.remoteBuffer == Arrived(es)[from..from + |p.remoteBuffer|]
            && (|p.remoteBuffer| < 1048576 ==> p.remoteBuffer == Arrived(es)[from..])
  {
    HistoriesOf(es);
    ReachableBuffer(es);
    BufferFrom(Run(Init(), es), Arrived(es), LastClear(es, 0, 0));
  }

  lemma HistoriesOf(es: seq<Event>)
    requires ValidRun(Init(), es)
    ensures Stream(Run(Init(), es)) == Arrived(es) && Base(Run(Init(), es)) == LastClear(es, 0, 0)
  {
    assert Stream(Init()) == [] && Base(Init()) == 0;
    StreamRun(Init(), es);
    BaseRun(Init(), es);
  }

  lemma BufferFrom(p: Proxy, arrived: seq<byte>, from: nat)
    requires BufferInv(p) && Stream(p) == arrived && Base(p) == from
    ensures from + |p.remoteBuffer| <= |arrived|
    ensures p.remoteBuffer == arrived[from..from + |p.remoteBuffer|]
    ensures |p.remoteBuffer| < 1048576 ==> p.remoteBuffer == arrived[from..]
  {
    BufferInStream(p);
    WholeSlice(arrived, from, |p.remoteBuffer|);
  }

  lemma ReachableBuffer(es: seq<Event>)
    requires ValidRun(Init(), es)
    ensures BufferInv(Run(Init(), es))
  {
    RunKeepsInv(Init(), es);
  }

  lemma WholeSlice(s: seq<byte>, i: nat, n: nat)
    requires i + n <= |s|
    ensures i + n == |s| ==> s[i..i + n] == s[i..]
  {
  }

  // ---------------------------------------------------------------- a hole

  lemma {:induction false} RunSnoc(p: Proxy, es: seq<Event>, e: Event)
    requires ValidRun(p, es) && Enabled(Run(p, es), e)
    ensures ValidRun(p, es + [e]) && Run(p, es + [e]) == Apply(Run(p, es), e)
    decreases |es|
  {
    var more := es + [e];
    if es == [] {
      assert more[1..] == [];
    } else {
      RunSnoc(Apply(p, es[0]), es[1..], e);
      assert more[1..] == es[1..] + [e];
    }
  }

  /** The number of full reads that fill the replay buffer. */
  const FULL_READS: nat := 256

  /** n reads of 4096 bytes, nobody being connected: the buffer keeps the first 256 of them. */
  lemma {:induction false} ReadsFillBuffer(n: nat) returns (es: seq<Event>)
    ensures ValidRun(Init(), es)
    ensures var p := Run(Init(), es);
            && Now(p) == n * READ_BUFFER && |p.remoteBuffer| == Min(n, FULL_READS) * READ_BUFFER
            && p.cleared == 0 && p.accepting == None && p.conns == [] && p.localConns == {}
  {
    if n == 0 {
      es := [];
    } else {
      es := ReadsFillBuffer(n - 1);
      var p := Run(Init(), es);
      var data := seq(READ_BUFFER, _ => 0 as byte);
      FlattenSnoc(p.chunks, data);
      RunSnoc(Init(), es, RemoteData(data));
      es := es + [RemoteData(data)];
    }
  }

  /** A connection that comes after n full reads. */
  lemma ConnectAfter(n: nat) returns (es: seq<Event>)
    ensures ValidRun(Init(), es)
    ensures var p := Run(Init(), es);
            && 0 in p.localConns && |p.conns| == 1 && p.conns[0].phase != Registered
            && p.conns[0].at == n * READ_BUFFER && p.conns[0].end == Min(n, FULL_READS) * READ_BUFFER
  {
    es := ReadsFillBuffer(n);
    var p := Run(Init(), es);
    assert Base(p) == 0;
    RunSnoc(Init(), es, Register);
    es := es + [Register];
    RunSnoc(Init(), es, SendBuffered);
    es := es + [SendBuffered];
  }

  /**
   Such holes occur, and can be as long as one likes: a connection that comes after n reads of 4096 bytes
   misses exactly what was read after the first 256 of them.
   */
  lemma HoleAfterFullBuffer(n: nat)
    ensures exists es ::
              && ValidRun(Init(), es)
              && var p := Run(Init(), es);
                 && 0 in p.localConns && |p.conns| == 1 && p.conns[0].phase != Registered
                 && p.conns[0].at == n * 4096 && p.conns[0].end == Min(n, 256) * 4096
                 && forall q: nat :: p.conns[0].end <= q < p.conns[0].at ==> Copies(p.conns[0], q) == 0
  {
    var es := ConnectAfter(n);
    var k := Run(Init(), es).conns[0];
    forall q: nat | k.end <= q < k.at
      ensures Copies(k, q) == 0
    {
      ConnectionCopies(es, 0, q);
    }
  }

  // ---------------------------------------------------------------- the object

  /** The proxy's own fields; each method is one critical section and makes the step above. */
  class LocalProxy {
    var remoteBuffer: seq<byte>
    var localConns: set<nat>

    constructor ()
      ensures Shows(Init())
    {
      remoteBuffer, localConns := [], {};
    }

    /** The fields of the object are those of a model state. */
    ghost predicate Shows(p: Proxy)
      reads this
    {
      p.remoteBuffer == remoteBuffer && p.localConns == localConns
    }

    /** Returns the connections for which a write of `data` is started. */
    method OnRemoteData(data: seq<byte>) returns (targets: set<nat>)
      modifies this`remoteBuffer
      ensures forall p :: old(Shows(p)) ==>
                var q := AfterRemoteData(p, data);
                && Shows(q)
                && forall c :: 0 <= c < |p.conns| ==>
                     q.conns[c].live == p.conns[c].live + if c in targets then [Piece(Now(p), data)] else []
    {
      if |remoteBuffer| < REPLAY_CAP {
        remoteBuffer := remoteBuffer + data;
      }
      targets := localConns;
    }

    method Register(conn: nat)
      modifies this`localConns
      ensures forall p :: old(Shows(p)) && |p.conns| == conn && Enabled(p, Event.Register) ==>
                Shows(Apply(p, Event.Register))
    {
      localConns := localConns + {conn};
    }

    /** sendBufferedData: what is written to a new connection. */
    method SendBufferedData() returns (sent: seq<byte>)
      ensures forall p, k: Conn :: Shows(p) ==> sent == Snapshot(k, Base(p), p.remoteBuffer, Now(p)).replay.data
    {
      var buffer := remoteBuffer;
      sent := [];
      if |buffer| > 0 {
        var start := 0;
        if |buffer| > REPLAY_MAX {
          start := |buffer| - REPLAY_MAX;
        }
        sent := buffer[start..];
      }
    }

    method Remove(conn: nat)
      modifies this`localConns
      ensures forall p :: old(Shows(p)) && Enabled(p, Event.Remove(conn)) ==> Shows(Apply(p, Event.Remove(conn)))
    {
      localConns := localConns - {conn};
    }

    method ClearBuffer()
      modifies this`remoteBuffer
      ensures forall p :: old(Shows(p)) ==> Shows(Apply(p, Event.ClearBuffer))
    {
      remoteBuffer := [];
    }
  }
}
