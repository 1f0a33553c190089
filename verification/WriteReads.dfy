/** What the handlers of the server read (internal/server/server.go, lines 103-118), told from the events alone. */
module WriteReads {
  import opened Common
  import opened WriteArbitration
  import opened WriteSafety
  import opened WriteHistory
  import W = WriteWitness

  /** The reads of connection c that brought data, in order. */
  function ReadsOf(es: seq<Event>, c: nat): seq<Chunk> {
    if es == [] then []
    else (if es[0].Read? && es[0].conn == c && es[0].data != [] then [es[0].data] else []) + ReadsOf(es[1..], c)
  }

  lemma ReadStep(s: Sys, e: Event, c: nat)
    requires Enabled(s, e) && c < |s.handlers|
    ensures c < |Apply(s, e).handlers|
    ensures Apply(s, e).handlers[c].chunks ==
            s.handlers[c].chunks + if e.Read? && e.conn == c && e.data != [] then [e.data] else []
  {
    if IsHandlerEvent(e) {
      HandlerEventShape(s, e);
      if e.Step? && e.conn == c {
        HandlerChunks(s, e);
      }
    }
  }

  /** A connection that is not registered yet is not read, and starts with nothing. */
  lemma NotReadYet(s: Sys, e: Event, c: nat)
    requires Enabled(s, e) && c >= |s.handlers|
    ensures !(e.Read? && e.conn == c)
    ensures c < |Apply(s, e).handlers| ==> Apply(s, e).handlers[c].chunks == []
  {
    if IsHandlerEvent(e) {
      HandlerEventShape(s, e);
    }
  }

  lemma {:induction false} ChunksAreReads(s: Sys, es: seq<Event>, c: nat)
    requires ValidRun(s, es) && c < |Run(s, es).handlers|
    ensures Run(s, es).handlers[c].chunks ==
            (if c < |s.handlers| then s.handlers[c].chunks else []) + ReadsOf(es, c)
    decreases |es|
  {
    if es != [] {
      if c < |s.handlers| {
        ReadStep(s, es[0], c);
      } else {
        NotReadYet(s, es[0], c);
      }
      var now := if es[0].Read? && es[0].conn == c && es[0].data != [] then [es[0].data] else [];
      ChunksAreReads(Apply(s, es[0]), es[1..], c);
      Regroup(if c < |s.handlers| then s.handlers[c].chunks else [], now, ReadsOf(es[1..], c));
    }
  }

  lemma Regroup(x: seq<Chunk>, y: seq<Chunk>, z: seq<Chunk>)
    ensures (x + y) + z == x + (y + z)
  {
  }

  /** In every run a handler's chunks are the data that the reads of its connection brought, unchanged and in order. */
  lemma ChunksAreWhatWasRead(hasSerial: bool, es: seq<Event>, c: nat)
    requires ValidRun(Init(hasSerial), es) && c < |Run(Init(hasSerial), es).handlers|
    ensures Run(Init(hasSerial), es).handlers[c].chunks == ReadsOf(es, c)
  {
    ChunksAreReads(Init(hasSerial), es, c);
  }

  /** The addresses of the connections that a run accepts, in order. */
  function AcceptedBy(es: seq<Event>): seq<string> {
    if es == [] then [] else (if es[0].Accept? then [es[0].id] else []) + AcceptedBy(es[1..])
  }

  /** Those that have a handler, and the one still to be registered. */
  function Known(s: Sys): seq<string> {
    seq(|s.handlers|, c requires 0 <= c < |s.handlers| => s.handlers[c].id)
    + match s.accepted case Some(id) => [id] case None => []
  }

  lemma KnownStep(s: Sys, e: Event)
    requires Enabled(s, e)
    ensures Known(Apply(s, e)) == Known(s) + if e.Accept? then [e.id] else []
  {
    if IsHandlerEvent(e) {
      HandlerEventShape(s, e);
    }
  }

  lemma {:induction false} KnownRun(s: Sys, es: seq<Event>)
    requires ValidRun(s, es)
    ensures Known(Run(s, es)) == Known(s) + AcceptedBy(es)
    decreases |es|
  {
    if es != [] {
      KnownStep(s, es[0]);
      KnownRun(Apply(s, es[0]), es[1..]);
    }
  }

  /** In every run each accepted connection gets one handler, in order; the last one may still be waiting for it. */
  lemma AcceptedAreHandled(hasSerial: bool, es: seq<Event>)
    requires ValidRun(Init(hasSerial), es)
    ensures Known(Run(Init(hasSerial), es)) == AcceptedBy(es)
  {
    KnownRun(Init(hasSerial), es);
  }

  lemma {:induction false} ReadLengths(s: Sys, es: seq<Event>, c: nat, i: nat)
    requires ValidRun(s, es) && i < |ReadsOf(es, c)|
    ensures 1 <= |ReadsOf(es, c)[i]| <= 1024
    decreases |es|
  {
    var own := es[0].Read? && es[0].conn == c && es[0].data != [];
    if !own {
      ReadLengths(Apply(s, es[0]), es[1..], c, i);
    } else if i > 0 {
      ReadLengths(Apply(s, es[0]), es[1..], c, i - 1);
    }
  }

  /** A chunk of n bytes is read in some run. */
  ghost predicate CanRead(n: nat) {
    exists es, c: nat, i: nat ::
      && ValidRun(Init(true), es) && c < |Run(Init(true), es).handlers|
      && i < |Run(Init(true), es).handlers[c].chunks| && |Run(Init(true), es).handlers[c].chunks[i]| == n
  }

  /** The lengths of the chunks are exactly 1 to 1024: the read buffer, and no empty chunk. */
  lemma ChunkLengthsExactly(n: nat)
    ensures CanRead(n) <==> 1 <= n <= 1024
  {
    if CanRead(n) {
      var es, c: nat, i: nat :|
        && ValidRun(Init(true), es) && c < |Run(Init(true), es).handlers|
        && i < |Run(Init(true), es).handlers[c].chunks| && |Run(Init(true), es).handlers[c].chunks[i]| == n;
      ChunksAreWhatWasRead(true, es, c);
      ReadLengths(Init(true), es, c, i);
    }
    if 1 <= n <= 1024 {
      var s := Init(true);
      assert ValidRun(s, []) && Run(s, []) == s;
      s := W.Onward(s, Accept("a"));
      s := W.Onward(s, Register);
      s := W.Onward(s, Read(0, seq(n, _ => 1 as byte)));
      var es :| ValidRun(Init(true), es) && Run(Init(true), es) == s;
      assert |s.handlers[0].chunks[0]| == n;
    }
  }
}
