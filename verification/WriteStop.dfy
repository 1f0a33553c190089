/** What is left of a connection once the server has been stopped (internal/server/server.go, Stop). */
module WriteStop {
  import opened Common
  import opened WriteArbitration
  import opened WriteSafety
  import opened WriteHistory
  import P = WriteProgress
  import L = WriteLease

  /** What a handler has read and decided only grows, and a closed connection stays closed. */
  predicate Grown(h: Handler, g: Handler) {
    h.chunks <= g.chunks && h.fates <= g.fates && (h.closed ==> g.closed && g.chunks == h.chunks)
  }

  lemma GrownStep(s: Sys, e: Event, c: nat)
    requires Enabled(s, e) && c < |s.handlers|
    ensures c < |Apply(s, e).handlers| && Grown(s.handlers[c], Apply(s, e).handlers[c])
  {
    if IsHandlerEvent(e) {
      HandlerEventShape(s, e);
      if e.conn == c {
        MoverGrows(s, e);
      }
    }
  }

  lemma MoverGrows(s: Sys, e: Event)
    requires Enabled(s, e) && IsHandlerEvent(e) && HandlerShape(s, Apply(s, e), e.conn)
    ensures Grown(s.handlers[e.conn], Apply(s, e).handlers[e.conn])
  {
    HandlerChunks(s, e);
    ShapeGrows(s, Apply(s, e), e.conn);
    if s.handlers[e.conn].closed {
      assert !e.Read?;
    }
  }

  lemma ShapeGrows(s: Sys, t: Sys, c: nat)
    requires c < |s.handlers| && c < |t.handlers| && ChunkShape(s, t, c)
    ensures s.handlers[c].chunks <= t.handlers[c].chunks && s.handlers[c].fates <= t.handlers[c].fates
    ensures s.handlers[c].pc != Reading || t.handlers[c].pc != FirstCheck ==>
              t.handlers[c].chunks == s.handlers[c].chunks
  {
  }

  lemma {:induction false} GrownRun(s: Sys, fs: seq<Event>, c: nat)
    requires ValidRun(s, fs) && c < |s.handlers|
    ensures c < |Run(s, fs).handlers| && Grown(s.handlers[c], Run(s, fs).handlers[c])
    decreases |fs|
  {
    if fs != [] {
      GrownStep(s, fs[0], c);
      GrownRun(Apply(s, fs[0]), fs[1..], c);
    }
  }

  // ---------------------------------------------------------------- what Stop leaves to a connection

  /** The chunk in hand is the only one without a fate, so at most that one can still be written. */
  lemma LastChunkOnly(s: Sys, u: Sys, c: nat)
    requires c < |s.handlers| && c < |u.handlers| && Projected(s, c) && Projected(u, c)
    requires u.handlers[c].chunks == s.handlers[c].chunks && s.handlers[c].fates <= u.handlers[c].fates
    ensures var chunks := s.handlers[c].chunks;
            || ChunksOf(u.writes, c) == ChunksOf(s.writes, c)
            || (&& Busy(s.handlers[c].pc) && chunks != []
                && ChunksOf(u.writes, c) == ChunksOf(s.writes, c) + [chunks[|chunks| - 1]])
  {
    var h, g := s.handlers[c], u.handlers[c];
    if g.fates != h.fates {
      assert g.fates == h.fates + [g.fates[|h.fates|]];
      FateProjection(h.chunks, h.fates, g.fates[|h.fates|]);
    }
  }

  /**
   Stop closes the connections in the client map: in every run after it such a connection is never read again,
   and the port gets at most one more chunk from it, the one its handler has in hand.
   */
  lemma StopSilences(hasSerial: bool, es: seq<Event>, c: nat, fs: seq<Event>)
    requires ValidRun(Init(hasSerial), es)
    requires var s := Run(Init(hasSerial), es);
             && s.running && Enabled(s, Stop) && c in s.clients.Values && ValidRun(Apply(s, Stop), fs)
    ensures var s := Run(Init(hasSerial), es);
            var u := Run(Apply(s, Stop), fs);
            && c < |s.handlers| && c < |u.handlers|
            && u.handlers[c].chunks == s.handlers[c].chunks
            && (|| ChunksOf(u.writes, c) == ChunksOf(s.writes, c)
                || (&& Busy(s.handlers[c].pc) && s.handlers[c].chunks != []
                    && ChunksOf(u.writes, c)
                       == ChunksOf(s.writes, c) + [s.handlers[c].chunks[|s.handlers[c].chunks| - 1]]))
  {
    var s := Run(Init(hasSerial), es);
    var t := Apply(s, Stop);
    ReachableInv(hasSerial, es);
    MapIsScoped(hasSerial, es, c);
    assert t.handlers[c].closed && t.handlers[c].chunks == s.handlers[c].chunks;
    GrownStep(s, Stop, c);
    GrownRun(t, fs, c);
    StepKeepsInv(s, Stop);
    RunKeepsInv(t, fs);
    assert Projected(s, c) && Projected(Run(t, fs), c);
    LastChunkOnly(s, Run(t, fs), c);
  }

  /** The map refers to handlers that exist, whatever the addresses. */
  ghost predicate Scoped(s: Sys) { forall id :: id in s.clients ==> s.clients[id] < |s.handlers| }

  lemma {:induction false} ScopedRun(s: Sys, es: seq<Event>)
    requires Scoped(s) && ValidRun(s, es)
    ensures Scoped(Run(s, es))
    decreases |es|
  {
    if es != [] {
      ScopedStep(s, es[0]);
      ScopedRun(Apply(s, es[0]), es[1..]);
    }
  }

  lemma ScopedStep(s: Sys, e: Event)
    requires Scoped(s) && Enabled(s, e)
    ensures Scoped(Apply(s, e))
  {
    if IsHandlerEvent(e) {
      HandlerEventShape(s, e);
      assert forall id :: id in Apply(s, e).clients ==> id in s.clients && Apply(s, e).clients[id] == s.clients[id];
    }
  }

  lemma MapIsScoped(hasSerial: bool, es: seq<Event>, c: nat)
    requires ValidRun(Init(hasSerial), es) && c in Run(Init(hasSerial), es).clients.Values
    ensures c < |Run(Init(hasSerial), es).handlers|
  {
    ScopedRun(Init(hasSerial), es);
  }

  /** As long as ids do not collide, that is every connection whose handler has not left the map. */
  lemma StopSilencesAll(hasSerial: bool, es: seq<Event>, c: nat, fs: seq<Event>)
    requires ValidRun(Init(hasSerial), es) && c < |Run(Init(hasSerial), es).handlers|
    requires var s := Run(Init(hasSerial), es);
             && s.running && !s.collided && Enabled(s, Stop) && Registered(s.handlers[c].pc)
             && ValidRun(Apply(s, Stop), fs)
    ensures var s := Run(Init(hasSerial), es);
            var u := Run(Apply(s, Stop), fs);
            c < |u.handlers| && u.handlers[c].chunks == s.handlers[c].chunks
  {
    var s := Run(Init(hasSerial), es);
    ReachableInv(hasSerial, es);
    assert s.clients[s.handlers[c].id] == c;
    StopSilences(hasSerial, es, c, fs);
  }

  // ---------------------------------------------------------------- and what it does not touch

  /** A handler that is not closed and not on its way out can be read from again. */
  lemma {:induction false} ReadsOn(s: Sys, c: nat) returns (fs: seq<Event>)
    requires P.InLoop(s) && c < |s.handlers| && !s.handlers[c].closed
    requires s.handlers[c].pc.Reading? || Busy(s.handlers[c].pc)
    ensures ValidRun(s, fs) && c < |Run(s, fs).handlers|
    ensures |s.handlers[c].chunks| < |Run(s, fs).handlers[c].chunks|
    decreases P.StepsLeft(s.handlers[c].pc)
  {
    var e := if s.handlers[c].pc.Reading? then Read(c, [0]) else Step(c);
    var t := Apply(s, e);
    if s.handlers[c].pc.Reading? {
      fs := [];
    } else {
      HandlerEventShape(s, e);
      P.StepsLeftDecrease(s, c);
      P.StepFollows(s, c);
      P.HandlerKeepsLoop(s, e);
      fs := ReadsOn(t, c);
    }
    L.RunCons(s, e, fs);
    fs := [e] + fs;
  }

  lemma {:induction false} LeftForGood(s: Sys, fs: seq<Event>, c: nat)
    requires ValidRun(s, fs) && c < |s.handlers| && !s.handlers[c].pc.Reading? && !Busy(s.handlers[c].pc)
    ensures c < |Run(s, fs).handlers| && Run(s, fs).handlers[c].chunks == s.handlers[c].chunks
    decreases |fs|
  {
    if fs != [] {
      LeftStep(s, fs[0], c);
      LeftForGood(Apply(s, fs[0]), fs[1..], c);
    }
  }

  lemma LeftStep(s: Sys, e: Event, c: nat)
    requires Enabled(s, e) && c < |s.handlers| && !s.handlers[c].pc.Reading? && !Busy(s.handlers[c].pc)
    ensures var t := Apply(s, e);
            && c < |t.handlers| && !t.handlers[c].pc.Reading? && !Busy(t.handlers[c].pc)
            && t.handlers[c].chunks == s.handlers[c].chunks
  {
    if IsHandlerEvent(e) {
      HandlerEventShape(s, e);
      if e.conn == c {
        IdleMoves(s, c);
        IdleChunks(s, c);
      }
    }
  }

  /** Stop takes reading away from this connection, or it was taken away before. */
  predicate Silenced(s: Sys, c: nat)
    requires c < |s.handlers|
  {
    s.handlers[c].closed || (s.running && c in s.clients.Values)
  }

  /**
   In every reachable state: after Stop a connection can still be read from, in some run, iff it was neither
   closed before nor in the map of the running server, and its handler is not on its way out. In particular a
   connection displaced from the map by another one of its address survives Stop, and so does one that is
   registered after it, however often Stop is called.
   */
  lemma StopSilencesExactly(hasSerial: bool, es: seq<Event>, c: nat)
    requires ValidRun(Init(hasSerial), es) && c < |Run(Init(hasSerial), es).handlers|
    requires Enabled(Run(Init(hasSerial), es), Stop)
    ensures var s := Run(Init(hasSerial), es);
            (exists fs :: ValidRun(Apply(s, Stop), fs) && ReadsMore(s, Run(Apply(s, Stop), fs), c))
            <==> !Silenced(s, c) && (s.handlers[c].pc.Reading? || Busy(s.handlers[c].pc))
  {
    var s := Run(Init(hasSerial), es);
    var t := Apply(s, Stop);
    P.RunKeepsLoop(Init(hasSerial), es);
    StopMarks(s, c);
    if Silenced(s, c) || !(s.handlers[c].pc.Reading? || Busy(s.handlers[c].pc)) {
      forall fs | ValidRun(t, fs)
        ensures !ReadsMore(s, Run(t, fs), c)
      {
        if Silenced(s, c) { GrownRun(t, fs, c); } else { LeftForGood(t, fs, c); }
      }
    } else {
      StopKeepsLoop(s);
      var fs := ReadsOn(t, c);
      assert ReadsMore(s, Run(t, fs), c);
    }
  }

  /** A connection that is registered is open, also after Stop, and its handler can read from it. */
  lemma NewConnectionIsRead(hasSerial: bool, es: seq<Event>)
    requires ValidRun(Init(hasSerial), es) && Enabled(Run(Init(hasSerial), es), Register)
    ensures var s := Run(Init(hasSerial), es);
            var t := Apply(s, Register);
            && |s.handlers| < |t.handlers|
            && exists fs :: ValidRun(t, fs) && ReadsMore(t, Run(t, fs), |s.handlers|)
  {
    var s := Run(Init(hasSerial), es);
    var t := Apply(s, Register);
    P.RunKeepsLoop(Init(hasSerial), es);
    P.RegisterKeepsLoop(s);
    var fs := ReadsOn(t, |s.handlers|);
    assert ReadsMore(t, Run(t, fs), |s.handlers|);
  }

  /**
   The server mutex in every reachable state: Stop, a registration and the start of a disconnect are possible
   exactly while no handler is inside its disconnect branch.
   */
  lemma MutexExcludesExactly(hasSerial: bool, es: seq<Event>, c: nat)
    requires ValidRun(Init(hasSerial), es)
    ensures var s := Run(Init(hasSerial), es);
            var free := forall d :: 0 <= d < |s.handlers| ==> !InMutex(s.handlers[d].pc);
            && (Enabled(s, Stop) <==> free)
            && (Enabled(s, Register) <==> free && s.accepted.Some?)
            && (c < |s.handlers| && s.handlers[c].pc.Failed? ==> (Enabled(s, Step(c)) <==> free))
  {
    ReachableInv(hasSerial, es);
    var s := Run(Init(hasSerial), es);
    if s.mutex.Some? {
      assert InMutex(s.handlers[s.mutex.value].pc);
    }
  }

  predicate ReadsMore(s: Sys, u: Sys, c: nat) {
    c < |s.handlers| && c < |u.handlers| && |s.handlers[c].chunks| < |u.handlers[c].chunks|
  }

  lemma StopMarks(s: Sys, c: nat)
    requires Enabled(s, Stop) && c < |s.handlers|
    ensures var t := Apply(s, Stop);
            && c < |t.handlers| && (t.handlers[c].closed <==> Silenced(s, c))
            && t.handlers[c].pc == s.handlers[c].pc && t.handlers[c].chunks == s.handlers[c].chunks
  {
  }

  lemma StopKeepsLoop(s: Sys)
    requires P.InLoop(s) && Enabled(s, Stop)
    ensures P.InLoop(Apply(s, Stop))
  {
  }
}
