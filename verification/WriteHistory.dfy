/** Whole runs of WriteArbitration: what reaches the serial port, in which order, and under whose lock. */
module WriteHistory {
  import opened Common
  import opened WriteArbitration
  import opened WriteSafety
  import A = ArbiterSpec

  /** The number of writes checked under tenure k that reached the port when it was over. */
  function Late(writes: seq<Write>, k: nat): nat {
    if writes == [] then 0
    else
      var w := writes[|writes| - 1];
      Late(writes[..|writes| - 1], k) + if w.tenure == k && !w.inForce then 1 else 0
  }

  /** Those of them that connection c made. */
  function LateBy(writes: seq<Write>, c: nat, k: nat): nat {
    if writes == [] then 0
    else
      var w := writes[|writes| - 1];
      LateBy(writes[..|writes| - 1], c, k) + if w.conn == c && w.tenure == k && !w.inForce then 1 else 0
  }

  // ---------------------------------------------------------------- one step

  /** The write that handler c is about to make. */
  function NextWrite(s: Sys, c: nat): Write
    requires c < |s.handlers| && s.handlers[c].pc.Writing? && s.handlers[c].chunks != []
  {
    var h := s.handlers[c];
    Write(c, h.chunks[|h.chunks| - 1], h.pc.tenure, s.arb.Live(h.pc.tenure))
  }

  predicate MakesWrite(s: Sys, t: Sys, c: nat) {
    && c < |s.handlers| && c < |t.handlers|
    && s.handlers[c].pc.Writing? && s.handlers[c].chunks != [] && t.handlers[c].pc.Reading?
    && t.arb == s.arb && t.holders == s.holders
    && t.writes == s.writes + [NextWrite(s, c)]
  }

  lemma TryWritesNothing(s: Sys, c: nat, denied: Pc)
    requires c < |s.handlers|
    ensures TryAcquire(s, c, denied).writes == s.writes
  {
  }

  lemma StepWrites(s: Sys, c: nat)
    requires Enabled(s, Step(c))
    ensures var t := HandlerStep(s, c); t.writes == s.writes || MakesWrite(s, t, c)
  {
    match s.handlers[c].pc
    case FirstAcquire => TryWritesNothing(s, c, Retrying(0));
    case Retrying(i) => TryWritesNothing(s, c, Sleeping(i));
    case Writing(_) =>
    case _ =>
  }

  /** What a step adds to the history of writes: nothing, or the write of a handler past its check. */
  lemma WritesShape(s: Sys, e: Event)
    requires Enabled(s, e)
    ensures Apply(s, e).writes == s.writes || (e.Step? && MakesWrite(s, Apply(s, e), e.conn))
  {
    if e.Step? {
      StepWrites(s, e.conn);
    }
  }

  /** Arbiter facts that every step keeps: tenures only grow, and an ended tenure stays ended. */
  lemma TenuresGrow(s: Sys, e: Event)
    requires Enabled(s, e)
    ensures |s.arb.tenures| <= |Apply(s, e).arb.tenures|
    ensures s.arb.tenures == Apply(s, e).arb.tenures[..|s.arb.tenures|]
    ensures s.holders <= Apply(s, e).holders
    ensures forall k :: 1 <= k <= |s.arb.tenures| && !s.arb.Live(k) ==> !Apply(s, e).arb.Live(k)
  {
    if IsHandlerEvent(e) {
      HandlerEventShape(s, e);
      HandlerEventArb(s, e);
      TenureGrowth(s, Apply(s, e), e.conn);
    }
  }

  // ---------------------------------------------------------------- late writes

  /** Having written late under a tenure, a connection is never again past its check under it. */
  ghost predicate LateOk(s: Sys, c: nat, k: nat) {
    LateBy(s.writes, c, k) == 0
    || (&& LateBy(s.writes, c, k) == 1 && 1 <= k <= |s.arb.tenures| && !s.arb.Live(k)
        && (c < |s.handlers| && s.handlers[c].pc.Writing? ==> s.handlers[c].pc.tenure != k))
  }

  lemma LateSnoc(writes: seq<Write>, w: Write, k: nat)
    ensures Late(writes + [w], k) == Late(writes, k) + if w.tenure == k && !w.inForce then 1 else 0
  {
    assert (writes + [w])[..|writes + [w]| - 1] == writes;
  }

  lemma LateBySnoc(writes: seq<Write>, w: Write, c: nat, k: nat)
    ensures LateBy(writes + [w], c, k) ==
            LateBy(writes, c, k) + if w.conn == c && w.tenure == k && !w.inForce then 1 else 0
  {
    assert (writes + [w])[..|writes + [w]| - 1] == writes;
  }

  lemma LateWrite(s: Sys, e: Event, c: nat, k: nat)
    requires PendingInv(s) && LateOk(s, c, k)
    requires Enabled(s, e) && e.Step? && MakesWrite(s, Apply(s, e), e.conn)
    ensures LateOk(Apply(s, e), c, k)
  {
    LateBySnoc(s.writes, NextWrite(s, e.conn), c, k);
    HandlerEventShape(s, e);
    assert PendingOk(s, e.conn);
  }

  lemma NoNewCheck(s: Sys, e: Event, c: nat, k: nat)
    requires IdInv(s) && LockInv(s) && Enabled(s, e) && c < |Apply(s, e).handlers|
    requires 1 <= k <= |s.arb.tenures| && !s.arb.Live(k)
    requires c < |s.handlers| && s.handlers[c].pc.Writing? ==> s.handlers[c].pc.tenure != k
    ensures Apply(s, e).handlers[c].pc.Writing? ==> Apply(s, e).handlers[c].pc.tenure != k
  {
    if IsHandlerEvent(e) {
      HandlerEventShape(s, e);
      WritingShape(s, e);
      if JustChecked(s, Apply(s, e), e.conn) {
        assert s.handlers[e.conn].id != "";
        OwnedTenure(s);
      }
    }
  }

  lemma LateStep(s: Sys, e: Event, c: nat, k: nat)
    requires IdInv(s) && LockInv(s) && PendingInv(s) && LateOk(s, c, k) && Enabled(s, e)
    ensures LateOk(Apply(s, e), c, k)
  {
    WritesShape(s, e);
    if e.Step? && MakesWrite(s, Apply(s, e), e.conn) {
      LateWrite(s, e, c, k);
    } else {
      TenuresGrow(s, e);
      if LateBy(s.writes, c, k) == 1 && c < |Apply(s, e).handlers| {
        NoNewCheck(s, e, c, k);
      }
    }
  }

  // ---------------------------------------------------------------- order of the writes

  /** Writes made while their tenure was in force appear in the order of their tenures. */
  ghost predicate Ordered(s: Sys) {
    && (forall i :: 0 <= i < |s.writes| ==> 1 <= s.writes[i].tenure <= |s.arb.tenures|)
    && (forall i, j :: 0 <= i < j < |s.writes| && s.writes[i].inForce && s.writes[j].inForce
          ==> s.writes[i].tenure <= s.writes[j].tenure)
  }

  /** A write needs a port, and comes from a connection with the id of the tenure it was checked under. */
  ghost predicate Attributed(s: Sys) {
    forall i :: 0 <= i < |s.writes| ==>
      && s.writes[i].conn < |s.handlers|
      && 1 <= s.writes[i].tenure <= |s.arb.tenures|
      && s.arb.tenures[s.writes[i].tenure - 1] == s.handlers[s.writes[i].conn].id
      && s.hasSerial
  }

  /** A write comes from the connection that took the tenure it was checked under. */
  ghost predicate WrittenByTaker(s: Sys) {
    forall i :: 0 <= i < |s.writes| ==>
      1 <= s.writes[i].tenure <= |s.holders| && s.holders[s.writes[i].tenure - 1] == s.writes[i].conn
  }

  lemma OrderStep(s: Sys, e: Event)
    requires PendingInv(s) && Ordered(s) && Enabled(s, e)
    ensures Ordered(Apply(s, e))
  {
    WritesShape(s, e);
    TenuresGrow(s, e);
    if Apply(s, e).writes != s.writes {
      assert PendingOk(s, e.conn);
    }
  }

  /** The ids of connections and the presence of a port never change. */
  lemma IdsAreFixed(s: Sys, e: Event)
    requires Enabled(s, e)
    ensures |s.handlers| <= |Apply(s, e).handlers|
    ensures forall c :: 0 <= c < |s.handlers| ==> Apply(s, e).handlers[c].id == s.handlers[c].id
    ensures Apply(s, e).hasSerial == s.hasSerial
  {
    if IsHandlerEvent(e) {
      HandlerEventShape(s, e);
    }
  }

  lemma AttributionStep(s: Sys, e: Event)
    requires PendingInv(s) && Attributed(s) && Enabled(s, e)
    ensures Attributed(Apply(s, e))
  {
    WritesShape(s, e);
    TenuresGrow(s, e);
    IdsAreFixed(s, e);
    if Apply(s, e).writes != s.writes {
      assert PendingOk(s, e.conn);
    }
  }

  lemma TakerStep(s: Sys, e: Event)
    requires PendingInv(s) && WrittenByTaker(s) && !s.collided && Enabled(s, e)
    ensures WrittenByTaker(Apply(s, e))
  {
    WritesShape(s, e);
    TenuresGrow(s, e);
    if Apply(s, e).writes != s.writes {
      assert PendingOk(s, e.conn);
    }
  }

  // ---------------------------------------------------------------- fates of the chunks

  /** The chunks written by connection c, in port order. */
  function ChunksOf(writes: seq<Write>, c: nat): seq<Chunk> {
    if writes == [] then []
    else
      var w := writes[|writes| - 1];
      ChunksOf(writes[..|writes| - 1], c) + if w.conn == c then [w.chunk] else []
  }

  /** The chunks whose fate is Written, in the order in which they were read. */
  function WrittenOf(chunks: seq<Chunk>, fates: seq<Fate>): seq<Chunk>
    requires |fates| <= |chunks|
    decreases |fates|
  {
    if fates == [] then []
    else
      var n := |fates| - 1;
      WrittenOf(chunks, fates[..n]) + if fates[n].Written? then [chunks[n]] else []
  }

  function AllChunks(writes: seq<Write>): (r: seq<Chunk>)
    ensures |r| == |writes| && forall i :: 0 <= i < |r| ==> r[i] == writes[i].chunk
  {
    seq(|writes|, i requires 0 <= i < |writes| => writes[i].chunk)
  }

  lemma {:induction false} WrittenOfIgnoresNewChunk(chunks: seq<Chunk>, x: Chunk, fates: seq<Fate>)
    requires |fates| <= |chunks|
    ensures WrittenOf(chunks + [x], fates) == WrittenOf(chunks, fates)
    decreases |fates|
  {
    if fates != [] {
      WrittenOfIgnoresNewChunk(chunks, x, fates[..|fates| - 1]);
    }
  }

  /** One fate per chunk that is through, the current chunk pending, drops only on a failed owner check. */
  predicate FatesOk(h: Handler, hasSerial: bool) {
    && |h.chunks| == |h.fates| + (if Busy(h.pc) then 1 else 0)
    && forall i :: 0 <= i < |h.fates| && h.fates[i].Dropped? ==> !hasSerial || h.fates[i].seenOwner != h.id
  }

  ghost predicate Projected(s: Sys, c: nat)
    requires c < |s.handlers|
  {
    && FatesOk(s.handlers[c], s.hasSerial)
    && ChunksOf(s.writes, c) == WrittenOf(s.handlers[c].chunks, s.handlers[c].fates)
  }

  ghost predicate FateInv(s: Sys) {
    && (forall c :: 0 <= c < |s.handlers| ==> Projected(s, c))
    && (forall i :: 0 <= i < |s.writes| ==> s.writes[i].conn < |s.handlers|)
    && s.output == Flatten(AllChunks(s.writes))
  }

  /** What a handler's step does to its own chunks and fates, and to the port. */
  predicate ChunkShape(s: Sys, t: Sys, c: nat)
    requires c < |s.handlers| && c < |t.handlers|
  {
    var h, g := s.handlers[c], t.handlers[c];
    || (h.pc == Reading && g.pc == FirstCheck && g.fates == h.fates
        && |g.chunks| == |h.chunks| + 1 && g.chunks[..|h.chunks|] == h.chunks
        && t.writes == s.writes && t.output == s.output)
    || (h.pc == FinalCheck && g.pc == Reading && g.chunks == h.chunks
        && g.fates == h.fates + [Dropped(s.arb.owner, h.tries)] && (!s.hasSerial || s.arb.owner != h.id)
        && t.writes == s.writes && t.output == s.output)
    || (h.pc.Writing? && g.pc == Reading && g.chunks == h.chunks && h.chunks != []
        && g.fates == h.fates + [Written]
        && |t.writes| == |s.writes| + 1 && t.writes[..|s.writes|] == s.writes
        && t.writes[|s.writes|].conn == c
        && t.writes[|s.writes|].chunk == h.chunks[|h.chunks| - 1]
        && t.output == s.output + h.chunks[|h.chunks| - 1])
    || (Busy(h.pc) == Busy(g.pc) && g.chunks == h.chunks && g.fates == h.fates
        && t.writes == s.writes && t.output == s.output)
  }

  /** The last alternative: nothing of the chunks is touched. */
  lemma PlainChunks(s: Sys, t: Sys, c: nat)
    requires c < |s.handlers| && c < |t.handlers| && Busy(s.handlers[c].pc) == Busy(t.handlers[c].pc)
    requires t.handlers[c].chunks == s.handlers[c].chunks && t.handlers[c].fates == s.handlers[c].fates
    requires t.writes == s.writes && t.output == s.output
    ensures ChunkShape(s, t, c)
  {
  }

  lemma TryChunks(s: Sys, c: nat, denied: Pc)
    requires c < |s.handlers| && Busy(s.handlers[c].pc) && Busy(denied)
    ensures |TryAcquire(s, c, denied).handlers| == |s.handlers|
    ensures ChunkShape(s, TryAcquire(s, c, denied), c)
  {
    TryMoves(s, c, denied);
    PlainChunks(s, TryAcquire(s, c, denied), c);
  }

  lemma WriteChunks(s: Sys, c: nat)
    requires Enabled(s, Step(c)) && s.handlers[c].pc.Writing?
    ensures |HandlerStep(s, c).handlers| == |s.handlers| && ChunkShape(s, HandlerStep(s, c), c)
  {
  }

  lemma FinalChunks(s: Sys, c: nat)
    requires Enabled(s, Step(c)) && s.handlers[c].pc.FinalCheck?
    ensures |HandlerStep(s, c).handlers| == |s.handlers| && ChunkShape(s, HandlerStep(s, c), c)
  {
  }

  lemma CheckChunks(s: Sys, c: nat)
    requires Enabled(s, Step(c)) && (s.handlers[c].pc.FirstCheck? || s.handlers[c].pc.Sleeping?)
    ensures |HandlerStep(s, c).handlers| == |s.handlers| && ChunkShape(s, HandlerStep(s, c), c)
  {
    PlainChunks(s, HandlerStep(s, c), c);
  }

  lemma BusyChunks(s: Sys, c: nat)
    requires Enabled(s, Step(c)) && Busy(s.handlers[c].pc)
    ensures |HandlerStep(s, c).handlers| == |s.handlers| && ChunkShape(s, HandlerStep(s, c), c)
  {
    match s.handlers[c].pc
    case FirstAcquire => TryChunks(s, c, Retrying(0));
    case Retrying(i) => TryChunks(s, c, Sleeping(i));
    case FinalCheck => FinalChunks(s, c);
    case Writing(_) => WriteChunks(s, c);
    case FirstCheck => CheckChunks(s, c);
    case Sleeping(_) => CheckChunks(s, c);
  }

  /** A step of the disconnect branch: only the handler's place changes, and its part of the rest. */
  lemma IdleMoves(s: Sys, c: nat)
    requires Enabled(s, Step(c)) && !Busy(s.handlers[c].pc)
    ensures var t := HandlerStep(s, c);
            && |t.handlers| == |s.handlers| && t.writes == s.writes && t.output == s.output
            && t.handlers[c] == s.handlers[c].(pc := t.handlers[c].pc) && !Busy(t.handlers[c].pc)
  {
    match s.handlers[c].pc
    case Failed =>
    case Deleted =>
    case Releasing =>
    case Unlocking =>
  }

  lemma IdleChunks(s: Sys, c: nat)
    requires Enabled(s, Step(c)) && !Busy(s.handlers[c].pc)
    ensures |HandlerStep(s, c).handlers| == |s.handlers| && ChunkShape(s, HandlerStep(s, c), c)
  {
    IdleMoves(s, c);
    PlainChunks(s, HandlerStep(s, c), c);
  }

  lemma HandlerChunks(s: Sys, e: Event)
    requires Enabled(s, e) && IsHandlerEvent(e)
    ensures e.conn < |Apply(s, e).handlers| && ChunkShape(s, Apply(s, e), e.conn)
  {
    match e
    case Step(c) => if Busy(s.handlers[c].pc) { BusyChunks(s, c); } else { IdleChunks(s, c); }
    case Read(_, _) =>
    case ReadError(_) => PlainChunks(s, Apply(s, e), e.conn);
  }

  /** A new chunk has no fate yet, so it does not show in the projection. */
  lemma ReadProjection(chunks: seq<Chunk>, more: seq<Chunk>, fates: seq<Fate>)
    requires |fates| <= |chunks| && |more| == |chunks| + 1 && more[..|chunks|] == chunks
    ensures WrittenOf(more, fates) == WrittenOf(chunks, fates)
  {
    var x := more[|chunks|];
    assert more == chunks + [x];
    WrittenOfIgnoresNewChunk(chunks, x, fates);
  }

  lemma FateProjection(chunks: seq<Chunk>, fates: seq<Fate>, f: Fate)
    requires |fates| < |chunks|
    ensures WrittenOf(chunks, fates + [f]) ==
            WrittenOf(chunks, fates) + if f.Written? then [chunks[|fates|]] else []
  {
    assert (fates + [f])[..|fates|] == fates;
  }

  lemma WriteProjection(writes: seq<Write>, more: seq<Write>, c: nat)
    requires |more| == |writes| + 1 && more[..|writes|] == writes && more[|writes|].conn == c
    ensures ChunksOf(more, c) == ChunksOf(writes, c) + [more[|writes|].chunk]
  {
    assert more[..|more| - 1] == writes;
  }

  lemma OwnFates(s: Sys, t: Sys, c: nat)
    requires HandlerShape(s, t, c) && ChunkShape(s, t, c) && FatesOk(s.handlers[c], s.hasSerial)
    ensures FatesOk(t.handlers[c], t.hasSerial)
  {
  }

  /** The projection of a handler after its own step. */
  lemma OwnChunks(s: Sys, t: Sys, c: nat)
    requires c < |s.handlers| && c < |t.handlers| && ChunkShape(s, t, c)
    requires FatesOk(s.handlers[c], s.hasSerial) && |t.handlers[c].fates| <= |t.handlers[c].chunks|
    requires ChunksOf(s.writes, c) == WrittenOf(s.handlers[c].chunks, s.handlers[c].fates)
    ensures ChunksOf(t.writes, c) == WrittenOf(t.handlers[c].chunks, t.handlers[c].fates)
  {
    var h, g := s.handlers[c], t.handlers[c];
    if |g.chunks| == |h.chunks| + 1 {
      ReadProjection(h.chunks, g.chunks, h.fates);
    } else if |g.fates| == |h.fates| + 1 {
      FateProjection(h.chunks, h.fates, g.fates[|h.fates|]);
      if g.fates[|h.fates|].Written? {
        WriteProjection(s.writes, t.writes, c);
      }
    }
  }

  lemma OwnProjection(s: Sys, t: Sys, c: nat)
    requires HandlerShape(s, t, c) && ChunkShape(s, t, c) && Projected(s, c)
    ensures Projected(t, c)
  {
    OwnFates(s, t, c);
    OwnChunks(s, t, c);
  }

  lemma PortProjection(s: Sys, t: Sys, c: nat)
    requires c < |s.handlers| && c < |t.handlers| && ChunkShape(s, t, c)
    requires s.output == Flatten(AllChunks(s.writes))
    ensures t.output == Flatten(AllChunks(t.writes))
    ensures forall d :: 0 <= d && d != c ==> ChunksOf(t.writes, d) == ChunksOf(s.writes, d)
  {
    if t.writes != s.writes {
      var x := t.writes[|s.writes|].chunk;
      assert t.writes[..|t.writes| - 1] == s.writes;
      assert AllChunks(t.writes) == AllChunks(s.writes) + [x];
      FlattenSnoc(AllChunks(s.writes), x);
    }
  }

  lemma {:induction false} NoChunksOfStranger(writes: seq<Write>, c: nat)
    requires forall i :: 0 <= i < |writes| ==> writes[i].conn < c
    ensures ChunksOf(writes, c) == []
  {
    if writes != [] {
      NoChunksOfStranger(writes[..|writes| - 1], c);
    }
  }

  lemma HandlerFateStep(s: Sys, e: Event)
    requires FateInv(s) && Enabled(s, e) && IsHandlerEvent(e)
    ensures FateInv(Apply(s, e))
  {
    var t := Apply(s, e);
    HandlerEventShape(s, e);
    HandlerChunks(s, e);
    OwnProjection(s, t, e.conn);
    PortProjection(s, t, e.conn);
    forall d | 0 <= d < |t.handlers|
      ensures Projected(t, d)
    {
      assert Projected(s, d);
    }
  }

  /** The other events move no handler along its chunks. */
  lemma OtherFateStep(s: Sys, e: Event)
    requires FateInv(s) && Enabled(s, e) && !IsHandlerEvent(e)
    ensures FateInv(Apply(s, e))
  {
    var t := Apply(s, e);
    forall d | 0 <= d < |t.handlers|
      ensures Projected(t, d)
    {
      if d < |s.handlers| {
        assert Projected(s, d);
        assert t.handlers[d] == s.handlers[d].(closed := t.handlers[d].closed);
      } else {
        NoChunksOfStranger(s.writes, d);
      }
    }
  }

  lemma FateStep(s: Sys, e: Event)
    requires FateInv(s) && Enabled(s, e)
    ensures FateInv(Apply(s, e))
  {
    if IsHandlerEvent(e) {
      HandlerFateStep(s, e);
    } else {
      OtherFateStep(s, e);
    }
  }

  // ---------------------------------------------------------------- whole runs

  ghost predicate Inv(s: Sys) {
    && IdInv(s) && LockInv(s) && TakerInv(s) && PendingInv(s)
    && Ordered(s) && Attributed(s) && (!s.collided ==> WrittenByTaker(s)) && FateInv(s)
    && forall c, k :: LateOk(s, c, k)
  }

  lemma StepKeepsInv(s: Sys, e: Event)
    requires Inv(s) && Enabled(s, e)
    ensures Inv(Apply(s, e))
  {
    StepKeepsIds(s, e);
    StepKeepsLock(s, e);
    StepKeepsTakers(s, e);
    StepKeepsPending(s, e);
    OrderStep(s, e);
    AttributionStep(s, e);
    CollidedStep(s, e);
    if !s.collided {
      TakerStep(s, e);
    }
    FateStep(s, e);
    forall c, k
      ensures LateOk(Apply(s, e), c, k)
    {
      LateStep(s, e, c, k);
    }
  }

  lemma {:induction false} RunKeepsInv(s: Sys, es: seq<Event>)
    requires Inv(s) && ValidRun(s, es)
    ensures Inv(Run(s, es))
    decreases |es|
  {
    if es != [] {
      StepKeepsInv(s, es[0]);
      RunKeepsInv(Apply(s, es[0]), es[1..]);
    }
  }

  lemma InitInv(hasSerial: bool)
    ensures Inv(Init(hasSerial)) && Exclusive(Init(hasSerial))
  {
    var s := Init(hasSerial);
    assert IdInv(s) && LockInv(s) && TakerInv(s) && PendingInv(s) && Ordered(s) && Attributed(s);
    assert FateInv(s);
  }

  lemma ReachableInv(hasSerial: bool, es: seq<Event>)
    requires ValidRun(Init(hasSerial), es)
    ensures Inv(Run(Init(hasSerial), es))
  {
    InitInv(hasSerial);
    RunKeepsInv(Init(hasSerial), es);
  }

  /**
   In every run, whatever the addresses: a connection writes at most one chunk, checked under a tenure, after
   that tenure has ended.
   */
  lemma AtMostOneLateWrite(hasSerial: bool, es: seq<Event>, c: nat, k: nat)
    requires ValidRun(Init(hasSerial), es)
    ensures LateBy(Run(Init(hasSerial), es).writes, c, k) <= 1
  {
    ReachableInv(hasSerial, es);
    assert LateOk(Run(Init(hasSerial), es), c, k);
  }

  lemma {:induction false} LateBySole(writes: seq<Write>, c: nat, k: nat)
    requires forall i :: 0 <= i < |writes| && writes[i].tenure == k ==> writes[i].conn == c
    ensures Late(writes, k) == LateBy(writes, c, k)
  {
    if writes != [] {
      LateBySole(writes[..|writes| - 1], c, k);
    }
  }

  /**
   As long as no connection is registered with the id of a registered one, at most one chunk checked under
   a tenure reaches the port after that tenure has ended.
   */
  lemma AtMostOneLateWritePerTenure(hasSerial: bool, es: seq<Event>, k: nat)
    requires ValidRun(Init(hasSerial), es) && !Run(Init(hasSerial), es).collided
    ensures Late(Run(Init(hasSerial), es).writes, k) <= 1
  {
    var s := Run(Init(hasSerial), es);
    ReachableInv(hasSerial, es);
    var c := if 1 <= k <= |s.holders| then s.holders[k - 1] else 0;
    assert WrittenByTaker(s);
    LateBySole(s.writes, c, k);
    AtMostOneLateWrite(hasSerial, es, c, k);
  }

  /**
   In every run each write carries the id that held the tenure it was checked under, and the writes made
   while their tenure was in force are ordered by tenure, so tenures do not interleave among them. As long
   as ids do not collide, each write comes from the very connection that took the tenure.
   */
  lemma OwnersNeverInterleave(hasSerial: bool, es: seq<Event>, i: nat, j: nat, k: nat)
    requires ValidRun(Init(hasSerial), es)
    requires i < j < k < |Run(Init(hasSerial), es).writes|
    ensures var s := Run(Init(hasSerial), es);
            && Attributed(s) && (!s.collided ==> WrittenByTaker(s))
            && var (v, w, x) := (s.writes[i], s.writes[j], s.writes[k]);
               v.inForce && w.inForce && x.inForce && v.tenure == x.tenure ==> w.tenure == v.tenure
  {
    ReachableInv(hasSerial, es);
  }

  /**
   In every reachable state, about the write to come: if the tenure seen by its check is in force, the id
   of the connection is the owner; as long as ids do not collide the converse holds too, and the connection
   is the one that took the tenure.
   */
  lemma WriteIsByOwnerExactly(hasSerial: bool, es: seq<Event>, c: nat)
    requires ValidRun(Init(hasSerial), es) && Enabled(Run(Init(hasSerial), es), Step(c))
    requires Run(Init(hasSerial), es).handlers[c].pc.Writing?
    ensures var s := Run(Init(hasSerial), es);
            var t := Apply(s, Step(c));
            && |t.writes| == |s.writes| + 1
            && var w := t.writes[|s.writes|];
               && (w.inForce ==> s.arb.locked && s.arb.owner == s.handlers[c].id)
               && (!s.collided ==>
                     && (s.arb.locked && s.arb.owner == s.handlers[c].id ==> w.inForce)
                     && 1 <= w.tenure <= |s.holders| && s.holders[w.tenure - 1] == w.conn == c)
  {
    ReachableInv(hasSerial, es);
    var s := Run(Init(hasSerial), es);
    NextWriteIsMade(s, c);
    PendingOwner(s, c);
  }

  lemma NextWriteIsMade(s: Sys, c: nat)
    requires FateInv(s) && Enabled(s, Step(c)) && s.handlers[c].pc.Writing?
    ensures s.handlers[c].chunks != [] && Apply(s, Step(c)).writes == s.writes + [NextWrite(s, c)]
  {
    assert Projected(s, c);
    assert s.handlers[c].chunks != [];
  }

  lemma PendingOwner(s: Sys, c: nat)
    requires LockInv(s) && PendingInv(s) && c < |s.handlers| && s.handlers[c].pc.Writing?
    ensures s.arb.Live(s.handlers[c].pc.tenure) ==> s.arb.locked && s.arb.owner == s.handlers[c].id
    ensures !s.collided && s.arb.locked && s.arb.owner == s.handlers[c].id ==> s.arb.Live(s.handlers[c].pc.tenure)
    ensures !s.collided ==> PendingIsOwn(s, c)
  {
    assert PendingOk(s, c);
    InForceIsOwner(s, c);
    if !s.collided {
      OwnerIsInForce(s, c);
    }
  }

  /** A tenure ends in this step while some handler stays between its owner check and its write. */
  ghost predicate CutsAWrite(s: Sys, e: Event)
    requires Enabled(s, e)
  {
    exists c :: 0 <= c < |s.handlers| && CutOff(s, Apply(s, e), c)
  }

  predicate CutOff(s: Sys, t: Sys, c: nat)
    requires c < |s.handlers|
  {
    && s.handlers[c].pc.Writing? && s.arb.Live(s.handlers[c].pc.tenure)
    && !t.arb.Live(s.handlers[c].pc.tenure)
  }

  ghost predicate NeverCut(s: Sys, es: seq<Event>)
    requires ValidRun(s, es)
    decreases |es|
  {
    es == [] || (!CutsAWrite(s, es[0]) && NeverCut(Apply(s, es[0]), es[1..]))
  }

  /** All writes so far were made in the tenure they were checked under, and no checked tenure is over. */
  ghost predicate Exclusive(s: Sys) {
    && (forall i :: 0 <= i < |s.writes| ==> s.writes[i].inForce)
    && (forall c :: 0 <= c < |s.handlers| && s.handlers[c].pc.Writing? ==>
          s.arb.Live(s.handlers[c].pc.tenure))
  }

  /** A handler that has just passed its check sees the tenure in force. */
  lemma CheckedIsLive(s: Sys, e: Event)
    requires IdInv(s) && LockInv(s) && Enabled(s, e) && IsHandlerEvent(e)
    ensures var t := Apply(s, e);
            e.conn < |t.handlers| && (t.handlers[e.conn].pc.Writing? && t != s ==>
                                        t.arb.Live(t.handlers[e.conn].pc.tenure))
  {
    WritingShape(s, e);
    if Apply(s, e).handlers[e.conn].pc.Writing? && Apply(s, e) != s {
      assert s.handlers[e.conn].id != "";
      OwnedTenure(s);
    }
  }

  lemma StaysLive(s: Sys, e: Event, c: nat)
    requires IdInv(s) && LockInv(s) && Enabled(s, e)
    requires c < |Apply(s, e).handlers| && Apply(s, e).handlers[c].pc.Writing?
    requires c < |s.handlers| && s.handlers[c].pc.Writing? ==>
               s.arb.Live(s.handlers[c].pc.tenure) && !CutOff(s, Apply(s, e), c)
    ensures Apply(s, e).arb.Live(Apply(s, e).handlers[c].pc.tenure)
  {
    if IsHandlerEvent(e) && c == e.conn {
      CheckedIsLive(s, e);
    } else if c < |s.handlers| {
      OthersStay(s, e, c);
    } else {
      NewcomerReads(s, e, c);
    }
  }

  lemma NewcomerReads(s: Sys, e: Event, c: nat)
    requires Enabled(s, e) && |s.handlers| <= c < |Apply(s, e).handlers|
    ensures Apply(s, e).handlers[c].pc == Reading
  {
    if IsHandlerEvent(e) {
      HandlerEventShape(s, e);
    }
  }

  lemma ExclusiveStep(s: Sys, e: Event)
    requires Inv(s) && Exclusive(s) && Enabled(s, e) && !CutsAWrite(s, e)
    ensures Exclusive(Apply(s, e))
  {
    WritesShape(s, e);
    forall c | 0 <= c < |Apply(s, e).handlers| && Apply(s, e).handlers[c].pc.Writing?
      ensures Apply(s, e).arb.Live(Apply(s, e).handlers[c].pc.tenure)
    {
      assert c < |s.handlers| ==> !CutOff(s, Apply(s, e), c);
      StaysLive(s, e, c);
    }
  }

  /** A handler stays where it is unless the event is its own. */
  lemma OthersStay(s: Sys, e: Event, c: nat)
    requires Enabled(s, e) && c < |s.handlers| && !(IsHandlerEvent(e) && e.conn == c)
    ensures c < |Apply(s, e).handlers| && Apply(s, e).handlers[c].pc == s.handlers[c].pc
  {
    if IsHandlerEvent(e) {
      HandlerEventShape(s, e);
    }
  }

  /** The write of a handler whose tenure is over is a late one. */
  lemma DeadWriteIsLate(s: Sys, c: nat)
    requires Inv(s) && Enabled(s, Step(c)) && s.handlers[c].pc.Writing?
    requires !s.arb.Live(s.handlers[c].pc.tenure)
    ensures !Exclusive(Apply(s, Step(c)))
  {
    NextWriteIsMade(s, c);
    assert !Apply(s, Step(c)).writes[|s.writes|].inForce;
  }

  /** A handler about to write under a tenure that is over stays that, or writes late. */
  lemma DeadPendingPersists(s: Sys, e: Event, c: nat)
    requires Inv(s) && Enabled(s, e) && c < |s.handlers| && s.handlers[c].pc.Writing?
    requires !s.arb.Live(s.handlers[c].pc.tenure)
    ensures !Exclusive(Apply(s, e))
  {
    if e == Step(c) {
      DeadWriteIsLate(s, c);
    } else {
      OthersStay(s, e, c);
      TenuresGrow(s, e);
      assert PendingOk(s, c);
      assert !Apply(s, e).arb.Live(Apply(s, e).handlers[c].pc.tenure);
    }
  }

  lemma LateWritePersists(s: Sys, e: Event, i: nat)
    requires Enabled(s, e) && i < |s.writes| && !s.writes[i].inForce
    ensures !Exclusive(Apply(s, e))
  {
    WritesShape(s, e);
    assert Apply(s, e).writes[i] == s.writes[i];
  }

  lemma NotExclusiveStep(s: Sys, e: Event)
    requires Inv(s) && !Exclusive(s) && Enabled(s, e)
    ensures !Exclusive(Apply(s, e))
  {
    if i :| 0 <= i < |s.writes| && !s.writes[i].inForce {
      LateWritePersists(s, e, i);
    } else {
      var c :| 0 <= c < |s.handlers| && s.handlers[c].pc.Writing? && !s.arb.Live(s.handlers[c].pc.tenure);
      DeadPendingPersists(s, e, c);
    }
  }

  /** The handler that is cut off is not the one that steps, so it is still about to write. */
  lemma CutBreaksExclusion(s: Sys, e: Event)
    requires Enabled(s, e) && CutsAWrite(s, e)
    ensures !Exclusive(Apply(s, e))
  {
    var c :| 0 <= c < |s.handlers| && CutOff(s, Apply(s, e), c);
    if IsHandlerEvent(e) && e.conn == c {
      HandlerEventArb(s, e);
    } else {
      OthersStay(s, e, c);
    }
  }

  lemma {:induction false} NotExclusiveRun(s: Sys, es: seq<Event>)
    requires Inv(s) && !Exclusive(s) && ValidRun(s, es)
    ensures !Exclusive(Run(s, es))
    decreases |es|
  {
    if es != [] {
      StepKeepsInv(s, es[0]);
      NotExclusiveStep(s, es[0]);
      NotExclusiveRun(Apply(s, es[0]), es[1..]);
    }
  }

  lemma {:induction false} ExclusiveRunExactly(s: Sys, es: seq<Event>)
    requires Inv(s) && Exclusive(s) && ValidRun(s, es)
    ensures NeverCut(s, es) <==> Exclusive(Run(s, es))
    decreases |es|
  {
    if es != [] {
      StepKeepsInv(s, es[0]);
      if CutsAWrite(s, es[0]) {
        CutBreaksExclusion(s, es[0]);
        NotExclusiveRun(Apply(s, es[0]), es[1..]);
      } else {
        ExclusiveStep(s, es[0]);
        ExclusiveRunExactly(Apply(s, es[0]), es[1..]);
      }
    }
  }

  /**
   For every run, whatever the addresses: all writes were made in the tenure seen by their owner check, and
   every handler past its check still has that tenure, iff no tenure ended between a handler's owner check
   and its write.
   */
  lemma ExclusiveExactly(hasSerial: bool, es: seq<Event>)
    requires ValidRun(Init(hasSerial), es)
    ensures NeverCut(Init(hasSerial), es) <==> Exclusive(Run(Init(hasSerial), es))
  {
    InitInv(hasSerial);
    ExclusiveRunExactly(Init(hasSerial), es);
  }

  /**
   In a run where no tenure ends between a handler's owner check and its write, the whole port history is a
   sequence of tenures one after the other, and as long as ids do not collide each tenure's writes come from
   the one connection that took it.
   */
  lemma ExclusiveUnlessCut(hasSerial: bool, es: seq<Event>)
    requires ValidRun(Init(hasSerial), es) && NeverCut(Init(hasSerial), es)
    ensures var s := Run(Init(hasSerial), es);
            && (forall i :: 0 <= i < |s.writes| ==> s.writes[i].inForce)
            && (forall i, j :: 0 <= i < j < |s.writes| ==> s.writes[i].tenure <= s.writes[j].tenure)
            && (!s.collided ==> WrittenByTaker(s))
  {
    ExclusiveExactly(hasSerial, es);
    ReachableInv(hasSerial, es);
  }

  /**
   The port receives whole chunks only. Its projection to one connection is what that handler read, in
   order and each chunk at most once, less the chunks dropped because the final check saw another owner
   (or no port is set); only the chunk in hand is still undecided.
   */
  lemma PortIsInterleavingOfChunks(hasSerial: bool, es: seq<Event>, c: nat)
    requires ValidRun(Init(hasSerial), es) && c < |Run(Init(hasSerial), es).handlers|
    ensures var s := Run(Init(hasSerial), es);
            && s.output == Flatten(AllChunks(s.writes))
            && FatesOk(s.handlers[c], s.hasSerial)
            && ChunksOf(s.writes, c) == WrittenOf(s.handlers[c].chunks, s.handlers[c].fates)
  {
    ReachableInv(hasSerial, es);
    assert Projected(Run(Init(hasSerial), es), c);
  }

  /** Until Stop, and as long as ids do not collide, the client map is exactly the registered handlers. */
  lemma ClientMapIsExact(hasSerial: bool, es: seq<Event>, id: string, c: nat)
    requires ValidRun(Init(hasSerial), es) && !Run(Init(hasSerial), es).collided
    ensures var s := Run(Init(hasSerial), es);
            s.running ==>
              ((id in s.clients && s.clients[id] == c)
               <==> (c < |s.handlers| && s.handlers[c].id == id && Registered(s.handlers[c].pc)))
  {
    ReachableInv(hasSerial, es);
  }

  /** In every state of the run up to Stop the client map is exactly the registered handlers. */
  ghost predicate AlwaysExact(s: Sys, es: seq<Event>)
    requires ValidRun(s, es)
    decreases |es|
  {
    (s.running ==> MapExact(s)) && (es != [] ==> AlwaysExact(Apply(s, es[0]), es[1..]))
  }

  /** Some registration before Stop finds a registered handler with the id of the new connection. */
  ghost predicate CollidesBeforeStop(s: Sys, es: seq<Event>)
    requires ValidRun(s, es)
    decreases |es|
  {
    es != []
    && ((es[0] == Register && s.running && Collides(s)) || CollidesBeforeStop(Apply(s, es[0]), es[1..]))
  }

  lemma RunningBefore(s: Sys, e: Event)
    requires Enabled(s, e) && Apply(s, e).running
    ensures s.running
  {
    if IsHandlerEvent(e) {
      HandlerEventShape(s, e);
    }
  }

  /** A stopped server does not start again. */
  lemma {:induction false} StoppedForGood(s: Sys, es: seq<Event>)
    requires ValidRun(s, es) && !s.running
    ensures AlwaysExact(s, es) && !CollidesBeforeStop(s, es)
    decreases |es|
  {
    if es != [] {
      if Apply(s, es[0]).running {
        RunningBefore(s, es[0]);
      }
      StoppedForGood(Apply(s, es[0]), es[1..]);
    }
  }

  lemma {:induction false} MapExactRun(s: Sys, es: seq<Event>)
    requires IdInv(s) && !s.collided && ValidRun(s, es)
    ensures AlwaysExact(s, es) <==> !CollidesBeforeStop(s, es)
    decreases |es|
  {
    if es != [] {
      var t := Apply(s, es[0]);
      if s.running && es[0] == Register && Collides(s) {
        RegisterMap(s);
        assert !AlwaysExact(t, es[1..]);
      } else if !t.running {
        StoppedForGood(t, es[1..]);
      } else {
        StepKeepsIds(s, es[0]);
        CollidedStep(s, es[0]);
        RunningBefore(s, es[0]);
        MapExactRun(t, es[1..]);
      }
    }
  }

  /**
   For every run, whatever the addresses: the client map is exactly the registered handlers in every state up
   to Stop iff no registration before Stop finds a registered handler with the same id.
   */
  lemma ClientMapExactly(hasSerial: bool, es: seq<Event>)
    requires ValidRun(Init(hasSerial), es)
    ensures AlwaysExact(Init(hasSerial), es) <==> !CollidesBeforeStop(Init(hasSerial), es)
  {
    InitInv(hasSerial);
    MapExactRun(Init(hasSerial), es);
  }

  /**
   A held lock always has a running handler of the owner's id. So once a handler has returned, its id owns
   the lock only if another connection with the same address is still running.
   */
  lemma ReturnedHandlerOwnsNothing(hasSerial: bool, es: seq<Event>, c: nat)
    requires ValidRun(Init(hasSerial), es) && c < |Run(Init(hasSerial), es).handlers|
    requires Run(Init(hasSerial), es).handlers[c].pc.Returned?
    ensures var s := Run(Init(hasSerial), es);
            s.arb.owner == s.handlers[c].id ==>
              exists d :: 0 <= d < |s.handlers| && d != c && s.handlers[d].id == s.arb.owner
                          && MayHold(s.handlers[d].pc)
  {
    ReachableInv(hasSerial, es);
    if Run(Init(hasSerial), es).arb.owner == Run(Init(hasSerial), es).handlers[c].id {
      OwnerIsAnother(Run(Init(hasSerial), es), c);
    }
  }

  lemma OwnerIsAnother(s: Sys, c: nat)
    requires IdInv(s) && LockInv(s) && c < |s.handlers| && !MayHold(s.handlers[c].pc)
    requires s.arb.owner == s.handlers[c].id
    ensures exists d :: 0 <= d < |s.handlers| && d != c && s.handlers[d].id == s.arb.owner
                        && MayHold(s.handlers[d].pc)
  {
    assert s.arb.owner != "";
    var d :| 0 <= d < |s.handlers| && s.handlers[d].id == s.arb.owner && MayHold(s.handlers[d].pc);
    assert d != c;
  }

  /**
   Before a disconnecting handler gives back the server mutex it has let go of the lock: its id owns it only
   if another connection with the same address took it, and not at all as long as ids do not collide.
   */
  lemma LeavingHandlerHasLetGo(hasSerial: bool, es: seq<Event>, c: nat)
    requires ValidRun(Init(hasSerial), es) && c < |Run(Init(hasSerial), es).handlers|
    requires Run(Init(hasSerial), es).handlers[c].pc.Unlocking?
    ensures var s := Run(Init(hasSerial), es);
            && s.mutex == Some(c)
            && (s.arb.owner == s.handlers[c].id ==>
                  && s.collided
                  && exists d :: 0 <= d < |s.handlers| && d != c && s.handlers[d].id == s.arb.owner
                                 && MayHold(s.handlers[d].pc))
  {
    ReachableInv(hasSerial, es);
    var s := Run(Init(hasSerial), es);
    if s.arb.owner == s.handlers[c].id {
      OwnerIsAnother(s, c);
    }
  }

  /**
   Any step that takes the lock from its owner is a callback captured for that owner's id or the
   disconnect of that owner's own handler, although the owner test and the release of the disconnect
   are separate critical sections.
   */
  lemma WhoFreesTheLock(hasSerial: bool, es: seq<Event>, e: Event)
    requires ValidRun(Init(hasSerial), es) && Enabled(Run(Init(hasSerial), es), e)
    requires var s := Run(Init(hasSerial), es);
             s.arb.locked && !Apply(s, e).arb.Live(|s.arb.tenures|)
    ensures var s := Run(Init(hasSerial), es);
            || (e.Clock? && e.arb.EvCallback? && s.arb.timers[e.arb.timer].client == s.arb.owner)
            || (e.Step? && s.handlers[e.conn].pc.Releasing? && s.handlers[e.conn].id == s.arb.owner)
  {
    ReachableInv(hasSerial, es);
    FreesTheLock(Run(Init(hasSerial), es), e);
  }

  lemma FreesTheLock(s: Sys, e: Event)
    requires LockInv(s) && Enabled(s, e) && s.arb.locked && !Apply(s, e).arb.Live(|s.arb.tenures|)
    ensures || (e.Clock? && e.arb.EvCallback? && s.arb.timers[e.arb.timer].client == s.arb.owner)
            || (e.Step? && s.handlers[e.conn].pc.Releasing? && s.handlers[e.conn].id == s.arb.owner)
  {
    if IsHandlerEvent(e) {
      HandlerEventShape(s, e);
      HandlerEventArb(s, e);
    } else if e.Clock? {
      A.TenureEnd(s.arb, e.arb);
    }
  }
}
