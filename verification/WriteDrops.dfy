/** Why the server drops a chunk that a client sent (internal/server/server.go, lines 118-140). */
module WriteDrops {
  import opened Common
  import opened WriteArbitration
  import opened WriteSafety
  import opened WriteHistory
  import A = ArbiterSpec

  /** Every attempt on the lock found it held. */
  predicate AllDenied(tries: Tries) { tries.had == None && tries.denied == MAX_RETRIES + 1 }

  /** The handler took the tenure, or found its id to be the owner in it. */
  predicate HadTenure(id: string, tries: Tries, tenures: seq<string>) {
    tries.had.Some? && 1 <= tries.had.value <= |tenures| && tenures[tries.had.value - 1] == id
  }

  /** What the tries record on the way through the retry loop. */
  predicate TriesOk(h: Handler, tenures: seq<string>) {
    match h.pc
    case FirstCheck => h.tries == Tries(0, None)
    case FirstAcquire => h.tries == Tries(0, None)
    case Retrying(i) => i < MAX_RETRIES && h.tries == Tries(i + 1, None)
    case Sleeping(i) => i < MAX_RETRIES && h.tries == Tries(i + 2, None)
    case FinalCheck => AllDenied(h.tries) || HadTenure(h.id, h.tries, tenures)
    case _ => true
  }

  /** All attempts were denied, or the tenure the handler had is over. */
  predicate Excused(id: string, f: Fate, a: A.Arb) {
    f.Dropped? ==>
      AllDenied(f.tries) || (HadTenure(id, f.tries, a.tenures) && !a.Live(f.tries.had.value))
  }

  ghost predicate DropsOk(s: Sys, c: nat)
    requires c < |s.handlers|
  {
    var h := s.handlers[c];
    && TriesOk(h, s.arb.tenures)
    && (s.hasSerial ==> forall i :: 0 <= i < |h.fates| ==> Excused(h.id, h.fates[i], s.arb))
  }

  ghost predicate DropInv(s: Sys) {
    forall c :: 0 <= c < |s.handlers| ==> DropsOk(s, c)
  }

  // ---------------------------------------------------------------- one step

  /** Tenures only grow, and what is over stays over. */
  predicate Grows(a: A.Arb, b: A.Arb) {
    && a.tenures <= b.tenures
    && forall k :: 1 <= k <= |a.tenures| && !a.Live(k) ==> !b.Live(k)
  }

  lemma StepGrows(s: Sys, e: Event)
    requires Enabled(s, e)
    ensures Grows(s.arb, Apply(s, e).arb)
  {
    TenuresGrow(s, e);
  }

  lemma ExcusesLast(id: string, fates: seq<Fate>, a: A.Arb, b: A.Arb)
    requires Grows(a, b) && forall i :: 0 <= i < |fates| ==> Excused(id, fates[i], a)
    ensures forall i :: 0 <= i < |fates| ==> Excused(id, fates[i], b)
  {
  }

  /** A handler that stays where it is. */
  lemma DropsLast(s: Sys, t: Sys, c: nat)
    requires c < |s.handlers| && c < |t.handlers| && DropsOk(s, c) && Grows(s.arb, t.arb)
    requires t.handlers[c] == s.handlers[c].(closed := t.handlers[c].closed) && t.hasSerial == s.hasSerial
    ensures DropsOk(t, c)
  {
    if s.hasSerial {
      ExcusesLast(s.handlers[c].id, s.handlers[c].fates, s.arb, t.arb);
    }
  }

  /** What a handler's step makes of its tries and fates, by the place it starts from. */
  predicate TriesShape(s: Sys, t: Sys, c: nat)
    requires c < |s.handlers| && c < |t.handlers|
  {
    var h, g := s.handlers[c], t.handlers[c];
    if h.pc.FinalCheck? && g.pc.Reading? then
      g.fates == h.fates + [Dropped(s.arb.owner, h.tries)] && (s.arb.owner != h.id || !s.hasSerial)
    else if h.pc.Writing? && g.pc.Reading? then g.fates == h.fates + [Written]
    else g.fates == h.fates && TriesOk(g, t.arb.tenures)
  }

  lemma TrySteps(s: Sys, c: nat, denied: Pc)
    requires c < |s.handlers| && !s.handlers[c].pc.FinalCheck? && !s.handlers[c].pc.Writing?
    requires TriesOk(s.handlers[c].(pc := denied, tries := Tries(s.handlers[c].tries.denied + 1, None)), [])
    requires s.handlers[c].tries.had == None && !denied.FinalCheck?
    ensures |TryAcquire(s, c, denied).handlers| == |s.handlers| && TriesShape(s, TryAcquire(s, c, denied), c)
  {
    TryMoves(s, c, denied);
  }

  /** A handler whose id is the owner has the tenure in force. */
  lemma CheckSteps(s: Sys, c: nat)
    requires Named(s) && LockInv(s) && Enabled(s, Step(c)) && s.handlers[c].pc.FirstCheck? && DropsOk(s, c)
    ensures |HandlerStep(s, c).handlers| == |s.handlers| && TriesShape(s, HandlerStep(s, c), c)
  {
    assert s.handlers[c].id != "";
    if s.arb.owner == s.handlers[c].id {
      OwnedTenure(s);
    }
  }

  lemma FinalSteps(s: Sys, c: nat)
    requires Enabled(s, Step(c)) && (s.handlers[c].pc.FinalCheck? || s.handlers[c].pc.Writing?) && DropsOk(s, c)
    ensures |HandlerStep(s, c).handlers| == |s.handlers| && TriesShape(s, HandlerStep(s, c), c)
  {
  }

  lemma SleepSteps(s: Sys, c: nat)
    requires Enabled(s, Step(c)) && s.handlers[c].pc.Sleeping? && DropsOk(s, c)
    ensures |HandlerStep(s, c).handlers| == |s.handlers| && TriesShape(s, HandlerStep(s, c), c)
  {
  }

  lemma LeaveSteps(s: Sys, c: nat)
    requires Enabled(s, Step(c)) && !Busy(s.handlers[c].pc)
    ensures |HandlerStep(s, c).handlers| == |s.handlers| && TriesShape(s, HandlerStep(s, c), c)
  {
    IdleMoves(s, c);
    DisconnectShape(s, c);
  }

  lemma MoverTries(s: Sys, c: nat)
    requires Named(s) && LockInv(s) && Enabled(s, Step(c)) && DropsOk(s, c)
    ensures |HandlerStep(s, c).handlers| == |s.handlers| && TriesShape(s, HandlerStep(s, c), c)
  {
    if !Busy(s.handlers[c].pc) {
      LeaveSteps(s, c);
    } else {
      match s.handlers[c].pc
      case FirstCheck => CheckSteps(s, c);
      case FirstAcquire => TrySteps(s, c, Retrying(0));
      case Retrying(i) => TrySteps(s, c, Sleeping(i));
      case Sleeping(_) => SleepSteps(s, c);
      case FinalCheck => FinalSteps(s, c);
      case Writing(_) => FinalSteps(s, c);
    }
  }

  lemma EventTries(s: Sys, e: Event)
    requires Named(s) && LockInv(s) && Enabled(s, e) && IsHandlerEvent(e) && DropsOk(s, e.conn)
    ensures |Apply(s, e).handlers| == |s.handlers| && TriesShape(s, Apply(s, e), e.conn)
  {
    match e
    case Step(c) => MoverTries(s, c);
    case Read(_, _) =>
    case ReadError(_) =>
  }

  /** The drop itself: an owner check that fails leaves no other tenure in force to the handler. */
  lemma DropIsExcused(s: Sys, c: nat)
    requires LockInv(s) && c < |s.handlers| && s.handlers[c].pc.FinalCheck? && DropsOk(s, c)
    requires s.arb.owner != s.handlers[c].id
    ensures Excused(s.handlers[c].id, Dropped(s.arb.owner, s.handlers[c].tries), s.arb)
  {
  }

  lemma MoverKeepsDrops(s: Sys, e: Event)
    requires IdInv(s) && LockInv(s) && Enabled(s, e) && IsHandlerEvent(e) && DropsOk(s, e.conn)
    ensures e.conn < |Apply(s, e).handlers| && DropsOk(Apply(s, e), e.conn)
  {
    var c, t := e.conn, Apply(s, e);
    EventTries(s, e);
    IdsAreFixed(s, e);
    StepGrows(s, e);
    if s.hasSerial {
      ExcusesLast(s.handlers[c].id, s.handlers[c].fates, s.arb, t.arb);
      if s.handlers[c].pc.FinalCheck? && t.handlers[c].pc.Reading? {
        DropIsExcused(s, c);
        ExcusesLast(s.handlers[c].id, [Dropped(s.arb.owner, s.handlers[c].tries)], s.arb, t.arb);
      }
    }
  }

  lemma StepKeepsDrops(s: Sys, e: Event)
    requires IdInv(s) && LockInv(s) && DropInv(s) && Enabled(s, e)
    ensures DropInv(Apply(s, e))
  {
    var t := Apply(s, e);
    StepGrows(s, e);
    if IsHandlerEvent(e) {
      HandlerEventShape(s, e);
    }
    forall c | 0 <= c < |t.handlers|
      ensures DropsOk(t, c)
    {
      if IsHandlerEvent(e) && c == e.conn {
        assert DropsOk(s, c);
        MoverKeepsDrops(s, e);
      } else if c < |s.handlers| {
        DropsLast(s, t, c);
      }
    }
  }

  lemma {:induction false} RunKeepsDrops(s: Sys, es: seq<Event>)
    requires Inv(s) && DropInv(s) && ValidRun(s, es)
    ensures DropInv(Run(s, es))
    decreases |es|
  {
    if es != [] {
      StepKeepsInv(s, es[0]);
      StepKeepsDrops(s, es[0]);
      RunKeepsDrops(Apply(s, es[0]), es[1..]);
    }
  }

  // ---------------------------------------------------------------- the result

  /**
   In every run of a server with a port: a chunk is dropped only if each of its eleven calls of Acquire found
   the lock held, or if its handler took a tenure for it, or found its id owning one, and that tenure is over.
   */
  lemma WhyAChunkIsDropped(es: seq<Event>, c: nat, i: nat)
    requires ValidRun(Init(true), es) && c < |Run(Init(true), es).handlers|
    requires i < |Run(Init(true), es).handlers[c].fates| && Run(Init(true), es).handlers[c].fates[i].Dropped?
    ensures var s := Run(Init(true), es);
            var tries := s.handlers[c].fates[i].tries;
            || (tries.had == None && tries.denied == 11)
            || (&& tries.had.Some? && 1 <= tries.had.value <= |s.arb.tenures|
                && s.arb.tenures[tries.had.value - 1] == s.handlers[c].id
                && !s.arb.Live(tries.had.value))
  {
    InitInv(true);
    RunKeepsDrops(Init(true), es);
    PortIsThere(Init(true), es);
    assert DropsOk(Run(Init(true), es), c);
    assert Excused(Run(Init(true), es).handlers[c].id, Run(Init(true), es).handlers[c].fates[i],
                   Run(Init(true), es).arb);
  }

  lemma {:induction false} PortIsThere(s: Sys, es: seq<Event>)
    requires ValidRun(s, es)
    ensures Run(s, es).hasSerial == s.hasSerial
    decreases |es|
  {
    if es != [] {
      IdsAreFixed(s, es[0]);
      PortIsThere(Apply(s, es[0]), es[1..]);
    }
  }
}
