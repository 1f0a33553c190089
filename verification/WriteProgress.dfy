/** WriteArbitration: no handler is ever blocked by the others, and what is left after Stop. */
module WriteProgress {
  import opened Common
  import opened WriteArbitration
  import opened WriteSafety
  import opened WriteHistory

  /** How many of its own steps a handler still needs to settle its chunk, or to leave the mutex. */
  function StepsLeft(pc: Pc): nat {
    match pc
    case FirstCheck => 2 * MAX_RETRIES + 4
    case FirstAcquire => 2 * MAX_RETRIES + 3
    case Retrying(i) => if i < MAX_RETRIES then 2 * (MAX_RETRIES - i) + 2 else 0
    case Sleeping(i) => if i < MAX_RETRIES then 2 * (MAX_RETRIES - i) + 1 else 0
    case FinalCheck => 2
    case Writing(_) => 1
    case Deleted => 3
    case Releasing => 2
    case Unlocking => 1
    case _ => 0
  }

  /** How many calls of Acquire a handler can still make for its chunk. */
  function AttemptsLeft(pc: Pc): nat {
    match pc
    case FirstCheck => MAX_RETRIES + 1
    case FirstAcquire => MAX_RETRIES + 1
    case Retrying(i) => if i < MAX_RETRIES then MAX_RETRIES - i else 0
    case Sleeping(i) => if i < MAX_RETRIES then MAX_RETRIES - i - 1 else 0
    case _ => 0
  }

  /** The step from this place is a call of Acquire. */
  predicate Attempts(pc: Pc) { pc.FirstAcquire? || pc.Retrying? }

  /** The retry loop counts to ten, and a write has a chunk to write. */
  ghost predicate InLoop(s: Sys) {
    && (forall c :: 0 <= c < |s.handlers| ==>
          && Counted(s.handlers[c].pc)
          && (Busy(s.handlers[c].pc) ==> s.handlers[c].chunks != []))
    // an accepted connection that registers after Stop is alone in the map
    && (!s.running ==>
          && (s.accepted.Some? ==> s.clients == map[])
          && (forall x, y :: x in s.clients && y in s.clients ==> x == y))
  }

  /** What a step makes of the place pc, for some outcome of the tests on the way. */
  predicate Follows(pc: Pc, next: Pc) {
    match pc
    case FirstCheck => next.FirstAcquire? || next.FinalCheck?
    case FirstAcquire => next == Retrying(0) || next.FinalCheck?
    case Retrying(i) => next == Sleeping(i) || next.FinalCheck?
    case Sleeping(i) => next == (if i + 1 < MAX_RETRIES then Retrying(i + 1) else FinalCheck)
    case FinalCheck => next.Writing? || next.Reading?
    case Writing(_) => next.Reading?
    case Deleted => next.Releasing? || next.Unlocking?
    case Releasing => next.Unlocking?
    case Unlocking => next.Returned?
    case _ => true
  }

  predicate Counted(pc: Pc) { pc.Retrying? || pc.Sleeping? ==> pc.i < MAX_RETRIES }

  lemma FollowsDecreases(pc: Pc, next: Pc)
    requires (Busy(pc) || InMutex(pc)) && Counted(pc) && Follows(pc, next)
    ensures StepsLeft(next) < StepsLeft(pc) && Counted(next)
    ensures AttemptsLeft(next) + (if Attempts(pc) then 1 else 0) <= AttemptsLeft(pc)
  {
  }

  /** What a step makes of its handler. */
  predicate Moves(s: Sys, t: Sys, c: nat)
    requires c < |s.handlers|
  {
    && c < |t.handlers| && Follows(s.handlers[c].pc, t.handlers[c].pc)
    && t.handlers[c].chunks == s.handlers[c].chunks
  }

  lemma TryFollows(s: Sys, c: nat, denied: Pc)
    requires c < |s.handlers| && Follows(s.handlers[c].pc, denied) && Follows(s.handlers[c].pc, FinalCheck)
    ensures Moves(s, TryAcquire(s, c, denied), c)
  {
    TryMoves(s, c, denied);
  }

  lemma FinalFollows(s: Sys, c: nat)
    requires Enabled(s, Step(c)) && s.handlers[c].pc.FinalCheck?
    ensures Moves(s, HandlerStep(s, c), c)
  {
  }

  lemma LeavingFollows(s: Sys, c: nat)
    requires Enabled(s, Step(c)) && InMutex(s.handlers[c].pc)
    ensures Moves(s, HandlerStep(s, c), c)
  {
    IdleMoves(s, c);
    DisconnectShape(s, c);
  }

  lemma StepFollows(s: Sys, c: nat)
    requires Enabled(s, Step(c)) && (Busy(s.handlers[c].pc) || InMutex(s.handlers[c].pc))
    requires s.handlers[c].pc.Writing? ==> s.handlers[c].chunks != []
    ensures Moves(s, HandlerStep(s, c), c)
  {
    if InMutex(s.handlers[c].pc) {
      LeavingFollows(s, c);
    } else {
      match s.handlers[c].pc
      case FirstAcquire => TryFollows(s, c, Retrying(0));
      case Retrying(i) => TryFollows(s, c, Sleeping(i));
      case Writing(_) => WriteChunks(s, c);
      case FinalCheck => FinalFollows(s, c);
      case FirstCheck =>
      case Sleeping(_) =>
    }
  }

  lemma StepsLeftDecrease(s: Sys, c: nat)
    requires InLoop(s) && Enabled(s, Step(c)) && (Busy(s.handlers[c].pc) || InMutex(s.handlers[c].pc))
    ensures var t := HandlerStep(s, c);
            && c < |t.handlers|
            && StepsLeft(t.handlers[c].pc) < StepsLeft(s.handlers[c].pc)
            && AttemptsLeft(t.handlers[c].pc) + (if Attempts(s.handlers[c].pc) then 1 else 0)
               <= AttemptsLeft(s.handlers[c].pc)
            && Counted(t.handlers[c].pc) && t.handlers[c].chunks == s.handlers[c].chunks
  {
    StepFollows(s, c);
    FollowsDecreases(s.handlers[c].pc, HandlerStep(s, c).handlers[c].pc);
  }

  /** The handler that moves stays within the loop. */
  lemma MoverStaysInLoop(s: Sys, e: Event)
    requires InLoop(s) && Enabled(s, e) && IsHandlerEvent(e)
    ensures var t := Apply(s, e);
            && e.conn < |t.handlers| && Counted(t.handlers[e.conn].pc)
            && (Busy(t.handlers[e.conn].pc) ==> t.handlers[e.conn].chunks != [])
  {
    if e.Step? {
      if Busy(s.handlers[e.conn].pc) || InMutex(s.handlers[e.conn].pc) {
        StepsLeftDecrease(s, e.conn);
      } else {
        IdleMoves(s, e.conn);
        DisconnectShape(s, e.conn);
      }
    }
  }

  lemma HandlerKeepsLoop(s: Sys, e: Event)
    requires InLoop(s) && Enabled(s, e) && IsHandlerEvent(e)
    ensures InLoop(Apply(s, e))
  {
    HandlerEventShape(s, e);
    MoverStaysInLoop(s, e);
    var t := Apply(s, e);
    assert forall x :: x in t.clients ==> x in s.clients;
  }

  lemma RegisterKeepsLoop(s: Sys)
    requires InLoop(s) && Enabled(s, Register)
    ensures InLoop(Apply(s, Register))
  {
  }

  lemma {:induction false} RunKeepsLoop(s: Sys, es: seq<Event>)
    requires InLoop(s) && ValidRun(s, es)
    ensures InLoop(Run(s, es))
    decreases |es|
  {
    if es != [] {
      if IsHandlerEvent(es[0]) {
        HandlerKeepsLoop(s, es[0]);
      }
      RunKeepsLoop(Apply(s, es[0]), es[1..]);
    }
  }

  /**
   A handler with a chunk in hand, or holding the server mutex, is never blocked by the others: its next
   step is always possible and brings it nearer to the end. A chunk is settled within 24 such steps, the
   mutex is given back within three, and each call of Acquire uses up one of at most eleven attempts.
   */
  lemma HandlersNeverBlock(hasSerial: bool, es: seq<Event>, c: nat)
    requires ValidRun(Init(hasSerial), es) && c < |Run(Init(hasSerial), es).handlers|
    requires var pc := Run(Init(hasSerial), es).handlers[c].pc; Busy(pc) || InMutex(pc)
    ensures var s := Run(Init(hasSerial), es);
            && Enabled(s, Step(c))
            && c < |Apply(s, Step(c)).handlers|
            && StepsLeft(Apply(s, Step(c)).handlers[c].pc) < StepsLeft(s.handlers[c].pc)
            && StepsLeft(s.handlers[c].pc) <= (if InMutex(s.handlers[c].pc) then 3 else 24)
            && AttemptsLeft(Apply(s, Step(c)).handlers[c].pc) + (if Attempts(s.handlers[c].pc) then 1 else 0)
               <= AttemptsLeft(s.handlers[c].pc) <= 11
  {
    RunKeepsLoop(Init(hasSerial), es);
    StepsLeftDecrease(Run(Init(hasSerial), es), c);
  }

  /** Once stopped, the server registers at most one more connection: the one accepted just before. */
  lemma AtMostOneConnectionAfterStop(hasSerial: bool, es: seq<Event>, x: string, y: string)
    requires ValidRun(Init(hasSerial), es) && !Run(Init(hasSerial), es).running
    requires x in Run(Init(hasSerial), es).clients && y in Run(Init(hasSerial), es).clients
    ensures x == y && Run(Init(hasSerial), es).accepted == None
  {
    RunKeepsLoop(Init(hasSerial), es);
  }
}
