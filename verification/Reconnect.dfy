/**
 internal/reconnect/reconnect.go: the manager object, and the goroutine of AutoReconnect as a program with
 explicit places running beside Connect, Disconnect, Stop and the reader of the error channel.
 The outcome of a dial is a parameter. The retry counter is not bounded to a machine word.
 */
module Reconnect {
  import opened Common

  /** A connection is known by its number; None is a failed dial. */
  type Dial = Option<nat>

  datatype Error = DialFailed | MaxRetryExceeded

  datatype Manager = Manager(conn: Option<nat>, connected: bool, maxRetry: int, retryCount: nat)

  function AfterConnect(m: Manager, dial: Dial): Manager {
    if dial.None? then m else m.(conn := dial, connected := true, retryCount := 0)
  }

  function AfterDisconnect(m: Manager): Manager { m.(connected := false) }

  /** Does the attempt that is about to be made get as far as dialing? */
  predicate WillDial(m: Manager) { !(m.maxRetry > 0 && m.retryCount + 1 > m.maxRetry) }

  function AfterTry(m: Manager, dial: Dial): Manager {
    if !WillDial(m) || dial.None? then m.(retryCount := m.retryCount + 1)
    else m.(conn := dial, connected := true, retryCount := 0)
  }

  function TryError(m: Manager, dial: Dial): Option<Error> {
    if !WillDial(m) then Some(MaxRetryExceeded)
    else if dial.None? then Some(DialFailed)
    else None
  }

  class ReconnectManager {
    var conn: Option<nat>
    var connected: bool
    const maxRetry: int
    var retryCount: nat

    function View(): Manager
      reads this
    {
      Manager(conn, connected, maxRetry, retryCount)
    }

    constructor (maxRetry: int)
      ensures View() == Manager(None, false, maxRetry, 0)
    {
      this.conn, this.connected, this.maxRetry, this.retryCount := None, false, maxRetry, 0;
    }

    method Connect(dial: Dial) returns (ok: bool)
      modifies this
      ensures View() == AfterConnect(old(View()), dial) && ok == dial.Some?
    {
      if dial.None? {
        return false;
      }
      conn := dial;
      connected := true;
      retryCount := 0;
      return true;
    }

    method Disconnect()
      modifies this
      ensures View() == AfterDisconnect(old(View()))
    {
      connected := false;
    }

    /** `dial` is consulted only if the retry budget allows a dial. */
    method TryReconnect(dial: Dial) returns (err: Option<Error>)
      modifies this
      ensures View() == AfterTry(old(View()), dial)
      ensures err == TryError(old(View()), dial)
    {
      retryCount := retryCount + 1;
      if maxRetry > 0 && retryCount > maxRetry {
        return Some(MaxRetryExceeded);
      }
      if dial.None? {
        return Some(DialFailed);
      }
      conn := dial;
      connected := true;
      retryCount := 0;
      return None;
    }
  }

  // ---------------------------------------------------------------- the background loop

  /** Lines 80, 84, 85, 87 and 90 of AutoReconnect. */
  datatype Place = Selecting | Checking | Trying | Sending(err: Error) | Sleeping | Ended

  /**
   `dials` counts the dials of tryReconnect since the last success, `allDials` without reset; `failures`
   counts failing attempts and `received` the errors taken from the channel, whose capacity is one.
   */
  datatype Sys = Sys(
    m: Manager, place: Place, errChan: Option<Error>, stopped: bool,
    dials: nat, allDials: nat, failures: nat, received: nat)

  datatype Event =
    | UserConnect(dial: Dial)
    | UserDisconnect
    | Stop
    | Receive
    | Select
    | Check
    | Try(dial: Dial)
    | Send
    | Wake

  function Init(maxRetry: int): Sys {
    Sys(Manager(None, false, maxRetry, 0), Selecting, None, false, 0, 0, 0, 0)
  }

  predicate Enabled(s: Sys, e: Event) {
    match e
    case UserConnect(_) => true
    case UserDisconnect => true
    case Stop => !s.stopped
    case Receive => s.errChan.Some?
    case Select => s.place.Selecting?
    case Check => s.place.Checking?
    case Try(_) => s.place.Trying?
    case Send => s.place.Sending? && s.errChan.None?
    case Wake => s.place.Sleeping?
  }

  function Apply(s: Sys, e: Event): Sys
    requires Enabled(s, e)
  {
    match e
    case UserConnect(d) => s.(m := AfterConnect(s.m, d), dials := if d.Some? then 0 else s.dials)
    case UserDisconnect => s.(m := AfterDisconnect(s.m))
    case Stop => s.(stopped := true)
    case Receive => s.(errChan := None, received := s.received + 1)
    case Select => s.(place := if s.stopped then Ended else Checking)
    case Check => s.(place := if s.m.connected then Sleeping else Trying)
    case Try(d) =>
      var err := TryError(s.m, d);
      var dialed := if WillDial(s.m) then 1 else 0;
      s.(m := AfterTry(s.m, d),
         dials := if err.None? then 0 else s.dials + dialed,
         allDials := s.allDials + dialed,
         failures := if err.Some? then s.failures + 1 else s.failures,
         place := if err.Some? then Sending(err.value) else Sleeping)
    case Send => s.(errChan := Some(s.place.err), place := Sleeping)
    case Wake => s.(place := Selecting)
  }

  predicate ValidRun(s: Sys, es: seq<Event>)
    decreases |es|
  {
    es == [] || (Enabled(s, es[0]) && ValidRun(Apply(s, es[0]), es[1..]))
  }

  function Run(s: Sys, es: seq<Event>): Sys
    requires ValidRun(s, es)
    decreases |es|
  {
    if es == [] then s else Run(Apply(s, es[0]), es[1..])
  }

  ghost predicate Inv(s: Sys) {
    && s.dials == (if s.m.maxRetry > 0 then Min(s.m.retryCount, s.m.maxRetry) else s.m.retryCount)
    && s.failures == s.received + (if s.errChan.Some? then 1 else 0) + (if s.place.Sending? then 1 else 0)
    && (s.m.connected ==> s.m.conn.Some?)
  }

  lemma {:induction false} RunKeepsInv(s: Sys, es: seq<Event>)
    requires Inv(s) && ValidRun(s, es)
    ensures Inv(Run(s, es)) && Run(s, es).m.maxRetry == s.m.maxRetry
    decreases |es|
  {
    if es != [] {
      RunKeepsInv(Apply(s, es[0]), es[1..]);
    }
  }

  /** The retry budget: over any run, the dials since the last success are min(retryCount, maxRetry). */
  lemma DialsSinceSuccess(maxRetry: int, es: seq<Event>)
    requires ValidRun(Init(maxRetry), es)
    ensures var s := Run(Init(maxRetry), es);
            && (maxRetry > 0 ==> s.dials == Min(s.m.retryCount, maxRetry))
            && (maxRetry <= 0 ==> s.dials == s.m.retryCount)
  {
    RunKeepsInv(Init(maxRetry), es);
  }

  predicate Exhausted(s: Sys) { s.m.maxRetry > 0 && s.m.retryCount >= s.m.maxRetry }

  /** Once the budget is used up the loop never dials again, until an explicit Connect succeeds. */
  lemma {:induction false} NoDialAfterExhaustion(s: Sys, es: seq<Event>)
    requires Exhausted(s) && ValidRun(s, es)
    requires forall e :: e in es ==> !(e.UserConnect? && e.dial.Some?)
    ensures Exhausted(Run(s, es)) && Run(s, es).allDials == s.allDials && Run(s, es).m.conn == s.m.conn
    decreases |es|
  {
    if es != [] {
      assert es[0] in es;
      assert forall e :: e in es[1..] ==> e in es;
      NoDialAfterExhaustion(Apply(s, es[0]), es[1..]);
    }
  }

  /** The loop gets at most two failing attempts ahead of the reader of its error channel. */
  lemma FailuresWaitForReader(maxRetry: int, es: seq<Event>)
    requires ValidRun(Init(maxRetry), es)
    ensures var s := Run(Init(maxRetry), es);
            && s.received <= s.failures <= s.received + 2
            && (s.failures == s.received + 2 <==> s.place.Sending? && !Enabled(s, Send))
  {
    RunKeepsInv(Init(maxRetry), es);
  }

  lemma {:induction false} ReceivedCountsReceives(s: Sys, es: seq<Event>)
    requires ValidRun(s, es) && Receive !in es
    ensures Run(s, es).received == s.received
    decreases |es|
  {
    if es != [] {
      assert es[0] in es;
      assert forall e :: e in es[1..] ==> e in es;
      ReceivedCountsReceives(Apply(s, es[0]), es[1..]);
    }
  }

  /** With nobody receiving, the loop makes at most two failing attempts and then waits for ever. */
  lemma {:induction false} TwoFailuresWithoutReader(maxRetry: int, es: seq<Event>)
    requires ValidRun(Init(maxRetry), es) && Receive !in es
    ensures Run(Init(maxRetry), es).failures <= 2
  {
    FailuresWaitForReader(maxRetry, es);
    ReceivedCountsReceives(Init(maxRetry), es);
  }

  // ---------------------------------------------------------------- when the loop dials

  /** The events of the goroutine itself, and of the reader of its errors. */
  predicate LoopEvent(e: Event) {
    e.Receive? || e.Select? || e.Check? || e.Try? || e.Send? || e.Wake?
  }

  predicate LoopRun(s: Sys, es: seq<Event>) { ValidRun(s, es) && forall e :: e in es ==> LoopEvent(e) }

  /** A connected manager is left alone: no dial, and the connection stays, until the user intervenes. */
  lemma {:induction false} ConnectedIsLeftAlone(s: Sys, es: seq<Event>)
    requires s.m.connected && !s.place.Trying? && ValidRun(s, es)
    requires forall e :: e in es ==> !e.UserConnect? && !e.UserDisconnect?
    ensures var t := Run(s, es);
            t.m.connected && t.m.conn == s.m.conn && t.allDials == s.allDials && !t.place.Trying?
    decreases |es|
  {
    if es != [] {
      assert es[0] in es;
      assert forall e :: e in es[1..] ==> e in es;
      ConnectedIsLeftAlone(Apply(s, es[0]), es[1..]);
    }
  }

  /** The budget allows a dial, and the loop is before one, or will come to look for a connection and miss it. */
  predicate CanDial(s: Sys) {
    && (s.m.maxRetry <= 0 || s.m.retryCount < s.m.maxRetry)
    && (s.place.Trying?
        || (!s.m.connected && (s.place.Checking? || (!s.stopped && !s.place.Ended?))))
  }

  lemma {:induction false} NoDialAhead(s: Sys, es: seq<Event>)
    requires !CanDial(s) && LoopRun(s, es)
    ensures Run(s, es).allDials == s.allDials
    decreases |es|
  {
    if es != [] {
      assert es[0] in es;
      assert forall e :: e in es[1..] ==> e in es;
      NoDialAhead(Apply(s, es[0]), es[1..]);
    }
  }

  function StepsToDial(s: Sys): nat {
    match s.place
    case Trying => 0
    case Checking => 1
    case Selecting => 2
    case Sleeping => 3
    case Sending(_) => if s.errChan.Some? then 5 else 4
    case Ended => 0
  }

  /** The loop's next own step; a full error channel has to be read first. */
  function NextEvent(s: Sys, dial: Dial): Event {
    match s.place
    case Selecting => Select
    case Checking => Check
    case Trying => Try(dial)
    case Sending(_) => if s.errChan.Some? then Receive else Send
    case Sleeping => Wake
    case Ended => Receive
  }

  lemma {:induction false} DialAhead(s: Sys, dial: Dial) returns (es: seq<Event>)
    requires CanDial(s)
    ensures LoopRun(s, es) && Run(s, es).allDials == s.allDials + 1
    ensures Run(s, es).m.connected == (s.m.connected || dial.Some?)
    ensures Run(s, es).m.conn == if dial.Some? then dial else s.m.conn
    decreases StepsToDial(s)
  {
    var e := NextEvent(s, dial);
    var rest := [];
    if !s.place.Trying? {
      rest := DialAhead(Apply(s, e), dial);
    }
    es := [e] + rest;
    assert es[1..] == rest;
  }

  /**
   In every state: by its own steps and with its errors read, the loop gets to a dial iff the budget allows one
   and the loop is about to try, or is not connected and has not been stopped or has passed that test. Whatever
   the dial then brings is what the manager has.
   */
  lemma LoopDialsExactly(s: Sys, dial: Dial)
    ensures (exists es :: LoopRun(s, es) && Run(s, es).allDials > s.allDials) <==> CanDial(s)
    ensures CanDial(s) ==>
              exists es :: LoopRun(s, es) && Run(s, es).allDials == s.allDials + 1
                           && Run(s, es).m.connected == (s.m.connected || dial.Some?)
                           && Run(s, es).m.conn == if dial.Some? then dial else s.m.conn
  {
    if CanDial(s) {
      var es := DialAhead(s, dial);
    } else {
      forall es | LoopRun(s, es)
        ensures Run(s, es).allDials == s.allDials
      {
        NoDialAhead(s, es);
      }
    }
  }

  /** From the start the loop connects by itself, without a call of Connect, when a dial succeeds. */
  lemma LoopConnectsFromTheStart(maxRetry: int, conn: nat)
    ensures exists es :: LoopRun(Init(maxRetry), es) && Run(Init(maxRetry), es).allDials == 1
                         && Run(Init(maxRetry), es).m.connected && Run(Init(maxRetry), es).m.conn == Some(conn)
  {
    var es := DialAhead(Init(maxRetry), Some(conn));
  }

  // ---------------------------------------------------------------- what the user's calls do to the loop

  /** After Disconnect the loop brings the connection back, if the budget allows a dial that succeeds. */
  lemma DisconnectIsRepaired(s: Sys, conn: nat)
    requires !s.stopped && !s.place.Ended? && (s.m.maxRetry <= 0 || s.m.retryCount < s.m.maxRetry)
    ensures var t := Apply(s, UserDisconnect);
            && !t.m.connected
            && exists es :: LoopRun(t, es) && Run(t, es).allDials == s.allDials + 1
                            && Run(t, es).m.connected && Run(t, es).m.conn == Some(conn)
  {
    var es := DialAhead(Apply(s, UserDisconnect), Some(conn));
  }

  /** A successful Connect gives the loop its whole budget back, and the manager the new connection. */
  lemma ConnectRestoresBudget(s: Sys, conn: nat)
    ensures var t := Apply(s, UserConnect(Some(conn)));
            && t.m.connected && t.m.conn == Some(conn) && t.dials == 0
            && (t.m.maxRetry > 0 ==> !Exhausted(t))
    ensures Apply(s, UserConnect(None)) == s
  {
  }

  lemma {:induction false} StoppedRun(s: Sys, es: seq<Event>)
    requires s.stopped && ValidRun(s, es)
    ensures Run(s, es).stopped
    ensures Run(s, es).allDials <= s.allDials + if s.place.Checking? || s.place.Trying? then 1 else 0
    decreases |es|
  {
    if es != [] {
      StoppedRun(Apply(s, es[0]), es[1..]);
    }
  }

  /** After Stop there is at most one more dial, and none if the loop is not yet past its test of the channel. */
  lemma AtMostOneDialAfterStop(s: Sys, es: seq<Event>)
    requires Enabled(s, Stop) && ValidRun(Apply(s, Stop), es)
    ensures var t := Run(Apply(s, Stop), es);
            t.allDials <= s.allDials + if s.place.Checking? || s.place.Trying? then 1 else 0
  {
    StoppedRun(Apply(s, Stop), es);
  }

  function StepsToEnd(s: Sys): nat {
    match s.place
    case Ended => 0
    case Selecting => 1
    case Sleeping => 2
    case Sending(_) => if s.errChan.Some? then 4 else 3
    case Trying => 5
    case Checking => 6
  }

  lemma {:induction false} EndAhead(s: Sys) returns (es: seq<Event>)
    requires s.stopped || s.place.Ended?
    ensures LoopRun(s, es) && Run(s, es).place.Ended?
    decreases StepsToEnd(s)
  {
    if s.place.Ended? {
      es := [];
    } else {
      var e := NextEvent(s, None);
      var rest := EndAhead(Apply(s, e));
      es := [e] + rest;
      assert es[1..] == rest;
    }
  }

  lemma {:induction false} NoEndAhead(s: Sys, es: seq<Event>)
    requires !s.stopped && !s.place.Ended? && LoopRun(s, es)
    ensures !Run(s, es).place.Ended?
    decreases |es|
  {
    if es != [] {
      assert es[0] in es;
      assert forall e :: e in es[1..] ==> e in es;
      NoEndAhead(Apply(s, es[0]), es[1..]);
    }
  }

  /** The loop can come to its end, with its errors read, iff it has been stopped; and it can be stopped once. */
  lemma LoopEndsExactly(s: Sys)
    ensures !s.place.Ended? ==> ((exists es :: LoopRun(s, es) && Run(s, es).place.Ended?) <==> s.stopped)
    ensures !s.stopped ==> Enabled(s, Stop) && Apply(s, Stop).stopped
  {
    if s.stopped {
      var es := EndAhead(s);
    } else if !s.place.Ended? {
      forall es | LoopRun(s, es)
        ensures !Run(s, es).place.Ended?
      {
        NoEndAhead(s, es);
      }
    }
  }

  // ---------------------------------------------------------------- the errors

  /** An attempt fails with MaxRetryExceeded iff the budget is used up, and else with DialFailed iff the dial fails. */
  lemma TryErrorExactly(m: Manager, dial: Dial)
    ensures TryError(m, dial) == Some(MaxRetryExceeded) <==> m.maxRetry > 0 && m.retryCount >= m.maxRetry
    ensures TryError(m, dial) == Some(DialFailed) <==>
              dial.None? && !(m.maxRetry > 0 && m.retryCount >= m.maxRetry)
    ensures TryError(m, dial) == None <==> AfterTry(m, dial).connected && AfterTry(m, dial).conn == dial
                                           && AfterTry(m, dial).retryCount == 0
  {
  }

  /** The errors of the failing attempts of a run. */
  function Failures(s: Sys, es: seq<Event>): seq<Error>
    requires ValidRun(s, es)
    decreases |es|
  {
    if es == [] then []
    else
      (if es[0].Try? && TryError(s.m, es[0].dial).Some? then [TryError(s.m, es[0].dial).value] else [])
      + Failures(Apply(s, es[0]), es[1..])
  }

  /** The errors that the reader of the channel receives. */
  function Receipts(s: Sys, es: seq<Event>): seq<Error>
    requires ValidRun(s, es)
    decreases |es|
  {
    if es == [] then []
    else (if es[0].Receive? then [s.errChan.value] else []) + Receipts(Apply(s, es[0]), es[1..])
  }

  /** The errors on their way to the reader. */
  function Underway(s: Sys): seq<Error> {
    (match s.errChan case Some(e) => [e] case None => [])
    + (if s.place.Sending? then [s.place.err] else [])
  }

  lemma {:induction false} ErrorsRun(s: Sys, es: seq<Event>)
    requires ValidRun(s, es)
    ensures Underway(s) + Failures(s, es) == Receipts(s, es) + Underway(Run(s, es))
    decreases |es|
  {
    if es != [] {
      var t := Apply(s, es[0]);
      var failed := if es[0].Try? && TryError(s.m, es[0].dial).Some? then [TryError(s.m, es[0].dial).value] else [];
      var received := if es[0].Receive? then [s.errChan.value] else [];
      assert Underway(s) + failed == received + Underway(t);
      ErrorsRun(t, es[1..]);
      Regroup(Underway(s), failed, Failures(t, es[1..]), received, Underway(t));
      Regroup(received, Receipts(t, es[1..]), Underway(Run(s, es)), [], []);
    }
  }

  lemma Regroup(x: seq<Error>, y: seq<Error>, z: seq<Error>, u: seq<Error>, v: seq<Error>)
    ensures (x + y) + z == x + (y + z)
    ensures x + y == u + v ==> x + (y + z) == u + (v + z)
  {
    assert (u + v) + z == u + (v + z);
  }

  /** In every run the reader receives the errors of the failing attempts, each once and in order. */
  lemma ErrorsArriveInOrder(maxRetry: int, es: seq<Event>)
    requires ValidRun(Init(maxRetry), es)
    ensures Failures(Init(maxRetry), es) == Receipts(Init(maxRetry), es) + Underway(Run(Init(maxRetry), es))
  {
    ErrorsRun(Init(maxRetry), es);
  }
}
