/**
 The blocking pseudo terminal of internal/pty/pty.go. Read is a program with explicit places, because it
 lets go of the mutex between its tests and waits on a one-slot wakeup channel with a 100 ms timeout;
 any number of readers may run. The buffers and the other methods are the object at the end.
 */
module MockPty {
  import opened Common

  /** Lines 76, 84, 88 and 97 of Read, with the length of the caller's buffer. */
  datatype Reader =
    | Outside
    | Testing(want: nat)
    | Waiting(want: nat)
    | Collecting(want: nat)

  /** `dataReady` is the token in the channel; the last five fields are histories. */
  datatype Pty = Pty(
    open: bool,
    externalData: seq<byte>,
    dataReady: bool,
    slaveBuffer: seq<byte>,
    masterBuffer: seq<byte>,
    readers: seq<Reader>,
    injected: seq<byte>,
    delivered: seq<byte>,
    written: seq<byte>,
    slaveRead: seq<byte>,
    emptyReads: nat)

  datatype Event =
    | Inject(data: seq<byte>)
    | Write(data: seq<byte>)
    | ReadFromSlave(want: nat)
    | Close
    | Enter(reader: nat, want: nat)
    | Test(reader: nat)
    | TakeToken(reader: nat)
    | Timeout(reader: nat)
    | Collect(reader: nat)

  function Init(readers: nat): Pty {
    Pty(true, [], false, [], [], seq(readers, _ => Outside), [], [], [], [], 0)
  }

  predicate Enabled(s: Pty, e: Event) {
    match e
    case Inject(_) => true
    case Write(_) => true
    case ReadFromSlave(_) => true
    case Close => true
    case Enter(r, _) => r < |s.readers| && s.readers[r].Outside?
    case Test(r) => r < |s.readers| && s.readers[r].Testing?
    case TakeToken(r) => r < |s.readers| && s.readers[r].Waiting? && s.dataReady
    case Timeout(r) => r < |s.readers| && s.readers[r].Waiting?
    case Collect(r) => r < |s.readers| && s.readers[r].Collecting?
  }

  function Place(s: Pty, r: nat, place: Reader): Pty
    requires r < |s.readers|
  {
    s.(readers := s.readers[r := place])
  }

  /** copy(buf, data): how much of the data fits the caller's buffer. */
  function Taken(data: seq<byte>, want: nat): (n: nat)
    ensures n <= |data| && n <= want && (n == |data| || n == want)
  {
    Min(want, |data|)
  }

  /** The last critical section of Read: an error if closed, else the front of the data. */
  function Collected(s: Pty, r: nat, want: nat): Pty
    requires r < |s.readers|
  {
    var t := Place(s, r, Outside);
    if !s.open then t
    else if s.externalData == [] then t.(emptyReads := s.emptyReads + 1)
    else
      var n := Taken(s.externalData, want);
      t.(externalData := s.externalData[n..], delivered := s.delivered + s.externalData[..n])
  }

  function Apply(s: Pty, e: Event): Pty
    requires Enabled(s, e)
  {
    match e
    case Inject(d) =>
      s.(externalData := s.externalData + d, dataReady := true, injected := s.injected + d)
    case Write(d) =>
      if !s.open then s
      else s.(slaveBuffer := s.slaveBuffer + d, masterBuffer := s.masterBuffer + d, written := s.written + d)
    case ReadFromSlave(want) =>
      if !s.open then s
      else
        var n := Taken(s.slaveBuffer, want);
        s.(slaveBuffer := s.slaveBuffer[n..], slaveRead := s.slaveRead + s.slaveBuffer[..n])
    case Close => s.(open := false)
    case Enter(r, want) => if s.open then Place(s, r, Testing(want)) else s
    case Test(r) =>
      var want := s.readers[r].want;
      Place(s, r, if s.externalData == [] && s.open then Waiting(want) else Collecting(want))
    case TakeToken(r) => Place(s.(dataReady := false), r, Testing(s.readers[r].want))
    case Timeout(r) => Place(s, r, Testing(s.readers[r].want))
    case Collect(r) => Collected(s, r, s.readers[r].want)
  }

  predicate ValidRun(s: Pty, es: seq<Event>)
    decreases |es|
  {
    es == [] || (Enabled(s, es[0]) && ValidRun(Apply(s, es[0]), es[1..]))
  }

  function Run(s: Pty, es: seq<Event>): Pty
    requires ValidRun(s, es)
    decreases |es|
  {
    if es == [] then s else Run(Apply(s, es[0]), es[1..])
  }

  // ---------------------------------------------------------------- any number of readers

  ghost predicate FifoInv(s: Pty) {
    && s.injected == s.delivered + s.externalData
    && s.written == s.slaveRead + s.slaveBuffer
    && s.masterBuffer == s.written
  }

  lemma StepKeepsFifo(s: Pty, e: Event)
    requires FifoInv(s) && Enabled(s, e)
    ensures FifoInv(Apply(s, e))
  {
  }

  // ---------------------------------------------------------------- one reader

  predicate Wakeable(s: Pty) {
    && |s.readers| == 1
    && (s.readers[0].Waiting? && s.externalData != [] ==> s.dataReady)
    && (s.readers[0].Collecting? ==> s.externalData != [] || !s.open)
    && s.emptyReads == 0
  }

  lemma StepKeepsWakeable(s: Pty, e: Event)
    requires Wakeable(s) && Enabled(s, e)
    ensures Wakeable(Apply(s, e))
  {
  }

  lemma {:induction false} RunKeeps(s: Pty, es: seq<Event>)
    requires FifoInv(s) && ValidRun(s, es)
    ensures FifoInv(Run(s, es))
    ensures Wakeable(s) ==> Wakeable(Run(s, es))
    decreases |es|
  {
    if es != [] {
      StepKeepsFifo(s, es[0]);
      if Wakeable(s) {
        StepKeepsWakeable(s, es[0]);
      }
      RunKeeps(Apply(s, es[0]), es[1..]);
    }
  }

  /** Over any run, with any buffer sizes and readers: bytes read followed by bytes pending are the bytes injected. */
  lemma NothingIsLostOrReordered(readers: nat, es: seq<Event>)
    requires ValidRun(Init(readers), es)
    ensures var s := Run(Init(readers), es);
            && s.injected == s.delivered + s.externalData
            && s.written == s.slaveRead + s.slaveBuffer
            && s.masterBuffer == s.written
  {
    RunKeeps(Init(readers), es);
  }

  /**
   A single reader never loses a wakeup: when it waits and data is present the token is there. And it never
   comes back empty-handed from an open terminal (the case the source says should not happen).
   */
  lemma SingleReaderIsAlwaysWoken(es: seq<Event>)
    requires ValidRun(Init(1), es)
    ensures var s := Run(Init(1), es);
            && |s.readers| == 1 && s.emptyReads == 0
            && (s.readers[0].Waiting? && s.externalData != [] ==> Enabled(s, TakeToken(0)))
            && (Enabled(s, Collect(0)) && s.open ==> s.externalData != [])
  {
    RunKeeps(Init(1), es);
  }

  /** The wakeup leads to the data without any timeout: the token, the test and the copy. */
  lemma WakeupDelivers(es: seq<Event>)
    requires ValidRun(Init(1), es)
    requires |Run(Init(1), es).readers| == 1 && Run(Init(1), es).readers[0].Waiting?
    requires Run(Init(1), es).externalData != [] && Run(Init(1), es).open
    ensures var s := Run(Init(1), es);
            var wake := [TakeToken(0), Test(0), Collect(0)];
            && ValidRun(s, wake)
            && var n := Min(s.readers[0].want, |s.externalData|);
               && Run(s, wake).delivered == s.delivered + s.externalData[..n]
               && Run(s, wake).externalData == s.externalData[n..]
  {
    SingleReaderIsAlwaysWoken(es);
    var s := Run(Init(1), es);
    var wake := [TakeToken(0), Test(0), Collect(0)];
    var s1 := Apply(s, wake[0]);
    var s2 := Apply(s1, wake[1]);
    assert wake[1..][1..] == wake[2..] && wake[2..][1..] == [];
    assert ValidRun(s2, wake[2..]) && ValidRun(s1, wake[1..]);
  }

  lemma {:induction false} RunSnoc(s: Pty, es: seq<Event>, e: Event)
    requires ValidRun(s, es) && Enabled(Run(s, es), e)
    ensures ValidRun(s, es + [e]) && Run(s, es + [e]) == Apply(Run(s, es), e)
    decreases |es|
  {
    var more := es + [e];
    if es == [] {
      assert more[1..] == [];
    } else {
      RunSnoc(Apply(s, es[0]), es[1..], e);
      assert more[1..] == es[1..] + [e];
    }
  }

  /** Some run with n readers leads to s. */
  ghost predicate Reachable(n: nat, s: Pty) {
    exists es :: ValidRun(Init(n), es) && Run(Init(n), es) == s
  }

  lemma Onward(n: nat, s: Pty, e: Event) returns (t: Pty)
    requires Reachable(n, s) && Enabled(s, e)
    ensures t == Apply(s, e) && Reachable(n, t)
  {
    t := Apply(s, e);
    var es :| ValidRun(Init(n), es) && Run(Init(n), es) == s;
    RunSnoc(Init(n), es, e);
  }

  /** Whoever waits beside data can take a token. */
  predicate NoLostWakeup(s: Pty) {
    forall r :: 0 <= r < |s.readers| && s.readers[r].Waiting? && s.externalData != [] ==> s.dataReady
  }

  /** Reader r calls Read with a one-byte buffer and finds nothing. */
  lemma ComesToWait(n: nat, s: Pty, r: nat) returns (t: Pty)
    requires Reachable(n, s) && s.open && s.externalData == [] && r < |s.readers| && s.readers[r] == Outside
    ensures Reachable(n, t) && t == s.(readers := s.readers[r := Waiting(1)])
  {
    t := Onward(n, s, Enter(r, 1));
    t := Onward(n, t, Test(r));
    assert t.readers == s.readers[r := Waiting(1)];
  }

  /**
   With two or more readers a wakeup can be lost: one takes the token and only part of the data, and the
   other waits beside the rest with no token, until its timeout.
   */
  lemma LostWakeup(n: nat, a: byte, b: byte) returns (es: seq<Event>)
    requires n >= 2
    ensures ValidRun(Init(n), es) && !NoLostWakeup(Run(Init(n), es))
    ensures Run(Init(n), es).externalData == [b]
  {
    var s := Init(n);
    assert ValidRun(s, []) && Run(s, []) == s;
    s := ComesToWait(n, s, 0);
    s := ComesToWait(n, s, 1);
    s := Onward(n, s, Inject([a, b]));
    assert s.externalData == [a, b];
    s := Onward(n, s, TakeToken(0));
    s := Onward(n, s, Test(0));
    s := Onward(n, s, Collect(0));
    assert s.externalData == [b] && s.readers[1] == Waiting(1);
    es :| ValidRun(Init(n), es) && Run(Init(n), es) == s;
  }

  lemma {:induction false} ReadersAreFixed(s: Pty, es: seq<Event>)
    requires ValidRun(s, es)
    ensures |Run(s, es).readers| == |s.readers|
    decreases |es|
  {
    if es != [] {
      ReadersAreFixed(Apply(s, es[0]), es[1..]);
    }
  }

  /** No wakeup is lost in any run exactly when there is at most one reader. */
  lemma WakeupsAreSafeExactly(n: nat)
    ensures (forall es :: ValidRun(Init(n), es) ==> NoLostWakeup(Run(Init(n), es))) <==> n <= 1
  {
    if n <= 1 {
      forall es | ValidRun(Init(n), es)
        ensures NoLostWakeup(Run(Init(n), es))
      {
        ReadersAreFixed(Init(n), es);
        RunKeeps(Init(n), es);
      }
    } else {
      var es := LostWakeup(n, 1, 2);
    }
  }

  // ---------------------------------------------------------------- the histories, told from the events

  /** The bytes that a run injects. */
  function InjectedBy(es: seq<Event>): seq<byte> {
    if es == [] then [] else (if es[0].Inject? then es[0].data else []) + InjectedBy(es[1..])
  }

  /** The bytes that a run writes before the terminal is closed. */
  function WrittenBy(es: seq<Event>): seq<byte> {
    if es == [] || es[0] == Close then []
    else (if es[0].Write? then es[0].data else []) + WrittenBy(es[1..])
  }

  lemma {:induction false} InjectedRun(s: Pty, es: seq<Event>)
    requires ValidRun(s, es)
    ensures Run(s, es).injected == s.injected + InjectedBy(es)
    decreases |es|
  {
    if es != [] {
      InjectedRun(Apply(s, es[0]), es[1..]);
    }
  }

  lemma {:induction false} ClosedRun(s: Pty, es: seq<Event>)
    requires !s.open && ValidRun(s, es)
    ensures var t := Run(s, es);
            && !t.open && t.written == s.written && t.slaveRead == s.slaveRead && t.delivered == s.delivered
            && |t.readers| == |s.readers|
            && forall r :: 0 <= r < |s.readers| && s.readers[r].Outside? ==> t.readers[r].Outside?
    decreases |es|
  {
    if es != [] {
      ClosedRun(Apply(s, es[0]), es[1..]);
    }
  }

  lemma {:induction false} WrittenRun(s: Pty, es: seq<Event>)
    requires s.open && ValidRun(s, es)
    ensures Run(s, es).written == s.written + WrittenBy(es)
    ensures Run(s, es).open <==> Close !in es
    decreases |es|
  {
    if es != [] {
      assert es == [es[0]] + es[1..];
      if es[0] == Close {
        ClosedRun(Apply(s, es[0]), es[1..]);
      } else {
        WrittenRun(Apply(s, es[0]), es[1..]);
      }
    }
  }

  /**
   In every run, with any number of readers: everything that was injected, and everything that was written
   before the terminal was closed, has been read or is waiting, in order and nothing else; the terminal is open
   exactly until it is closed.
   */
  lemma BytesAreAccountedFor(readers: nat, es: seq<Event>)
    requires ValidRun(Init(readers), es)
    ensures var s := Run(Init(readers), es);
            && InjectedBy(es) == s.delivered + s.externalData
            && WrittenBy(es) == s.slaveRead + s.slaveBuffer
            && (s.open <==> Close !in es)
  {
    RunKeeps(Init(readers), es);
    InjectedRun(Init(readers), es);
    WrittenRun(Init(readers), es);
  }

  /** After Close nothing is written or read any more, and nobody starts to wait. */
  lemma CloseIsFinal(readers: nat, es: seq<Event>, fs: seq<Event>)
    requires ValidRun(Init(readers), es) && ValidRun(Apply(Run(Init(readers), es), Close), fs)
    ensures var s := Run(Init(readers), es);
            var t := Run(Apply(s, Close), fs);
            && t.written == s.written && t.slaveRead == s.slaveRead && t.delivered == s.delivered
            && |t.readers| == |s.readers|
            && forall r :: 0 <= r < |s.readers| && s.readers[r].Outside? ==> t.readers[r].Outside?
  {
    ClosedRun(Apply(Run(Init(readers), es), Close), fs);
  }

  // ---------------------------------------------------------------- tokens and buffers

  function Takes(es: seq<Event>): nat { if es == [] then 0 else (if es[0].TakeToken? then 1 else 0) + Takes(es[1..]) }

  function Injections(es: seq<Event>): nat { if es == [] then 0 else (if es[0].Inject? then 1 else 0) + Injections(es[1..]) }

  function Tokens(s: Pty): nat { if s.dataReady then 1 else 0 }

  lemma {:induction false} TokensRun(s: Pty, es: seq<Event>)
    requires ValidRun(s, es)
    ensures Takes(es) + Tokens(Run(s, es)) <= Tokens(s) + Injections(es)
    decreases |es|
  {
    if es != [] {
      TokensRun(Apply(s, es[0]), es[1..]);
    }
  }

  /** A token wakes one reader only, and none is there that no injection put there. */
  lemma TokensAreInjections(readers: nat, es: seq<Event>)
    requires ValidRun(Init(readers), es)
    ensures Takes(es) + Tokens(Run(Init(readers), es)) <= Injections(es)
  {
    TokensRun(Init(readers), es);
  }

  /** A Read under way keeps the buffer it was called with until it comes back. */
  lemma ReadKeepsItsBuffer(s: Pty, e: Event, r: nat)
    requires Enabled(s, e) && r < |s.readers| && !s.readers[r].Outside?
    ensures var t := Apply(s, e);
            && r < |t.readers|
            && (if t.readers[r].Outside? then e == Collect(r) else t.readers[r].want == s.readers[r].want)
  {
  }

  // ---------------------------------------------------------------- when a Read can come back

  /** The steps that reader r makes by itself, its timeouts included. */
  predicate OwnStep(e: Event, r: nat) {
    match e
    case Test(q) => q == r
    case TakeToken(q) => q == r
    case Timeout(q) => q == r
    case Collect(q) => q == r
    case _ => false
  }

  predicate OwnRun(s: Pty, es: seq<Event>, r: nat) { ValidRun(s, es) && forall e :: e in es ==> OwnStep(e, r) }

  predicate ComesBack(s: Pty, es: seq<Event>, r: nat) {
    OwnRun(s, es, r) && r < |Run(s, es).readers| && Run(s, es).readers[r].Outside?
  }

  lemma {:induction false} WaitsOn(s: Pty, es: seq<Event>, r: nat)
    requires s.open && s.externalData == [] && r < |s.readers| && OwnRun(s, es, r)
    requires s.readers[r].Testing? || s.readers[r].Waiting?
    ensures !ComesBack(s, es, r)
    decreases |es|
  {
    if es != [] {
      assert es[0] in es;
      assert forall e :: e in es[1..] ==> e in es;
      WaitsOn(Apply(s, es[0]), es[1..], r);
    }
  }

  /** The reader's next step. */
  function NextStep(s: Pty, r: nat): Event
    requires r < |s.readers|
  {
    match s.readers[r]
    case Testing(_) => Test(r)
    case Waiting(_) => Timeout(r)
    case _ => Collect(r)
  }

  function StepsToReturn(place: Reader): nat {
    match place
    case Outside => 0
    case Collecting(_) => 1
    case Testing(_) => 2
    case Waiting(_) => 3
  }

  lemma {:induction false} Returns(s: Pty, r: nat) returns (es: seq<Event>)
    requires r < |s.readers|
    requires s.externalData != [] || !s.open || s.readers[r].Collecting? || s.readers[r].Outside?
    ensures ComesBack(s, es, r)
    ensures s.open && !s.readers[r].Outside? ==>
              var n := Min(s.readers[r].want, |s.externalData|);
              Run(s, es).delivered == s.delivered + s.externalData[..n] && Run(s, es).externalData == s.externalData[n..]
    decreases StepsToReturn(s.readers[r])
  {
    if s.readers[r].Outside? {
      es := [];
    } else {
      var e := NextStep(s, r);
      var rest := [];
      if !s.readers[r].Collecting? {
        rest := Returns(Apply(s, e), r);
      }
      es := [e] + rest;
      assert es[1..] == rest;
      assert s.delivered + [] == s.delivered;
    }
  }

  /**
   In every state a Read that is under way can come back by its own steps, without any further token, iff data
   is present or the terminal is closed, or it has already made that test. On an open terminal it then brings
   the front of the data, as much as fits.
   */
  lemma ReadReturnsExactly(s: Pty, r: nat)
    requires r < |s.readers| && !s.readers[r].Outside?
    ensures (exists es :: ComesBack(s, es, r)) <==>
              s.externalData != [] || !s.open || s.readers[r].Collecting?
    ensures s.externalData != [] && s.open ==>
              var n := Min(s.readers[r].want, |s.externalData|);
              exists es :: ComesBack(s, es, r) && Run(s, es).delivered == s.delivered + s.externalData[..n]
                           && Run(s, es).externalData == s.externalData[n..]
  {
    if s.externalData != [] || !s.open || s.readers[r].Collecting? {
      var es := Returns(s, r);
    } else {
      forall es | OwnRun(s, es, r)
        ensures !ComesBack(s, es, r)
      {
        WaitsOn(s, es, r);
      }
    }
  }

  // ---------------------------------------------------------------- the object

  /** The terminal's own fields; its critical sections make the steps above. */
  class MockPTY {
    var open: bool
    var masterBuffer: seq<byte>
    var slaveBuffer: seq<byte>
    var externalData: seq<byte>
    var dataReady: bool

    constructor ()
      ensures open && masterBuffer == [] && slaveBuffer == [] && externalData == [] && !dataReady
    {
      open, masterBuffer, slaveBuffer, externalData, dataReady := true, [], [], [], false;
    }

    /** The state of the object shown in the fields of a model state. */
    ghost predicate Shows(s: Pty)
      reads this
    {
      && s.open == open && s.externalData == externalData && s.dataReady == dataReady
      && s.slaveBuffer == slaveBuffer && s.masterBuffer == masterBuffer
    }

    method InjectExternalData(data: seq<byte>)
      modifies this`externalData, this`dataReady
      ensures forall s :: old(Shows(s)) ==> Shows(Apply(s, Inject(data)))
    {
      externalData := externalData + data;
      if !dataReady {
        dataReady := true;
      }
    }

    method Write(data: seq<byte>) returns (n: Option<nat>)
      modifies this`slaveBuffer, this`masterBuffer
      ensures forall s :: old(Shows(s)) ==> Shows(Apply(s, Event.Write(data)))
      ensures n == if open then Some(|data|) else None
    {
      if !open {
        return None;
      }
      slaveBuffer := slaveBuffer + data;
      masterBuffer := masterBuffer + data;
      return Some(|data|);
    }

    method ReadFromSlave(buf: array<byte>) returns (n: Option<nat>)
      modifies this`slaveBuffer, buf
      ensures forall s :: old(Shows(s)) ==> Shows(Apply(s, Event.ReadFromSlave(buf.Length)))
      ensures n.Some? <==> open && old(slaveBuffer) != []
      ensures n.Some? ==> n.value == Min(buf.Length, |old(slaveBuffer)|) && buf[..n.value] + slaveBuffer == old(slaveBuffer)
    {
      if !open || |slaveBuffer| == 0 {
        return None;
      }
      var k := Taken(slaveBuffer, buf.Length);
      forall i | 0 <= i < k {
        buf[i] := slaveBuffer[i];
      }
      assert buf[..k] == slaveBuffer[..k];
      slaveBuffer := slaveBuffer[k..];
      return Some(k);
    }

    /** The last critical section of Read; None is the error of a closed terminal. */
    method FinishRead(buf: array<byte>, ghost r: nat) returns (n: Option<nat>)
      modifies this`externalData, buf
      ensures forall s :: old(Shows(s)) && r < |s.readers| ==> Shows(Collected(s, r, buf.Length))
      ensures n.Some? <==> open
      ensures n.Some? ==> n.value == Min(buf.Length, |old(externalData)|) && buf[..n.value] + externalData == old(externalData)
    {
      if !open {
        return None;
      }
      if |externalData| == 0 {
        return Some(0);
      }
      var k := Taken(externalData, buf.Length);
      forall i | 0 <= i < k {
        buf[i] := externalData[i];
      }
      assert buf[..k] == externalData[..k];
      externalData := externalData[k..];
      return Some(k);
    }

    method Close()
      modifies this`open
      ensures forall s :: old(Shows(s)) ==> Shows(Apply(s, Event.Close))
    {
      open := false;
    }
  }
}
