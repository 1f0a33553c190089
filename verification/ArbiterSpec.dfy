/**
 The write lock of pkg/arbiter/arbiter.go as a labelled transition system: one event per critical
 section of the mutex, plus the moments at which the Go runtime starts a due timer callback and the
 passage of time.

 Timers are kept in a table in the order in which time.AfterFunc started them. A timer that has fired
 but whose callback still waits for the mutex is InFlight; Stop has no effect on it.
 */
module ArbiterSpec {
  import opened Common

  datatype TimerStatus = Armed | InFlight | Stopped | Done

  /** `client` is the variable captured by the callback; `tenure` numbers the tenure it was started in. */
  datatype Timer = Timer(client: string, tenure: nat, armedAt: int, duration: int, status: TimerStatus) {
    /** A zero or negative duration is due at once. */
    function Deadline(): int { armedAt + Max(0, duration) }
  }

  /** `tenures` is the history of successful acquisitions: tenure k (from 1) belongs to tenures[k - 1]. */
  datatype Arb = Arb(
    owner: string,
    locked: bool,
    timeout: int,
    expireTimer: Option<nat>,
    timers: seq<Timer>,
    tenures: seq<string>,
    now: int)
  {
    /** Is tenure number k in force now? */
    predicate Live(k: nat) { locked && k == |tenures| }
  }

  datatype ArbError = ErrLockAlreadyHeld | ErrNotLockOwner | ErrLockNotHeld

  function New(timeout: int, now: int): Arb {
    Arb("", false, timeout, None, [], [], now)
  }

  /** timer.Stop(): recalls the callback only if it has not been started yet. */
  function StopTimer(t: Timer): Timer {
    if t.status == Armed then t.(status := Stopped) else t
  }

  function StopCurrent(timers: seq<Timer>, current: Option<nat>): seq<Timer> {
    if current.Some? && current.value < |timers|
    then timers[current.value := StopTimer(timers[current.value])]
    else timers
  }

  /** A fresh timer replaces the current one, which is stopped first. */
  function Rearm(a: Arb, clientID: string, tenure: nat, duration: int): Arb {
    var timers := StopCurrent(a.timers, a.expireTimer);
    a.(timers := timers + [Timer(clientID, tenure, a.now, duration, Armed)],
       expireTimer := Some(|timers|))
  }

  function Acquire(a: Arb, clientID: string): Arb {
    if a.locked then a
    else
      Rearm(a.(owner := clientID, locked := true, tenures := a.tenures + [clientID]),
            clientID, |a.tenures| + 1, a.timeout)
  }

  function AcquireError(a: Arb): Option<ArbError> {
    if a.locked then Some(ErrLockAlreadyHeld) else None
  }

  /** The error of Release and of ExtendTimeout, which make the same two tests. */
  function OwnerError(a: Arb, clientID: string): Option<ArbError> {
    if !a.locked then Some(ErrLockNotHeld)
    else if a.owner != clientID then Some(ErrNotLockOwner)
    else None
  }

  function Unlock(a: Arb): Arb {
    a.(locked := false, owner := "", timers := StopCurrent(a.timers, a.expireTimer))
  }

  function Release(a: Arb, clientID: string): Arb {
    if OwnerError(a, clientID).Some? then a else Unlock(a)
  }

  /** Tests only the owner, not the flag. */
  function ForceRelease(a: Arb, clientID: string): Arb {
    if a.owner == clientID then Unlock(a) else a
  }

  function ExtendTimeout(a: Arb, clientID: string, newTimeout: int): Arb {
    if OwnerError(a, clientID).Some? then a
    else Rearm(a.(timeout := newTimeout), clientID, |a.tenures|, newTimeout)
  }

  /** The runtime starts the goroutine of a due timer. */
  function Fire(a: Arb, i: nat): Arb
    requires i < |a.timers|
  {
    a.(timers := a.timers[i := a.timers[i].(status := InFlight)])
  }

  /** The body of the callback, once it has the mutex. */
  function Callback(a: Arb, i: nat): Arb
    requires i < |a.timers|
  {
    var b := a.(timers := a.timers[i := a.timers[i].(status := Done)]);
    if a.owner == a.timers[i].client && a.locked then b.(locked := false, owner := "") else b
  }

  datatype Event =
    | EvAcquire(client: string)
    | EvRelease(client: string)
    | EvForceRelease(client: string)
    | EvExtend(client: string, duration: int)
    | EvFire(timer: nat)
    | EvCallback(timer: nat)
    | EvTick(time: int)

  predicate Enabled(a: Arb, e: Event) {
    match e
    case EvFire(i) => i < |a.timers| && a.timers[i].status == Armed && a.timers[i].Deadline() <= a.now
    case EvCallback(i) => i < |a.timers| && a.timers[i].status == InFlight
    case EvTick(t) => a.now <= t
    case _ => true
  }

  function Apply(a: Arb, e: Event): Arb
    requires Enabled(a, e)
  {
    match e
    case EvAcquire(c) => Acquire(a, c)
    case EvRelease(c) => Release(a, c)
    case EvForceRelease(c) => ForceRelease(a, c)
    case EvExtend(c, d) => ExtendTimeout(a, c, d)
    case EvFire(i) => Fire(a, i)
    case EvCallback(i) => Callback(a, i)
    case EvTick(t) => a.(now := t)
  }

  predicate ValidRun(a: Arb, es: seq<Event>)
    decreases |es|
  {
    es == [] || (Enabled(a, es[0]) && ValidRun(Apply(a, es[0]), es[1..]))
  }

  function Run(a: Arb, es: seq<Event>): Arb
    requires ValidRun(a, es)
    decreases |es|
  {
    if es == [] then a else Run(Apply(a, es[0]), es[1..])
  }

  lemma Prepend(a: Arb, e: Event, rest: seq<Event>)
    requires Enabled(a, e) && ValidRun(Apply(a, e), rest)
    ensures ValidRun(a, [e] + rest) && Run(a, [e] + rest) == Run(Apply(a, e), rest)
  {
  }

  /** What every operation and both callbacks keep, whatever the client ids are. */
  ghost predicate Inv(a: Arb) {
    && TimersOk(a)
    && (a.locked ==> Guarded(a))
  }

  /** Every timer names the client of its own tenure, and only the current timer can still be armed. */
  ghost predicate TimersOk(a: Arb) {
    && (a.expireTimer.Some? ==> a.expireTimer.value < |a.timers|)
    && (forall i :: 0 <= i < |a.timers| ==> OfItsTenure(a.timers[i], a.tenures))
    && (forall i :: 0 <= i < |a.timers| && a.timers[i].status == Armed ==> a.expireTimer == Some(i))
  }

  predicate OfItsTenure(t: Timer, tenures: seq<string>) {
    1 <= t.tenure <= |tenures| && tenures[t.tenure - 1] == t.client
  }

  /** The current timer belongs to the tenure in force and has not been spent. */
  ghost predicate Guarded(a: Arb) {
    && a.tenures != []
    && a.tenures[|a.tenures| - 1] == a.owner
    && a.expireTimer.Some? && a.expireTimer.value < |a.timers|
    && var t := a.timers[a.expireTimer.value];
       && t.client == a.owner
       && t.tenure == |a.tenures|
       && (t.status == Armed || t.status == InFlight)
  }

  predicate LockedIffOwned(a: Arb) { a.locked <==> a.owner != "" }

  lemma StopKeepsTimers(a: Arb)
    requires TimersOk(a)
    ensures var ts := StopCurrent(a.timers, a.expireTimer);
            && |ts| == |a.timers|
            && (forall i :: 0 <= i < |ts| ==> ts[i].status != Armed && OfItsTenure(ts[i], a.tenures))
  {
  }

  lemma RearmKeepsInv(a: Arb, c: string, d: int)
    requires TimersOk(a) && a.locked && a.owner == c
    requires a.tenures != [] && a.tenures[|a.tenures| - 1] == c
    ensures Inv(Rearm(a, c, |a.tenures|, d))
  {
    var b := Rearm(a, c, |a.tenures|, d);
    var stopped := StopCurrent(a.timers, a.expireTimer);
    StopKeepsTimers(a);
    forall i | 0 <= i < |b.timers|
      ensures OfItsTenure(b.timers[i], b.tenures) && (b.timers[i].status == Armed ==> b.expireTimer == Some(i))
    {
      assert b.timers[i] == if i < |stopped| then stopped[i] else Timer(c, |a.tenures|, a.now, d, Armed);
    }
  }

  lemma AcquireKeepsInv(a: Arb, c: string)
    requires Inv(a)
    ensures Inv(Acquire(a, c))
  {
    if !a.locked {
      var b := a.(owner := c, locked := true, tenures := a.tenures + [c]);
      assert TimersOk(b) by {
        forall i | 0 <= i < |b.timers|
          ensures OfItsTenure(b.timers[i], b.tenures)
        {
          assert OfItsTenure(a.timers[i], a.tenures);
        }
      }
      RearmKeepsInv(b, c, a.timeout);
    }
  }

  lemma UnlockKeepsInv(a: Arb)
    requires TimersOk(a)
    ensures Inv(Unlock(a))
  {
  }

  lemma TimerStepKeepsInv(a: Arb, e: Event)
    requires Inv(a) && Enabled(a, e) && (e.EvFire? || e.EvCallback?)
    ensures Inv(Apply(a, e))
  {
    var i := e.timer;
    var b := Apply(a, e);
    forall j | 0 <= j < |b.timers|
      ensures OfItsTenure(b.timers[j], b.tenures)
    {
      assert OfItsTenure(a.timers[j], a.tenures);
    }
  }

  lemma StepKeepsInv(a: Arb, e: Event)
    requires Inv(a) && Enabled(a, e)
    ensures Inv(Apply(a, e))
  {
    match e
    case EvAcquire(c) => AcquireKeepsInv(a, c);
    case EvRelease(_) => UnlockKeepsInv(a);
    case EvForceRelease(_) => UnlockKeepsInv(a);
    case EvExtend(c, d) =>
      if OwnerError(a, c).None? {
        RearmKeepsInv(a.(timeout := d), c, d);
      }
    case EvTick(_) =>
    case _ => TimerStepKeepsInv(a, e);
  }

  lemma {:induction false} RunKeepsInv(a: Arb, es: seq<Event>)
    requires Inv(a) && ValidRun(a, es)
    ensures Inv(Run(a, es))
    decreases |es|
  {
    if es != [] {
      StepKeepsInv(a, es[0]);
      RunKeepsInv(Apply(a, es[0]), es[1..]);
    }
  }

  /** In every reachable state a held lock has an unspent timer of its own owner and tenure. */
  lemma HeldLockHasTimer(timeout: int, now: int, es: seq<Event>)
    requires ValidRun(New(timeout, now), es)
    ensures var a := Run(New(timeout, now), es);
            a.locked ==> Guarded(a)
  {
    RunKeepsInv(New(timeout, now), es);
  }

  /**
   `locked` and `owner != ""` agree after a step exactly when the step did not hand the free lock to
   the empty client id. The code does not refuse that id.
   */
  lemma OwnedStep(a: Arb, e: Event)
    requires Inv(a) && LockedIffOwned(a) && Enabled(a, e)
    ensures LockedIffOwned(Apply(a, e)) <==> !(e == EvAcquire("") && !a.locked)
  {
  }

  /** In every state along the run the flag and the owner agree. */
  ghost predicate AlwaysOwned(a: Arb, es: seq<Event>)
    requires ValidRun(a, es)
    decreases |es|
  {
    LockedIffOwned(a) && (es != [] ==> AlwaysOwned(Apply(a, es[0]), es[1..]))
  }

  /** Some step of the run hands the free lock to the empty id. */
  ghost predicate GivesToNobody(a: Arb, es: seq<Event>)
    requires ValidRun(a, es)
    decreases |es|
  {
    es != [] && ((es[0] == EvAcquire("") && !a.locked) || GivesToNobody(Apply(a, es[0]), es[1..]))
  }

  lemma {:induction false} AlwaysOwnedExactly(a: Arb, es: seq<Event>)
    requires Inv(a) && LockedIffOwned(a) && ValidRun(a, es)
    ensures AlwaysOwned(a, es) <==> !GivesToNobody(a, es)
    decreases |es|
  {
    if es != [] {
      StepKeepsInv(a, es[0]);
      OwnedStep(a, es[0]);
      if LockedIffOwned(Apply(a, es[0])) {
        AlwaysOwnedExactly(Apply(a, es[0]), es[1..]);
      }
    }
  }

  /** `locked` means the same as a non-empty owner all along a run iff the run never gives the lock to "". */
  lemma LockedIffOwnedExactly(timeout: int, now: int, es: seq<Event>)
    requires ValidRun(New(timeout, now), es)
    ensures AlwaysOwned(New(timeout, now), es) <==> !GivesToNobody(New(timeout, now), es)
  {
    AlwaysOwnedExactly(New(timeout, now), es);
  }

  /** The shortest run that breaks it: the empty id takes the free lock, and the owner stays "". */
  lemma EmptyIdBreaksOwnership(timeout: int, now: int)
    ensures var es := [EvAcquire("")];
            && ValidRun(New(timeout, now), es)
            && Run(New(timeout, now), es).locked && Run(New(timeout, now), es).owner == ""
            && GivesToNobody(New(timeout, now), es) && !AlwaysOwned(New(timeout, now), es)
  {
    var a := New(timeout, now);
    Prepend(a, EvAcquire(""), []);
    assert [EvAcquire("")] + [] == [EvAcquire("")];
    assert GivesToNobody(a, [EvAcquire("")]);
    LockedIffOwnedExactly(timeout, now, [EvAcquire("")]);
  }

  // ---------------------------------------------------------------- deadlines

  /**
   Callbacks run promptly when the clock never passes a moment at which some callback is due or waiting.
   */
  ghost predicate Prompt(a: Arb, e: Event) {
    e.EvTick? ==>
      forall i :: 0 <= i < |a.timers| ==>
        && a.timers[i].status != InFlight
        && (a.timers[i].status == Armed ==> e.time <= Max(a.now, a.timers[i].Deadline()))
        && (a.timers[i].status == Armed && a.timers[i].Deadline() <= a.now ==> e.time == a.now)
  }

  ghost predicate PromptRun(a: Arb, es: seq<Event>)
    requires ValidRun(a, es)
    decreases |es|
  {
    es == [] || (Prompt(a, es[0]) && PromptRun(Apply(a, es[0]), es[1..]))
  }

  ghost predicate NotOverdue(a: Arb) {
    a.locked ==>
      a.expireTimer.Some? && a.expireTimer.value < |a.timers| &&
      a.now <= a.timers[a.expireTimer.value].Deadline()
  }

  lemma PromptStep(a: Arb, e: Event)
    requires Inv(a) && NotOverdue(a) && Enabled(a, e) && Prompt(a, e)
    ensures NotOverdue(Apply(a, e))
  {
  }

  lemma {:induction false} PromptRunNotOverdue(a: Arb, es: seq<Event>)
    requires Inv(a) && NotOverdue(a) && ValidRun(a, es) && PromptRun(a, es)
    ensures NotOverdue(Run(a, es))
    decreases |es|
  {
    if es != [] {
      StepKeepsInv(a, es[0]);
      PromptStep(a, es[0]);
      PromptRunNotOverdue(Apply(a, es[0]), es[1..]);
    }
  }

  /**
   With prompt callbacks no tenure outlives its last arming plus the duration given then: whenever the
   lock is held, the clock has not passed the deadline of a timer started in the tenure in force.
   */
  lemma NoTenureOutlivesItsTimer(timeout: int, now: int, es: seq<Event>)
    requires ValidRun(New(timeout, now), es) && PromptRun(New(timeout, now), es)
    ensures var a := Run(New(timeout, now), es);
            a.locked ==>
              && Guarded(a)
              && a.now <= a.timers[a.expireTimer.value].armedAt
                          + Max(0, a.timers[a.expireTimer.value].duration)
  {
    RunKeepsInv(New(timeout, now), es);
    PromptRunNotOverdue(New(timeout, now), es);
  }

  // ---------------------------------------------------------------- who can end a tenure

  predicate EndsTenure(a: Arb, e: Event)
    requires Enabled(a, e)
  {
    a.locked && !Apply(a, e).Live(|a.tenures|)
  }

  lemma TenureEnd(a: Arb, e: Event)
    requires Inv(a) && Enabled(a, e) && EndsTenure(a, e)
    ensures match e
            case EvRelease(c) => c == a.owner
            case EvForceRelease(c) => c == a.owner
            case EvCallback(i) => a.timers[i].client == a.owner
                                  && a.tenures[a.timers[i].tenure - 1] == a.owner
            case _ => false
  {
    if e.EvCallback? {
      assert OfItsTenure(a.timers[e.timer], a.tenures);
    }
  }

  /**
   A tenure of c ends in three ways only: c's own Release, c's own ForceRelease, or a callback captured
   for c. In particular a leftover callback never ends a tenure of another client, although it may
   belong to an earlier tenure of the same client.
   */
  lemma WhoEndsATenure(timeout: int, now: int, es: seq<Event>, e: Event)
    requires ValidRun(New(timeout, now), es) && Enabled(Run(New(timeout, now), es), e)
    requires EndsTenure(Run(New(timeout, now), es), e)
    ensures var a := Run(New(timeout, now), es);
            match e
            case EvRelease(c) => c == a.owner
            case EvForceRelease(c) => c == a.owner
            case EvCallback(i) => a.timers[i].client == a.owner
                                  && 1 <= a.timers[i].tenure <= |a.tenures|
                                  && a.tenures[a.timers[i].tenure - 1] == a.owner
            case _ => false
  {
    RunKeepsInv(New(timeout, now), es);
    TenureEnd(Run(New(timeout, now), es), e);
  }

  // ---------------------------------------------------------------- the lease

  /** The state just after owner c acquired or extended: the current timer is armed. */
  ghost predicate JustArmed(a: Arb, c: string) {
    && Inv(a) && a.locked && a.owner == c
    && a.timers[a.expireTimer.value].status == Armed
  }

  ghost predicate CallbackInFlight(a: Arb, c: string) {
    exists i :: 0 <= i < |a.timers| && a.timers[i].status == InFlight && a.timers[i].client == c
  }

  predicate OwnRelease(e: Event, c: string) {
    e == EvRelease(c) || e == EvForceRelease(c) || (e.EvExtend? && e.client == c)
  }

  /** A run without a release or re-arming by c, ending strictly before `deadline`. */
  ghost predicate QuietRun(a: Arb, es: seq<Event>, c: string, deadline: int) {
    && ValidRun(a, es)
    && (forall k :: 0 <= k < |es| ==> !OwnRelease(es[k], c))
    && Run(a, es).now < deadline
  }

  lemma {:induction false} ClockIsMonotone(a: Arb, es: seq<Event>)
    requires ValidRun(a, es)
    ensures a.now <= Run(a, es).now
    decreases |es|
  {
    if es != [] {
      ClockIsMonotone(Apply(a, es[0]), es[1..]);
    }
  }

  lemma LeaseStep(a: Arb, e: Event, c: string, deadline: int)
    requires JustArmed(a, c) && !CallbackInFlight(a, c) && a.now < deadline
    requires a.timers[a.expireTimer.value].Deadline() == deadline
    requires Enabled(a, e) && !OwnRelease(e, c)
    ensures var b := Apply(a, e);
            && JustArmed(b, c) && !CallbackInFlight(b, c) && b.tenures == a.tenures
            && b.timers[b.expireTimer.value].Deadline() == deadline
  {
    StepKeepsInv(a, e);
    if e.EvCallback? {
      assert a.timers[e.timer].client != c;
    }
  }

  /** Without a callback of c in flight the lock cannot be lost before the deadline, except by c's doing. */
  lemma {:induction false} LeaseIsKept(a: Arb, es: seq<Event>, c: string, deadline: int)
    requires JustArmed(a, c) && !CallbackInFlight(a, c)
    requires a.timers[a.expireTimer.value].Deadline() == deadline
    requires QuietRun(a, es, c, deadline)
    ensures Run(a, es).locked && Run(a, es).owner == c && Run(a, es).tenures == a.tenures
    decreases |es|
  {
    ClockIsMonotone(a, es);
    if es != [] {
      LeaseStep(a, es[0], c, deadline);
      var rest := es[1..];
      forall k | 0 <= k < |rest| ensures !OwnRelease(rest[k], c) {
        assert rest[k] == es[k + 1];
      }
      LeaseIsKept(Apply(a, es[0]), rest, c, deadline);
    }
  }

  ghost predicate LosesLeaseEarly(a: Arb, es: seq<Event>, c: string) {
    && a.expireTimer.Some? && a.expireTimer.value < |a.timers|
    && QuietRun(a, es, c, a.timers[a.expireTimer.value].Deadline())
    && !(Run(a, es).Live(|a.tenures|) && Run(a, es).owner == c)
  }

  /**
   The lease of a client that has just acquired or extended can be cut short, in some run and through no
   act of its own, exactly when a callback captured for the same client id is already in flight.
   */
  lemma LeaseIsSafeExactly(a: Arb, c: string)
    requires JustArmed(a, c) && a.now < a.timers[a.expireTimer.value].Deadline()
    ensures (exists es :: LosesLeaseEarly(a, es, c)) <==> CallbackInFlight(a, c)
  {
    var deadline := a.timers[a.expireTimer.value].Deadline();
    if CallbackInFlight(a, c) {
      var i :| 0 <= i < |a.timers| && a.timers[i].status == InFlight && a.timers[i].client == c;
      var es := [EvCallback(i)];
      Prepend(a, EvCallback(i), []);
      assert es == [EvCallback(i)] + [];
      assert LosesLeaseEarly(a, es, c);
    } else {
      forall es | QuietRun(a, es, c, deadline)
        ensures !LosesLeaseEarly(a, es, c)
      {
        LeaseIsKept(a, es, c, deadline);
      }
    }
  }

  /** The arbiter after c acquired, its timer fired, and c released and acquired again. */
  function Reacquired(c: string, timeout: nat): Arb {
    Arb(c, true, timeout, Some(1),
        [Timer(c, 1, 0, timeout, InFlight), Timer(c, 2, timeout, timeout, Armed)], [c, c], timeout)
  }

  lemma ReacquiredIsReachable(c: string, timeout: nat)
    requires c != "" && timeout > 0
    ensures var es := [EvAcquire(c), EvTick(timeout), EvFire(0), EvRelease(c), EvAcquire(c)];
            ValidRun(New(timeout, 0), es) && Run(New(timeout, 0), es) == Reacquired(c, timeout)
  {
    var a0 := New(timeout, 0);
    var a1 := Apply(a0, EvAcquire(c));
    assert a1 == Arb(c, true, timeout, Some(0), [Timer(c, 1, 0, timeout, Armed)], [c], 0);
    var a2 := Apply(a1, EvTick(timeout));
    var a3 := Apply(a2, EvFire(0));
    assert a3.timers == [Timer(c, 1, 0, timeout, InFlight)];
    var a4 := Apply(a3, EvRelease(c));
    assert a4.timers == a3.timers;
    var a5 := Apply(a4, EvAcquire(c));
    assert a5 == Reacquired(c, timeout);
    Prepend(a4, EvAcquire(c), []);
    Prepend(a3, EvRelease(c), [EvAcquire(c)]);
    Prepend(a2, EvFire(0), [EvRelease(c), EvAcquire(c)]);
    Prepend(a1, EvTick(timeout), [EvFire(0), EvRelease(c), EvAcquire(c)]);
    Prepend(a0, EvAcquire(c), [EvTick(timeout), EvFire(0), EvRelease(c), EvAcquire(c)]);
  }

  /**
   A callback of the same client can really be in flight: c acquires, its timer fires, c releases and
   acquires again before the callback gets the mutex. The callback then ends the tenure that just began.
   */
  lemma StaleCallbackEndsNewTenure(c: string, timeout: nat)
    requires c != "" && timeout > 0
    ensures exists es ::
              && ValidRun(New(timeout, 0), es)
              && var a := Run(New(timeout, 0), es);
                 && JustArmed(a, c) && a.now < a.timers[a.expireTimer.value].Deadline()
                 && Enabled(a, EvCallback(0)) && a.timers[0].tenure < |a.tenures|
                 && EndsTenure(a, EvCallback(0))
  {
    var es := [EvAcquire(c), EvTick(timeout), EvFire(0), EvRelease(c), EvAcquire(c)];
    ReacquiredIsReachable(c, timeout);
    RunKeepsInv(New(timeout, 0), es);
    assert EndsTenure(Reacquired(c, timeout), EvCallback(0));
  }

  /** Acquire and ExtendTimeout do leave the state to which the lease theorem applies. */
  lemma AcquireAndExtendArm(a: Arb, c: string, d: int)
    requires Inv(a)
    ensures !a.locked ==> JustArmed(Acquire(a, c), c)
    ensures !a.locked ==> Acquire(a, c).timers[|a.timers|].Deadline() == a.now + Max(0, a.timeout)
    ensures a.locked && a.owner == c ==> JustArmed(ExtendTimeout(a, c, d), c)
    ensures a.locked && a.owner == c ==>
              ExtendTimeout(a, c, d).timers[|a.timers|].Deadline() == a.now + Max(0, d)
  {
    AcquireKeepsInv(a, c);
    StepKeepsInv(a, EvExtend(c, d));
  }

  /** A fresh timer is not in flight, so the callbacks that count are those left from before. */
  lemma AcquireLeavesCallbacks(a: Arb, c: string)
    requires Inv(a) && !a.locked
    ensures CallbackInFlight(Acquire(a, c), c) <==> CallbackInFlight(a, c)
  {
    var b := Acquire(a, c);
    assert forall i :: 0 <= i < |a.timers| ==>
      (b.timers[i].status == InFlight <==> a.timers[i].status == InFlight) && b.timers[i].client == a.timers[i].client;
  }

  predicate TakesOrExtends(a: Arb, e: Event, c: string) {
    (e == EvAcquire(c) && !a.locked) || (e.EvExtend? && e.client == c && a.locked && a.owner == c)
  }

  /** The duration of the timer that the event starts. */
  function NewDuration(a: Arb, e: Event): int {
    if e.EvExtend? then e.duration else a.timeout
  }

  /**
   The lease as a whole: in any run, if no callback of c is in flight when c acquires or extends, then c
   keeps the lock, in the same tenure, for the whole new duration, unless c itself releases or re-arms.
   */
  lemma LeaseHoldsForItsDuration(timeout: int, now: int, es: seq<Event>, e: Event, fs: seq<Event>, c: string)
    requires ValidRun(New(timeout, now), es)
    requires var a := Run(New(timeout, now), es);
             && TakesOrExtends(a, e, c) && !CallbackInFlight(Apply(a, e), c)
             && QuietRun(Apply(a, e), fs, c, a.now + Max(0, NewDuration(a, e)))
    ensures var b := Apply(Run(New(timeout, now), es), e);
            Run(b, fs).locked && Run(b, fs).owner == c && Run(b, fs).tenures == b.tenures
  {
    var a := Run(New(timeout, now), es);
    RunKeepsInv(New(timeout, now), es);
    AcquireAndExtendArm(a, c, NewDuration(a, e));
    LeaseIsKept(Apply(a, e), fs, c, a.now + Max(0, NewDuration(a, e)));
  }

  // ---------------------------------------------------------------- what the callers are told

  /** The call changed nothing. */
  predicate Refused(a: Arb, b: Arb) { b == a }

  /** The lock is free, with no owner, and nothing else of what was acquired has changed. */
  predicate Freed(a: Arb, b: Arb) {
    !b.locked && b.owner == "" && b.tenures == a.tenures && b.timeout == a.timeout && b.now == a.now
  }

  /** A new tenure of the client has begun. */
  predicate Begun(a: Arb, b: Arb, c: string) {
    b.locked && b.owner == c && b.tenures == a.tenures + [c] && b.timeout == a.timeout && b.now == a.now
  }

  /**
   In every reachable state the error tells the caller exactly what happened: Acquire fails, with
   ErrLockAlreadyHeld, iff the lock is held; Release and ExtendTimeout fail with ErrLockNotHeld iff it is free
   and with ErrNotLockOwner iff another client holds it; and a call that fails changes nothing.
   */
  lemma ErrorsExactly(timeout: int, now: int, es: seq<Event>, c: string, d: int)
    requires ValidRun(New(timeout, now), es)
    ensures var a := Run(New(timeout, now), es);
            && (AcquireError(a) == Some(ErrLockAlreadyHeld) <==> a.locked)
            && (AcquireError(a) == None <==> !a.locked)
            && (OwnerError(a, c) == Some(ErrLockNotHeld) <==> !a.locked)
            && (OwnerError(a, c) == Some(ErrNotLockOwner) <==> a.locked && a.owner != c)
            && (OwnerError(a, c) == None <==> a.locked && a.owner == c)
            && (if a.locked then Refused(a, Acquire(a, c)) else Begun(a, Acquire(a, c), c))
            && (if a.locked && a.owner == c then Freed(a, Release(a, c)) else Refused(a, Release(a, c)))
            && (a.locked && a.owner == c ==> Freed(a, ForceRelease(a, c)))
            && (a.locked && a.owner != c ==> Refused(a, ForceRelease(a, c)))
            && (!(a.locked && a.owner == c) ==> Refused(a, ExtendTimeout(a, c, d)))
  {
  }

  lemma {:induction false} TimeoutStays(a: Arb, es: seq<Event>)
    requires ValidRun(a, es) && forall e :: e in es ==> !e.EvExtend?
    ensures Run(a, es).timeout == a.timeout
    decreases |es|
  {
    if es != [] {
      assert es[0] in es;
      assert forall e :: e in es[1..] ==> e in es;
      TimeoutStays(Apply(a, es[0]), es[1..]);
    }
  }

  /** An extension by the owner also sets the length of the leases to come, until the next extension. */
  lemma ExtensionSetsLaterLeases(a: Arb, c: string, d: int, es: seq<Event>, x: string)
    requires Inv(a) && a.locked && a.owner == c && ValidRun(ExtendTimeout(a, c, d), es)
    requires (forall e :: e in es ==> !e.EvExtend?) && !Run(ExtendTimeout(a, c, d), es).locked
    ensures var b := Run(ExtendTimeout(a, c, d), es);
            JustArmed(Acquire(b, x), x) && Acquire(b, x).timers[|b.timers|].Deadline() == b.now + Max(0, d)
  {
    StepKeepsInv(a, EvExtend(c, d));
    RunKeepsInv(ExtendTimeout(a, c, d), es);
    TimeoutStays(ExtendTimeout(a, c, d), es);
    AcquireAndExtendArm(Run(ExtendTimeout(a, c, d), es), x, 0);
  }
}
