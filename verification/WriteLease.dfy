/**
 How long a client of the server keeps the write lock. In internal/server/server.go nobody extends the lock
 and a handler releases it only when its connection ends, so the 30 seconds given to the arbiter should be
 a minimum as well as a maximum. Nothing is assumed about the addresses.
 */
module WriteLease {
  import opened Common
  import opened WriteArbitration
  import opened WriteSafety
  import opened WriteHistory
  import P = WriteProgress
  import W = WriteWitness
  import A = ArbiterSpec

  // ---------------------------------------------------------------- one timer per tenure

  /** Timer i belongs to tenure i + 1, runs for the fixed time and is not started early. */
  predicate TimerOk(t: A.Timer, i: nat, now: int) {
    && t.tenure == i + 1 && t.duration == LOCK_TIMEOUT
    && (t.status == A.InFlight ==> t.Deadline() <= now)
  }

  ghost predicate OneTimerPerTenure(a: A.Arb) {
    && a.timeout == LOCK_TIMEOUT
    && |a.timers| == |a.tenures|
    && a.expireTimer == (if a.timers == [] then None else Some(|a.timers| - 1))
    && forall i :: 0 <= i < |a.timers| ==> TimerOk(a.timers[i], i, a.now)
  }

  /** What the server does to its arbiter. */
  predicate ServerEvent(e: A.Event) { !e.EvExtend? && !e.EvRelease? }

  lemma AcquireKeepsTimers(a: A.Arb, id: string)
    requires OneTimerPerTenure(a)
    ensures OneTimerPerTenure(A.Acquire(a, id))
  {
  }

  lemma ArbStepKeepsTimers(a: A.Arb, e: A.Event)
    requires OneTimerPerTenure(a) && A.Enabled(a, e) && ServerEvent(e)
    ensures OneTimerPerTenure(A.Apply(a, e))
  {
    match e
    case EvAcquire(c) => AcquireKeepsTimers(a, c);
    case EvForceRelease(_) =>
    case EvFire(_) =>
    case EvCallback(_) =>
    case EvTick(_) =>
  }

  /** The event of the arbiter behind an event of the server, if it is one. */
  function ArbEvent(s: Sys, e: Event): Option<A.Event>
    requires Enabled(s, e)
  {
    match e
    case Clock(t) => Some(t)
    case Step(c) =>
      if P.Attempts(s.handlers[c].pc) then Some(A.EvAcquire(s.handlers[c].id))
      else if s.handlers[c].pc.Releasing? then Some(A.EvForceRelease(s.handlers[c].id))
      else None
    case _ => None
  }

  lemma ArbEventIsTheStep(s: Sys, e: Event)
    requires Enabled(s, e)
    ensures match ArbEvent(s, e)
            case Some(t) => A.Enabled(s.arb, t) && ServerEvent(t) && Apply(s, e).arb == A.Apply(s.arb, t)
            case None => Apply(s, e).arb == s.arb
  {
    if IsHandlerEvent(e) {
      HandlerEventShape(s, e);
      HandlerEventArb(s, e);
    }
  }

  // ---------------------------------------------------------------- leftover timers

  /** A connection with this address has let go of the lock for good. */
  ghost predicate Departed(s: Sys, id: string) {
    exists c :: 0 <= c < |s.handlers| && s.handlers[c].id == id && !MayHold(s.handlers[c].pc)
  }

  /** A timer that outlived its tenure is one of a connection that has gone. */
  predicate Leftover(a: A.Arb, i: nat)
    requires i < |a.timers|
  {
    (a.timers[i].status == A.Armed || a.timers[i].status == A.InFlight) && !a.Live(a.timers[i].tenure)
  }

  ghost predicate LeaseInv(s: Sys) {
    && OneTimerPerTenure(s.arb)
    && forall i :: 0 <= i < |s.arb.timers| && Leftover(s.arb, i) ==> Departed(s, s.arb.timers[i].client)
  }

  /** Once let go, always let go. */
  lemma LetGoPersists(s: Sys, e: Event, c: nat)
    requires Enabled(s, e) && c < |s.handlers| && !MayHold(s.handlers[c].pc)
    ensures c < |Apply(s, e).handlers| && !MayHold(Apply(s, e).handlers[c].pc)
    ensures Apply(s, e).handlers[c].id == s.handlers[c].id
  {
    IdsAreFixed(s, e);
    if IsHandlerEvent(e) && e.conn == c {
      HandlerEventShape(s, e);
    } else {
      OthersStay(s, e, c);
    }
  }

  lemma DepartedPersists(s: Sys, e: Event, id: string)
    requires Enabled(s, e) && Departed(s, id)
    ensures Departed(Apply(s, e), id)
  {
    var c :| 0 <= c < |s.handlers| && s.handlers[c].id == id && !MayHold(s.handlers[c].pc);
    LetGoPersists(s, e, c);
  }

  /** A step of the arbiter that leaves timer i behind: it was left behind already, or a tenure of its client ends. */
  lemma LeftBehind(a: A.Arb, e: A.Event, i: nat)
    requires A.Inv(a) && A.LockedIffOwned(a) && OneTimerPerTenure(a) && A.Enabled(a, e) && ServerEvent(e)
    requires i < |A.Apply(a, e).timers| && Leftover(A.Apply(a, e), i)
    ensures i < |a.timers| && A.Apply(a, e).timers[i].client == a.timers[i].client
    ensures || Leftover(a, i)
            || (e == A.EvForceRelease(a.timers[i].client) && a.owner == a.timers[i].client)
            || (e.EvCallback? && Leftover(a, e.timer) && a.timers[e.timer].client == a.timers[i].client)
  {
    match e
    case EvAcquire(c) => LeftBehindByAcquire(a, c, i);
    case EvForceRelease(c) => LeftBehindByRelease(a, c, i);
    case EvCallback(j) => LeftBehindByCallback(a, j, i);
    case EvFire(_) =>
    case EvTick(_) =>
  }

  lemma LeftBehindByAcquire(a: A.Arb, c: string, i: nat)
    requires A.Inv(a) && OneTimerPerTenure(a)
    requires i < |A.Acquire(a, c).timers| && Leftover(A.Acquire(a, c), i)
    ensures i < |a.timers| && A.Acquire(a, c).timers[i].client == a.timers[i].client && Leftover(a, i)
  {
  }

  lemma LeftBehindByRelease(a: A.Arb, c: string, i: nat)
    requires A.Inv(a) && A.LockedIffOwned(a) && OneTimerPerTenure(a)
    requires i < |A.ForceRelease(a, c).timers| && Leftover(A.ForceRelease(a, c), i)
    ensures i < |a.timers| && A.ForceRelease(a, c).timers[i].client == a.timers[i].client
    ensures Leftover(a, i) || (c == a.timers[i].client && a.owner == c)
  {
  }

  lemma LeftBehindByCallback(a: A.Arb, j: nat, i: nat)
    requires A.Inv(a) && OneTimerPerTenure(a) && A.Enabled(a, A.EvCallback(j))
    requires i < |a.timers| && Leftover(A.Callback(a, j), i)
    ensures A.Callback(a, j).timers[i].client == a.timers[i].client
    ensures Leftover(a, i) || (Leftover(a, j) && a.timers[j].client == a.timers[i].client)
  {
  }

  lemma StepKeepsLease(s: Sys, e: Event)
    requires Inv(s) && LeaseInv(s) && Enabled(s, e)
    ensures LeaseInv(Apply(s, e))
  {
    var t := Apply(s, e);
    ArbEventIsTheStep(s, e);
    if ArbEvent(s, e).Some? {
      ArbStepKeepsTimers(s.arb, ArbEvent(s, e).value);
    }
    forall i | 0 <= i < |t.arb.timers| && Leftover(t.arb, i)
      ensures Departed(t, t.arb.timers[i].client)
    {
      LeftoverDeparted(s, e, i);
    }
  }

  lemma LeftoverDeparted(s: Sys, e: Event, i: nat)
    requires Inv(s) && LeaseInv(s) && Enabled(s, e)
    requires i < |Apply(s, e).arb.timers| && Leftover(Apply(s, e).arb, i)
    ensures Departed(Apply(s, e), Apply(s, e).arb.timers[i].client)
  {
    ArbEventIsTheStep(s, e);
    if ArbEvent(s, e).None? {
      DepartedPersists(s, e, s.arb.timers[i].client);
    } else {
      var t := ArbEvent(s, e).value;
      LeftBehind(s.arb, t, i);
      if Leftover(s.arb, i) || t.EvCallback? {
        DepartedPersists(s, e, s.arb.timers[i].client);
      } else {
        HandlerEventShape(s, e);
        assert !MayHold(Apply(s, e).handlers[e.conn].pc);
      }
    }
  }

  lemma {:induction false} RunKeepsLease(s: Sys, es: seq<Event>)
    requires Inv(s) && LeaseInv(s) && ValidRun(s, es)
    ensures Inv(Run(s, es)) && LeaseInv(Run(s, es))
    decreases |es|
  {
    if es != [] {
      StepKeepsInv(s, es[0]);
      StepKeepsLease(s, es[0]);
      RunKeepsLease(Apply(s, es[0]), es[1..]);
    }
  }

  lemma ReachableLease(hasSerial: bool, es: seq<Event>)
    requires ValidRun(Init(hasSerial), es)
    ensures Inv(Run(Init(hasSerial), es)) && LeaseInv(Run(Init(hasSerial), es))
  {
    InitInv(hasSerial);
    RunKeepsLease(Init(hasSerial), es);
  }

  // ---------------------------------------------------------------- why a tenure ends

  /** The timer of the tenure in force has run for the full 30 seconds, in milliseconds. */
  predicate TimeIsUp(s: Sys, e: Event) {
    && s.arb.tenures != [] && |s.arb.timers| == |s.arb.tenures|
    && e == Clock(A.EvCallback(|s.arb.tenures| - 1))
    && s.arb.timers[|s.arb.tenures| - 1].armedAt + 30000 <= s.arb.now
  }

  /** A connection with the owner's address ends, the very one that took the lock if ids never collided. */
  predicate OwnerLeaves(s: Sys, e: Event) {
    && e.Step? && e.conn < |s.handlers| && s.handlers[e.conn].pc.Releasing?
    && s.handlers[e.conn].id == s.arb.owner
    && s.holders != [] && (!s.collided ==> s.holders[|s.holders| - 1] == e.conn)
  }

  /** The callback is one left from an earlier tenure of the owner's address, and a connection of that has gone. */
  ghost predicate LeftoverStrikes(s: Sys, e: Event) {
    && e.Clock? && e.arb.EvCallback? && e.arb.timer + 1 < |s.arb.tenures|
    && s.arb.tenures[e.arb.timer] == s.arb.owner && Departed(s, s.arb.owner)
  }

  /**
   A client's tenure ends in one of three ways: its own timer ran for the full 30 seconds; a connection with
   its address ended, which is the one that took the lock as long as ids do not collide; or by a callback left
   from an earlier tenure of the same address, and then a connection with that address has gone before.
   */
  lemma WhyATenureEnds(hasSerial: bool, es: seq<Event>, e: Event)
    requires ValidRun(Init(hasSerial), es) && Enabled(Run(Init(hasSerial), es), e)
    requires var s := Run(Init(hasSerial), es);
             s.arb.locked && !Apply(s, e).arb.Live(|s.arb.tenures|)
    ensures var s := Run(Init(hasSerial), es);
            TimeIsUp(s, e) || OwnerLeaves(s, e) || LeftoverStrikes(s, e)
  {
    var s := Run(Init(hasSerial), es);
    ReachableLease(hasSerial, es);
    FreesTheLock(s, e);
    if e.Clock? {
      CallbackOfOwner(s, e.arb.timer);
    } else {
      ReleaserTookIt(s, e.conn);
    }
  }

  lemma CallbackOfOwner(s: Sys, i: nat)
    requires LockInv(s) && LeaseInv(s) && s.arb.locked && A.Enabled(s.arb, A.EvCallback(i))
    requires s.arb.timers[i].client == s.arb.owner
    ensures TimeIsUp(s, Clock(A.EvCallback(i))) || LeftoverStrikes(s, Clock(A.EvCallback(i)))
  {
    assert A.OfItsTenure(s.arb.timers[i], s.arb.tenures) && TimerOk(s.arb.timers[i], i, s.arb.now);
    if i < |s.arb.tenures| - 1 {
      assert Leftover(s.arb, i);
    }
  }

  lemma ReleaserTookIt(s: Sys, c: nat)
    requires IdInv(s) && LockInv(s) && TakerInv(s) && s.arb.locked
    requires c < |s.handlers| && s.handlers[c].pc.Releasing? && s.handlers[c].id == s.arb.owner
    ensures OwnerLeaves(s, Step(c))
  {
    assert s.handlers[c].id != "";
    OwnedTenure(s);
    if !s.collided {
      CheckedIsOwn(s, c);
    }
  }

  // ---------------------------------------------------------------- the lease

  /** The address of handler c owns the lock, its timer has not fired, and c has not let go. */
  ghost predicate Holds(s: Sys, c: nat) {
    && c < |s.handlers| && MayHold(s.handlers[c].pc)
    && A.JustArmed(s.arb, s.handlers[c].id)
  }

  /** And c is still connected as far as the server knows. */
  ghost predicate Leases(s: Sys, c: nat) { Holds(s, c) && Registered(s.handlers[c].pc) }

  /** Another connection with the same address has not let go either. */
  ghost predicate Rival(s: Sys, c: nat, d: nat)
    requires c < |s.handlers|
  {
    d < |s.handlers| && d != c && s.handlers[d].id == s.handlers[c].id && MayHold(s.handlers[d].pc)
  }

  ghost predicate HasRival(s: Sys, c: nat)
    requires c < |s.handlers|
  {
    exists d: nat :: Rival(s, c, d)
  }

  /** No connection with this address has been registered since. */
  ghost predicate NoNewcomer(s: Sys, t: Sys, id: string) {
    forall d :: |s.handlers| <= d < |t.handlers| ==> t.handlers[d].id != id
  }

  function LastDeadline(a: A.Arb): int
    requires a.timers != []
  {
    a.timers[|a.timers| - 1].Deadline()
  }

  function Deadline(s: Sys): int
    requires s.arb.timers != []
  {
    LastDeadline(s.arb)
  }

  /**
   A run that takes the lock from handler c before the deadline, although c never lets go of it and nobody
   connects from its address.
   */
  ghost predicate LosesEarly(s: Sys, c: nat, fs: seq<Event>)
    requires s.arb.timers != [] && c < |s.handlers|
  {
    && ValidRun(s, fs) && Run(s, fs).arb.now < Deadline(s)
    && c < |Run(s, fs).handlers| && MayHold(Run(s, fs).handlers[c].pc)
    && NoNewcomer(s, Run(s, fs), s.handlers[c].id)
    && !Run(s, fs).arb.Live(|s.arb.tenures|)
  }

  lemma {:induction false} LetGoRun(s: Sys, fs: seq<Event>, c: nat)
    requires ValidRun(s, fs) && c < |s.handlers| && !MayHold(s.handlers[c].pc)
    ensures c < |Run(s, fs).handlers| && !MayHold(Run(s, fs).handlers[c].pc)
    decreases |fs|
  {
    if fs != [] {
      LetGoPersists(s, fs[0], c);
      LetGoRun(Apply(s, fs[0]), fs[1..], c);
    }
  }

  lemma {:induction false} IdsStay(s: Sys, fs: seq<Event>)
    requires ValidRun(s, fs)
    ensures |s.handlers| <= |Run(s, fs).handlers| && s.arb.now <= Run(s, fs).arb.now
    ensures forall d :: 0 <= d < |s.handlers| ==> Run(s, fs).handlers[d].id == s.handlers[d].id
    decreases |fs|
  {
    if fs != [] {
      IdsAreFixed(s, fs[0]);
      ArbEventIsTheStep(s, fs[0]);
      IdsStay(Apply(s, fs[0]), fs[1..]);
    }
  }

  /** While c holds on and has no rival, no step of the server is a release of the lock by its address. */
  lemma NotItsOwnRelease(s: Sys, e: Event, c: nat)
    requires Enabled(s, e) && c < |s.handlers| && !HasRival(s, c)
    requires c < |Apply(s, e).handlers| && MayHold(Apply(s, e).handlers[c].pc)
    requires ArbEvent(s, e).Some?
    ensures !A.OwnRelease(ArbEvent(s, e).value, s.handlers[c].id)
  {
    if e.Step? && s.handlers[e.conn].pc.Releasing? {
      HandlerEventShape(s, e);
      if s.handlers[e.conn].id == s.handlers[c].id && e.conn != c {
        assert Rival(s, c, e.conn);
      }
    }
  }

  lemma ArbLeaseStep(a: A.Arb, e: A.Event, id: string)
    requires A.JustArmed(a, id) && !A.CallbackInFlight(a, id) && OneTimerPerTenure(a)
    requires a.now < LastDeadline(a) && A.Enabled(a, e) && !A.OwnRelease(e, id)
    requires OneTimerPerTenure(A.Apply(a, e))
    ensures var b := A.Apply(a, e);
            && A.JustArmed(b, id) && !A.CallbackInFlight(b, id) && b.tenures == a.tenures
            && b.timers != [] && LastDeadline(b) == LastDeadline(a)
  {
    A.LeaseStep(a, e, id, LastDeadline(a));
  }

  lemma LeaseStep(s: Sys, e: Event, c: nat)
    requires OneTimerPerTenure(s.arb) && Holds(s, c) && !HasRival(s, c)
    requires !A.CallbackInFlight(s.arb, s.handlers[c].id)
    requires s.arb.timers != [] && s.arb.now < Deadline(s) && Enabled(s, e)
    requires c < |Apply(s, e).handlers| && MayHold(Apply(s, e).handlers[c].pc)
    ensures var t := Apply(s, e);
            && Holds(t, c) && !A.CallbackInFlight(t.arb, t.handlers[c].id)
            && t.arb.timers != [] && Deadline(t) == Deadline(s) && t.arb.tenures == s.arb.tenures
  {
    IdsAreFixed(s, e);
    ArbEventIsTheStep(s, e);
    if ArbEvent(s, e).Some? {
      NotItsOwnRelease(s, e, c);
      ArbStepKeepsTimers(s.arb, ArbEvent(s, e).value);
      ArbLeaseStep(s.arb, ArbEvent(s, e).value, s.handlers[c].id);
    }
  }

  /** Rivals only come in from outside. */
  lemma NoRivalStep(s: Sys, e: Event, c: nat)
    requires Enabled(s, e) && c < |s.handlers| && !HasRival(s, c)
    requires NoNewcomer(s, Apply(s, e), s.handlers[c].id)
    ensures c < |Apply(s, e).handlers| && !HasRival(Apply(s, e), c)
  {
    var t := Apply(s, e);
    IdsAreFixed(s, e);
    if d: nat :| Rival(t, c, d) {
      assert d < |s.handlers|;
      if !MayHold(s.handlers[d].pc) {
        LetGoPersists(s, e, d);
      }
      assert Rival(s, c, d);
    }
  }

  lemma {:induction false} LeaseIsKept(s: Sys, fs: seq<Event>, c: nat)
    requires Inv(s) && LeaseInv(s) && Holds(s, c) && !HasRival(s, c)
    requires !A.CallbackInFlight(s.arb, s.handlers[c].id)
    requires ValidRun(s, fs) && Run(s, fs).arb.now < Deadline(s)
    requires NoNewcomer(s, Run(s, fs), s.handlers[c].id)
    requires c < |Run(s, fs).handlers| && MayHold(Run(s, fs).handlers[c].pc)
    ensures Run(s, fs).arb.Live(|s.arb.tenures|) && Run(s, fs).arb.owner == s.handlers[c].id
    decreases |fs|
  {
    if fs != [] {
      var t := Apply(s, fs[0]);
      IdsAreFixed(s, fs[0]);
      IdsStay(t, fs[1..]);
      if !MayHold(t.handlers[c].pc) {
        LetGoRun(t, fs[1..], c);
      } else {
        IdsStay(s, fs);
        NoRivalStep(s, fs[0], c);
        LeaseStep(s, fs[0], c);
        StepKeepsInv(s, fs[0]);
        StepKeepsLease(s, fs[0]);
        LeaseIsKept(t, fs[1..], c);
      }
    }
  }

  // ---------------------------------------------------------------- how a lease is lost early

  /** One callback captured for the address of c, whichever tenure it was started in, is enough. */
  lemma CallbackTakesTheLock(s: Sys, c: nat, i: nat)
    requires Leases(s, c) && s.arb.timers != [] && s.arb.now < Deadline(s)
    requires Enabled(s, Clock(A.EvCallback(i))) && s.arb.timers[i].client == s.handlers[c].id
    ensures LosesEarly(s, c, [Clock(A.EvCallback(i))])
  {
    var e := Clock(A.EvCallback(i));
    assert [e][1..] == [];
    assert Run(s, [e]) == Apply(s, e);
    assert !Apply(s, e).arb.locked;
  }

  /** A step that leaves the lock and handler c alone. */
  predicate Aside(s: Sys, t: Sys, c: nat) {
    && c < |s.handlers| == |t.handlers| && t.arb == s.arb
    && t.handlers[c] == s.handlers[c]
    && forall d :: 0 <= d < |s.handlers| ==> t.handlers[d].id == s.handlers[d].id
  }

  lemma LosesEarlyBefore(s: Sys, e: Event, c: nat, fs: seq<Event>)
    requires Enabled(s, e) && Aside(s, Apply(s, e), c) && s.arb.timers != []
    requires LosesEarly(Apply(s, e), c, fs)
    ensures LosesEarly(s, c, [e] + fs)
  {
    assert ([e] + fs)[1..] == fs;
  }

  /** The release of handler m, whose address owns the lock, loses it for c. */
  lemma ReleaseTakesTheLock(s: Sys, c: nat, m: nat)
    requires Leases(s, c) && s.arb.timers != [] && s.arb.now < Deadline(s)
    requires Enabled(s, Step(m)) && s.handlers[m].pc.Releasing? && s.handlers[m].id == s.handlers[c].id
    ensures LosesEarly(s, c, [Step(m)])
  {
    var e := Step(m);
    assert [e][1..] == [];
    assert Run(s, [e]) == Apply(s, e);
    HandlerEventShape(s, e);
    HandlerEventArb(s, e);
    assert !Apply(s, e).arb.locked;
  }

  /** A handler other than c gets on without touching the lock, as c's address holds it, unless it releases it. */
  lemma EventAside(s: Sys, c: nat, e: Event)
    requires Leases(s, c) && Enabled(s, e) && IsHandlerEvent(e) && e.conn != c
    requires s.handlers[e.conn].pc.Releasing? ==> s.handlers[e.conn].id != s.handlers[c].id
    ensures Aside(s, Apply(s, e), c)
  {
    HandlerEventShape(s, e);
    HandlerEventArb(s, e);
  }

  lemma AsideLeases(s: Sys, t: Sys, c: nat)
    requires Leases(s, c) && Aside(s, t, c)
    ensures Leases(t, c)
  {
  }

  /** Where the run of the mutex holder leads: to the loss of the lock, or to a free mutex. */
  ghost predicate Cleared(s: Sys, c: nat, m: nat, fs: seq<Event>) {
    && ValidRun(s, fs) && Aside(s, Run(s, fs), c) && Run(s, fs).mutex == None
    && forall d :: 0 <= d < |s.handlers| && d != m ==> Run(s, fs).handlers[d] == s.handlers[d]
  }

  lemma ClearedBefore(s: Sys, c: nat, m: nat, fs: seq<Event>)
    requires Enabled(s, Step(m)) && Aside(s, HandlerStep(s, m), c) && HandlerShape(s, HandlerStep(s, m), m)
    requires Cleared(HandlerStep(s, m), c, m, fs)
    ensures Cleared(s, c, m, [Step(m)] + fs)
  {
    assert ([Step(m)] + fs)[1..] == fs;
  }

  lemma {:induction false} HolderGivesBackMutex(s: Sys, c: nat, m: nat) returns (fs: seq<Event>)
    requires MutexExact(s) && Leases(s, c) && s.arb.timers != [] && s.arb.now < Deadline(s)
    requires s.mutex == Some(m)
    ensures LosesEarly(s, c, fs) || Cleared(s, c, m, fs)
    decreases P.StepsLeft(s.handlers[m].pc)
  {
    assert m < |s.handlers| && InMutex(s.handlers[m].pc) && m != c;
    if s.handlers[m].pc.Releasing? && s.handlers[m].id == s.handlers[c].id {
      fs := [Step(m)];
      ReleaseTakesTheLock(s, c, m);
    } else {
      var t := HandlerStep(s, m);
      EventAside(s, c, Step(m));
      AsideLeases(s, t, c);
      HandlerEventShape(s, Step(m));
      ShapeKeepsMutex(s, t, m);
      P.StepFollows(s, m);
      if s.handlers[m].pc.Unlocking? {
        fs := [];
        assert Cleared(t, c, m, []);
      } else {
        fs := HolderGivesBackMutex(t, c, m);
      }
      if LosesEarly(t, c, fs) {
        LosesEarlyBefore(s, Step(m), c, fs);
      } else {
        ClearedBefore(s, c, m, fs);
      }
      fs := [Step(m)] + fs;
    }
  }

  lemma LosesEarlyAfter(s: Sys, c: nat, fs: seq<Event>, gs: seq<Event>)
    requires ValidRun(s, fs) && Aside(s, Run(s, fs), c) && s.arb.timers != []
    requires LosesEarly(Run(s, fs), c, gs)
    ensures LosesEarly(s, c, fs + gs)
  {
    RunsCompose(s, fs, gs);
  }

  lemma RunCons(s: Sys, e: Event, fs: seq<Event>)
    requires Enabled(s, e) && ValidRun(Apply(s, e), fs)
    ensures ValidRun(s, [e] + fs) && Run(s, [e] + fs) == Run(Apply(s, e), fs)
  {
    assert ([e] + fs)[1..] == fs;
  }

  lemma {:induction false} RunsCompose(s: Sys, fs: seq<Event>, gs: seq<Event>)
    requires ValidRun(s, fs) && ValidRun(Run(s, fs), gs)
    ensures ValidRun(s, fs + gs) && Run(s, fs + gs) == Run(Run(s, fs), gs)
    decreases |fs|
  {
    if fs == [] {
      assert fs + gs == gs;
    } else {
      RunsCompose(Apply(s, fs[0]), fs[1..], gs);
      RunCons(s, fs[0], fs[1..] + gs);
      assert fs + gs == [fs[0]] + (fs[1..] + gs);
    }
  }

  /** The steps that a handler still has to make before it releases the lock. */
  function StepsToRelease(pc: Pc): nat {
    match pc
    case Reading => 3
    case Failed => 2
    case Deleted => 1
    case Releasing => 0
    case _ => P.StepsLeft(pc) + 4
  }

  ghost predicate Ready(s: Sys, c: nat, d: nat) {
    && Inv(s) && P.InLoop(s) && Leases(s, c) && s.arb.timers != [] && s.arb.now < Deadline(s)
    && Rival(s, c, d)
  }

  /** The event with which a rival gets on, once the mutex is free. */
  function RivalEvent(s: Sys, d: nat): Event
    requires d < |s.handlers|
  {
    if s.handlers[d].pc.Reading? then ReadError(d) else Step(d)
  }

  /** What the next event of a rival makes of it. */
  ghost predicate GetsOn(s: Sys, d: nat)
    requires d < |s.handlers|
  {
    var e := RivalEvent(s, d);
    && Enabled(s, e) && e.conn == d && d < |Apply(s, e).handlers|
    && StepsToRelease(Apply(s, e).handlers[d].pc) < StepsToRelease(s.handlers[d].pc)
    && MayHold(Apply(s, e).handlers[d].pc)
  }

  lemma BusyRivalMoves(s: Sys, d: nat)
    requires P.InLoop(s) && d < |s.handlers| && Busy(s.handlers[d].pc)
    ensures GetsOn(s, d)
  {
    P.StepsLeftDecrease(s, d);
    P.StepFollows(s, d);
  }

  lemma IdleRivalMoves(s: Sys, d: nat)
    requires d < |s.handlers| && (s.handlers[d].pc.Failed? ==> s.mutex == None)
    requires s.handlers[d].pc.Reading? || s.handlers[d].pc.Failed?
             || (s.handlers[d].pc.Deleted? && s.arb.owner == s.handlers[d].id)
    ensures GetsOn(s, d)
  {
    if !s.handlers[d].pc.Reading? {
      DisconnectShape(s, d);
      StepArb(s, d);
    }
  }

  lemma RivalMoves(s: Sys, c: nat, d: nat)
    requires Ready(s, c, d) && !s.handlers[d].pc.Releasing? && (s.handlers[d].pc.Failed? ==> s.mutex == None)
    ensures GetsOn(s, d)
  {
    if Busy(s.handlers[d].pc) {
      BusyRivalMoves(s, d);
    } else {
      IdleRivalMoves(s, d);
    }
  }

  lemma RivalStaysReady(s: Sys, c: nat, d: nat)
    requires Ready(s, c, d) && !s.handlers[d].pc.Releasing? && (s.handlers[d].pc.Failed? ==> s.mutex == None)
    ensures var e := RivalEvent(s, d);
            Enabled(s, e) && Aside(s, Apply(s, e), c) && Ready(Apply(s, e), c, d)
  {
    var e := RivalEvent(s, d);
    RivalMoves(s, c, d);
    EventAside(s, c, e);
    AsideLeases(s, Apply(s, e), c);
    StepKeepsInv(s, e);
    P.HandlerKeepsLoop(s, e);
  }

  lemma ClearedIsReady(s: Sys, c: nat, d: nat, m: nat, fs: seq<Event>)
    requires Ready(s, c, d) && d != m && Cleared(s, c, m, fs)
    ensures Ready(Run(s, fs), c, d) && Run(s, fs).handlers[d] == s.handlers[d]
  {
    RunKeepsInv(s, fs);
    P.RunKeepsLoop(s, fs);
    AsideLeases(s, Run(s, fs), c);
  }

  /** A rival can always finish what it is doing, disconnect, and release the lock by the address it shares. */
  lemma {:induction false} RivalTakesTheLock(s: Sys, c: nat, d: nat) returns (fs: seq<Event>)
    requires Ready(s, c, d)
    ensures LosesEarly(s, c, fs)
    decreases StepsToRelease(s.handlers[d].pc), s.mutex.Some?
  {
    if s.handlers[d].pc.Releasing? {
      fs := [Step(d)];
      ReleaseTakesTheLock(s, c, d);
    } else if s.handlers[d].pc.Failed? && s.mutex.Some? {
      var m := s.mutex.value;
      fs := HolderGivesBackMutex(s, c, m);
      if !LosesEarly(s, c, fs) {
        ClearedIsReady(s, c, d, m, fs);
        var rest := RivalTakesTheLock(Run(s, fs), c, d);
        LosesEarlyAfter(s, c, fs, rest);
        fs := fs + rest;
      }
    } else {
      RivalMoves(s, c, d);
      RivalStaysReady(s, c, d);
      var e := RivalEvent(s, d);
      var rest := RivalTakesTheLock(Apply(s, e), c, d);
      LosesEarlyBefore(s, e, c, rest);
      fs := [e] + rest;
    }
  }

  lemma EarlyLoss(s: Sys, c: nat) returns (fs: seq<Event>)
    requires Inv(s) && P.InLoop(s) && Leases(s, c) && s.arb.timers != [] && s.arb.now < Deadline(s)
    requires A.CallbackInFlight(s.arb, s.handlers[c].id) || HasRival(s, c)
    ensures LosesEarly(s, c, fs)
  {
    if d: nat :| Rival(s, c, d) {
      fs := RivalTakesTheLock(s, c, d);
    } else {
      var i :| 0 <= i < |s.arb.timers| && s.arb.timers[i].status == A.InFlight
               && s.arb.timers[i].client == s.handlers[c].id;
      fs := [Clock(A.EvCallback(i))];
      CallbackTakesTheLock(s, c, i);
    }
  }

  /**
   In every reachable state of the server, whatever happened to the addresses so far: a connected client whose
   timer has not fired can lose the lock before the deadline, although it does not disconnect and nobody
   connects from its address, iff a callback captured for its address is in flight or another connection with
   its address has not let go.
   */
  lemma ServerLeaseExactly(hasSerial: bool, es: seq<Event>, c: nat)
    requires ValidRun(Init(hasSerial), es) && Leases(Run(Init(hasSerial), es), c)
    requires Run(Init(hasSerial), es).arb.now < Deadline(Run(Init(hasSerial), es))
    ensures var s := Run(Init(hasSerial), es);
            (exists fs :: LosesEarly(s, c, fs))
            <==> A.CallbackInFlight(s.arb, s.handlers[c].id) || HasRival(s, c)
  {
    var s := Run(Init(hasSerial), es);
    ReachableLease(hasSerial, es);
    if A.CallbackInFlight(s.arb, s.handlers[c].id) || HasRival(s, c) {
      P.RunKeepsLoop(Init(hasSerial), es);
      var fs := EarlyLoss(s, c);
    } else if fs :| LosesEarly(s, c, fs) {
      LeaseIsKept(s, fs, c);
    }
  }

  /** The step gives the lock to handler c. */
  predicate Takes(s: Sys, e: Event, c: nat) {
    e == Step(c) && Enabled(s, e) && P.Attempts(s.handlers[c].pc) && !s.arb.locked
  }

  lemma AcquireStartsALease(a: A.Arb, id: string)
    requires A.Inv(a) && OneTimerPerTenure(a) && !a.locked
    ensures var b := A.Acquire(a, id);
            A.JustArmed(b, id) && b.timers != [] && LastDeadline(b) == a.now + LOCK_TIMEOUT
  {
    A.AcquireAndExtendArm(a, id, 0);
  }

  lemma TakingMoves(s: Sys, c: nat)
    requires Takes(s, Step(c), c)
    ensures var t := Apply(s, Step(c));
            && t.arb == A.Acquire(s.arb, s.handlers[c].id)
            && |t.handlers| == |s.handlers|
            && (forall d :: 0 <= d < |s.handlers| ==> t.handlers[d].id == s.handlers[d].id)
            && t.handlers[c].pc == FinalCheck
  {
    TryMoves(s, c, if s.handlers[c].pc.FirstAcquire? then Retrying(0) else Sleeping(s.handlers[c].pc.i));
  }

  lemma TakingStartsALease(s: Sys, c: nat)
    requires Inv(s) && LeaseInv(s) && Takes(s, Step(c), c)
    ensures var t := Apply(s, Step(c));
            && Leases(t, c) && t.handlers[c].id == s.handlers[c].id
            && t.arb == A.Acquire(s.arb, s.handlers[c].id)
            && t.arb.timers != [] && Deadline(t) == s.arb.now + LOCK_TIMEOUT
  {
    TakingMoves(s, c);
    AcquireStartsALease(s.arb, s.handlers[c].id);
  }

  lemma NoCallbackIfNew(s: Sys, id: string)
    requires LeaseInv(s) && !s.arb.locked && !Departed(s, id)
    ensures !A.CallbackInFlight(s.arb, id)
  {
    if i :| 0 <= i < |s.arb.timers| && s.arb.timers[i].status == A.InFlight && s.arb.timers[i].client == id {
      assert Leftover(s.arb, i);
    }
  }

  /** No other connection has or had the address of connection c. */
  ghost predicate SoleUser(s: Sys, c: nat)
    requires c < |s.handlers|
  {
    forall d :: 0 <= d < |s.handlers| && d != c ==> s.handlers[d].id != s.handlers[c].id
  }

  lemma SoleUserHasNoRival(s: Sys, t: Sys, u: Sys, c: nat)
    requires c < |s.handlers| == |t.handlers| <= |u.handlers| && SoleUser(u, c)
    requires forall d :: 0 <= d < |t.handlers| ==> u.handlers[d].id == t.handlers[d].id == s.handlers[d].id
    requires MayHold(s.handlers[c].pc)
    ensures !Departed(s, s.handlers[c].id) && !HasRival(t, c) && NoNewcomer(t, u, s.handlers[c].id)
  {
  }

  /**
   A client that is the only one to use its address keeps the lock it takes for 30 seconds, in the same tenure,
   whatever the others do, unless its own connection ends.
   */
  lemma NewAddressKeepsItsLease(hasSerial: bool, es: seq<Event>, c: nat, fs: seq<Event>)
    requires ValidRun(Init(hasSerial), es) && Takes(Run(Init(hasSerial), es), Step(c), c)
    requires var s := Run(Init(hasSerial), es);
             && ValidRun(Apply(s, Step(c)), fs)
             && var u := Run(Apply(s, Step(c)), fs);
                && u.arb.now < s.arb.now + 30000
                && c < |u.handlers| && MayHold(u.handlers[c].pc) && SoleUser(u, c)
    ensures var s := Run(Init(hasSerial), es);
            var u := Run(Apply(s, Step(c)), fs);
            u.arb.Live(|s.arb.tenures| + 1) && u.arb.owner == s.handlers[c].id
  {
    var s := Run(Init(hasSerial), es);
    var t := Apply(s, Step(c));
    ReachableLease(hasSerial, es);
    TakingMoves(s, c);
    IdsStay(t, fs);
    SoleUserHasNoRival(s, t, Run(t, fs), c);
    StepKeepsInv(s, Step(c));
    StepKeepsLease(s, Step(c));
    TakingStartsALease(s, c);
    NoCallbackIfNew(s, s.handlers[c].id);
    A.AcquireLeavesCallbacks(s.arb, s.handlers[c].id);
    LeaseIsKept(t, fs, c);
  }

  // ---------------------------------------------------------------- the disconnect's own test

  /** In some run the disconnect of handler c still changes the lock. */
  ghost predicate ReleasesLater(s: Sys, c: nat) {
    exists fs :: ValidRun(s, fs) && Enabled(Run(s, fs), Step(c))
                 && Apply(Run(s, fs), Step(c)).arb != Run(s, fs).arb
  }

  lemma LetGoReleasesNothing(s: Sys, c: nat)
    requires c < |s.handlers| && !MayHold(s.handlers[c].pc)
    ensures !ReleasesLater(s, c)
  {
    forall fs | ValidRun(s, fs) && Enabled(Run(s, fs), Step(c))
      ensures Apply(Run(s, fs), Step(c)).arb == Run(s, fs).arb
    {
      LetGoRun(s, fs, c);
      StepArb(Run(s, fs), c);
    }
  }

  /**
   A disconnecting handler that has made its owner test can still release a lock iff its id was the owner at the
   test: one that found another owner does not touch the lock of whoever comes after, whatever its address.
   */
  lemma OwnerTestDecidesExactly(hasSerial: bool, es: seq<Event>, c: nat)
    requires ValidRun(Init(hasSerial), es) && c < |Run(Init(hasSerial), es).handlers|
    requires Run(Init(hasSerial), es).handlers[c].pc.Deleted?
    ensures var s := Run(Init(hasSerial), es);
            ReleasesLater(Apply(s, Step(c)), c) <==> s.arb.owner == s.handlers[c].id
  {
    var s := Run(Init(hasSerial), es);
    var t := Apply(s, Step(c));
    ReachableInv(hasSerial, es);
    DisconnectShape(s, c);
    StepArb(s, c);
    if s.arb.owner == s.handlers[c].id {
      assert s.handlers[c].id != "";
      assert ValidRun(t, []) && Run(t, []) == t;
      ReleaseChangesTheLock(t, c);
    } else {
      LetGoReleasesNothing(t, c);
    }
  }

  lemma ReleaseChangesTheLock(t: Sys, c: nat)
    requires c < |t.handlers| && t.arb.locked && t.arb.owner == t.handlers[c].id
    requires t.handlers[c].pc.Releasing?
    ensures Apply(t, Step(c)).arb != t.arb
  {
    StepArb(t, c);
  }

  // ---------------------------------------------------------------- an address that comes back

  /** Client "a" was the owner when its timer fired; its callback still waits for the mutex. */
  function Fired(locked: bool): A.Arb {
    A.Arb(if locked then "a" else "", locked, LOCK_TIMEOUT, Some(0),
          [A.Timer("a", 1, 0, LOCK_TIMEOUT, A.InFlight)], ["a"], LOCK_TIMEOUT)
  }

  /** The first connection's handler, after its only chunk was written. */
  function Gone(pc: Pc): Handler { Handler("a", pc, false, [[1]], [Written], Tries(0, Some(1))) }

  lemma FirstTimerFires() returns (s: Sys)
    ensures W.Reachable(s)
    ensures s == Init(true).(arb := Fired(true), handlers := [Gone(Reading)], clients := map["a" := 0],
                             output := [1], writes := [Write(0, [1], 1, true)], holders := [0])
  {
    s := W.FirstClientChecked();
    s := W.Onward(s, Step(0));
    assert s.handlers[0].fates == [Written];
    s := W.Onward(s, Clock(A.EvTick(LOCK_TIMEOUT)));
    s := W.Onward(s, Clock(A.EvFire(0)));
    assert s.arb.timers == Fired(true).timers;
  }

  /** The connection ends: the handler takes the server mutex and deletes its entry. */
  lemma FirstConnectionFails() returns (s: Sys)
    ensures W.Reachable(s)
    ensures s == Init(true).(arb := Fired(true), handlers := [Gone(Deleted)], mutex := Some(0),
                             output := [1], writes := [Write(0, [1], 1, true)], holders := [0])
  {
    s := FirstTimerFires();
    s := W.Onward(s, ReadError(0));
    s := W.Onward(s, Step(0));
    assert s.clients == map[];
  }

  /** It releases the lock, too late for the callback, and returns. */
  lemma FirstConnectionEnds() returns (s: Sys)
    ensures W.Reachable(s)
    ensures s == Init(true).(arb := Fired(false), handlers := [Gone(Returned)],
                             output := [1], writes := [Write(0, [1], 1, true)], holders := [0])
  {
    s := FirstConnectionFails();
    s := W.Onward(s, Step(0));
    s := W.Onward(s, Step(0));
    assert s.arb.timers == Fired(false).timers;
    s := W.Onward(s, Step(0));
    assert s.handlers == [Gone(Returned)];
  }

  /** A new connection from the same address takes the lock. */
  lemma AddressComesBack() returns (s: Sys)
    ensures W.Reachable(s)
    ensures s.handlers == [Gone(Returned), Handler("a", FinalCheck, false, [[2]], [], Tries(0, Some(2)))]
    ensures !s.collided
    ensures s.arb == A.Arb("a", true, LOCK_TIMEOUT, Some(1),
                           [A.Timer("a", 1, 0, LOCK_TIMEOUT, A.InFlight),
                            A.Timer("a", 2, LOCK_TIMEOUT, LOCK_TIMEOUT, A.Armed)], ["a", "a"], LOCK_TIMEOUT)
  {
    s := FirstConnectionEnds();
    s := W.Onward(s, Accept("a"));
    s := W.Onward(s, Register);
    s := W.Onward(s, Read(1, [2]));
    assert s.handlers[1].chunks == [[2]];
    s := W.Onward(s, Step(1));
    s := W.Onward(s, Step(1));
  }

  lemma ReachableArb(s: Sys)
    requires W.Reachable(s)
    ensures A.Inv(s.arb)
  {
    var es :| ValidRun(Init(true), es) && Run(Init(true), es) == s;
    ReachableInv(true, es);
  }

  /**
   The third way to lose the lock exists: in some run a client takes it, and the callback of an earlier
   connection from the same address takes it away in the same instant.
   */
  lemma ReturningAddressCanLoseItsLease()
    ensures exists es ::
              && ValidRun(Init(true), es)
              && var s := Run(Init(true), es);
                 && Leases(s, 1) && s.arb.now < Deadline(s) && s.arb.tenures == ["a", "a"] && !s.collided
                 && LosesEarly(s, 1, [Clock(A.EvCallback(0))])
  {
    var s := AddressComesBack();
    var es :| ValidRun(Init(true), es) && Run(Init(true), es) == s;
    ReachableArb(s);
    CallbackTakesTheLock(s, 1, 0);
  }
}
