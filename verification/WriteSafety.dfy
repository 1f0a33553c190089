/** What every interleaving of WriteArbitration keeps. */
module WriteSafety {
  import opened Common
  import opened WriteArbitration
  import A = ArbiterSpec

  // ---------------------------------------------------------------- identity and registration

  predicate Named(s: Sys) {
    && (forall c :: 0 <= c < |s.handlers| ==> s.handlers[c].id != "")
    && (s.accepted.Some? ==> s.accepted.value != "")
  }

  /** Connections that can still run have distinct ids. */
  predicate Distinct(s: Sys) {
    forall c, d :: 0 <= c < d < |s.handlers| && !s.handlers[c].pc.Returned? && !s.handlers[d].pc.Returned?
      ==> s.handlers[c].id != s.handlers[d].id
  }

  /** Every entry of the client map is a registered handler, and until Stop the converse holds too. */
  predicate MapExact(s: Sys) {
    && (forall id :: id in s.clients ==>
          && s.clients[id] < |s.handlers|
          && s.handlers[s.clients[id]].id == id
          && Registered(s.handlers[s.clients[id]].pc))
    && (s.running ==>
          forall c :: 0 <= c < |s.handlers| && Registered(s.handlers[c].pc) ==>
            s.handlers[c].id in s.clients && s.clients[s.handlers[c].id] == c)
  }

  predicate MutexExact(s: Sys) {
    && (s.mutex.Some? ==> s.mutex.value < |s.handlers|)
    && (forall c :: 0 <= c < |s.handlers| ==> (InMutex(s.handlers[c].pc) <==> s.mutex == Some(c)))
  }

  /** Only as long as no connection came in with the id of a registered one are ids any good as names. */
  ghost predicate IdInv(s: Sys) {
    Named(s) && MutexExact(s) && (!s.collided ==> Distinct(s) && MapExact(s))
  }

  /** How one handler's step touches the shared bookkeeping, by the place it starts from. */
  predicate HandlerShape(s: Sys, t: Sys, c: nat) {
    && c < |s.handlers| && |t.handlers| == |s.handlers|
    && (forall d :: 0 <= d < |s.handlers| && d != c ==> t.handlers[d] == s.handlers[d])
    && t.handlers[c].id == s.handlers[c].id && t.handlers[c].closed == s.handlers[c].closed
    && t.accepted == s.accepted && t.running == s.running && t.hasSerial == s.hasSerial
    && t.collided == s.collided
    && !s.handlers[c].pc.Returned?
    && match s.handlers[c].pc
       case Failed =>
         s.mutex == None && t.mutex == Some(c) && t.clients == s.clients - {s.handlers[c].id}
         && t.handlers[c].pc.Deleted?
       case Deleted =>
         t.mutex == s.mutex && t.clients == s.clients && (t.handlers[c].pc.Releasing? || t.handlers[c].pc.Unlocking?)
       case Releasing => t.mutex == s.mutex && t.clients == s.clients && t.handlers[c].pc.Unlocking?
       case Unlocking => t.mutex == None && t.clients == s.clients && t.handlers[c].pc.Returned?
       case _ => t.mutex == s.mutex && t.clients == s.clients && Registered(t.handlers[c].pc)
  }

  predicate IsHandlerEvent(e: Event) { e.Read? || e.ReadError? || e.Step? }

  lemma BusyShape(s: Sys, c: nat)
    requires Enabled(s, Step(c)) && Busy(s.handlers[c].pc)
    ensures HandlerShape(s, HandlerStep(s, c), c)
  {
    match s.handlers[c].pc
    case FirstAcquire => TryShape(s, c, Retrying(0));
    case Retrying(i) => TryShape(s, c, Sleeping(i));
    case FinalCheck => FinalShape(s, c);
    case Writing(_) => WriteShape(s, c);
    case FirstCheck => CheckShape(s, c);
    case Sleeping(_) => CheckShape(s, c);
  }

  lemma CheckShape(s: Sys, c: nat)
    requires Enabled(s, Step(c)) && (s.handlers[c].pc.FirstCheck? || s.handlers[c].pc.Sleeping?)
    ensures HandlerShape(s, HandlerStep(s, c), c)
  {
    var t := HandlerStep(s, c);
    MoveShape(s, t, c, t.handlers[c]);
  }

  lemma FinalShape(s: Sys, c: nat)
    requires Enabled(s, Step(c)) && s.handlers[c].pc.FinalCheck?
    ensures HandlerShape(s, HandlerStep(s, c), c)
  {
    var t := HandlerStep(s, c);
    MoveShape(s, t, c, t.handlers[c]);
  }

  lemma WriteShape(s: Sys, c: nat)
    requires Enabled(s, Step(c)) && s.handlers[c].pc.Writing?
    ensures HandlerShape(s, HandlerStep(s, c), c)
  {
    var t := HandlerStep(s, c);
    MoveShape(s, t, c, t.handlers[c]);
  }

  /** The handler after an attempt on the lock. */
  function Tried(s: Sys, c: nat, denied: Pc): Handler
    requires c < |s.handlers|
  {
    var h := s.handlers[c];
    if s.arb.locked then h.(pc := denied, tries := h.tries.(denied := h.tries.denied + 1))
    else h.(pc := FinalCheck, tries := h.tries.(had := Some(|s.arb.tenures| + 1)))
  }

  lemma TryMoves(s: Sys, c: nat, denied: Pc)
    requires c < |s.handlers|
    ensures TryAcquire(s, c, denied) ==
            s.(handlers := s.handlers[c := Tried(s, c, denied)],
               arb := A.Acquire(s.arb, s.handlers[c].id),
               holders := if s.arb.locked then s.holders else s.holders + [c])
  {
  }

  lemma TryShape(s: Sys, c: nat, denied: Pc)
    requires c < |s.handlers| && Busy(s.handlers[c].pc) && Busy(denied)
    ensures HandlerShape(s, TryAcquire(s, c, denied), c)
  {
    TryMoves(s, c, denied);
    MoveShape(s, TryAcquire(s, c, denied), c, Tried(s, c, denied));
  }

  lemma MoveShape(s: Sys, t: Sys, c: nat, g: Handler)
    requires c < |s.handlers| && Busy(s.handlers[c].pc) && Registered(g.pc)
    requires g.id == s.handlers[c].id && g.closed == s.handlers[c].closed
    requires t.handlers == s.handlers[c := g]
    requires t.clients == s.clients && t.accepted == s.accepted && t.mutex == s.mutex
    requires t.running == s.running && t.hasSerial == s.hasSerial && t.collided == s.collided
    ensures HandlerShape(s, t, c)
  {
  }

  lemma DisconnectShape(s: Sys, c: nat)
    requires Enabled(s, Step(c)) && !Busy(s.handlers[c].pc)
    ensures HandlerShape(s, HandlerStep(s, c), c)
  {
    match s.handlers[c].pc
    case Failed =>
    case Deleted =>
    case Releasing =>
    case Unlocking =>
  }

  lemma HandlerEventShape(s: Sys, e: Event)
    requires Enabled(s, e) && IsHandlerEvent(e)
    ensures HandlerShape(s, Apply(s, e), e.conn)
  {
    match e
    case Step(c) => if Busy(s.handlers[c].pc) { BusyShape(s, c); } else { DisconnectShape(s, c); }
    case Read(_, _) =>
    case ReadError(_) =>
  }

  lemma ShapeKeepsNames(s: Sys, t: Sys, c: nat)
    requires Named(s) && HandlerShape(s, t, c)
    ensures Named(t) && (Distinct(s) ==> Distinct(t))
  {
  }

  lemma ShapeKeepsMutex(s: Sys, t: Sys, c: nat)
    requires MutexExact(s) && HandlerShape(s, t, c)
    ensures MutexExact(t)
  {
  }

  lemma ShapeKeepsMap(s: Sys, t: Sys, c: nat)
    requires Distinct(s) && MapExact(s) && HandlerShape(s, t, c)
    ensures MapExact(t)
  {
    assert forall d :: 0 <= d < |s.handlers| ==> t.handlers[d].id == s.handlers[d].id;
    if s.handlers[c].pc.Failed? {
      forall id | id in t.clients
        ensures t.clients[id] != c
      {
        assert s.handlers[s.clients[id]].id == id;
      }
    }
  }

  /** While the mutex is free, a handler that has not returned is registered. */
  lemma FreeMutex(s: Sys)
    requires MutexExact(s) && s.mutex == None
    ensures forall c :: 0 <= c < |s.handlers| ==> (Registered(s.handlers[c].pc) <==> !s.handlers[c].pc.Returned?)
  {
    forall c | 0 <= c < |s.handlers|
      ensures Registered(s.handlers[c].pc) <==> !s.handlers[c].pc.Returned?
    {
      assert !InMutex(s.handlers[c].pc);
    }
  }

  lemma RegisterKeepsDistinct(s: Sys)
    requires MutexExact(s) && Distinct(s) && Enabled(s, Register) && !Collides(s)
    ensures Distinct(Apply(s, Register))
  {
    FreeMutex(s);
  }

  /** Every entry is good after a registration, unless it displaced that of a registered handler. */
  lemma RegisterMap(s: Sys)
    requires MapExact(s) && Enabled(s, Register)
    ensures !Collides(s) ==> MapExact(Apply(s, Register))
    ensures s.running && Collides(s) ==> !MapExact(Apply(s, Register))
  {
    var t := Apply(s, Register);
    assert forall c :: 0 <= c < |s.handlers| ==> t.handlers[c] == s.handlers[c];
    forall id | id in t.clients
      ensures t.clients[id] < |t.handlers| && t.handlers[t.clients[id]].id == id
              && Registered(t.handlers[t.clients[id]].pc)
    {
      if id != s.accepted.value {
        assert id in s.clients;
      }
    }
    if s.running && Collides(s) {
      var c :| 0 <= c < |s.handlers| && Registered(s.handlers[c].pc) && s.handlers[c].id == s.accepted.value;
      assert t.clients[t.handlers[c].id] != c;
    }
  }

  lemma RegisterKeepsIds(s: Sys)
    requires IdInv(s) && Enabled(s, Register)
    ensures IdInv(Apply(s, Register))
  {
    var t := Apply(s, Register);
    if !t.collided {
      RegisterKeepsDistinct(s);
      RegisterMap(s);
    }
  }

  lemma StopKeepsIds(s: Sys)
    requires IdInv(s) && Enabled(s, Stop)
    ensures IdInv(Apply(s, Stop))
  {
  }

  lemma HandlerKeepsIds(s: Sys, t: Sys, c: nat)
    requires IdInv(s) && HandlerShape(s, t, c)
    ensures IdInv(t)
  {
    ShapeKeepsNames(s, t, c);
    ShapeKeepsMutex(s, t, c);
    if !s.collided {
      ShapeKeepsMap(s, t, c);
    }
  }

  lemma StepKeepsIds(s: Sys, e: Event)
    requires IdInv(s) && Enabled(s, e)
    ensures IdInv(Apply(s, e))
  {
    match e
    case Accept(_) =>
    case Register => RegisterKeepsIds(s);
    case Stop => StopKeepsIds(s);
    case Clock(_) =>
    case _ =>
      HandlerEventShape(s, e);
      HandlerKeepsIds(s, Apply(s, e), e.conn);
  }

  /** The history of collisions only grows, and only registration adds to it. */
  lemma CollidedStep(s: Sys, e: Event)
    requires Enabled(s, e)
    ensures Apply(s, e).collided <==> s.collided || (e.Register? && Collides(s))
  {
    if IsHandlerEvent(e) {
      HandlerEventShape(s, e);
    }
  }

  // ---------------------------------------------------------------- the lock and its holders

  /** A handler in this place can still be the owner of the lock. */
  predicate MayHold(pc: Pc) { !pc.Unlocking? && !pc.Returned? }

  ghost predicate HasHolder(s: Sys, owner: string) {
    exists c :: 0 <= c < |s.handlers| && s.handlers[c].id == owner && MayHold(s.handlers[c].pc)
  }

  ghost predicate LockInv(s: Sys) {
    && A.Inv(s.arb) && A.LockedIffOwned(s.arb)
    && (s.arb.locked ==> HasHolder(s, s.arb.owner))
  }

  /** How a handler's step touches the arbiter and the history of holders. */
  predicate ArbShape(s: Sys, t: Sys, c: nat)
    requires c < |s.handlers| && c < |t.handlers|
  {
    var h := s.handlers[c];
    match h.pc
    case FirstAcquire => TookOrNot(s, t, c)
    case Retrying(_) => TookOrNot(s, t, c)
    case Releasing => t.arb == A.ForceRelease(s.arb, h.id) && t.holders == s.holders
    case Deleted =>
      t.arb == s.arb && t.holders == s.holders && (t.handlers[c].pc.Unlocking? ==> s.arb.owner != h.id)
    case _ => t.arb == s.arb && t.holders == s.holders
  }

  predicate TookOrNot(s: Sys, t: Sys, c: nat)
    requires c < |s.handlers|
  {
    && t.arb == A.Acquire(s.arb, s.handlers[c].id)
    && t.holders == if s.arb.locked then s.holders else s.holders + [c]
  }

  lemma TryArb(s: Sys, c: nat, denied: Pc)
    requires c < |s.handlers|
    ensures TookOrNot(s, TryAcquire(s, c, denied), c) && |TryAcquire(s, c, denied).handlers| == |s.handlers|
  {
    TryMoves(s, c, denied);
  }

  lemma StepArb(s: Sys, c: nat)
    requires Enabled(s, Step(c))
    ensures c < |HandlerStep(s, c).handlers| && ArbShape(s, HandlerStep(s, c), c)
  {
    match s.handlers[c].pc
    case FirstAcquire => TryArb(s, c, Retrying(0));
    case Retrying(i) => TryArb(s, c, Sleeping(i));
    case Releasing =>
    case Deleted =>
    case _ =>
  }

  lemma HandlerEventArb(s: Sys, e: Event)
    requires Enabled(s, e) && IsHandlerEvent(e)
    ensures e.conn < |Apply(s, e).handlers| && ArbShape(s, Apply(s, e), e.conn)
  {
    match e
    case Step(c) => StepArb(s, c);
    case Read(_, _) =>
    case ReadError(_) =>
  }

  /** Handlers other than c keep their place, so they keep holding. */
  lemma HolderSurvives(s: Sys, t: Sys, c: nat, owner: string)
    requires HandlerShape(s, t, c) && HasHolder(s, owner)
    requires s.handlers[c].id == owner && MayHold(s.handlers[c].pc) ==> MayHold(t.handlers[c].pc)
    ensures HasHolder(t, owner)
  {
    var d :| 0 <= d < |s.handlers| && s.handlers[d].id == owner && MayHold(s.handlers[d].pc);
    assert t.handlers[d].id == owner && MayHold(t.handlers[d].pc);
  }

  lemma HandlerKeepsLock(s: Sys, t: Sys, c: nat)
    requires Named(s) && LockInv(s) && HandlerShape(s, t, c) && ArbShape(s, t, c)
    ensures LockInv(t)
  {
    var h := s.handlers[c];
    A.AcquireKeepsInv(s.arb, h.id);
    A.UnlockKeepsInv(s.arb);
    if t.arb.locked {
      if !s.arb.locked {
        assert t.handlers[c].id == t.arb.owner && MayHold(t.handlers[c].pc);
      } else {
        HolderSurvives(s, t, c, s.arb.owner);
      }
    }
  }

  lemma ClockKeepsLock(s: Sys, ev: A.Event)
    requires LockInv(s) && Enabled(s, Clock(ev))
    ensures LockInv(Apply(s, Clock(ev)))
  {
    var t := Apply(s, Clock(ev));
    A.StepKeepsInv(s.arb, ev);
    A.OwnedStep(s.arb, ev);
    if t.arb.locked {
      var d :| 0 <= d < |s.handlers| && s.handlers[d].id == s.arb.owner && MayHold(s.handlers[d].pc);
      assert t.handlers[d].id == t.arb.owner && MayHold(t.handlers[d].pc);
    }
  }

  lemma StepKeepsLock(s: Sys, e: Event)
    requires IdInv(s) && LockInv(s) && Enabled(s, e)
    ensures LockInv(Apply(s, e))
  {
    if IsHandlerEvent(e) {
      HandlerEventShape(s, e);
      HandlerEventArb(s, e);
      HandlerKeepsLock(s, Apply(s, e), e.conn);
    } else if e.Clock? {
      ClockKeepsLock(s, e.arb);
    } else {
      var t := Apply(s, e);
      if s.arb.locked {
        var d :| 0 <= d < |s.handlers| && s.handlers[d].id == s.arb.owner && MayHold(s.handlers[d].pc);
        assert t.handlers[d].id == s.arb.owner && MayHold(t.handlers[d].pc);
      }
    }
  }

  // ---------------------------------------------------------------- which connection took the lock

  /** The taker of a tenure is a connection with the id of that tenure. */
  ghost predicate TakersOk(s: Sys) {
    && |s.holders| == |s.arb.tenures|
    && forall k :: 0 <= k < |s.holders| ==>
         s.holders[k] < |s.handlers| && s.handlers[s.holders[k]].id == s.arb.tenures[k]
  }

  /** The connection that took the tenure in force has not let go. */
  predicate TakerHolds(s: Sys) {
    s.arb.locked && s.holders != [] ==>
      var c := s.holders[|s.holders| - 1]; c < |s.handlers| && MayHold(s.handlers[c].pc)
  }

  ghost predicate TakerInv(s: Sys) { TakersOk(s) && (!s.collided ==> TakerHolds(s)) }

  lemma HandlerKeepsTakers(s: Sys, t: Sys, c: nat)
    requires TakersOk(s) && HandlerShape(s, t, c) && ArbShape(s, t, c)
    ensures TakersOk(t)
  {
  }

  /** With distinct ids the connection that lets go of the lock is the one that took it. */
  lemma HandlerKeepsTaker(s: Sys, t: Sys, c: nat)
    requires LockInv(s) && Distinct(s) && TakersOk(s) && TakerHolds(s)
    requires HandlerShape(s, t, c) && ArbShape(s, t, c)
    ensures TakerHolds(t)
  {
    if t.arb.locked && s.arb.locked {
      assert t.arb.tenures == s.arb.tenures && t.arb.owner == s.arb.owner;
      var d := s.holders[|s.holders| - 1];
      assert s.handlers[d].id == s.arb.owner;
    }
  }

  lemma OtherKeepsTakers(s: Sys, e: Event)
    requires LockInv(s) && TakerInv(s) && Enabled(s, e) && !IsHandlerEvent(e)
    ensures TakerInv(Apply(s, e))
  {
    var t := Apply(s, e);
    CollidedStep(s, e);
    assert t.arb.tenures == s.arb.tenures && (t.arb.locked ==> s.arb.locked) && t.holders == s.holders;
    assert forall c :: 0 <= c < |s.handlers| ==>
      c < |t.handlers| && t.handlers[c].id == s.handlers[c].id && t.handlers[c].pc == s.handlers[c].pc;
  }

  lemma StepKeepsTakers(s: Sys, e: Event)
    requires IdInv(s) && LockInv(s) && TakerInv(s) && Enabled(s, e)
    ensures TakerInv(Apply(s, e))
  {
    if IsHandlerEvent(e) {
      HandlerEventShape(s, e);
      HandlerEventArb(s, e);
      HandlerKeepsTakers(s, Apply(s, e), e.conn);
      if !s.collided {
        HandlerKeepsTaker(s, Apply(s, e), e.conn);
      }
    } else {
      OtherKeepsTakers(s, e);
    }
  }

  // ---------------------------------------------------------------- pending writes

  /** A handler past its owner check has the id of the tenure it saw. */
  ghost predicate PendingOk(s: Sys, c: nat)
    requires c < |s.handlers|
  {
    var h := s.handlers[c];
    h.pc.Writing? ==>
      && s.hasSerial
      && 1 <= h.pc.tenure <= |s.arb.tenures|
      && s.arb.tenures[h.pc.tenure - 1] == h.id
      && (!s.collided ==> PendingIsOwn(s, c))
  }

  /** It took that tenure itself, and nobody with its id has acquired since. */
  predicate PendingIsOwn(s: Sys, c: nat)
    requires c < |s.handlers| && s.handlers[c].pc.Writing?
  {
    var k := s.handlers[c].pc.tenure;
    && 1 <= k <= |s.holders| && s.holders[k - 1] == c
    && forall m :: k <= m < |s.arb.tenures| ==> s.arb.tenures[m] != s.handlers[c].id
  }

  ghost predicate PendingInv(s: Sys) {
    forall c :: 0 <= c < |s.handlers| ==> PendingOk(s, c)
  }

  /** While the tenure seen by the check is in force, the id of the handler is the owner. */
  lemma InForceIsOwner(s: Sys, c: nat)
    requires LockInv(s) && c < |s.handlers| && PendingOk(s, c) && s.handlers[c].pc.Writing?
    ensures s.arb.Live(s.handlers[c].pc.tenure) ==> s.arb.locked && s.arb.owner == s.handlers[c].id
  {
  }

  /** With distinct ids the converse holds too. */
  lemma OwnerIsInForce(s: Sys, c: nat)
    requires LockInv(s) && c < |s.handlers| && PendingOk(s, c) && s.handlers[c].pc.Writing? && !s.collided
    ensures s.arb.locked && s.arb.owner == s.handlers[c].id ==> s.arb.Live(s.handlers[c].pc.tenure)
  {
  }

  /** The handler has just passed the owner check of line 137. */
  predicate JustChecked(s: Sys, t: Sys, c: nat)
    requires c < |s.handlers| && c < |t.handlers|
  {
    && s.handlers[c].pc.FinalCheck?
    && s.arb.owner == s.handlers[c].id && s.hasSerial
    && t.arb == s.arb && t.holders == s.holders
    && t.handlers[c].pc == Writing(|s.arb.tenures|)
  }

  lemma TryLeadsOn(s: Sys, c: nat, denied: Pc)
    requires c < |s.handlers| && !denied.Writing?
    ensures |TryAcquire(s, c, denied).handlers| == |s.handlers|
    ensures !TryAcquire(s, c, denied).handlers[c].pc.Writing?
  {
    TryMoves(s, c, denied);
  }

  lemma StepToWriting(s: Sys, c: nat)
    requires Enabled(s, Step(c))
    ensures var t := HandlerStep(s, c);
            c < |t.handlers| && (t.handlers[c].pc.Writing? ==> t == s || JustChecked(s, t, c))
  {
    match s.handlers[c].pc
    case FirstAcquire => TryLeadsOn(s, c, Retrying(0));
    case Retrying(i) => TryLeadsOn(s, c, Sleeping(i));
    case Writing(_) =>
    case FinalCheck =>
    case _ =>
  }

  lemma WritingShape(s: Sys, e: Event)
    requires Enabled(s, e) && IsHandlerEvent(e)
    ensures e.conn < |Apply(s, e).handlers|
    ensures Apply(s, e).handlers[e.conn].pc.Writing? ==>
              Apply(s, e) == s || (e.Step? && JustChecked(s, Apply(s, e), e.conn))
  {
    if e.Step? {
      StepToWriting(s, e.conn);
    }
  }

  /** Tenures only grow, and a new one goes to the handler that took the step. */
  lemma TenureGrowth(s: Sys, t: Sys, c: nat)
    requires c < |s.handlers| && c < |t.handlers| && ArbShape(s, t, c)
    ensures (t.arb.tenures == s.arb.tenures && t.holders == s.holders)
            || (t.arb.tenures == s.arb.tenures + [s.handlers[c].id] && t.holders == s.holders + [c]
                && !s.arb.locked && !s.handlers[c].pc.Returned?)
  {
  }

  /** Whoever passes an owner check has the id of the tenure in force. */
  lemma OwnedTenure(s: Sys)
    requires LockInv(s) && s.arb.owner != ""
    ensures s.arb.locked && s.arb.tenures != [] && s.arb.tenures[|s.arb.tenures| - 1] == s.arb.owner
  {
  }

  /** With distinct ids it took that tenure itself. */
  lemma CheckedIsOwn(s: Sys, c: nat)
    requires Distinct(s) && TakersOk(s) && TakerHolds(s) && s.arb.locked && s.arb.tenures != []
    requires s.arb.tenures[|s.arb.tenures| - 1] == s.arb.owner
    requires c < |s.handlers| && !s.handlers[c].pc.Returned? && s.arb.owner == s.handlers[c].id
    ensures s.holders[|s.holders| - 1] == c
  {
  }

  lemma CheckedIsPending(s: Sys, t: Sys, c: nat)
    requires c < |s.handlers| && c < |t.handlers| && JustChecked(s, t, c)
    requires t.handlers[c].id == s.handlers[c].id && t.hasSerial == s.hasSerial && t.collided == s.collided
    requires s.arb.tenures != [] && s.arb.tenures[|s.arb.tenures| - 1] == s.arb.owner
    requires |s.holders| == |s.arb.tenures| && (!s.collided ==> s.holders[|s.holders| - 1] == c)
    ensures PendingOk(t, c)
  {
  }

  lemma MoverKeepsPending(s: Sys, e: Event)
    requires IdInv(s) && LockInv(s) && TakerInv(s) && Enabled(s, e) && IsHandlerEvent(e) && PendingOk(s, e.conn)
    ensures e.conn < |Apply(s, e).handlers| && PendingOk(Apply(s, e), e.conn)
  {
    WritingShape(s, e);
    var t := Apply(s, e);
    if t.handlers[e.conn].pc.Writing? && t != s {
      HandlerEventShape(s, e);
      OwnedTenure(s);
      if !s.collided {
        CheckedIsOwn(s, e.conn);
      }
      CheckedIsPending(s, t, e.conn);
    }
  }

  /** The other handlers stay past their check; nobody else acquires under their id. */
  lemma OthersKeepPending(s: Sys, t: Sys, c: nat, d: nat)
    requires IdInv(s) && LockInv(s) && HandlerShape(s, t, c) && ArbShape(s, t, c)
    requires d < |s.handlers| && d != c && PendingOk(s, d)
    ensures PendingOk(t, d)
  {
    TenureGrowth(s, t, c);
    if s.handlers[d].pc.Writing? && !s.collided {
      assert s.handlers[d].id != s.handlers[c].id;
    }
  }

  lemma HandlerKeepsPending(s: Sys, e: Event)
    requires IdInv(s) && LockInv(s) && TakerInv(s) && PendingInv(s) && Enabled(s, e) && IsHandlerEvent(e)
    ensures PendingInv(Apply(s, e))
  {
    var t := Apply(s, e);
    HandlerEventShape(s, e);
    HandlerEventArb(s, e);
    forall d | 0 <= d < |t.handlers|
      ensures PendingOk(t, d)
    {
      assert PendingOk(s, d);
      if d == e.conn {
        MoverKeepsPending(s, e);
      } else {
        OthersKeepPending(s, t, e.conn, d);
      }
    }
  }

  lemma OtherKeepsPending(s: Sys, e: Event)
    requires PendingInv(s) && Enabled(s, e) && !IsHandlerEvent(e)
    ensures PendingInv(Apply(s, e))
  {
    var t := Apply(s, e);
    CollidedStep(s, e);
    assert t.arb.tenures == s.arb.tenures && t.holders == s.holders;
    forall d | 0 <= d < |t.handlers|
      ensures PendingOk(t, d)
    {
      if d < |s.handlers| {
        assert PendingOk(s, d);
        assert t.handlers[d].pc == s.handlers[d].pc && t.handlers[d].id == s.handlers[d].id;
      }
    }
  }

  lemma StepKeepsPending(s: Sys, e: Event)
    requires IdInv(s) && LockInv(s) && TakerInv(s) && PendingInv(s) && Enabled(s, e)
    ensures PendingInv(Apply(s, e))
  {
    if IsHandlerEvent(e) {
      HandlerKeepsPending(s, e);
    } else {
      OtherKeepsPending(s, e);
    }
  }
}
