/**
 pkg/arbiter/arbiter.go in its own form: an object whose methods, each one critical section, update
 owner, locked, timeout and expireTimer in place. Every method is proved to make the step of ArbiterSpec.
 The clock reading is a parameter of the methods that start a timer.
 */
module Arbiter {
  import opened Common
  import Spec = ArbiterSpec

  /** A time.Timer started with time.AfterFunc; `client` is what its callback captured. */
  class Timer {
    const client: string
    ghost const tenure: nat
    const armedAt: int
    const duration: int
    var status: Spec.TimerStatus

    constructor (client: string, ghost tenure: nat, armedAt: int, duration: int)
      ensures View() == Spec.Timer(client, tenure, armedAt, duration, Spec.Armed)
    {
      this.client, this.tenure, this.armedAt, this.duration := client, tenure, armedAt, duration;
      status := Spec.Armed;
    }

    ghost function View(): Spec.Timer
      reads this
    {
      Spec.Timer(client, tenure, armedAt, duration, status)
    }

    method Stop()
      modifies this
      ensures View() == Spec.StopTimer(old(View()))
    {
      if status == Spec.Armed {
        status := Spec.Stopped;
      }
    }
  }

  ghost function Views(timers: seq<Timer>): (r: seq<Spec.Timer>)
    reads timers
    ensures |r| == |timers|
    ensures forall i :: 0 <= i < |timers| ==> r[i] == timers[i].View()
  {
    seq(|timers|, i requires 0 <= i < |timers| reads timers => timers[i].View())
  }

  class Arbiter {
    var owner: string
    var locked: bool
    var timeout: int
    var expireTimer: Timer?
    /** Every timer ever started, the position of the current one, and every tenure so far. */
    ghost var started: seq<Timer>
    ghost var current: Option<nat>
    ghost var tenures: seq<string>

    ghost predicate Valid()
      reads this
    {
      && (forall i, j :: 0 <= i < j < |started| ==> started[i] != started[j])
      && (expireTimer == null <==> current.None?)
      && (current.Some? ==> current.value < |started| && started[current.value] == expireTimer)
    }

    /** The state of ArbiterSpec that the object stands for, at a given clock reading. */
    ghost function View(now: int): Spec.Arb
      reads this, started
    {
      Spec.Arb(owner, locked, timeout, current, Views(started), tenures, now)
    }

    constructor (timeout: int)
      ensures Valid() && started == []
      ensures forall now :: View(now) == Spec.New(timeout, now)
    {
      this.owner, this.locked, this.timeout, this.expireTimer := "", false, timeout, null;
      this.started, this.current, this.tenures := [], None, [];
    }

    method Acquire(clientID: string, now: int) returns (ok: bool, err: Option<Spec.ArbError>)
      requires Valid()
      modifies this, expireTimer
      ensures Valid()
      ensures View(now) == Spec.Acquire(old(View(now)), clientID)
      ensures err == Spec.AcquireError(old(View(now))) && ok == err.None?
      ensures forall t :: t in started ==> t in old(started) || fresh(t)
    {
      if locked {
        return false, Some(Spec.ErrLockAlreadyHeld);
      }
      owner := clientID;
      locked := true;
      tenures := tenures + [clientID];
      assert Views(started) == old(Views(started));
      Rearm(clientID, timeout, now);
      return true, None;
    }

    /** The tail shared by Acquire and ExtendTimeout: stop the old timer, start a new one. */
    method Rearm(clientID: string, duration: int, now: int)
      requires Valid()
      modifies this`expireTimer, this`started, this`current, expireTimer
      ensures Valid()
      ensures View(now) == Spec.Rearm(old(View(now)), clientID, |tenures|, duration)
      ensures forall t :: t in started ==> t in old(started) || fresh(t)
    {
      if expireTimer != null {
        expireTimer.Stop();
      }
      expireTimer := new Timer(clientID, |tenures|, now, duration);
      current := Some(|started|);
      started := started + [expireTimer];
    }

    method Release(clientID: string) returns (err: Option<Spec.ArbError>)
      requires Valid()
      modifies this, expireTimer
      ensures Valid()
      ensures forall now :: View(now) == Spec.Release(old(View(now)), clientID)
      ensures forall now :: err == Spec.OwnerError(old(View(now)), clientID)
      ensures started == old(started)
    {
      if !locked {
        return Some(Spec.ErrLockNotHeld);
      }
      if owner != clientID {
        return Some(Spec.ErrNotLockOwner);
      }
      locked := false;
      owner := "";
      if expireTimer != null {
        expireTimer.Stop();
      }
      return None;
    }

    method ForceRelease(clientID: string)
      requires Valid()
      modifies this, expireTimer
      ensures Valid()
      ensures forall now :: View(now) == Spec.ForceRelease(old(View(now)), clientID)
      ensures started == old(started)
    {
      if owner == clientID {
        locked := false;
        owner := "";
        if expireTimer != null {
          expireTimer.Stop();
        }
      }
    }

    method ExtendTimeout(clientID: string, newTimeout: int, now: int) returns (err: Option<Spec.ArbError>)
      requires Valid()
      modifies this, expireTimer
      ensures Valid()
      ensures View(now) == Spec.ExtendTimeout(old(View(now)), clientID, newTimeout)
      ensures err == Spec.OwnerError(old(View(now)), clientID)
      ensures forall t :: t in started ==> t in old(started) || fresh(t)
    {
      if !locked {
        return Some(Spec.ErrLockNotHeld);
      }
      if owner != clientID {
        return Some(Spec.ErrNotLockOwner);
      }
      timeout := newTimeout;
      Rearm(clientID, newTimeout, now);
      return None;
    }

    /** The runtime starts the callback of a timer that is due and was not stopped; from then on Stop is too late. */
    method Fire(t: Timer, ghost i: nat, now: int)
      requires Valid() && i < |started| && started[i] == t
      requires Spec.Enabled(View(now), Spec.EvFire(i))
      modifies t`status
      ensures Valid()
      ensures View(now) == Spec.Fire(old(View(now)), i)
      ensures t.status == Spec.InFlight && started == old(started)
    {
      t.status := Spec.InFlight;
    }

    /** The callback of a timer that has fired: releases the lock if its captured client still holds it. */
    method Expire(t: Timer, ghost i: nat)
      requires Valid() && i < |started| && started[i] == t && t.status == Spec.InFlight
      modifies this`locked, this`owner, t`status
      ensures Valid()
      ensures forall now :: View(now) == Spec.Callback(old(View(now)), i)
      ensures started == old(started)
    {
      if owner == t.client && locked {
        locked := false;
        owner := "";
      }
      t.status := Spec.Done;
    }
  }
}
