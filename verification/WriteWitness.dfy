/**
 Runs of WriteArbitration in which a client that does not own the lock writes to the port, and in which a
 connection from the address of one that is still registered upsets the bookkeeping.
 */
module WriteWitness {
  import opened Common
  import opened WriteArbitration
  import H = WriteHistory
  import A = ArbiterSpec

  lemma {:induction false} RunSnoc(s: Sys, es: seq<Event>, e: Event)
    requires ValidRun(s, es) && Enabled(Run(s, es), e)
    ensures ValidRun(s, es + [e]) && Run(s, es + [e]) == Apply(Run(s, es), e)
    decreases |es|
  {
    var more := es + [e];
    if es == [] {
      assert more[1..] == [];
    } else {
      RunSnoc(Apply(s, es[0]), es[1..], e);
      assert more[1..] == es[1..] + [e];
    }
  }

  ghost predicate Reachable(s: Sys) {
    exists es :: ValidRun(Init(true), es) && Run(Init(true), es) == s
  }

  lemma Onward(s: Sys, e: Event) returns (t: Sys)
    requires Reachable(s) && Enabled(s, e)
    ensures t == Apply(s, e) && Reachable(t)
  {
    t := Apply(s, e);
    var es :| ValidRun(Init(true), es) && Run(Init(true), es) == s;
    RunSnoc(Init(true), es, e);
  }

  function FirstClient(pc: Pc, tries: Tries): Handler { Handler("a", pc, false, [[1]], [], tries) }

  /** It had tenure 1, with no attempt denied. */
  function Checked(): Handler { FirstClient(Writing(1), Tries(0, Some(1))) }

  /** Client "a" has connected and sent a chunk. */
  lemma FirstClientRead() returns (s: Sys)
    ensures Reachable(s)
    ensures s == Init(true).(handlers := [FirstClient(FirstCheck, Tries(0, None))], clients := map["a" := 0])
  {
    s := Init(true);
    assert ValidRun(s, []) && Run(s, []) == s;
    s := Onward(s, Accept("a"));
    s := Onward(s, Register);
    s := Onward(s, Read(0, [1]));
    assert s.handlers[0].chunks == [[1]];
  }

  /** It has passed its owner check under tenure 1. */
  lemma FirstClientChecked() returns (s: Sys)
    ensures Reachable(s)
    ensures s == Init(true).(
                   arb := A.Arb("a", true, LOCK_TIMEOUT, Some(0),
                                [A.Timer("a", 1, 0, LOCK_TIMEOUT, A.Armed)], ["a"], 0),
                   handlers := [Checked()],
                   clients := map["a" := 0],
                   holders := [0])
  {
    s := FirstClientRead();
    s := Onward(s, Step(0));
    s := Onward(s, Step(0));
    assert s.handlers == [FirstClient(FinalCheck, Tries(0, Some(1)))];
    s := Onward(s, Step(0));
  }

  /** The lease of "a" runs out before it writes. */
  lemma FirstLeaseExpires() returns (s: Sys)
    ensures Reachable(s)
    ensures s == Init(true).(
                   arb := A.Arb("", false, LOCK_TIMEOUT, Some(0),
                                [A.Timer("a", 1, 0, LOCK_TIMEOUT, A.Done)], ["a"], LOCK_TIMEOUT),
                   handlers := [Checked()],
                   clients := map["a" := 0],
                   holders := [0])
  {
    s := FirstClientChecked();
    s := Onward(s, Clock(A.EvTick(LOCK_TIMEOUT)));
    s := Onward(s, Clock(A.EvFire(0)));
    s := Onward(s, Clock(A.EvCallback(0)));
  }

  /** Client "b" connects and takes the lock meanwhile. */
  lemma SecondClientOwns() returns (s: Sys)
    ensures Reachable(s)
    ensures s.arb.locked && s.arb.owner == "b" && s.arb.tenures == ["a", "b"]
    ensures s.writes == [] && s.output == []
    ensures |s.handlers| == 2 && s.handlers[0] == Checked()
  {
    s := FirstLeaseExpires();
    s := Onward(s, Accept("b"));
    s := Onward(s, Register);
    s := Onward(s, Read(1, [2]));
    s := Onward(s, Step(1));
    s := Onward(s, Step(1));
  }

  /**
   That only the owner ever writes is false: the lease of the first client can run out between its check
   and its write, and the second client is the owner when the first one's chunk reaches the port.
   */
  lemma StrangerCanWrite()
    ensures exists es ::
              && ValidRun(Init(true), es)
              && var s := Run(Init(true), es);
                 && s.writes == [Write(0, [1], 1, false)] && s.output == [1]
                 && s.handlers != [] && s.handlers[0].id == "a"
                 && s.arb.locked && s.arb.owner == "b"
  {
    var s := SecondClientOwns();
    s := Onward(s, Step(0));
    assert s.writes == [Write(0, [1], 1, false)];
    var es :| ValidRun(Init(true), es) && Run(Init(true), es) == s;
  }

  // ---------------------------------------------------------------- an address that is used again too soon

  /** The read of the first connection has failed, and its handler has not got the server mutex yet. */
  function Failing(): Handler { Handler("a", Failed, false, [], [], Tries(0, None)) }

  /** The second connection from the same address has taken the lock. */
  function Newcomer(): Handler { Handler("a", FinalCheck, false, [[2]], [], Tries(0, Some(1))) }

  lemma NewcomerRegisters() returns (s: Sys)
    ensures Reachable(s)
    ensures s == Init(true).(
                   handlers := [Failing(), Handler("a", Reading, false, [], [], Tries(0, None))],
                   clients := map["a" := 1], collided := true)
  {
    s := Init(true);
    assert ValidRun(s, []) && Run(s, []) == s;
    s := Onward(s, Accept("a"));
    s := Onward(s, Register);
    s := Onward(s, ReadError(0));
    assert s.handlers == [Failing()];
    s := Onward(s, Accept("a"));
    assert Collides(s) by {
      assert Registered(s.handlers[0].pc);
    }
    s := Onward(s, Register);
  }

  lemma NewcomerOwns() returns (s: Sys)
    ensures Reachable(s)
    ensures s.handlers == [Failing(), Newcomer()] && s.clients == map["a" := 1] && s.running && s.mutex == None
    ensures s.arb == A.Arb("a", true, LOCK_TIMEOUT, Some(0),
                           [A.Timer("a", 1, 0, LOCK_TIMEOUT, A.Armed)], ["a"], 0)
    ensures s.holders == [1]
  {
    s := NewcomerRegisters();
    s := Onward(s, Read(1, [2]));
    assert s.handlers[1].chunks == [[2]];
    s := Onward(s, Step(1));
    s := Onward(s, Step(1));
  }

  lemma OldHandlerDeletes() returns (s: Sys)
    ensures Reachable(s)
    ensures |s.handlers| == 2 && s.handlers[0] == Failing().(pc := Deleted) && s.handlers[1] == Newcomer()
    ensures s.clients == map[] && s.running && s.holders == [1]
    ensures s.arb == A.Arb("a", true, LOCK_TIMEOUT, Some(0),
                           [A.Timer("a", 1, 0, LOCK_TIMEOUT, A.Armed)], ["a"], 0)
  {
    s := NewcomerOwns();
    s := Onward(s, Step(0));
    assert s.clients == map[];
  }

  /**
   The old handler deletes by id and releases by id, so its three steps take the map entry and the fresh lock
   of the live connection, in the same instant and with no callback in flight.
   */
  lemma OldHandlerEvictsNewConnection()
    ensures exists es ::
              && ValidRun(Init(true), es)
              && var s := Run(Init(true), es);
                 && |s.handlers| == 2 && s.handlers[1] == Newcomer() && s.running
                 && s.clients == map[] && s.holders == [1] && !s.arb.locked && s.arb.now == 0
                 && |s.arb.timers| == 1 && s.arb.timers[0].status == A.Stopped
  {
    var s := OldHandlerDeletes();
    s := Onward(s, Step(0));
    s := Onward(s, Step(0));
    assert s.arb.timers[0].status == A.Stopped && !s.arb.locked;
    var es :| ValidRun(Init(true), es) && Run(Init(true), es) == s;
  }

  /** The second connection passes its owner check under the tenure that the first one took. */
  lemma BothChecked() returns (s: Sys)
    ensures Reachable(s)
    ensures s.handlers == [Checked(), Handler("a", Writing(1), false, [[2]], [], Tries(0, Some(1)))]
    ensures s.arb == A.Arb("a", true, LOCK_TIMEOUT, Some(0),
                           [A.Timer("a", 1, 0, LOCK_TIMEOUT, A.Armed)], ["a"], 0)
    ensures s.writes == []
  {
    s := FirstClientChecked();
    s := Onward(s, Accept("a"));
    s := Onward(s, Register);
    s := Onward(s, Read(1, [2]));
    assert s.handlers[1].chunks == [[2]];
    s := Onward(s, Step(1));
    s := Onward(s, Step(1));
  }

  lemma BothExpired() returns (s: Sys)
    ensures Reachable(s)
    ensures s.handlers == [Checked(), Handler("a", Writing(1), false, [[2]], [], Tries(0, Some(1)))]
    ensures !s.arb.locked && s.writes == []
  {
    s := BothChecked();
    s := Onward(s, Clock(A.EvTick(LOCK_TIMEOUT)));
    s := Onward(s, Clock(A.EvFire(0)));
    s := Onward(s, Clock(A.EvCallback(0)));
  }

  /** One late write per tenure is then not the limit: both connections write after it has ended. */
  lemma TwoLateWritesUnderOneTenure()
    ensures exists es :: ValidRun(Init(true), es) && H.Late(Run(Init(true), es).writes, 1) == 2
  {
    var s := BothExpired();
    s := Onward(s, Step(0));
    var first := [Write(0, [1], 1, false)];
    assert s.writes == first;
    s := Onward(s, Step(1));
    assert s.writes == first + [Write(1, [2], 1, false)];
    H.LateSnoc([], Write(0, [1], 1, false), 1);
    assert [] + first == first;
    H.LateSnoc(first, Write(1, [2], 1, false), 1);
    var es :| ValidRun(Init(true), es) && Run(Init(true), es) == s;
  }

  /** And the owner test can be met by the lock of another connection, although the tenure checked is over. */
  lemma OwnerTestCanBeMetByAnother()
    ensures exists es ::
              && ValidRun(Init(true), es)
              && var s := Run(Init(true), es);
                 && s.handlers != [] && s.handlers[0] == Checked()
                 && s.arb.locked && s.arb.owner == s.handlers[0].id && !s.arb.Live(1)
                 && s.holders == [0, 1]
  {
    var s := FirstLeaseExpires();
    s := Onward(s, Accept("a"));
    s := Onward(s, Register);
    s := Onward(s, Read(1, [2]));
    s := Onward(s, Step(1));
    s := Onward(s, Step(1));
    assert s.holders == [0, 1];
    var es :| ValidRun(Init(true), es) && Run(Init(true), es) == s;
  }
}
