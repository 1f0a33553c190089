/**
 The write path of internal/server/server.go: acceptLoop and any number of handleClient goroutines
 sharing the arbiter, the client map and the serial port. One event is one critical section, one read
 from a connection or one port write, so the owner test of line 137 and the write of line 138 are
 separate steps, as are the two critical sections of the disconnect branch.

 Client ids are remote addresses, so they are not empty. They need not be distinct: a peer that has closed
 its end can connect again from the same address while the handler of the old connection still runs, and the
 client map, the owner test and ForceRelease all go by the id.
 */
module WriteArbitration {
  import opened Common
  import A = ArbiterSpec

  type Chunk = seq<byte>

  /** Where a handler stands in handleClient. */
  datatype Pc =
    | Reading            // line 105, waiting for data
    | FirstCheck         // line 120
    | FirstAcquire       // line 122
    | Retrying(i: nat)   // line 126, about to try for the i-th time
    | Sleeping(i: nat)   // line 130
    | FinalCheck         // line 137
    | Writing(tenure: nat)  // line 138; the tenure seen by the check
    | Failed             // line 106, about to take the server mutex
    | Deleted            // line 111, holding the mutex, entry deleted
    | Releasing          // line 112, the owner test succeeded
    | Unlocking          // line 114
    | Returned

  /** How a handler tried to own the lock for a chunk: calls of Acquire that found it held, tenure had. */
  datatype Tries = Tries(denied: nat, had: Option<nat>)

  /** What became of a chunk; a drop records the owner seen by the final check, and the tries before it. */
  datatype Fate = Written | Dropped(seenOwner: string, tries: Tries)

  /**
   `closed` is set when the server closes the connection; `chunks` is everything Read has returned, and
   `tries` is about the last of them.
   */
  datatype Handler = Handler(
    id: string, pc: Pc, closed: bool, chunks: seq<Chunk>, fates: seq<Fate>, tries: Tries)

  /** A port write: by which connection, which chunk, checked under which tenure, and was that still in force. */
  datatype Write = Write(conn: nat, chunk: Chunk, tenure: nat, inForce: bool)

  /**
   Two histories: `holders` has the connection that took each tenure, and `collided` is set once a
   connection is registered with the id of one that is still registered.
   */
  datatype Sys = Sys(
    arb: A.Arb,
    handlers: seq<Handler>,
    clients: map<string, nat>,
    accepted: Option<string>,
    mutex: Option<nat>,
    running: bool,
    hasSerial: bool,
    output: seq<byte>,
    writes: seq<Write>,
    holders: seq<nat>,
    collided: bool)

  datatype Event =
    | Accept(id: string)
    | Register
    | Read(conn: nat, data: Chunk)
    | ReadError(conn: nat)
    | Step(conn: nat)
    | Clock(arb: A.Event)
    | Stop

  const READ_BUFFER: nat := 1024
  const MAX_RETRIES: nat := 10
  /** Thirty seconds, on a clock that counts milliseconds. */
  const LOCK_TIMEOUT: int := 30000

  function Init(hasSerial: bool): Sys {
    Sys(A.New(LOCK_TIMEOUT, 0), [], map[], None, None, true, hasSerial, [], [], [], false)
  }

  /** The handler is between Read and the end of the loop body. */
  predicate Busy(pc: Pc) {
    pc.FirstCheck? || pc.FirstAcquire? || pc.Retrying? || pc.Sleeping? || pc.FinalCheck? || pc.Writing?
  }

  /** The handler has not yet deleted its map entry. */
  predicate Registered(pc: Pc) {
    !pc.Deleted? && !pc.Releasing? && !pc.Unlocking? && !pc.Returned?
  }

  /** The handler holds the server mutex in its disconnect branch. */
  predicate InMutex(pc: Pc) { pc.Deleted? || pc.Releasing? || pc.Unlocking? }

  /** A registered handler already has the id of the accepted connection. */
  predicate Collides(s: Sys) {
    s.accepted.Some?
    && exists c :: 0 <= c < |s.handlers| && Registered(s.handlers[c].pc) && s.handlers[c].id == s.accepted.value
  }

  predicate Enabled(s: Sys, e: Event) {
    match e
    case Accept(id) => s.running && s.accepted == None && id != ""
    case Register => s.accepted.Some? && s.mutex == None
    case Read(c, data) =>
      c < |s.handlers| && s.handlers[c].pc.Reading? && !s.handlers[c].closed && |data| <= READ_BUFFER
    case ReadError(c) => c < |s.handlers| && s.handlers[c].pc.Reading?
    case Step(c) =>
      && c < |s.handlers|
      && !s.handlers[c].pc.Reading? && !s.handlers[c].pc.Returned?
      && (s.handlers[c].pc.Failed? ==> s.mutex == None)
    case Clock(t) => (t.EvFire? || t.EvCallback? || t.EvTick?) && A.Enabled(s.arb, t)
    case Stop => s.mutex == None
  }

  function Move(s: Sys, c: nat, pc: Pc): Sys
    requires c < |s.handlers|
  {
    s.(handlers := s.handlers[c := s.handlers[c].(pc := pc)])
  }

  /** Ends the treatment of a chunk and goes back to the read. */
  function Settle(s: Sys, c: nat, fate: Fate): Sys
    requires c < |s.handlers|
  {
    var h := s.handlers[c];
    s.(handlers := s.handlers[c := h.(pc := Reading, fates := h.fates + [fate])])
  }

  /** The handler owns the lock, in the tenure in force, and goes on to the final check. */
  function Had(s: Sys, c: nat): Sys
    requires c < |s.handlers|
  {
    var h := s.handlers[c];
    s.(handlers := s.handlers[c := h.(pc := FinalCheck, tries := h.tries.(had := Some(|s.arb.tenures|)))])
  }

  /** A call of Acquire by the handler's own id; `denied` is where it goes when the lock is taken. */
  function TryAcquire(s: Sys, c: nat, denied: Pc): Sys
    requires c < |s.handlers|
  {
    var h := s.handlers[c];
    if s.arb.locked then
      s.(handlers := s.handlers[c := h.(pc := denied, tries := h.tries.(denied := h.tries.denied + 1))])
    else
      Had(s.(arb := A.Acquire(s.arb, h.id), holders := s.holders + [c]), c)
  }

  function PortWrite(s: Sys, c: nat, tenure: nat): Sys
    requires c < |s.handlers| && s.handlers[c].chunks != []
  {
    var h := s.handlers[c];
    var chunk := h.chunks[|h.chunks| - 1];
    Settle(
      s.(output := s.output + chunk,
         writes := s.writes + [Write(c, chunk, tenure, s.arb.Live(tenure))]),
      c, Written)
  }

  function Apply(s: Sys, e: Event): Sys
    requires Enabled(s, e)
  {
    match e
    case Accept(id) => s.(accepted := Some(id))
    case Register =>
      s.(handlers := s.handlers + [Handler(s.accepted.value, Reading, false, [], [], Tries(0, None))],
         clients := s.clients[s.accepted.value := |s.handlers|],
         accepted := None,
         collided := s.collided || Collides(s))
    case Read(c, data) =>
      if data == [] then s
      else
        var h := s.handlers[c];
        s.(handlers := s.handlers[c := h.(pc := FirstCheck, chunks := h.chunks + [data], tries := Tries(0, None))])
    case ReadError(c) => Move(s, c, Failed)
    case Step(c) => HandlerStep(s, c)
    case Clock(t) => s.(arb := A.Apply(s.arb, t))
    case Stop =>
      if !s.running then s
      else
        s.(handlers := seq(|s.handlers|, c requires 0 <= c < |s.handlers| =>
                           s.handlers[c].(closed := s.handlers[c].closed || c in s.clients.Values)),
           clients := map[],
           running := false)
  }

  function HandlerStep(s: Sys, c: nat): Sys
    requires Enabled(s, Step(c))
  {
    var h := s.handlers[c];
    match h.pc
    case FirstCheck => if s.arb.owner != h.id then Move(s, c, FirstAcquire) else Had(s, c)
    case FirstAcquire => TryAcquire(s, c, Retrying(0))
    case Retrying(i) => TryAcquire(s, c, Sleeping(i))
    case Sleeping(i) => Move(s, c, if i + 1 < MAX_RETRIES then Retrying(i + 1) else FinalCheck)
    case FinalCheck =>
      if s.arb.owner == h.id && s.hasSerial then Move(s, c, Writing(|s.arb.tenures|))
      else Settle(s, c, Dropped(s.arb.owner, h.tries))
    case Writing(k) => if h.chunks == [] then s else PortWrite(s, c, k)
    case Failed => Move(s.(mutex := Some(c), clients := s.clients - {h.id}), c, Deleted)
    case Deleted => Move(s, c, if s.arb.owner == h.id then Releasing else Unlocking)
    case Releasing => Move(s.(arb := A.ForceRelease(s.arb, h.id)), c, Unlocking)
    case Unlocking => Move(s.(mutex := None), c, Returned)
    case _ => s
  }

  predicate ValidRun(s: Sys, es: seq<Event>)
    decreases |es|
  {
    es == [] || (Enabled(s, es[0]) && ValidRun(Apply(s, es[0]), es[1..]))
  }

  function Run(s: Sys, es: seq<Event>): Sys
    requires ValidRun(s, es)
    decreases |es|
  {
    if es == [] then s else Run(Apply(s, es[0]), es[1..])
  }
}
