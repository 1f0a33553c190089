/**
 MockSerialPort (pkg/serial/serial.go) as a FIFO object, and readSerialAndBroadcast (cmd/server/main.go)
 over its one reused read buffer. The broadcast channel holds references to byte arrays, as a Go channel
 of slices does, so a message keeps its bytes only if it does not alias that buffer.
 */
module SerialReader {
  import opened Common

  class MockSerialPort {
    var open: bool
    var inputBuffer: seq<byte>
    var outputBuffer: seq<byte>

    constructor ()
      ensures !open && inputBuffer == [] && outputBuffer == []
    {
      open, inputBuffer, outputBuffer := false, [], [];
    }

    /** Fills the front of buf; None is io.EOF. */
    method Read(buf: array<byte>) returns (n: Option<nat>)
      modifies this`inputBuffer, buf
      ensures n.None? <==> old(inputBuffer) == []
      ensures n.None? ==> inputBuffer == [] && buf[..] == old(buf[..])
      ensures n.Some? ==>
                && n.value == Min(buf.Length, |old(inputBuffer)|)
                && buf[..n.value] + inputBuffer == old(inputBuffer)
                && buf[n.value..] == old(buf[n.value..])
    {
      if |inputBuffer| == 0 {
        return None;
      }
      var k := Min(buf.Length, |inputBuffer|);
      forall i | 0 <= i < k {
        buf[i] := inputBuffer[i];
      }
      assert buf[..k] == inputBuffer[..k];
      inputBuffer := inputBuffer[k..];
      return Some(k);
    }

    method Write(buf: seq<byte>) returns (n: nat)
      modifies this`outputBuffer
      ensures n == |buf| && outputBuffer == old(outputBuffer) + buf
    {
      outputBuffer := outputBuffer + buf;
      n := |buf|;
    }

    method InjectInput(data: seq<byte>)
      modifies this`inputBuffer
      ensures inputBuffer == old(inputBuffer) + data
    {
      inputBuffer := inputBuffer + data;
    }
  }

  /** The bytes of the messages waiting in a channel. */
  function Contents(messages: seq<array<byte>>): (r: seq<seq<byte>>)
    reads messages
    ensures |r| == |messages| && forall i :: 0 <= i < |r| ==> r[i] == messages[i][..]
  {
    seq(|messages|, i requires 0 <= i < |messages| reads messages => messages[i][..])
  }

  /** A buffered channel of byte slices. */
  class Channel {
    const capacity: nat
    var messages: seq<array<byte>>

    constructor (capacity: nat)
      ensures this.capacity == capacity && messages == []
    {
      this.capacity, messages := capacity, [];
    }

    method Send(data: array<byte>)
      requires |messages| < capacity
      modifies this`messages
      ensures messages == old(messages) + [data]
    {
      messages := messages + [data];
    }
  }

  /** One poll: a read into the reused buffer and, if it brought bytes, a copy of them in a fresh array. */
  method Poll(port: MockSerialPort, buf: array<byte>) returns (data: Option<array<byte>>)
    requires buf.Length > 0
    modifies port`inputBuffer, buf
    ensures data.None? <==> old(port.inputBuffer) == []
    ensures data.None? ==> port.inputBuffer == []
    ensures data.Some? ==> fresh(data.value) && data.value.Length == Min(buf.Length, |old(port.inputBuffer)|)
    ensures data.Some? ==> data.value[..] + port.inputBuffer == old(port.inputBuffer)
  {
    var n := port.Read(buf);
    if n.None? {
      return None;
    }
    var copy := new byte[n.value];
    forall i | 0 <= i < n.value {
      copy[i] := buf[i];
    }
    assert copy[..] == buf[..n.value];
    return Some(copy);
  }

  /** The i-th read of up to 4096 bytes from the given input. */
  function Piece(input: seq<byte>, i: nat): seq<byte> {
    input[Min(4096 * i, |input|)..Min(4096 * (i + 1), |input|)]
  }

  /** The first k reads. */
  function Pieces(input: seq<byte>, k: nat): (r: seq<seq<byte>>)
    ensures |r| == k
  {
    if k == 0 then [] else Pieces(input, k - 1) + [Piece(input, k - 1)]
  }

  /** What k reads leave in the port. */
  function Rest(input: seq<byte>, k: nat): seq<byte> { input[Min(4096 * k, |input|)..] }

  /** How many reads bring bytes until the input is used up. */
  function Reads(length: nat): nat { (length + 4095) / 4096 }

  lemma ReadsExactly(length: nat, i: nat)
    ensures i < Reads(length) <==> 4096 * i < length
  {
  }

  lemma LeftOver(input: seq<byte>, stop: nat)
    ensures |Rest(input, Min(stop, Reads(|input|)))| == Max(0, |input| - 4096 * stop)
  {
    ReadsExactly(|input|, stop);
  }

  lemma NextPiece(input: seq<byte>, i: nat, data: seq<byte>, rest: seq<byte>)
    requires data + rest == Rest(input, i) && |data| == Min(4096, |Rest(input, i)|)
    ensures data == Piece(input, i) && rest == Rest(input, i + 1)
  {
    assert Rest(input, i)[..|data|] == data && Rest(input, i)[|data|..] == rest;
  }

  lemma PieceAndRest(input: seq<byte>, k: nat)
    ensures Piece(input, k) + Rest(input, k + 1) == Rest(input, k)
  {
  }

  lemma Regroup(x: seq<byte>, y: seq<byte>, z: seq<byte>)
    ensures x + (y + z) == x + y + z
  {
  }

  /** The pieces and what is left make up the input. */
  lemma {:induction false} PiecesConserve(input: seq<byte>, k: nat)
    ensures Flatten(Pieces(input, k)) + Rest(input, k) == input
  {
    if k > 0 {
      var front, last := Flatten(Pieces(input, k - 1)), Piece(input, k - 1);
      PiecesConserve(input, k - 1);
      FlattenSnoc(Pieces(input, k - 1), last);
      PieceAndRest(input, k - 1);
      Regroup(front, last, Rest(input, k));
    }
  }

  /** Every byte is queued, in hand or in the port, in order. */
  lemma QueuedConserve(queued: seq<seq<byte>>, input: seq<byte>, k: nat)
    ensures Flatten(queued + Pieces(input, k)) + Rest(input, k) == Flatten(queued) + input
    ensures Flatten(queued + Pieces(input, k)) + Piece(input, k) + Rest(input, k + 1) == Flatten(queued) + input
  {
    var all := Flatten(queued + Pieces(input, k));
    FlattenAppend(queued, Pieces(input, k));
    PiecesConserve(input, k);
    Regroup(Flatten(queued), Flatten(Pieces(input, k)), Rest(input, k));
    PieceAndRest(input, k);
    Regroup(all, Piece(input, k), Rest(input, k + 1));
  }

  lemma PiecesSnoc(queued: seq<seq<byte>>, input: seq<byte>, k: nat)
    ensures queued + Pieces(input, k) + [Piece(input, k)] == queued + Pieces(input, k + 1)
  {
  }

  /** One read of the port, described from the input as it was at the start. */
  method PollPiece(port: MockSerialPort, buf: array<byte>, ghost start: seq<byte>, ghost k: nat)
    returns (data: Option<array<byte>>)
    requires buf.Length == 4096 && port.inputBuffer == Rest(start, k)
    modifies port`inputBuffer, buf
    ensures data.Some? <==> k < Reads(|start|)
    ensures data.None? ==> port.inputBuffer == Rest(start, k)
    ensures data.Some? ==>
              fresh(data.value) && data.value[..] == Piece(start, k) != [] && port.inputBuffer == Rest(start, k + 1)
  {
    data := Poll(port, buf);
    ReadsExactly(|start|, k);
    if data.Some? {
      NextPiece(start, k, data.value[..], port.inputBuffer);
    }
  }

  /**
   The outcome of `stop` polls of a port with this input and room for so many messages. The messages queued
   are the successive pieces of 4096 bytes of the input, the last one shorter and none empty, one for each
   poll until the input is used up. The method blocks iff that makes more pieces than there is room for, and
   then it has the first piece too many in hand; if it does not block, 4096 bytes are gone for every poll as
   far as there were any. Nothing is lost: what is queued, in hand and in the port makes up exactly what was
   queued and in the port before.
   */
  ghost predicate Polled(queued: seq<seq<byte>>, input: seq<byte>, room: nat, stop: nat,
                         contents: seq<seq<byte>>, inHand: Option<seq<byte>>, rest: seq<byte>)
  {
    var pieces := Min(stop, Reads(|input|));
    && (inHand.Some? <==> pieces > room)
    && contents == queued + Pieces(input, Min(pieces, room))
    && (inHand.Some? ==> inHand.value == Piece(input, room) != [])
    && (inHand.None? ==> |rest| == Max(0, |input| - 4096 * stop))
    && Flatten(contents) + (if inHand.Some? then inHand.value else []) + rest == Flatten(queued) + input
  }

  lemma BlockedOutcome(queued: seq<seq<byte>>, input: seq<byte>, room: nat, stop: nat)
    requires room < Min(stop, Reads(|input|)) && Piece(input, room) != []
    ensures Polled(queued, input, room, stop, queued + Pieces(input, room), Some(Piece(input, room)),
                   Rest(input, room + 1))
  {
    QueuedConserve(queued, input, room);
  }

  lemma FinishedOutcome(queued: seq<seq<byte>>, input: seq<byte>, room: nat, stop: nat, k: nat)
    requires k == Min(stop, Reads(|input|)) <= room
    ensures Polled(queued, input, room, stop, queued + Pieces(input, k), None, Rest(input, k))
  {
    var all := Flatten(queued + Pieces(input, k));
    LeftOver(input, stop);
    QueuedConserve(queued, input, k);
    NothingInHand(all, Rest(input, k));
  }

  lemma NothingInHand(x: seq<byte>, y: seq<byte>)
    ensures x + [] + y == x + y
  {
  }

  /** Since the start k messages have been queued, and the port has been read k times. */
  ghost predicate Progress(channel: Channel, port: MockSerialPort, queued: seq<seq<byte>>, start: seq<byte>, k: nat)
    reads channel, channel.messages, port
  {
    && Contents(channel.messages) == queued + Pieces(start, k)
    && port.inputBuffer == Rest(start, k)
  }

  /** One round of the loop: read, copy, and Broadcast, which blocks while the channel is full. */
  method PollAndSend(port: MockSerialPort, channel: Channel, buf: array<byte>,
                     ghost queued: seq<seq<byte>>, ghost start: seq<byte>, ghost k: nat)
    returns (blocked: Option<array<byte>>, ghost sent: seq<array<byte>>)
    requires buf.Length == 4096 && buf !in channel.messages
    requires |channel.messages| <= channel.capacity && Progress(channel, port, queued, start, k)
    modifies port`inputBuffer, channel`messages, buf
    ensures channel.messages == old(channel.messages) + sent && fresh(sent)
    ensures k >= Reads(|start|) ==> blocked.None? && sent == [] && Progress(channel, port, queued, start, k)
    ensures k < Reads(|start|) && |old(channel.messages)| < channel.capacity ==>
              blocked.None? && |sent| == 1 && Progress(channel, port, queued, start, k + 1)
    ensures k < Reads(|start|) && |old(channel.messages)| == channel.capacity ==>
              && blocked.Some? && sent == []
              && fresh(blocked.value) && blocked.value[..] == Piece(start, k) != []
              && Contents(channel.messages) == queued + Pieces(start, k) && port.inputBuffer == Rest(start, k + 1)
  {
    blocked, sent := None, [];
    var data := PollPiece(port, buf, start, k);
    assert Contents(channel.messages) == queued + Pieces(start, k);
    if data.Some? {
      if |channel.messages| == channel.capacity {
        blocked := data;
        return;
      }
      channel.Send(data.value);
      sent := [data.value];
      PiecesSnoc(queued, start, k);
      assert Contents(channel.messages) == queued + Pieces(start, k) + [Piece(start, k)];
    }
  }

  /**
   Polls the port until `stop` polls have been made, or until the channel is full and Broadcast would
   block; the message then in hand is returned.

   What is then queued, in hand and in the port is as Polled says. The messages already queued are the same
   arrays, and the new ones are fresh, so that the next read into `buf` cannot change them.
   */
  method ReadSerialAndBroadcast(port: MockSerialPort, channel: Channel, buf: array<byte>, stop: nat)
    returns (blocked: Option<array<byte>>)
    requires buf.Length == 4096 && buf !in channel.messages
    requires |channel.messages| <= channel.capacity
    modifies port`inputBuffer, channel`messages, buf
    ensures old(channel.messages) <= channel.messages
    ensures fresh(channel.messages[|old(channel.messages)|..])
    ensures blocked.Some? ==> |channel.messages| == channel.capacity && fresh(blocked.value)
    ensures Polled(old(Contents(channel.messages)), old(port.inputBuffer),
                   channel.capacity - |old(channel.messages)|, stop,
                   Contents(channel.messages), if blocked.Some? then Some(blocked.value[..]) else None,
                   port.inputBuffer)
  {
    blocked := None;
    ghost var start, queued := port.inputBuffer, Contents(channel.messages);
    ghost var k, added := 0, [];
    for polls := 0 to stop
      invariant blocked.None? && |channel.messages| <= channel.capacity && buf !in channel.messages
      invariant channel.messages == old(channel.messages) + added && fresh(added)
      invariant k == Min(polls, Reads(|start|)) == |added|
      invariant Progress(channel, port, queued, start, k)
    {
      ghost var sent;
      blocked, sent := PollAndSend(port, channel, buf, queued, start, k);
      added := added + sent;
      if blocked.Some? {
        BlockedOutcome(queued, start, k, stop);
        return;
      }
      k := if k < Reads(|start|) then k + 1 else k;
    }
    FinishedOutcome(queued, start, channel.capacity - |queued|, stop, k);
  }
}
