/**
 The size-limited receive buffers: MockClient.appendWithLimit (internal/broadcast/broadcast.go) and
 MockServer.appendDataWithLimit (internal/server/server.go), which are the same code.
 MaxBufferSize is an exported field that callers change while the buffer is in use.
 */
module SlidingBuffer {
  import opened Common

  /** The last min(|s|, n) elements of s. */
  function LastN<T>(s: seq<T>, n: nat): (r: seq<T>)
    ensures |r| == Min(|s|, n)
    ensures r == s[|s| - |r|..]
  {
    if |s| > n then s[|s| - n..] else s
  }

  lemma LastOfLast<T>(s: seq<T>, from: nat, n: nat)
    requires from <= |s|
    ensures LastN(s[from..], n) == LastN(s, Min(|s| - from, n))
  {
    var k := Min(|s| - from, n);
    assert s[from..][|s| - from - k..] == s[|s| - k..];
  }

  /** Trimming before an append loses nothing beyond what the earlier trim had dropped. */
  lemma TrimAppendTrim<T>(s: seq<T>, d: seq<T>, kept: nat, limit: nat)
    requires kept <= |s|
    ensures LastN(LastN(s, kept) + d, limit) == LastN(s + d, Min(kept + |d|, limit))
  {
    var from := |s| - kept;
    assert LastN(s, kept) == s[from..];
    assert s[from..] + d == (s + d)[from..];
    LastOfLast(s + d, from, limit);
  }

  /** Under one limit it loses nothing at all. */
  lemma TrimThenAppend<T>(s: seq<T>, d: seq<T>, limit: nat)
    ensures LastN(LastN(s, limit) + d, limit) == LastN(s + d, limit)
  {
    if |s| > limit {
      TrimAppendTrim(s, d, limit, limit);
    }
  }

  /**
   An append made under a given limit. MaxBufferSize is a Go int: below zero the slice expression panics, after
   the data has been appended and before anything is trimmed.
   */
  datatype Append = Append(data: seq<byte>, limit: int)

  /** The buffer after a trim to the limit, or after the panic that a negative limit causes. */
  function Trim(s: seq<byte>, limit: int): seq<byte> {
    if limit < 0 then s else LastN(s, limit)
  }

  /** The buffer after a history of appends, trimming at every one of them. */
  function Replay(history: seq<Append>): seq<byte> {
    if history == [] then []
    else
      var last := history[|history| - 1];
      Trim(Replay(history[..|history| - 1]) + last.data, last.limit)
  }

  /** Everything ever appended. */
  function Total(history: seq<Append>): seq<byte> {
    if history == [] then []
    else Total(history[..|history| - 1]) + history[|history| - 1].data
  }

  /** How many of the last bytes survive when each append trims to its own limit. */
  function Kept(history: seq<Append>): nat {
    if history == [] then 0
    else
      var last := history[|history| - 1];
      var all := Kept(history[..|history| - 1]) + |last.data|;
      if last.limit < 0 then all else Min(all, last.limit)
  }

  /** Whatever limits were in force, the buffer is the newest part of the whole stream. */
  lemma {:induction false} ReplayIsSuffix(history: seq<Append>)
    ensures Kept(history) <= |Total(history)|
    ensures Replay(history) == LastN(Total(history), Kept(history))
  {
    if history != [] {
      var n := |history| - 1;
      var all := Kept(history[..n]) + |history[n].data|;
      ReplayIsSuffix(history[..n]);
      TrimAppendTrim(Total(history[..n]), history[n].data, Kept(history[..n]),
                     if history[n].limit < 0 then all else history[n].limit);
    }
  }

  ghost predicate Steady(history: seq<Append>, limit: int) {
    forall i :: 0 <= i < |history| ==> history[i].limit == limit
  }

  /** With one limit throughout, trimming at every step refines trimming once at the end. */
  lemma {:induction false} SteadyLimit(history: seq<Append>, limit: int)
    requires Steady(history, limit)
    ensures Replay(history) == Trim(Total(history), limit)
  {
    if history != [] {
      var n := |history| - 1;
      SteadyLimit(history[..n], limit);
      if limit >= 0 {
        TrimThenAppend(Total(history[..n]), history[n].data, limit);
      }
    }
  }

  /** One more append, and what the buffer then holds. */
  lemma OneMore(history: seq<Append>, more: seq<Append>, last: Append)
    requires more == history + [last]
    ensures Replay(more) == Trim(Replay(history) + last.data, last.limit) == LastN(Total(more), Kept(more))
    ensures Steady(more, last.limit) ==> Replay(more) == Trim(Total(more), last.limit)
  {
    assert more[..|more| - 1] == history;
    ReplayIsSuffix(more);
    if Steady(more, last.limit) {
      SteadyLimit(more, last.limit);
    }
  }

  class Buffer {
    var data: seq<byte>
    var MaxBufferSize: int
    ghost var history: seq<Append>

    ghost predicate Valid()
      reads this
    {
      data == Replay(history)
    }

    constructor (maxBufferSize: int)
      ensures Valid() && history == [] && MaxBufferSize == maxBufferSize
    {
      data, MaxBufferSize, history := [], maxBufferSize, [];
    }

    /** `panics` when the lower bound of the slice is beyond its end. */
    method AppendWithLimit(newData: seq<byte>) returns (panics: bool)
      requires Valid()
      modifies this`data, this`history
      ensures Valid()
      ensures history == old(history) + [Append(newData, MaxBufferSize)]
      ensures panics <==> MaxBufferSize < 0
      ensures panics ==> data == old(data) + newData
      ensures !panics ==> |data| <= MaxBufferSize
      ensures data == LastN(Total(history), Kept(history))
      ensures Steady(history, MaxBufferSize) ==> data == Trim(Total(history), MaxBufferSize)
    {
      ghost var last := Append(newData, MaxBufferSize);
      ghost var more := history + [last];
      OneMore(history, more, last);
      assert Trim(data + newData, MaxBufferSize) == Replay(more);
      history := more;
      data := data + newData;
      panics := false;
      if |data| > MaxBufferSize {
        var low := |data| - MaxBufferSize;
        if low > |data| {
          return true;
        }
        data := data[low..];
      }
    }
  }
}
