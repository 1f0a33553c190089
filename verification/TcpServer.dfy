/**
 The client map and the body of broadcastLoop (internal/server/server.go) in their own form: objects updated
 in place. Other goroutines are left out here; BroadcastLog interleaves the same steps with everything else.
 */
module TcpServer {
  import opened BroadcastLog

  /** A client connection: an append-only log of the writes that succeeded. */
  class ClientConn {
    const id: string
    var alive: bool
    var received: seq<Msg>

    constructor (id: string)
      ensures this.id == id && alive && received == []
    {
      this.id, alive, received := id, true, [];
    }

    /** The connection as a value of the log model. */
    function View(joined: nat, left: nat): Conn
      reads this
    {
      Conn(joined, left, alive, received)
    }

    method Write(data: Msg)
      modifies this`received
      ensures forall joined, left :: View(joined, left) == Written(old(View(joined, left)), data)
    {
      if alive {
        received := received + [data];
      }
    }

    method Close()
      modifies this`alive
      ensures !alive
    {
      alive := false;
    }
  }

  class TCPServer {
    var running: bool
    var clients: map<string, ClientConn>

    /** Every connection is filed under its own id, so no connection is filed twice. */
    ghost predicate Valid()
      reads this
    {
      forall id :: id in clients ==> clients[id].id == id
    }

    constructor ()
      ensures Valid() && running && clients == map[]
    {
      running, clients := true, map[];
    }

    method Register(client: ClientConn)
      requires Valid()
      modifies this`clients
      ensures Valid() && clients == old(clients)[client.id := client]
    {
      clients := clients[client.id := client];
    }

    method Remove(client: ClientConn)
      requires Valid()
      modifies this`clients
      ensures Valid() && clients == old(clients) - {client.id}
    {
      clients := clients - {client.id};
    }

    /** Lines 152 to 155: the connections in some order, each once. */
    method Snapshot() returns (conns: seq<ClientConn>)
      requires Valid()
      ensures forall k :: k in conns <==> k in clients.Values
      ensures forall i, j :: 0 <= i < j < |conns| ==> conns[i] != conns[j]
    {
      conns := [];
      var left := clients.Keys;
      while left != {}
        invariant left <= clients.Keys
        invariant forall k :: k in conns <==> k in clients.Values && k.id !in left
        invariant forall i, j :: 0 <= i < j < |conns| ==> conns[i] != conns[j]
        decreases |left|
      {
        var id :| id in left;
        conns := conns + [clients[id]];
        left := left - {id};
      }
    }

    /** One round of broadcastLoop: every registered connection gets the message once, nobody else does. */
    method BroadcastOne(data: Msg)
      requires Valid()
      modifies clients.Values
      ensures Valid()
      ensures forall k, joined, left :: k in clients.Values ==>
                k.View(joined, left) == Written(old(k.View(joined, left)), data)
    {
      var conns := Snapshot();
      for i := 0 to |conns|
        invariant forall j :: 0 <= j < |conns| ==> conns[j] in old(clients.Values)
        invariant forall j, joined, left :: 0 <= j < i ==>
                    conns[j].View(joined, left) == Written(old(conns[j].View(joined, left)), data)
        invariant forall j :: i <= j < |conns| ==> unchanged(conns[j])
      {
        conns[i].Write(data);
      }
    }

    /** Stop closes every registered connection and forgets them; a second Stop does nothing. */
    method Stop()
      requires Valid()
      modifies this, clients.Values
      ensures Valid() && !running
      ensures old(running) ==> clients == map[] && forall k :: k in old(clients.Values) ==> !k.alive
      ensures !old(running) ==> clients == old(clients) && forall k :: k in old(clients.Values) ==> unchanged(k)
      ensures forall k :: k in old(clients.Values) ==> k.received == old(k.received)
    {
      if !running {
        return;
      }
      var conns := Snapshot();
      for i := 0 to |conns|
        invariant running && clients == old(clients)
        invariant forall j :: 0 <= j < |conns| ==> conns[j] in old(clients.Values)
        invariant forall j :: 0 <= j < i ==> !conns[j].alive
        invariant forall j :: 0 <= j < |conns| ==> conns[j].received == old(conns[j].received)
      {
        conns[i].Close();
      }
      clients := map[];
      running := false;
    }
  }
}
