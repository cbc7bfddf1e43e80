/**
 The gate object and the connection table of its SOCKS5 server, one call at a time
 (routing/provider/gate.go, routing/socks5/server.go). Interleavings of these calls
 with the connection handlers are the subject of module GateServer.
 */
module Gate {
  import opened BoundedLog
  import opened Common

  const MAX_EVENTS: nat := 4096

  /** One CONNECT request that reached the gate. */
  datatype ConnectEvent = ConnectEvent(host: string, port: nat, addrType: nat, reply: nat, err: string)

  /** A client socket. */
  class Conn {
    var live: bool

    constructor ()
      ensures live
    {
      live := true;
    }

    method Close()
      modifies this
      ensures !live
    {
      live := false;
    }
  }

  /** The server's connection table. */
  class Server {
    var conns: set<Conn>
    var closed: bool

    constructor ()
      ensures conns == {} && !closed
    {
      conns := {};
      closed := false;
    }

    method Track(c: Conn) returns (ok: bool)
      modifies this
      ensures ok == !old(closed) && closed == old(closed)
      ensures conns == if ok then old(conns) + {c} else old(conns)
    {
      if closed {
        return false;
      }
      conns := conns + {c};
      return true;
    }

    method Untrack(c: Conn)
      modifies this, c
      ensures conns == old(conns) - {c} && closed == old(closed)
      ensures !c.live
    {
      conns := conns - {c};
      c.Close();
    }

    /** Snapshot the table, then close each connection of the snapshot. */
    method CloseConnections()
      modifies conns
      ensures conns == old(conns)
      ensures forall c :: c in conns ==> !c.live
    {
      var snapshot: seq<Conn> := [];
      var rest := conns;
      while rest != {}
        invariant rest <= conns
        invariant forall c :: c in snapshot <==> c in conns && c !in rest
        decreases rest
      {
        var c :| c in rest;
        snapshot := snapshot + [c];
        rest := rest - {c};
      }
      for i := 0 to |snapshot|
        invariant forall j :: 0 <= j < i ==> !snapshot[j].live
      {
        snapshot[i].Close();
      }
    }
  }

  /** A cursor taken when the log is full misses the very next event. */
  lemma FullLogMissesNext(log: seq<ConnectEvent>, ev: ConnectEvent)
    requires |log| == MAX_EVENTS
    ensures Since(Tail(log + [ev], MAX_EVENTS), |Tail(log, MAX_EVENTS)|) == []
  {
  }

  class Gate {
    var open: bool
    var route: nat
    var events: seq<ConnectEvent>
    const srv: Server
    /** Everything ever recorded; `events` keeps the newest part of it. */
    ghost var recorded: seq<ConnectEvent>

    ghost predicate Valid()
      reads this
    {
      events == Tail(recorded, MAX_EVENTS)
    }

    constructor (route: nat, srv: Server)
      ensures Valid() && !open && this.route == route && this.srv == srv && recorded == []
    {
      this.open := false;
      this.route := route;
      this.srv := srv;
      this.events := [];
      this.recorded := [];
    }

    method SetRoute(r: nat)
      modifies this`route
      ensures route == r
    {
      route := r;
    }

    method Open()
      modifies this`open
      ensures open
    {
      open := true;
    }

    method Close()
      modifies this`open, srv.conns
      ensures !open
      ensures forall c :: c in srv.conns ==> !c.live
    {
      open := false;
      srv.CloseConnections();
    }

    method Record(ev: ConnectEvent)
      requires Valid()
      modifies this`events, this`recorded
      ensures Valid()
      ensures recorded == old(recorded) + [ev]
    {
      AppendKeepsTail(recorded, ev, MAX_EVENTS);
      events := events + [ev];
      if |events| > MAX_EVENTS {
        events := events[|events| - MAX_EVENTS..];
      }
      recorded := recorded + [ev];
    }

    method EventCount() returns (n: nat)
      requires Valid()
      ensures n == |Tail(recorded, MAX_EVENTS)|
    {
      n := |events|;
    }

    method EventsSince(cursor: int) returns (out: seq<ConnectEvent>)
      requires Valid()
      ensures out == Since(Tail(recorded, MAX_EVENTS), cursor)
    {
      var from := cursor;
      if cursor < 0 || cursor > |events| {
        from := 0;
      }
      out := events[from..];
    }

    /**
     The check V7 makes after reopening a gate (controller/verify/verify.go:513-520). With a
     cursor taken when `taken` events had been recorded, a positive answer always names a
     success recorded after that moment; a negative one is conclusive while nothing was trimmed.
     */
    method SucceededSince(cursor: int, ghost taken: nat) returns (found: bool)
      requires Valid()
      requires taken <= |recorded| && cursor == |Tail(recorded[..taken], MAX_EVENTS)|
      ensures found ==> exists k :: taken <= k < |recorded| && recorded[k].reply == REP_SUCCESS
      ensures !found && |recorded| <= MAX_EVENTS ==>
                forall k :: taken <= k < |recorded| ==> recorded[k].reply != REP_SUCCESS
    {
      GenuineCursor(recorded, taken, MAX_EVENTS);
      var evs := EventsSince(cursor);
      found := false;
      for i := 0 to |evs|
        invariant forall j :: 0 <= j < i ==> evs[j].reply != REP_SUCCESS
      {
        if evs[i].reply == REP_SUCCESS {
          assert recorded[|recorded| - |evs| + i] == evs[i];
          return true;
        }
      }
      if |recorded| <= MAX_EVENTS {
        forall k | taken <= k < |recorded|
          ensures recorded[k].reply != REP_SUCCESS
        {
          assert evs[k - taken] == recorded[k];
        }
      }
    }
  }
}
