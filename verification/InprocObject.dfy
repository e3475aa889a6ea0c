/** The registry as an object: ctx_t's maps, changed in place under its lock. */
module InprocObject {
  import opened Basics
  import opened Inproc
  import opened InprocTheorems

  datatype Side = ConnectSide | BindSide

  class CtxT {
    var socks: seq<Sock>
    var endpoints: map<Addr, Id>
    var pending: seq<Pending>
    ghost var started: set<Conn>
    ghost var bound: set<(Addr, Id)>

    constructor ()
      ensures View() == Registry([], map[], [], {}, {})
    {
      socks, endpoints, pending, started, bound := [], map[], [], {}, {};
    }

    ghost function View(): Registry
      reads this
    {
      Registry(socks, endpoints, pending, started, bound)
    }

    method IncSeqnum(i: Id)
      requires i < |socks|
      modifies this`socks
      ensures View() == Inc(old(View()), i)
    {
      socks := socks[i := socks[i].(sent := socks[i].sent + 1)];
    }

    method SendCommand(i: Id, cmd: Cmd)
      requires i < |socks|
      modifies this`socks
      ensures View() == Post(old(View()), i, cmd)
    {
      socks := socks[i := socks[i].(inbox := socks[i].inbox + [cmd])];
    }

    method Enter(i: Id, phase: Phase)
      requires i < |socks|
      modifies this`socks
      ensures View() == SetPhase(old(View()), i, phase)
    {
      socks := socks[i := socks[i].(phase := phase)];
    }

    method ProcessBind(i: Id, conn: Conn)
      requires i < |socks|
      modifies this`socks
      ensures View() == Join(old(View()), i, conn)
    {
      socks := socks[i := socks[i].(joined := socks[i].joined + [conn], processed := socks[i].processed + 1)];
    }

    /** Fails when the address is in use. */
    method Register(addr: Addr, b: Id) returns (rc: int)
      requires b < |socks|
      modifies this
      ensures View() == RegisterEndpoint(old(View()), b, addr)
      ensures (rc == 0 <==> addr !in old(endpoints)) && (rc == 0 || rc == -1)
      ensures rc == 0 ==> endpoints == old(endpoints)[addr := b]
      ensures rc == -1 ==> View() == old(View())
    {
      if addr in endpoints { return -1; }
      endpoints := endpoints[addr := b];
      bound := bound + {(addr, b)};
      Enter(b, Registered(addr));
      return 0;
    }

    /** Fails when the address is not bound, or bound by another socket. */
    method Unregister(addr: Addr, b: Id) returns (rc: int)
      modifies this`endpoints
      ensures View() == UnregisterEndpoint(old(View()), b, addr)
      ensures rc == 0 <==> addr in old(endpoints) && old(endpoints)[addr] == b
    {
      if addr !in endpoints || endpoints[addr] != b { return -1; }
      endpoints := endpoints - {addr};
      return 0;
    }

    /** Unregister every endpoint of a socket. */
    method UnregisterEndpoints(b: Id)
      modifies this`endpoints
      ensures View() == UnregisterAll(old(View()), b)
    {
      var left := endpoints.Keys;
      while left != {}
        invariant left <= endpoints.Keys <= old(endpoints).Keys
        invariant forall a :: a in endpoints ==> endpoints[a] == old(endpoints)[a]
        invariant forall a :: a in old(endpoints) && old(endpoints)[a] != b ==> a in endpoints
        invariant forall a :: a in endpoints && endpoints[a] == b ==> a in left
        decreases left
      {
        var a :| a in left;
        if endpoints[a] == b { endpoints := endpoints - {a}; }
        left := left - {a};
      }
    }

    /** Look a peer up and take a sequence number for it. */
    method Find(c: Id, conn: Conn) returns (peer: Option<Id>)
      requires c < |socks| && (conn.addr in endpoints ==> endpoints[conn.addr] < |socks|)
      modifies this
      ensures View() == FindEndpoint(old(View()), c, conn)
      ensures peer == if conn.addr in old(endpoints) then Some(old(endpoints)[conn.addr]) else None
    {
      started := started + {conn};
      if conn.addr !in endpoints {
        Enter(c, Missed(conn));
        return None;
      }
      var b := endpoints[conn.addr];
      IncSeqnum(b);
      Enter(c, Holding(b, conn));
      return Some(b);
    }

    /** Join a connection with the socket that bound its address. */
    method ConnectInprocSockets(b: Id, p: Pending, side: Side)
      requires b < |socks| && p.socket < |socks|
      modifies this`socks
      ensures side.BindSide? ==> View() == Post(Join(Inc(old(View()), b), b, p.conn), p.socket, InprocConnected)
      ensures side.ConnectSide? ==> View() == Post(Inc(old(View()), b), b, BindCmd(p.conn))
    {
      IncSeqnum(b);
      if side == BindSide {
        ProcessBind(b, p.conn);
        SendCommand(p.socket, InprocConnected);
      } else {
        SendCommand(b, BindCmd(p.conn));
      }
    }

    /** Wait for the address to be bound, unless it has been in the meantime. */
    method Pend(c: Id)
      requires c < |socks| && socks[c].phase.Missed?
      requires socks[c].phase.conn.addr in endpoints ==> endpoints[socks[c].phase.conn.addr] < |socks|
      modifies this
      ensures View() == PendConnection(old(View()), c)
    {
      var conn := socks[c].phase.conn;
      if conn.addr !in endpoints {
        pending := pending + [Pending(c, conn)];
        IncSeqnum(c);
      } else {
        ConnectInprocSockets(endpoints[conn.addr], Pending(c, conn), ConnectSide);
      }
      Enter(c, Idle);
    }

    /** Join everything that waits for the address. */
    method ConnectAll(addr: Addr, b: Id)
      requires b < |socks| && PendingOk(View())
      modifies this
      ensures View() == ConnectPending(old(View()), b, addr)
    {
      var k := 0;
      while k < |pending|
        invariant k <= |pending| && b < |socks| && PendingOk(View())
        invariant ConnectFrom(View(), b, addr, k) == ConnectFrom(old(View()), b, addr, 0)
        decreases |pending| - k
      {
        var p := pending[k];
        if p.conn.addr == addr {
          ghost var r := View();
          pending := Without(pending, k);
          ConnectInprocSockets(b, p, BindSide);
          assert View() == ConnectOne(r, b, k);
        } else {
          k := k + 1;
        }
      }
      Enter(b, Idle);
    }

    /** process_command, for the commands that end a rendezvous. */
    method ProcessCommand(i: Id)
      requires i < |socks| && socks[i].inbox != []
      modifies this`socks
      ensures View() == Deliver(old(View()), i)
    {
      var cmd := socks[i].inbox[0];
      socks := socks[i := socks[i].(inbox := socks[i].inbox[1..])];
      match cmd
      case BindCmd(conn) => ProcessBind(i, conn);
      case InprocConnected => socks := socks[i := socks[i].(processed := socks[i].processed + 1)];
    }

    method Open()
      requires Ranges(View())
      modifies this`socks
      ensures View() == Next(old(View()), Step.Open)
    {
      socks := socks + [NEW_SOCK];
    }

    /** send_bind to the peer that was found. */
    method Bind(c: Id)
      requires c < |socks| && socks[c].phase.Holding? && socks[c].phase.peer < |socks|
      modifies this`socks
      ensures View() == SendBind(old(View()), c)
    {
      SendCommand(socks[c].phase.peer, BindCmd(socks[c].phase.conn));
      Enter(c, Idle);
    }

    /** process_term of a socket. */
    method Close(i: Id)
      requires i < |socks| && Enabled(View(), Step.Close(i)) && Ranges(View())
      modifies this
      ensures View() == Next(old(View()), Step.Close(i))
    {
      UnregisterEndpoints(i);
      socks := socks[i := socks[i].(closing := true)];
    }

    method Destroy(i: Id)
      requires Enabled(View(), Step.Destroy(i)) && Ranges(View())
      modifies this`socks
      ensures View() == Next(old(View()), Step.Destroy(i))
    {
      socks := socks[i := socks[i].(alive := false)];
    }

    method Perform(t: Step)
      requires Enabled(View(), t) && Ranges(View())
      modifies this
      ensures View() == Next(old(View()), t)
    {
      match t
      case Open => Open();
      case Find(c, conn) => var peer := Find(c, conn);
      case Bind(c) => Bind(c);
      case Pend(c) => Pend(c);
      case Register(b, addr) => var rc := Register(addr, b);
      case Connect(b) => ConnectAll(socks[b].phase.addr, b);
      case Unregister(b, addr) => var rc := Unregister(addr, b);
      case Close(i) => Close(i);
      case Receive(i) => ProcessCommand(i);
      case Destroy(i) => Destroy(i);
    }
  }

  /** Whatever the threads do, call by call, the registry is in a reachable state after it. */
  method Operate(ts: seq<Step>, ghost rs: seq<Registry>) returns (ctx: CtxT)
    requires Run(rs, ts)
    ensures ctx.View() == rs[|ts|] && Reachable(ctx.View())
  {
    ctx := new CtxT();
    for i := 0 to |ts|
      invariant fresh(ctx) && ctx.View() == rs[i]
    {
      ctx.Perform(ts[i]);
    }
  }
}
