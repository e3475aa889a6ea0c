/** The rendezvous comes to rest: what is begun can go on, and cannot go on for ever. */
module InprocProgress {
  import opened Inproc
  import opened InprocInvariant
  import opened InprocTheorems

  function PhaseWork(phase: Phase): nat {
    match phase
    case Idle => 0
    case Registered(_) => 1
    case Holding(_, _) => 2
    case Missed(_) => 3
  }

  function SockWork(k: Sock): nat {
    PhaseWork(k.phase) + |k.inbox|
  }

  function SocksWork(socks: seq<Sock>): nat {
    if socks == [] then 0 else SocksWork(socks[..|socks| - 1]) + SockWork(socks[|socks| - 1])
  }

  /** Calls to be finished, commands to be delivered, connections to be joined. */
  function Work(r: Registry): nat {
    SocksWork(r.socks) + 2 * |r.pending|
  }

  /** A step of a call or a command that is already under way. */
  predicate Continues(t: Step) {
    t.Bind? || t.Pend? || t.Connect? || t.Receive?
  }

  lemma {:induction false} SocksWorkUpdate(socks: seq<Sock>, i: nat, k: Sock)
    requires i < |socks|
    ensures SocksWork(socks[i := k]) + SockWork(socks[i]) == SocksWork(socks) + SockWork(k)
  {
    var n := |socks| - 1;
    if i == n {
      assert socks[i := k][..n] == socks[..n];
    } else {
      assert socks[i := k][..n] == socks[..n][i := k];
      SocksWorkUpdate(socks[..n], i, k);
    }
  }

  lemma PutWork(r: Registry, i: Id, k: Sock)
    requires i < |r.socks|
    ensures Work(Put(r, i, k)) + SockWork(r.socks[i]) == Work(r) + SockWork(k)
  {
    SocksWorkUpdate(r.socks, i, k);
  }

  lemma PostWork(r: Registry, i: Id, cmd: Cmd)
    requires i < |r.socks|
    ensures Work(Post(r, i, cmd)) == Work(r) + 1
  {
    PutWork(r, i, Post(r, i, cmd).socks[i]);
  }

  lemma IncWork(r: Registry, i: Id)
    requires i < |r.socks|
    ensures Work(Inc(r, i)) == Work(r)
  {
    PutWork(r, i, Inc(r, i).socks[i]);
  }

  lemma IdleWork(r: Registry, i: Id)
    requires i < |r.socks|
    ensures Work(SetPhase(r, i, Idle)) + PhaseWork(r.socks[i].phase) == Work(r)
  {
    PutWork(r, i, SetPhase(r, i, Idle).socks[i]);
  }

  lemma ConnectOneWork(r: Registry, b: Id, k: nat)
    requires b < |r.socks| && k < |r.pending| && r.pending[k].socket < |r.socks|
    ensures Work(ConnectOne(r, b, k)) < Work(r)
    ensures ConnectOne(r, b, k).socks[b].phase == r.socks[b].phase
  {
    var p := r.pending[k];
    var r1 := r.(pending := Without(r.pending, k));
    var r2 := Inc(r1, b);
    IncWork(r1, b);
    var r3 := Join(r2, b, p.conn);
    PutWork(r2, b, r3.socks[b]);
    PostWork(r3, p.socket, InprocConnected);
  }

  lemma {:induction false} ConnectFromWork(r: Registry, b: Id, addr: Addr, k: nat)
    requires b < |r.socks| && PendingOk(r) && k <= |r.pending|
    ensures Work(ConnectFrom(r, b, addr, k)) <= Work(r)
    ensures ConnectFrom(r, b, addr, k).socks[b].phase == r.socks[b].phase
    decreases |r.pending| - k
  {
    if k == |r.pending| {
    } else if r.pending[k].conn.addr == addr {
      ConnectOneWork(r, b, k);
      ConnectFromWork(ConnectOne(r, b, k), b, addr, k);
    } else {
      ConnectFromWork(r, b, addr, k + 1);
    }
  }

  lemma DeliverWork(r: Registry, i: Id)
    requires i < |r.socks| && r.socks[i].inbox != []
    ensures Work(Deliver(r, i)) < Work(r)
  {
    var k := r.socks[i];
    var k1 := k.(inbox := k.inbox[1..]);
    var r1 := Put(r, i, k1);
    PutWork(r, i, k1);
    PutWork(r1, i, Deliver(r, i).socks[i]);
  }

  /** Going on always brings the rest nearer. */
  lemma ContinuingLowersWork(r: Registry, t: Step)
    requires Ranges(r) && Enabled(r, t) && Continues(t)
    ensures Work(Next(r, t)) < Work(r)
  {
    match t
    case Bind(c) =>
      var r1 := Post(r, r.socks[c].phase.peer, BindCmd(r.socks[c].phase.conn));
      PostWork(r, r.socks[c].phase.peer, BindCmd(r.socks[c].phase.conn));
      IdleWork(r1, c);
    case Pend(c) =>
      PendWork(r, c);
    case Connect(b) =>
      ConnectFromWork(r, b, r.socks[b].phase.addr, 0);
      IdleWork(ConnectFrom(r, b, r.socks[b].phase.addr, 0), b);
    case Receive(s) =>
      DeliverWork(r, s);
  }

  lemma PendWork(r: Registry, c: Id)
    requires Ranges(r) && Live(r, c) && r.socks[c].phase.Missed?
    ensures Work(PendConnection(r, c)) < Work(r)
  {
    var conn := r.socks[c].phase.conn;
    if conn.addr in r.endpoints {
      var b := r.endpoints[conn.addr];
      IncWork(r, b);
      PostWork(Inc(r, b), b, BindCmd(conn));
      IdleWork(Post(Inc(r, b), b, BindCmd(conn)), c);
    } else {
      var r0 := r.(pending := r.pending + [Pending(c, conn)]);
      IncWork(r0, c);
      IdleWork(Inc(r0, c), c);
    }
  }

  /** While anything is under way, it can go on: no thread waits for another. */
  lemma UnquietContinues(r: Registry) returns (t: Step)
    requires Reachable(r) && !Quiet(r)
    ensures Enabled(r, t) && Continues(t)
  {
    ReachableInv(r);
    var i :| 0 <= i < |r.socks| && !(r.socks[i].phase.Idle? && r.socks[i].inbox == []);
    assert SockOk(r.bound, i, r.socks[i]);
    assert Unpaid(r, i) == 0;
    t := match r.socks[i].phase
      case Idle => Receive(i)
      case Holding(_, _) => Bind(i)
      case Missed(_) => Pend(i)
      case Registered(_) => Connect(i);
  }

  lemma RunExtends(rs: seq<Registry>, ts: seq<Step>, t: Step)
    requires Run(rs, ts) && Enabled(rs[|ts|], t) && Ranges(rs[|ts|])
    ensures Run(rs + [Next(rs[|ts|], t)], ts + [t])
  {
    var rs', ts' := rs + [Next(rs[|ts|], t)], ts + [t];
    forall i | 0 <= i < |ts'|
      ensures Enabled(rs'[i], ts'[i]) && Ranges(rs'[i]) && rs'[i + 1] == Next(rs'[i], ts'[i])
    {
      assert rs'[i] == rs[i];
      if i < |ts| {
        assert ts'[i] == ts[i] && rs'[i + 1] == rs[i + 1];
      }
    }
  }

  /** From every reachable state the calls and commands under way lead to rest,
      in at most Work steps. */
  lemma {:induction false} ComesToRest(rs: seq<Registry>, ts: seq<Step>) returns (rs': seq<Registry>, ts': seq<Step>)
    requires Run(rs, ts)
    ensures Run(rs', ts') && rs <= rs' && ts <= ts' && Quiet(rs'[|ts'|])
    ensures |ts'| <= |ts| + Work(rs[|ts|])
    ensures forall i :: |ts| <= i < |ts'| ==> Continues(ts'[i])
    decreases Work(rs[|ts|])
  {
    var r := rs[|ts|];
    rs', ts' := rs, ts;
    if !Quiet(r) {
      RunKeepsInv(rs, ts);
      var t := UnquietContinues(r);
      ContinuingLowersWork(r, t);
      RunExtends(rs, ts, t);
      rs', ts' := ComesToRest(rs + [Next(r, t)], ts + [t]);
    }
  }
}
