/** Who an inproc address leads to: it is bound once, until its binder gives it up. */
module InprocBinding {
  import opened Basics
  import opened Inproc
  import opened InprocTheorems

  /** The socket that has bound the address. */
  function Binder(r: Registry, a: Addr): Option<Id> {
    if a in r.endpoints then Some(r.endpoints[a]) else None
  }

  /** Joining what waits leaves the addresses alone, and the sockets keep their
      phases and only get more commands and connections. */
  predicate Grows(r: Registry, r': Registry) {
    && r'.endpoints == r.endpoints && |r'.socks| == |r.socks|
    && forall i :: 0 <= i < |r.socks| ==>
         && r'.socks[i].phase == r.socks[i].phase
         && r.socks[i].inbox <= r'.socks[i].inbox && r.socks[i].joined <= r'.socks[i].joined
  }

  lemma ConnectOneGrows(r: Registry, b: Id, k: nat)
    requires b < |r.socks| && k < |r.pending| && r.pending[k].socket < |r.socks|
    ensures Grows(r, ConnectOne(r, b, k))
    ensures r.pending[k].conn in ConnectOne(r, b, k).socks[b].joined
  {
    var p := r.pending[k];
    var joined := r.socks[b].joined + [p.conn];
    assert joined[|joined| - 1] == p.conn;
  }

  lemma GrowsOn(r: Registry, r1: Registry, r2: Registry)
    requires Grows(r, r1) && Grows(r1, r2)
    ensures Grows(r, r2)
  {
    forall i | 0 <= i < |r.socks|
      ensures r.socks[i].inbox <= r2.socks[i].inbox && r.socks[i].joined <= r2.socks[i].joined
    {
      PrefixOfPrefix(r.socks[i].inbox, r1.socks[i].inbox, r2.socks[i].inbox);
      PrefixOfPrefix(r.socks[i].joined, r1.socks[i].joined, r2.socks[i].joined);
    }
  }

  lemma PrefixOfPrefix<T>(a: seq<T>, b: seq<T>, c: seq<T>)
    requires a <= b <= c
    ensures a <= c
  {
  }

  lemma {:induction false} ConnectGrows(r: Registry, b: Id, addr: Addr, k: nat)
    requires b < |r.socks| && PendingOk(r) && k <= |r.pending|
    ensures Grows(r, ConnectFrom(r, b, addr, k))
    decreases |r.pending| - k
  {
    if k < |r.pending| {
      if r.pending[k].conn.addr == addr {
        var r1 := ConnectOne(r, b, k);
        ConnectOneGrows(r, b, k);
        ConnectGrows(r1, b, addr, k);
        GrowsOn(r, r1, ConnectFrom(r1, b, addr, k));
      } else {
        ConnectGrows(r, b, addr, k + 1);
      }
    }
  }

  // ---------------------------------------------------------------- bound once

  /** An address that leads nowhere is bound by registering it; one that leads
      to a socket leads there until that socket unregisters it or closes. */
  lemma BindingStep(r: Registry, t: Step, a: Addr)
    requires Enabled(r, t) && Ranges(r)
    ensures Binder(Next(r, t), a) ==
            if Binder(r, a).None? then if t.Register? && t.addr == a then Some(t.b) else None
            else if t == Unregister(Binder(r, a).value, a) || t == Close(Binder(r, a).value) then None
            else Binder(r, a)
  {
    if t.Connect? { ConnectGrows(r, t.b, r.socks[t.b].phase.addr, 0); }
  }

  /** Registering an address that is in use changes nothing. */
  lemma SecondBindFails(r: Registry, b: Id, a: Addr)
    requires Enabled(r, Register(b, a)) && Ranges(r) && Binder(r, a).Some?
    ensures Next(r, Register(b, a)) == r
  {
  }

  /** b does not give the address up in the steps from i to j. */
  predicate Keeps(ts: seq<Step>, b: Id, a: Addr, i: nat, j: nat) {
    i <= j <= |ts| && forall k :: i <= k < j ==> ts[k] != Unregister(b, a) && ts[k] != Close(b)
  }

  /** In every run an address leads to the socket that bound it, from the bind
      until that socket gives it up, and whoever else binds it fails. */
  lemma {:induction false} BoundOnce(rs: seq<Registry>, ts: seq<Step>, b: Id, a: Addr, i: nat, j: nat)
    requires Run(rs, ts) && i < j && Keeps(ts, b, a, i, j)
    requires ts[i] == Register(b, a) && Binder(rs[i], a).None?
    ensures Binder(rs[j], a) == Some(b)
    ensures forall k, c :: i < k < j && ts[k] == Register(c, a) ==> rs[k + 1] == rs[k]
    decreases j
  {
    BindingStep(rs[j - 1], ts[j - 1], a);
    if i + 1 < j {
      BoundOnce(rs, ts, b, a, i, j - 1);
      if ts[j - 1].Register? && ts[j - 1].addr == a {
        SecondBindFails(rs[j - 1], ts[j - 1].b, a);
      }
    }
  }

  // ---------------------------------------------------------------- where a connection goes

  /** The connection is held for b, on its way to b, or joined by b. */
  predicate GoesTo(r: Registry, conn: Conn, b: Id) {
    && b < |r.socks|
    && (|| (exists c :: 0 <= c < |r.socks| && r.socks[c].phase == Holding(b, conn))
        || BindCmd(conn) in r.socks[b].inbox || conn in r.socks[b].joined)
  }

  lemma HeldStays(r: Registry, t: Step, conn: Conn, b: Id, c: Id)
    requires Enabled(r, t) && Ranges(r) && b < |r.socks| && c < |r.socks| && r.socks[c].phase == Holding(b, conn)
    ensures GoesTo(Next(r, t), conn, b)
  {
    var r' := Next(r, t);
    if t == Bind(c) {
      assert r'.socks[b].inbox == r.socks[b].inbox + [BindCmd(conn)];
    } else {
      if t.Connect? { ConnectGrows(r, t.b, r.socks[t.b].phase.addr, 0); }
      assert r'.socks[c].phase == Holding(b, conn);
    }
  }

  lemma SentStays(r: Registry, t: Step, conn: Conn, b: Id)
    requires Enabled(r, t) && Ranges(r) && b < |r.socks| && BindCmd(conn) in r.socks[b].inbox
    ensures GoesTo(Next(r, t), conn, b)
  {
    var r' := Next(r, t);
    var k, inbox := r.socks[b], r.socks[b].inbox;
    if t == Receive(b) {
      if inbox[0] == BindCmd(conn) {
        assert r'.socks[b].joined == k.joined + [conn];
      } else {
        assert inbox == [inbox[0]] + inbox[1..];
        assert r'.socks[b].inbox == inbox[1..];
      }
    } else {
      if t.Connect? { ConnectGrows(r, t.b, r.socks[t.b].phase.addr, 0); }
      assert inbox <= r'.socks[b].inbox;
    }
  }

  lemma JoinedStays(r: Registry, t: Step, conn: Conn, b: Id)
    requires Enabled(r, t) && Ranges(r) && b < |r.socks| && conn in r.socks[b].joined
    ensures GoesTo(Next(r, t), conn, b)
  {
    if t.Connect? { ConnectGrows(r, t.b, r.socks[t.b].phase.addr, 0); }
    assert r.socks[b].joined <= Next(r, t).socks[b].joined;
  }

  lemma GoesOn(r: Registry, t: Step, conn: Conn, b: Id)
    requires Enabled(r, t) && Ranges(r) && GoesTo(r, conn, b)
    ensures GoesTo(Next(r, t), conn, b)
  {
    if conn in r.socks[b].joined {
      JoinedStays(r, t, conn, b);
    } else if BindCmd(conn) in r.socks[b].inbox {
      SentStays(r, t, conn, b);
    } else {
      var c :| 0 <= c < |r.socks| && r.socks[c].phase == Holding(b, conn);
      HeldStays(r, t, conn, b, c);
    }
  }

  lemma {:induction false} GoesOnInRun(rs: seq<Registry>, ts: seq<Step>, conn: Conn, b: Id, i: nat, j: nat)
    requires Run(rs, ts) && i <= j <= |ts| && GoesTo(rs[i], conn, b)
    ensures GoesTo(rs[j], conn, b)
    decreases j
  {
    if i < j {
      GoesOnInRun(rs, ts, conn, b, i, j - 1);
      GoesOn(rs[j - 1], ts[j - 1], conn, b);
    }
  }

  /** A connection to a bound address is joined by the socket that had bound it
      when the connector looked it up, whatever happens in between. */
  lemma FoundIsJoined(rs: seq<Registry>, ts: seq<Step>, i: nat, c: Id, conn: Conn, b: Id)
    requires Run(rs, ts) && i < |ts| && ts[i] == Find(c, conn) && Binder(rs[i], conn.addr) == Some(b)
    requires Quiet(rs[|ts|])
    ensures b < |rs[|ts|].socks| && conn in rs[|ts|].socks[b].joined
  {
    assert rs[i + 1].socks[c].phase == Holding(b, conn);
    assert GoesTo(rs[i + 1], conn, b);
    GoesOnInRun(rs, ts, conn, b, i + 1, |ts|);
  }

  /** Everything that waits for an address is joined by the socket that binds it. */
  lemma {:induction false} WaitingIsJoined(r: Registry, b: Id, addr: Addr, j: nat, k: nat)
    requires b < |r.socks| && PendingOk(r) && j <= k < |r.pending| && r.pending[k].conn.addr == addr
    ensures r.pending[k].conn in ConnectFrom(r, b, addr, j).socks[b].joined
    decreases |r.pending| - j
  {
    if r.pending[j].conn.addr == addr {
      var r1 := ConnectOne(r, b, j);
      ConnectOneGrows(r, b, j);
      ConnectGrows(r1, b, addr, j);
      if j < k {
        assert r1.pending[k - 1] == r.pending[k];
        WaitingIsJoined(r1, b, addr, j, k - 1);
      }
    } else {
      WaitingIsJoined(r, b, addr, j + 1, k);
    }
  }

  lemma BindJoinsWaiting(r: Registry, b: Id, k: nat)
    requires Enabled(r, Connect(b)) && Ranges(r) && k < |r.pending|
    requires r.pending[k].conn.addr == r.socks[b].phase.addr
    ensures r.pending[k].conn in Next(r, Connect(b)).socks[b].joined
  {
    WaitingIsJoined(r, b, r.socks[b].phase.addr, 0, k);
  }
}
