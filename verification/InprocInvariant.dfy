/** Counting over the registry: where each connection is, and who is owed a command. */
module InprocInvariant {
  import opened Basics
  import opened Inproc

  /** Counted are the commands still owed to a socket, or the places of a connection. */
  datatype Query = Debt(to: Id) | Place(of: Conn)

  function InPhase(q: Query, phase: Phase): nat {
    match q
    case Debt(s) => Bit(phase.Holding? && phase.peer == s)
    case Place(c) => Bit((phase.Holding? || phase.Missed?) && phase.conn == c)
  }

  function InCmd(q: Query, cmd: Cmd): nat {
    Bit(q.Place? && cmd == BindCmd(q.of))
  }

  function InInbox(q: Query, inbox: seq<Cmd>): nat {
    if inbox == [] then 0 else InInbox(q, inbox[..|inbox| - 1]) + InCmd(q, inbox[|inbox| - 1])
  }

  function InJoined(q: Query, joined: seq<Conn>): nat {
    if joined == [] then 0
    else InJoined(q, joined[..|joined| - 1]) + Bit(q.Place? && joined[|joined| - 1] == q.of)
  }

  function InSock(q: Query, k: Sock): nat {
    InPhase(q, k.phase) + InInbox(q, k.inbox) + InJoined(q, k.joined)
  }

  function InSocks(q: Query, socks: seq<Sock>): nat {
    if socks == [] then 0 else InSocks(q, socks[..|socks| - 1]) + InSock(q, socks[|socks| - 1])
  }

  function InEntry(q: Query, p: Pending): nat {
    match q
    case Debt(s) => Bit(p.socket == s)
    case Place(c) => Bit(p.conn == c)
  }

  function InPending(q: Query, pending: seq<Pending>): nat {
    if pending == [] then 0 else InPending(q, pending[..|pending| - 1]) + InEntry(q, pending[|pending| - 1])
  }

  function Total(q: Query, r: Registry): nat {
    InSocks(q, r.socks) + InPending(q, r.pending)
  }

  /** The sequence numbers taken for s that no command pays for: none, at every step. */
  function Unpaid(r: Registry, s: Id): int
    requires s < |r.socks|
  {
    var k := r.socks[s];
    k.sent - k.processed - |k.inbox| - Total(Debt(s), r)
  }

  // ---------------------------------------------------------------- counting lemmas

  lemma {:induction false} InSocksUpdate(q: Query, socks: seq<Sock>, i: nat, k: Sock)
    requires i < |socks|
    ensures InSocks(q, socks[i := k]) + InSock(q, socks[i]) == InSocks(q, socks) + InSock(q, k)
  {
    var n := |socks| - 1;
    if i == n {
      assert socks[i := k][..n] == socks[..n];
    } else {
      assert socks[i := k][..n] == socks[..n][i := k];
      InSocksUpdate(q, socks[..n], i, k);
    }
  }

  lemma {:induction false} InSocksAtLeast(q: Query, socks: seq<Sock>, i: nat)
    requires i < |socks|
    ensures InSock(q, socks[i]) <= InSocks(q, socks)
  {
    if i < |socks| - 1 { InSocksAtLeast(q, socks[..|socks| - 1], i); }
  }

  lemma {:induction false} InPendingWithout(q: Query, pending: seq<Pending>, k: nat)
    requires k < |pending|
    ensures InPending(q, Without(pending, k)) + InEntry(q, pending[k]) == InPending(q, pending)
  {
    var n := |pending| - 1;
    if k == n {
      assert Without(pending, k) == pending[..n];
    } else {
      InPendingWithout(q, pending[..n], k);
      assert Without(pending, k)[..n - 1] == Without(pending[..n], k);
    }
  }

  lemma {:induction false} InInboxFirst(q: Query, inbox: seq<Cmd>)
    requires inbox != []
    ensures InInbox(q, inbox) == InCmd(q, inbox[0]) + InInbox(q, inbox[1..])
  {
    var n := |inbox| - 1;
    if n > 0 {
      InInboxFirst(q, inbox[..n]);
      assert inbox[1..][..n - 1] == inbox[..n][1..];
    }
  }

  lemma InInboxAppend(q: Query, inbox: seq<Cmd>, cmd: Cmd)
    ensures InInbox(q, inbox + [cmd]) == InInbox(q, inbox) + InCmd(q, cmd)
  {
    assert (inbox + [cmd])[..|inbox|] == inbox;
  }

  lemma InJoinedAppend(q: Query, joined: seq<Conn>, c: Conn)
    ensures InJoined(q, joined + [c]) == InJoined(q, joined) + Bit(q.Place? && c == q.of)
  {
    assert (joined + [c])[..|joined|] == joined;
  }

  // ---------------------------------------------------------------- the small changes

  lemma PutCounts(r: Registry, i: Id, k: Sock, q: Query)
    requires i < |r.socks|
    ensures Total(q, Put(r, i, k)) + InSock(q, r.socks[i]) == Total(q, r) + InSock(q, k)
  {
    InSocksUpdate(q, r.socks, i, k);
  }

  lemma IncCounts(r: Registry, i: Id, q: Query)
    requires i < |r.socks|
    ensures Total(q, Inc(r, i)) == Total(q, r)
  {
    PutCounts(r, i, Inc(r, i).socks[i], q);
  }

  lemma PostCounts(r: Registry, i: Id, cmd: Cmd, q: Query)
    requires i < |r.socks|
    ensures Total(q, Post(r, i, cmd)) == Total(q, r) + InCmd(q, cmd)
  {
    PutCounts(r, i, Post(r, i, cmd).socks[i], q);
    InInboxAppend(q, r.socks[i].inbox, cmd);
  }

  lemma SetPhaseCounts(r: Registry, i: Id, phase: Phase, q: Query)
    requires i < |r.socks|
    ensures Total(q, SetPhase(r, i, phase)) + InPhase(q, r.socks[i].phase) == Total(q, r) + InPhase(q, phase)
  {
    PutCounts(r, i, SetPhase(r, i, phase).socks[i], q);
  }

  lemma JoinCounts(r: Registry, i: Id, conn: Conn, q: Query)
    requires i < |r.socks|
    ensures Total(q, Join(r, i, conn)) == Total(q, r) + Bit(q == Place(conn))
  {
    PutCounts(r, i, Join(r, i, conn).socks[i], q);
    InJoinedAppend(q, r.socks[i].joined, conn);
  }

  lemma PendCounts(r: Registry, p: Pending, q: Query)
    ensures Total(q, r.(pending := r.pending + [p])) == Total(q, r) + InEntry(q, p)
  {
    assert (r.pending + [p])[..|r.pending|] == r.pending;
  }

  lemma DeliverCounts(r: Registry, i: Id, q: Query)
    requires i < |r.socks| && r.socks[i].inbox != []
    ensures Total(q, Deliver(r, i)) == Total(q, r)
  {
    var k := r.socks[i];
    var s := Put(r, i, k.(inbox := k.inbox[1..]));
    PutCounts(r, i, k.(inbox := k.inbox[1..]), q);
    InInboxFirst(q, k.inbox);
    match k.inbox[0]
    case BindCmd(conn) => JoinCounts(s, i, conn, q);
    case InprocConnected => PutCounts(s, i, s.socks[i].(processed := k.processed + 1), q);
  }

  /** A pending connection becomes a joined one, and its connector's debt a command. */
  lemma ConnectOneCounts(r: Registry, b: Id, k: nat, q: Query)
    requires b < |r.socks| && k < |r.pending| && r.pending[k].socket < |r.socks|
    ensures Total(q, ConnectOne(r, b, k)) + Bit(q == Debt(r.pending[k].socket)) == Total(q, r)
  {
    var p := r.pending[k];
    var r1 := r.(pending := Without(r.pending, k));
    InPendingWithout(q, r.pending, k);
    var r2 := Inc(r1, b);
    IncCounts(r1, b, q);
    var r3 := Join(r2, b, p.conn);
    JoinCounts(r2, b, p.conn, q);
    PostCounts(r3, p.socket, InprocConnected, q);
  }
}
