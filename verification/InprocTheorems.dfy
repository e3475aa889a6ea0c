/** Every run of the inproc rendezvous joins each connection once and pays every sequence number. */
module InprocTheorems {
  import opened Basics
  import opened Inproc
  import opened InprocInvariant

  // ---------------------------------------------------------------- shape

  predicate SockOk(bound: set<(Addr, Id)>, i: Id, k: Sock) {
    && (!k.alive ==> k.closing && k.sent == k.processed)
    && (k.closing ==> k.phase.Idle?)
    && (k.phase.Holding? ==> (k.phase.conn.addr, k.phase.peer) in bound)
    && (k.phase.Registered? ==> (k.phase.addr, i) in bound)
    && (forall j :: 0 <= j < |k.inbox| && k.inbox[j].BindCmd? ==> (k.inbox[j].conn.addr, i) in bound)
    && (forall j :: 0 <= j < |k.joined| ==> (k.joined[j].addr, i) in bound)
  }

  predicate SocksOk(r: Registry) {
    forall i :: 0 <= i < |r.socks| ==> SockOk(r.bound, i, r.socks[i])
  }

  predicate EndpointsOk(r: Registry) {
    forall a :: a in r.endpoints ==>
      Live(r, r.endpoints[a]) && !r.socks[r.endpoints[a]].closing && (a, r.endpoints[a]) in r.bound
  }

  /** A connection waits only while its address is not bound, or its binder is
      about to connect it. */
  predicate Waits(r: Registry, a: Addr) {
    a in r.endpoints ==> r.endpoints[a] < |r.socks| && r.socks[r.endpoints[a]].phase == Registered(a)
  }

  predicate WaitingOk(r: Registry) {
    forall k :: 0 <= k < |r.pending| ==> Waits(r, r.pending[k].conn.addr)
  }

  predicate Shape(r: Registry) {
    Ranges(r) && SocksOk(r) && EndpointsOk(r) && WaitingOk(r)
  }

  // ---------------------------------------------------------------- counts

  predicate Paid(r: Registry) {
    forall s :: 0 <= s < |r.socks| ==> Unpaid(r, s) == 0
  }

  ghost predicate Once(r: Registry) {
    forall c: Conn :: Total(Place(c), r) == Bit(c in r.started)
  }

  ghost predicate Inv(r: Registry) {
    Shape(r) && Paid(r) && Once(r)
  }

  // ---------------------------------------------------------------- one socket changes

  /** What a socket may become without disturbing the others. */
  predicate Harmless(r: Registry, i: Id, k: Sock)
    requires i < |r.socks|
  {
    && SockOk(r.bound, i, k)
    && (k.phase.Holding? ==> k.phase.peer < |r.socks|)
    && ((k.alive && !k.closing) || (r.socks[i].closing && k.closing))
    && (r.socks[i].phase.Registered? ==> k.phase == r.socks[i].phase)
  }

  lemma PutKeepsShape(r: Registry, i: Id, k: Sock)
    requires Shape(r) && i < |r.socks| && Harmless(r, i, k)
    ensures Shape(Put(r, i, k))
  {
    var q := Put(r, i, k);
    forall a | a in q.endpoints
      ensures Live(q, q.endpoints[a]) && !q.socks[q.endpoints[a]].closing && (a, q.endpoints[a]) in q.bound
    {
      assert Live(r, r.endpoints[a]);
    }
    forall j | 0 <= j < |q.pending|
      ensures Waits(q, q.pending[j].conn.addr)
    {
      assert Waits(r, r.pending[j].conn.addr);
    }
  }

  lemma IncKeepsShape(r: Registry, i: Id)
    requires Shape(r) && Live(r, i) && !r.socks[i].closing
    ensures Shape(Inc(r, i))
  {
    PutKeepsShape(r, i, Inc(r, i).socks[i]);
  }

  lemma PostKeepsShape(r: Registry, i: Id, cmd: Cmd)
    requires Shape(r) && Live(r, i) && (cmd.BindCmd? ==> (cmd.conn.addr, i) in r.bound)
    ensures Shape(Post(r, i, cmd))
  {
    PutKeepsShape(r, i, Post(r, i, cmd).socks[i]);
  }

  lemma SetPhaseKeepsShape(r: Registry, i: Id, phase: Phase)
    requires Shape(r) && Live(r, i) && !r.socks[i].closing && !r.socks[i].phase.Registered?
    requires phase.Holding? ==> phase.peer < |r.socks| && (phase.conn.addr, phase.peer) in r.bound
    requires !phase.Registered?
    ensures Shape(SetPhase(r, i, phase))
  {
    PutKeepsShape(r, i, SetPhase(r, i, phase).socks[i]);
  }

  lemma JoinKeepsShape(r: Registry, i: Id, conn: Conn)
    requires Shape(r) && Live(r, i) && (conn.addr, i) in r.bound
    ensures Shape(Join(r, i, conn))
  {
    PutKeepsShape(r, i, Join(r, i, conn).socks[i]);
  }

  /** A sequence number taken for a socket keeps it alive. */
  lemma OwedIsLive(r: Registry, s: Id)
    requires Inv(r) && s < |r.socks| && Total(Debt(s), r) > 0
    ensures Live(r, s)
  {
    assert SockOk(r.bound, s, r.socks[s]);
    assert Unpaid(r, s) == 0;
  }

  lemma HeldIsLive(r: Registry, c: Id)
    requires Inv(r) && c < |r.socks| && r.socks[c].phase.Holding?
    ensures Live(r, r.socks[c].phase.peer)
  {
    var q := Debt(r.socks[c].phase.peer);
    InSocksAtLeast(q, r.socks, c);
    OwedIsLive(r, r.socks[c].phase.peer);
  }

  lemma PendingIsLive(r: Registry, k: nat)
    requires Inv(r) && k < |r.pending|
    ensures Live(r, r.pending[k].socket)
  {
    InPendingWithout(Debt(r.pending[k].socket), r.pending, k);
    OwedIsLive(r, r.pending[k].socket);
  }

  // ---------------------------------------------------------------- the connector's steps

  /** A change of the registry that takes and pays alike, and starts the given connections. */
  ghost predicate Balanced(r: Registry, r': Registry, begun: set<Conn>) {
    && |r'.socks| == |r.socks| && r'.started == r.started + begun
    && (forall s :: 0 <= s < |r.socks| ==> Unpaid(r', s) == Unpaid(r, s))
    && (forall c: Conn :: Total(Place(c), r') == Total(Place(c), r) + Bit(c in begun))
  }

  lemma BalancedKeeps(r: Registry, r': Registry, begun: set<Conn>)
    requires Inv(r) && Shape(r') && Balanced(r, r', begun) && begun !! r.started
    ensures Inv(r')
  {
    forall s | 0 <= s < |r'.socks|
      ensures Unpaid(r', s) == 0
    {
      assert Unpaid(r, s) == 0;
    }
  }

  lemma FindBalances(r: Registry, c: Id, conn: Conn)
    requires Free(r, c) && (conn.addr in r.endpoints ==> r.endpoints[conn.addr] < |r.socks|)
    ensures Balanced(r, FindEndpoint(r, c, conn), {conn})
  {
    var r' := FindEndpoint(r, c, conn);
    var r0 := r.(started := r.started + {conn});
    if conn.addr in r.endpoints {
      var b := r.endpoints[conn.addr];
      forall q: Query ensures Total(q, r') == Total(q, r) + InPhase(q, Holding(b, conn)) {
        IncCounts(r0, b, q);
        SetPhaseCounts(Inc(r0, b), c, Holding(b, conn), q);
      }
    } else {
      forall q: Query ensures Total(q, r') == Total(q, r) + InPhase(q, Missed(conn)) {
        SetPhaseCounts(r0, c, Missed(conn), q);
      }
    }
  }

  lemma FindKeepsInv(r: Registry, c: Id, conn: Conn)
    requires Inv(r) && Free(r, c) && conn !in r.started
    ensures Inv(FindEndpoint(r, c, conn))
  {
    var r0 := r.(started := r.started + {conn});
    if conn.addr in r.endpoints {
      var b := r.endpoints[conn.addr];
      assert Live(r, b);
      IncKeepsShape(r0, b);
      SetPhaseKeepsShape(Inc(r0, b), c, Holding(b, conn));
    } else {
      SetPhaseKeepsShape(r0, c, Missed(conn));
    }
    FindBalances(r, c, conn);
    BalancedKeeps(r, FindEndpoint(r, c, conn), {conn});
  }

  lemma BindBalances(r: Registry, c: Id)
    requires Live(r, c) && r.socks[c].phase.Holding? && r.socks[c].phase.peer < |r.socks|
    ensures Balanced(r, SendBind(r, c), {})
  {
    var peer, conn := r.socks[c].phase.peer, r.socks[c].phase.conn;
    var r' := SendBind(r, c);
    forall q: Query ensures Total(q, r') + InPhase(q, r.socks[c].phase) == Total(q, r) + InCmd(q, BindCmd(conn)) {
      PostCounts(r, peer, BindCmd(conn), q);
      SetPhaseCounts(Post(r, peer, BindCmd(conn)), c, Idle, q);
    }
  }

  lemma BindKeepsInv(r: Registry, c: Id)
    requires Inv(r) && Live(r, c) && r.socks[c].phase.Holding?
    ensures Inv(SendBind(r, c))
  {
    var peer, conn := r.socks[c].phase.peer, r.socks[c].phase.conn;
    HeldIsLive(r, c);
    assert SockOk(r.bound, c, r.socks[c]);
    PostKeepsShape(r, peer, BindCmd(conn));
    SetPhaseKeepsShape(Post(r, peer, BindCmd(conn)), c, Idle);
    BindBalances(r, c);
    BalancedKeeps(r, SendBind(r, c), {});
  }

  lemma PendDirectlyBalances(r: Registry, c: Id, conn: Conn, b: Id)
    requires Live(r, c) && r.socks[c].phase == Missed(conn) && b < |r.socks|
    ensures Balanced(r, SetPhase(Post(Inc(r, b), b, BindCmd(conn)), c, Idle), {})
  {
    var r2 := Post(Inc(r, b), b, BindCmd(conn));
    var r' := SetPhase(r2, c, Idle);
    forall q: Query ensures Total(q, r') + InPhase(q, Missed(conn)) == Total(q, r) + InCmd(q, BindCmd(conn)) {
      IncCounts(r, b, q);
      PostCounts(Inc(r, b), b, BindCmd(conn), q);
      SetPhaseCounts(r2, c, Idle, q);
    }
  }

  lemma PendAndWaitBalances(r: Registry, c: Id, conn: Conn)
    requires Live(r, c) && r.socks[c].phase == Missed(conn)
    ensures Balanced(r, SetPhase(Inc(r.(pending := r.pending + [Pending(c, conn)]), c), c, Idle), {})
  {
    var p := Pending(c, conn);
    var r0 := r.(pending := r.pending + [p]);
    var r' := SetPhase(Inc(r0, c), c, Idle);
    forall q: Query ensures Total(q, r') + InPhase(q, Missed(conn)) == Total(q, r) + InEntry(q, p) {
      PendCounts(r, p, q);
      IncCounts(r0, c, q);
      SetPhaseCounts(Inc(r0, c), c, Idle, q);
    }
  }

  lemma PendKeepsInv(r: Registry, c: Id)
    requires Inv(r) && Live(r, c) && r.socks[c].phase.Missed?
    ensures Inv(PendConnection(r, c))
  {
    var conn := r.socks[c].phase.conn;
    assert SockOk(r.bound, c, r.socks[c]);
    if conn.addr in r.endpoints {
      var b := r.endpoints[conn.addr];
      assert Live(r, b);
      IncKeepsShape(r, b);
      PostKeepsShape(Inc(r, b), b, BindCmd(conn));
      SetPhaseKeepsShape(Post(Inc(r, b), b, BindCmd(conn)), c, Idle);
      PendDirectlyBalances(r, c, conn, b);
    } else {
      var r0 := r.(pending := r.pending + [Pending(c, conn)]);
      assert Shape(r0);
      IncKeepsShape(r0, c);
      SetPhaseKeepsShape(Inc(r0, c), c, Idle);
      PendAndWaitBalances(r, c, conn);
    }
    BalancedKeeps(r, PendConnection(r, c), {});
  }

  // ---------------------------------------------------------------- the binder's steps

  lemma RegisterKeepsInv(r: Registry, b: Id, addr: Addr)
    requires Inv(r) && Free(r, b)
    ensures Inv(RegisterEndpoint(r, b, addr))
  {
    if CanRegister(r, addr) {
      var r' := RegisterEndpoint(r, b, addr);
      RegisterShape(r, b, addr);
      forall q: Query ensures Total(q, r') == Total(q, r) {
        SetPhaseCounts(r, b, Registered(addr), q);
      }
      BalancedKeeps(r, r', {});
    }
  }

  lemma RegisterShape(r: Registry, b: Id, addr: Addr)
    requires Shape(r) && Free(r, b) && CanRegister(r, addr)
    ensures Shape(RegisterEndpoint(r, b, addr))
  {
    var r' := RegisterEndpoint(r, b, addr);
    forall i | 0 <= i < |r'.socks|
      ensures SockOk(r'.bound, i, r'.socks[i])
    {
      assert SockOk(r.bound, i, r.socks[i]);
    }
    forall k | 0 <= k < |r'.pending|
      ensures Waits(r', r'.pending[k].conn.addr)
    {
      assert Waits(r, r.pending[k].conn.addr);
    }
  }

  lemma ConnectOneShape(r: Registry, b: Id, k: nat)
    requires Shape(r) && Live(r, b) && k < |r.pending| && Live(r, r.pending[k].socket)
    requires r.socks[b].phase == Registered(r.pending[k].conn.addr)
    ensures Shape(ConnectOne(r, b, k))
    ensures Live(ConnectOne(r, b, k), b) && ConnectOne(r, b, k).socks[b].phase == r.socks[b].phase
  {
    var p := r.pending[k];
    var r1 := r.(pending := Without(r.pending, k));
    assert Shape(r1);
    assert SockOk(r.bound, b, r.socks[b]);
    IncKeepsShape(r1, b);
    JoinKeepsShape(Inc(r1, b), b, p.conn);
    PostKeepsShape(Join(Inc(r1, b), b, p.conn), p.socket, InprocConnected);
  }

  lemma ConnectOneBalances(r: Registry, b: Id, k: nat)
    requires b < |r.socks| && k < |r.pending| && r.pending[k].socket < |r.socks|
    ensures Balanced(r, ConnectOne(r, b, k), {})
  {
    var r' := ConnectOne(r, b, k);
    forall q: Query ensures Total(q, r') + Bit(q == Debt(r.pending[k].socket)) == Total(q, r) {
      ConnectOneCounts(r, b, k, q);
    }
  }

  predicate NonePending(r: Registry, addr: Addr, k: nat) {
    k <= |r.pending| && forall j :: 0 <= j < k ==> r.pending[j].conn.addr != addr
  }

  lemma {:induction false} ConnectFromKeepsInv(r: Registry, b: Id, addr: Addr, k: nat)
    requires Inv(r) && Live(r, b) && r.socks[b].phase == Registered(addr) && NonePending(r, addr, k)
    ensures var r' := ConnectFrom(r, b, addr, k);
            Inv(r') && Live(r', b) && r'.socks[b].phase == Registered(addr) && NonePending(r', addr, |r'.pending|)
    decreases |r.pending| - k
  {
    if k == |r.pending| {
    } else if r.pending[k].conn.addr == addr {
      PendingIsLive(r, k);
      ConnectOneShape(r, b, k);
      ConnectOneBalances(r, b, k);
      BalancedKeeps(r, ConnectOne(r, b, k), {});
      ConnectFromKeepsInv(ConnectOne(r, b, k), b, addr, k);
    } else {
      ConnectFromKeepsInv(r, b, addr, k + 1);
    }
  }

  lemma ConnectKeepsInv(r: Registry, b: Id)
    requires Inv(r) && Live(r, b) && r.socks[b].phase.Registered?
    ensures Inv(ConnectPending(r, b, r.socks[b].phase.addr))
  {
    var addr := r.socks[b].phase.addr;
    ConnectFromKeepsInv(r, b, addr, 0);
    var r1 := ConnectFrom(r, b, addr, 0);
    DoneShape(r1, b, addr);
    var r' := SetPhase(r1, b, Idle);
    forall q: Query ensures Total(q, r') == Total(q, r1) {
      SetPhaseCounts(r1, b, Idle, q);
    }
    BalancedKeeps(r1, r', {});
  }

  lemma DoneShape(r: Registry, b: Id, addr: Addr)
    requires Shape(r) && Live(r, b) && r.socks[b].phase == Registered(addr) && NonePending(r, addr, |r.pending|)
    ensures Shape(SetPhase(r, b, Idle))
  {
    var r' := SetPhase(r, b, Idle);
    assert SockOk(r.bound, b, r.socks[b]);
    forall a | a in r'.endpoints
      ensures Live(r', r'.endpoints[a]) && !r'.socks[r'.endpoints[a]].closing && (a, r'.endpoints[a]) in r'.bound
    {
      assert Live(r, r.endpoints[a]);
    }
    forall k | 0 <= k < |r'.pending|
      ensures Waits(r', r'.pending[k].conn.addr)
    {
      assert Waits(r, r.pending[k].conn.addr);
    }
  }

  // ---------------------------------------------------------------- the other steps

  /** Fewer endpoints disturb nothing. */
  lemma UnregisterKeepsInv(r: Registry, endpoints: map<Addr, Id>)
    requires Inv(r) && forall a :: a in endpoints ==> a in r.endpoints && endpoints[a] == r.endpoints[a]
    ensures Inv(r.(endpoints := endpoints))
  {
    var r' := r.(endpoints := endpoints);
    forall a | a in r'.endpoints
      ensures Live(r', r'.endpoints[a]) && !r'.socks[r'.endpoints[a]].closing && (a, r'.endpoints[a]) in r'.bound
    {
      assert Live(r, r.endpoints[a]);
    }
    forall k | 0 <= k < |r'.pending|
      ensures Waits(r', r'.pending[k].conn.addr)
    {
      assert Waits(r, r.pending[k].conn.addr);
    }
    assert forall q: Query :: Total(q, r') == Total(q, r);
    BalancedKeeps(r, r', {});
  }

  /** A socket that no address leads to is closed or destroyed. */
  lemma RetireKeepsInv(r: Registry, s: Id, k: Sock)
    requires Inv(r) && Live(r, s) && k == r.socks[s].(closing := true, alive := k.alive)
    requires r.socks[s].phase.Idle? && (!k.alive ==> k.sent == k.processed)
    requires forall a :: a in r.endpoints ==> r.endpoints[a] != s
    ensures Inv(Put(r, s, k))
  {
    var r' := Put(r, s, k);
    assert SockOk(r.bound, s, r.socks[s]);
    forall a | a in r'.endpoints
      ensures Live(r', r'.endpoints[a]) && !r'.socks[r'.endpoints[a]].closing && (a, r'.endpoints[a]) in r'.bound
    {
      assert Live(r, r.endpoints[a]);
    }
    forall j | 0 <= j < |r'.pending|
      ensures Waits(r', r'.pending[j].conn.addr)
    {
      assert Waits(r, r.pending[j].conn.addr);
    }
    forall q: Query ensures Total(q, r') == Total(q, r) {
      PutCounts(r, s, k, q);
    }
    BalancedKeeps(r, r', {});
  }

  lemma TakeKeepsShape(r: Registry, i: Id)
    requires Shape(r) && Live(r, i) && r.socks[i].inbox != []
    ensures Shape(Put(r, i, r.socks[i].(inbox := r.socks[i].inbox[1..])))
    ensures r.socks[i].inbox[0].BindCmd? ==> (r.socks[i].inbox[0].conn.addr, i) in r.bound
  {
    var k := r.socks[i];
    assert SockOk(r.bound, i, k);
    PutKeepsShape(r, i, k.(inbox := k.inbox[1..]));
  }

  lemma DeliverShape(r: Registry, i: Id)
    requires Shape(r) && Live(r, i) && r.socks[i].inbox != []
    ensures Shape(Deliver(r, i))
  {
    var k := r.socks[i];
    TakeKeepsShape(r, i);
    var r1 := Put(r, i, k.(inbox := k.inbox[1..]));
    match k.inbox[0]
    case BindCmd(conn) => JoinKeepsShape(r1, i, conn);
    case InprocConnected =>
      assert SockOk(r1.bound, i, r1.socks[i]);
      PutKeepsShape(r1, i, r1.socks[i].(processed := k.processed + 1));
  }

  lemma DeliverKeepsInv(r: Registry, i: Id)
    requires Inv(r) && Live(r, i) && r.socks[i].inbox != []
    ensures Inv(Deliver(r, i))
  {
    var r' := Deliver(r, i);
    DeliverShape(r, i);
    forall q: Query ensures Total(q, r') == Total(q, r) {
      DeliverCounts(r, i, q);
    }
    BalancedKeeps(r, r', {});
  }

  lemma OpenKeepsInv(r: Registry)
    requires Inv(r)
    ensures Inv(r.(socks := r.socks + [NEW_SOCK]))
  {
    var r' := r.(socks := r.socks + [NEW_SOCK]);
    forall q: Query ensures Total(q, r') == Total(q, r) {
      assert r'.socks[..|r.socks|] == r.socks;
    }
    NobodyOwes(r, |r.socks|);
    forall s | 0 <= s < |r'.socks|
      ensures Unpaid(r', s) == 0
    {
      if s < |r.socks| { assert Unpaid(r, s) == 0; }
    }
    OpenShape(r);
  }

  lemma OpenShape(r: Registry)
    requires Shape(r)
    ensures Shape(r.(socks := r.socks + [NEW_SOCK]))
  {
    var r' := r.(socks := r.socks + [NEW_SOCK]);
    forall a | a in r'.endpoints
      ensures Live(r', r'.endpoints[a]) && !r'.socks[r'.endpoints[a]].closing && (a, r'.endpoints[a]) in r'.bound
    {
      assert Live(r, r.endpoints[a]);
    }
    forall k | 0 <= k < |r'.pending|
      ensures Waits(r', r'.pending[k].conn.addr)
    {
      assert Waits(r, r.pending[k].conn.addr);
    }
  }

  /** No command is owed to a socket that does not exist yet. */
  lemma NobodyOwes(r: Registry, s: Id)
    requires Ranges(r) && |r.socks| <= s
    ensures Total(Debt(s), r) == 0
  {
    SocksOweNothing(r.socks, s);
    PendingOwesNothing(r.pending, s);
  }

  lemma {:induction false} NoDebtInside(inbox: seq<Cmd>, joined: seq<Conn>, s: Id)
    ensures InInbox(Debt(s), inbox) == 0 && InJoined(Debt(s), joined) == 0
    decreases |inbox| + |joined|
  {
    if inbox != [] {
      NoDebtInside(inbox[..|inbox| - 1], joined, s);
    } else if joined != [] {
      NoDebtInside(inbox, joined[..|joined| - 1], s);
    }
  }

  lemma {:induction false} SocksOweNothing(socks: seq<Sock>, s: Id)
    requires forall i :: 0 <= i < |socks| && socks[i].phase.Holding? ==> socks[i].phase.peer < s
    ensures InSocks(Debt(s), socks) == 0
  {
    if socks != [] {
      var k := socks[|socks| - 1];
      SocksOweNothing(socks[..|socks| - 1], s);
      NoDebtInside(k.inbox, k.joined, s);
    }
  }

  lemma {:induction false} PendingOwesNothing(pending: seq<Pending>, s: Id)
    requires forall k :: 0 <= k < |pending| ==> pending[k].socket < s
    ensures InPending(Debt(s), pending) == 0
  {
    if pending != [] { PendingOwesNothing(pending[..|pending| - 1], s); }
  }

  // ---------------------------------------------------------------- runs

  lemma StepKeepsInv(r: Registry, t: Step)
    requires Inv(r) && Enabled(r, t)
    ensures Inv(Next(r, t))
  {
    match t
    case Open => OpenKeepsInv(r);
    case Find(c, conn) => FindKeepsInv(r, c, conn);
    case Bind(c) => BindKeepsInv(r, c);
    case Pend(c) => PendKeepsInv(r, c);
    case Register(b, addr) => RegisterKeepsInv(r, b, addr);
    case Connect(b) => ConnectKeepsInv(r, b);
    case Unregister(b, addr) => UnregisterKeepsInv(r, UnregisterEndpoint(r, b, addr).endpoints);
    case Close(s) =>
      UnregisterKeepsInv(r, UnregisterAll(r, s).endpoints);
      RetireKeepsInv(UnregisterAll(r, s), s, r.socks[s].(closing := true));
    case Receive(s) => DeliverKeepsInv(r, s);
    case Destroy(s) =>
      assert SockOk(r.bound, s, r.socks[s]);
      RetireKeepsInv(r, s, r.socks[s].(alive := false));
  }

  const EMPTY := Registry([], map[], [], {}, {})

  /** A run of the registry: every state follows from the one before by a step. */
  ghost predicate Run(rs: seq<Registry>, ts: seq<Step>) {
    && |rs| == |ts| + 1 && rs[0] == EMPTY
    && forall i :: 0 <= i < |ts| ==>
         Enabled(rs[i], ts[i]) && Ranges(rs[i]) && rs[i + 1] == Next(rs[i], ts[i])
  }

  lemma {:induction false} RunKeepsInv(rs: seq<Registry>, ts: seq<Step>)
    requires Run(rs, ts)
    ensures Inv(rs[|ts|])
  {
    if ts != [] {
      var n := |ts| - 1;
      RunKeepsInv(rs[..|ts|], ts[..n]);
      StepKeepsInv(rs[n], ts[n]);
    }
  }

  ghost predicate Reachable(r: Registry) {
    exists rs: seq<Registry>, ts: seq<Step> :: Run(rs, ts) && rs[|ts|] == r
  }

  lemma ReachableInv(r: Registry)
    requires Reachable(r)
    ensures Inv(r)
  {
    var rs: seq<Registry>, ts: seq<Step> :| Run(rs, ts) && rs[|ts|] == r;
    RunKeepsInv(rs, ts);
  }

  // ---------------------------------------------------------------- what the runs guarantee

  /** How often a connection is joined, over all sockets. */
  function Joins(socks: seq<Sock>, c: Conn): nat {
    if socks == [] then 0
    else Joins(socks[..|socks| - 1], c) + InJoined(Place(c), socks[|socks| - 1].joined)
  }

  lemma {:induction false} JoinsCounted(socks: seq<Sock>, c: Conn)
    ensures Joins(socks, c) <= InSocks(Place(c), socks)
    ensures (forall i :: 0 <= i < |socks| ==> socks[i].phase.Idle? && socks[i].inbox == []) ==>
              Joins(socks, c) == InSocks(Place(c), socks)
  {
    if socks != [] { JoinsCounted(socks[..|socks| - 1], c); }
  }

  lemma {:induction false} InJoinedExactly(c: Conn, joined: seq<Conn>)
    ensures InJoined(Place(c), joined) == multiset(joined)[c]
  {
    if joined != [] {
      var n := |joined| - 1;
      InJoinedExactly(c, joined[..n]);
      assert joined == joined[..n] + [joined[n]];
    }
  }

  /** At no time is a connection joined twice, and it is joined only by a
      socket that bound its address. */
  lemma JoinedAtMostOnce(r: Registry, c: Conn)
    requires Reachable(r)
    ensures Joins(r.socks, c) <= 1
    ensures forall i :: 0 <= i < |r.socks| && c in r.socks[i].joined ==> c in r.started && (c.addr, i) in r.bound
  {
    ReachableInv(r);
    JoinsCounted(r.socks, c);
    forall i | 0 <= i < |r.socks| && c in r.socks[i].joined
      ensures c in r.started && (c.addr, i) in r.bound
    {
      assert SockOk(r.bound, i, r.socks[i]);
      InJoinedExactly(c, r.socks[i].joined);
      InSocksAtLeast(Place(c), r.socks, i);
    }
  }

  /** All calls are done and all commands are delivered. */
  predicate Quiet(r: Registry) {
    forall i :: 0 <= i < |r.socks| ==> r.socks[i].phase.Idle? && r.socks[i].inbox == []
  }

  lemma {:induction false} CountedIsPending(q: Query, pending: seq<Pending>) returns (k: nat)
    requires InPending(q, pending) > 0
    ensures k < |pending| && InEntry(q, pending[k]) == 1
  {
    var n := |pending| - 1;
    k := n;
    if InEntry(q, pending[n]) == 0 { k := CountedIsPending(q, pending[..n]); }
  }

  /** No connection is lost: when all is quiet, it is joined, exactly once, or
      it waits, exactly once, for an address that nobody has bound. */
  lemma NoConnectionLost(r: Registry, c: Conn)
    requires Reachable(r) && Quiet(r) && c in r.started
    ensures Joins(r.socks, c) + InPending(Place(c), r.pending) == 1
    ensures InPending(Place(c), r.pending) == 1 ==> c.addr !in r.endpoints
  {
    ReachableInv(r);
    JoinsCounted(r.socks, c);
    assert Total(Place(c), r) == 1;
    if InPending(Place(c), r.pending) == 1 {
      var k := CountedIsPending(Place(c), r.pending);
      assert Waits(r, r.pending[k].conn.addr);
    }
  }

  lemma {:induction false} QuietOwesNothing(socks: seq<Sock>, s: Id)
    requires forall i :: 0 <= i < |socks| ==> socks[i].phase.Idle?
    ensures InSocks(Debt(s), socks) == 0
  {
    SocksOweNothing(socks, s);
  }

  /** Every sequence number is paid for: when all is quiet, those still open
      are the socket's own connections that wait to be bound. */
  lemma SeqnumsArePaid(r: Registry, s: Id)
    requires Reachable(r) && Quiet(r) && s < |r.socks|
    ensures r.socks[s].sent == r.socks[s].processed + InPending(Debt(s), r.pending)
  {
    ReachableInv(r);
    QuietOwesNothing(r.socks, s);
    assert Unpaid(r, s) == 0;
  }

  /** Nothing leads to a destroyed socket: no endpoint, no command, no thread
      about to send one, and no pending connection. */
  lemma DestroyedIsForgotten(r: Registry, s: Id)
    requires Reachable(r) && s < |r.socks| && !r.socks[s].alive
    ensures r.socks[s].inbox == []
    ensures forall a :: a in r.endpoints ==> r.endpoints[a] != s
    ensures forall i :: 0 <= i < |r.socks| && r.socks[i].phase.Holding? ==> r.socks[i].phase.peer != s
    ensures forall k :: 0 <= k < |r.pending| ==> r.pending[k].socket != s
  {
    ReachableInv(r);
    assert SockOk(r.bound, s, r.socks[s]);
    assert Unpaid(r, s) == 0;
    forall a | a in r.endpoints ensures r.endpoints[a] != s {
      assert Live(r, r.endpoints[a]);
    }
    forall i | 0 <= i < |r.socks| && r.socks[i].phase.Holding? ensures r.socks[i].phase.peer != s {
      HeldIsLive(r, i);
    }
    forall k | 0 <= k < |r.pending| ensures r.pending[k].socket != s {
      PendingIsLive(r, k);
    }
  }
}
