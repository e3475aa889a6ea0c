/**
 The inproc rendezvous of ctx_t (src/ctx.cpp) and the commands that end it
 (src/object.cpp): connectors look an address up and then pend, binders
 register it and then connect what is pending; each call is one step.
 */
module Inproc {

  type Addr = string
  type Id = nat

  /** A connection being made: its pipe pair and the address it is made to. */
  datatype Conn = Conn(pipe: nat, addr: Addr)

  datatype Cmd = BindCmd(conn: Conn) | InprocConnected

  /** What a socket's thread is about to do: send the bind command to a peer it
      found, pend a connection whose peer it did not find, or connect what is
      pending at an address it has just registered. */
  datatype Phase = Idle | Holding(peer: Id, conn: Conn) | Missed(conn: Conn) | Registered(addr: Addr)

  datatype Sock = Sock(sent: nat, processed: nat, inbox: seq<Cmd>, joined: seq<Conn>,
                       phase: Phase, alive: bool, closing: bool)

  datatype Pending = Pending(socket: Id, conn: Conn)

  /** started and bound are histories: the connections begun, and who bound what. */
  datatype Registry = Registry(socks: seq<Sock>, endpoints: map<Addr, Id>, pending: seq<Pending>,
                               started: set<Conn>, bound: set<(Addr, Id)>)

  // ---------------------------------------------------------------- small changes

  function Put(r: Registry, i: Id, k: Sock): Registry
    requires i < |r.socks|
  {
    r.(socks := r.socks[i := k])
  }

  /** inc_seqnum. */
  function Inc(r: Registry, i: Id): Registry
    requires i < |r.socks|
  {
    Put(r, i, r.socks[i].(sent := r.socks[i].sent + 1))
  }

  function Post(r: Registry, i: Id, cmd: Cmd): Registry
    requires i < |r.socks|
  {
    Put(r, i, r.socks[i].(inbox := r.socks[i].inbox + [cmd]))
  }

  function SetPhase(r: Registry, i: Id, phase: Phase): Registry
    requires i < |r.socks|
  {
    Put(r, i, r.socks[i].(phase := phase))
  }

  /** process_bind and process_seqnum. */
  function Join(r: Registry, i: Id, conn: Conn): Registry
    requires i < |r.socks|
  {
    Put(r, i, r.socks[i].(joined := r.socks[i].joined + [conn], processed := r.socks[i].processed + 1))
  }

  function Without<T>(s: seq<T>, k: nat): seq<T>
    requires k < |s|
  {
    s[..k] + s[k + 1..]
  }

  // ---------------------------------------------------------------- the calls

  /** find_endpoint, then what connect does with the answer. */
  function FindEndpoint(r: Registry, c: Id, conn: Conn): Registry
    requires c < |r.socks| && (conn.addr in r.endpoints ==> r.endpoints[conn.addr] < |r.socks|)
  {
    var s := r.(started := r.started + {conn});
    if conn.addr in r.endpoints then
      SetPhase(Inc(s, r.endpoints[conn.addr]), c, Holding(r.endpoints[conn.addr], conn))
    else SetPhase(s, c, Missed(conn))
  }

  /** send_bind without taking a sequence number: it was taken before. */
  function SendBind(r: Registry, c: Id): Registry
    requires c < |r.socks| && r.socks[c].phase.Holding? && r.socks[c].phase.peer < |r.socks|
  {
    SetPhase(Post(r, r.socks[c].phase.peer, BindCmd(r.socks[c].phase.conn)), c, Idle)
  }

  function PendConnection(r: Registry, c: Id): Registry
    requires c < |r.socks| && r.socks[c].phase.Missed?
    requires r.socks[c].phase.conn.addr in r.endpoints ==> r.endpoints[r.socks[c].phase.conn.addr] < |r.socks|
  {
    var conn := r.socks[c].phase.conn;
    if conn.addr in r.endpoints then
      var b := r.endpoints[conn.addr];
      SetPhase(Post(Inc(r, b), b, BindCmd(conn)), c, Idle)
    else
      SetPhase(Inc(r.(pending := r.pending + [Pending(c, conn)]), c), c, Idle)
  }

  predicate CanRegister(r: Registry, addr: Addr) {
    addr !in r.endpoints
  }

  function RegisterEndpoint(r: Registry, b: Id, addr: Addr): Registry
    requires b < |r.socks|
  {
    if CanRegister(r, addr) then
      SetPhase(r.(endpoints := r.endpoints[addr := b], bound := r.bound + {(addr, b)}), b, Registered(addr))
    else r
  }

  /** connect_inproc_sockets on the bind side, for the pending connection k. */
  function ConnectOne(r: Registry, b: Id, k: nat): Registry
    requires b < |r.socks| && k < |r.pending| && r.pending[k].socket < |r.socks|
  {
    var p := r.pending[k];
    Post(Join(Inc(r.(pending := Without(r.pending, k)), b), b, p.conn), p.socket, InprocConnected)
  }

  predicate PendingOk(r: Registry) {
    forall k :: 0 <= k < |r.pending| ==> r.pending[k].socket < |r.socks|
  }

  /** Connect what is pending at the address, from entry k on. */
  function ConnectFrom(r: Registry, b: Id, addr: Addr, k: nat): (q: Registry)
    requires b < |r.socks| && PendingOk(r) && k <= |r.pending|
    ensures |q.socks| == |r.socks|
    decreases |r.pending| - k
  {
    if k == |r.pending| then r
    else if r.pending[k].conn.addr == addr then ConnectFrom(ConnectOne(r, b, k), b, addr, k)
    else ConnectFrom(r, b, addr, k + 1)
  }

  function ConnectPending(r: Registry, b: Id, addr: Addr): Registry
    requires b < |r.socks| && PendingOk(r)
  {
    SetPhase(ConnectFrom(r, b, addr, 0), b, Idle)
  }

  function UnregisterEndpoint(r: Registry, b: Id, addr: Addr): Registry {
    if addr in r.endpoints && r.endpoints[addr] == b then r.(endpoints := r.endpoints - {addr}) else r
  }

  /** process_term of a socket begins with this. */
  function UnregisterAll(r: Registry, b: Id): Registry {
    r.(endpoints := map a | a in r.endpoints && r.endpoints[a] != b :: r.endpoints[a])
  }

  /** process_command. */
  function Deliver(r: Registry, i: Id): Registry
    requires i < |r.socks| && r.socks[i].inbox != []
  {
    var k := r.socks[i];
    var s := Put(r, i, k.(inbox := k.inbox[1..]));
    match k.inbox[0]
    case BindCmd(conn) => Join(s, i, conn)
    case InprocConnected => Put(s, i, s.socks[i].(processed := k.processed + 1))
  }

  // ---------------------------------------------------------------- runs

  datatype Step =
    | Open
    | Find(c: Id, conn: Conn)
    | Bind(c: Id)
    | Pend(c: Id)
    | Register(b: Id, addr: Addr)
    | Connect(b: Id)
    | Unregister(b: Id, addr: Addr)
    | Close(s: Id)
    | Receive(s: Id)
    | Destroy(s: Id)

  const NEW_SOCK := Sock(0, 0, [], [], Idle, true, false)

  predicate Live(r: Registry, i: Id) {
    i < |r.socks| && r.socks[i].alive
  }

  predicate Free(r: Registry, i: Id) {
    Live(r, i) && !r.socks[i].closing && r.socks[i].phase.Idle?
  }

  /** A socket is used by one thread; it is destroyed when it is closed and its
      sequence numbers agree. */
  predicate Enabled(r: Registry, t: Step) {
    match t
    case Open => true
    case Find(c, conn) => Free(r, c) && conn !in r.started
    case Bind(c) => Live(r, c) && r.socks[c].phase.Holding?
    case Pend(c) => Live(r, c) && r.socks[c].phase.Missed?
    case Register(b, _) => Free(r, b)
    case Connect(b) => Live(r, b) && r.socks[b].phase.Registered?
    case Unregister(b, _) => Free(r, b)
    case Close(s) => Free(r, s)
    case Receive(s) => Live(r, s) && r.socks[s].inbox != []
    case Destroy(s) => Live(r, s) && r.socks[s].closing && r.socks[s].sent == r.socks[s].processed
  }

  predicate Ranges(r: Registry) {
    && PendingOk(r)
    && (forall a :: a in r.endpoints ==> r.endpoints[a] < |r.socks|)
    && (forall i :: 0 <= i < |r.socks| && r.socks[i].phase.Holding? ==> r.socks[i].phase.peer < |r.socks|)
  }

  function Next(r: Registry, t: Step): Registry
    requires Enabled(r, t) && Ranges(r)
  {
    match t
    case Open => r.(socks := r.socks + [NEW_SOCK])
    case Find(c, conn) => FindEndpoint(r, c, conn)
    case Bind(c) => SendBind(r, c)
    case Pend(c) => PendConnection(r, c)
    case Register(b, addr) => RegisterEndpoint(r, b, addr)
    case Connect(b) => ConnectPending(r, b, r.socks[b].phase.addr)
    case Unregister(b, addr) => UnregisterEndpoint(r, b, addr)
    case Close(s) => Put(UnregisterAll(r, s), s, r.socks[s].(closing := true))
    case Receive(s) => Deliver(r, s)
    case Destroy(s) => Put(r, s, r.socks[s].(alive := false))
  }
}
