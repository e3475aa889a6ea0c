/**
 The ownership tree of src/own.cpp and the command dispatch of src/object.cpp,
 as a transition system over a finite population of objects.

 An object is named by its creation number.  Every object has one FIFO inbox
 (the mailbox of its thread delivers commands to one object in sending order).
 A handler runs in the thread of its object, so a whole delivery is one step;
 `inc_seqnum` may be called by any thread, so taking a sequence number and
 sending the command that pays for it are two separate steps, and so are the
 two halves of `launch_child`.
 */
module OwnModel {
  import opened Basics

  type Id = nat

  /** `_sent_seqnum` is a 32-bit counter, `_processed_seqnum` a 64-bit one. */
  const SEQ_WRAP: nat := 0x1_0000_0000

  /** The commands an own_t receives.  A term_ack carries no arguments. */
  datatype Command =
    | Plug
    | Own(child: Id)
    | Attach
    | Bind
    | InprocConnected
    | TermReq(child: Id)
    | Term(linger: int)
    | TermAck

  /** The commands that are announced by `inc_seqnum` and end in `process_seqnum`. */
  predicate Counted(c: Command) {
    c.Plug? || c.Own? || c.Attach? || c.Bind? || c.InprocConnected?
  }

  /** The fields of own_t.  `sent` is the number of `inc_seqnum` calls so far:
      the code stores it modulo SEQ_WRAP. */
  datatype Obj = Obj(
    alive: bool,
    owner: Option<Id>,
    owned: set<Id>,
    terminating: bool,
    sent: nat,
    processed: nat,
    acks: int,
    linger: int)

  /** What a handler does: it hits an assertion, or it leaves the object in a
      new state and sends at most one command to each destination. */
  datatype Reaction = Abort | React(obj: Obj, sends: map<Id, Command>)

  // ---------------------------------------------------------------- handlers

  /** What the 32-bit counter holds after n calls of `inc_seqnum`. */
  function Stored(n: nat): nat {
    if n < SEQ_WRAP then n else n % SEQ_WRAP
  }

  predicate CaughtUp(o: Obj) {
    o.processed == Stored(o.sent)
  }

  /** check_term_acks, run after `sends` were sent by the same handler. */
  function CheckTermAcks(o: Obj, sends: map<Id, Command>): Reaction {
    if o.terminating && CaughtUp(o) && o.acks == 0 then
      if o.owned != {} then Abort
      else
        React(o.(alive := false),
              if o.owner.Some? then sends[o.owner.value := TermAck] else sends)
    else
      React(o, sends)
  }

  function ProcessSeqnum(o: Obj, sends: map<Id, Command>): Reaction {
    CheckTermAcks(o.(processed := o.processed + 1), sends)
  }

  function ProcessOwn(o: Obj, child: Id): (Obj, map<Id, Command>) {
    if o.terminating then
      (o.(acks := o.acks + 1), map[child := Term(0)])
    else
      (o.(owned := o.owned + {child}), map[])
  }

  function ProcessTermReq(o: Obj, child: Id): Reaction {
    if o.terminating || child !in o.owned then React(o, map[])
    else
      React(o.(owned := o.owned - {child}, acks := o.acks + 1),
            map[child := Term(o.linger)])
  }

  function ProcessTerm(o: Obj, linger: int): Reaction {
    if o.terminating then Abort
    else
      CheckTermAcks(
        o.(terminating := true, acks := o.acks + |o.owned|, owned := {}),
        map c | c in o.owned :: Term(linger))
  }

  function UnregisterTermAck(o: Obj): Reaction {
    if o.acks <= 0 then Abort
    else CheckTermAcks(o.(acks := o.acks - 1), map[])
  }

  /** terminate: a root terminates itself, any other object asks its owner. */
  function Terminate(o: Obj, self: Id): Reaction {
    if o.terminating then React(o, map[])
    else if o.owner.None? then ProcessTerm(o, o.linger)
    else React(o, map[o.owner.value := TermReq(self)])
  }

  /** process_command of object_t, restricted to the commands of own_t. */
  function Handle(o: Obj, cmd: Command): Reaction {
    match cmd
    case Own(c) => var (o1, s1) := ProcessOwn(o, c); ProcessSeqnum(o1, s1)
    case TermReq(c) => ProcessTermReq(o, c)
    case Term(l) => ProcessTerm(o, l)
    case TermAck => UnregisterTermAck(o)
    case _ => ProcessSeqnum(o, map[])
  }

  // ---------------------------------------------------------------- the system

  /** What the rest of the library still owes an object: counted commands that
      were announced but not sent, acknowledgements registered from outside
      (by pipes, for instance), and the child whose launch is half done. */
  datatype Env = Env(debt: nat, ext: nat, launching: Option<Id>)

  datatype World = World(objs: seq<Obj>, inbox: seq<seq<Command>>, env: seq<Env>, fault: bool)

  function Post(inbox: seq<seq<Command>>, sends: map<Id, Command>): (r: seq<seq<Command>>)
    ensures |r| == |inbox|
    ensures forall i :: 0 <= i < |inbox| ==>
                          r[i] == if i in sends then inbox[i] + [sends[i]] else inbox[i]
  {
    seq(|inbox|, i requires 0 <= i < |inbox| =>
          if i in sends then inbox[i] + [sends[i]] else inbox[i])
  }

  function Apply(w: World, p: Id, r: Reaction): World
    requires p < |w.objs|
  {
    match r
    case Abort => w.(fault := true)
    case React(o, sends) => w.(objs := w.objs[p := o], inbox := Post(w.inbox, sends))
  }

  datatype Step =
    | Create(linger: int)
    | LaunchPlug(p: Id, linger: int)
    | LaunchOwn(p: Id)
    | DoTerminate(p: Id)
    | TermChild(p: Id, child: Id)
    | RegisterAcks(p: Id, n: nat)
    | UnregisterAck(p: Id)
    | Take(p: Id)
    | Pay(p: Id, cmd: Command)
    | Deliver(p: Id)

  function Fresh(owner: Option<Id>, linger: int): Obj {
    Obj(true, owner, {}, false, if owner.Some? then 1 else 0, 0, 0, linger)
  }

  predicate Sized(w: World) {
    |w.objs| == |w.inbox| == |w.env|
  }

  /** p is alive and its thread is not in the middle of launch_child. */
  predicate Ready(w: World, p: Id)
    requires Sized(w)
  {
    p < |w.objs| && w.objs[p].alive && w.env[p].launching.None?
  }

  predicate MayCount(w: World, p: Id)
    requires Sized(w)
  {
    p < |w.objs| && w.objs[p].alive && w.objs[p].sent + 1 < SEQ_WRAP
  }

  predicate Enabled(w: World, s: Step)
    requires Sized(w)
  {
    match s
    case Create(_) => true
    case LaunchPlug(p, _) => Ready(w, p)
    case LaunchOwn(p) => MayCount(w, p) && w.env[p].launching.Some?
    case DoTerminate(p) => Ready(w, p)
    case TermChild(p, _) => Ready(w, p)
    case RegisterAcks(p, _) => Ready(w, p)
    case UnregisterAck(p) => Ready(w, p) && w.env[p].ext > 0
    case Take(p) => MayCount(w, p)
    case Pay(p, cmd) =>
      p < |w.objs| && w.env[p].debt > 0 && (cmd.Plug? || cmd.Attach? || cmd.Bind? || cmd.InprocConnected?)
    case Deliver(p) => p < |w.objs| && w.inbox[p] != [] && w.env[p].launching.None?
  }

  function Next(w: World, s: Step): World
    requires Sized(w) && Enabled(w, s)
  {
    match s
    case Create(l) => Push(w, Fresh(None, l), [])
    case LaunchPlug(p, l) =>
      Push(w.(env := w.env[p := w.env[p].(launching := Some(|w.objs|))]), Fresh(Some(p), l), [Plug])
    case LaunchOwn(p) =>
      w.(objs := w.objs[p := w.objs[p].(sent := w.objs[p].sent + 1)],
         inbox := w.inbox[p := w.inbox[p] + [Own(w.env[p].launching.value)]],
         env := w.env[p := w.env[p].(launching := None)])
    case DoTerminate(p) => Apply(w, p, Terminate(w.objs[p], p))
    case TermChild(p, c) => Apply(w, p, ProcessTermReq(w.objs[p], c))
    case RegisterAcks(p, n) =>
      w.(objs := w.objs[p := w.objs[p].(acks := w.objs[p].acks + n)],
         env := w.env[p := w.env[p].(ext := w.env[p].ext + n)])
    case UnregisterAck(p) =>
      Apply(w.(env := w.env[p := w.env[p].(ext := w.env[p].ext - 1)]), p, UnregisterTermAck(w.objs[p]))
    case Take(p) =>
      w.(objs := w.objs[p := w.objs[p].(sent := w.objs[p].sent + 1)],
         env := w.env[p := w.env[p].(debt := w.env[p].debt + 1)])
    case Pay(p, cmd) =>
      w.(inbox := w.inbox[p := w.inbox[p] + [cmd]],
         env := w.env[p := w.env[p].(debt := w.env[p].debt - 1)])
    case Deliver(p) =>
      // A command that reaches a destroyed object is a use after free.
      if !w.objs[p].alive then w.(fault := true)
      else Apply(Pop(w, p), p, Handle(w.objs[p], w.inbox[p][0]))
  }

  function Push(w: World, o: Obj, q: seq<Command>): World {
    w.(objs := w.objs + [o], inbox := w.inbox + [q], env := w.env + [Env(0, 0, None)])
  }

  function Pop(w: World, p: Id): World
    requires Sized(w) && p < |w.objs| && w.inbox[p] != []
  {
    w.(inbox := w.inbox[p := w.inbox[p][1..]])
  }

  // ---------------------------------------------------------------- runs

  const START: World := World([], [], [], false)

  ghost predicate IsStep(w: World, w': World) {
    Sized(w) && exists s :: Enabled(w, s) && w' == Next(w, s)
  }

  /** A run: consecutive worlds are related by steps. */
  ghost predicate Run(ws: seq<World>) {
    |ws| > 0 && forall i :: 0 <= i < |ws| - 1 ==> IsStep(ws[i], ws[i + 1])
  }

  ghost predicate Reachable(w: World) {
    exists ws :: Run(ws) && ws[0] == START && ws[|ws| - 1] == w
  }
}
