/** The objects and their mailboxes together: they follow the transition system. */
module OwnSystem {
  import opened Basics
  import M = OwnModel
  import opened OwnModel
  import opened OwnObject
  import opened OwnTheorems

  class SystemT {
    var objs: seq<OwnT>
    var inbox: seq<seq<Command>>
    /** What the rest of the library owes the objects. */
    var env: seq<Env>

    constructor ()
      ensures Valid() && View() == START && objs == []
    {
      objs, inbox, env := [], [], [];
    }

    ghost predicate Valid()
      reads this, objs
    {
      && |objs| == |inbox| == |env|
      && (forall i :: 0 <= i < |objs| ==> objs[i].Idle())
      && (forall i, j :: 0 <= i < j < |objs| ==> objs[i] != objs[j])
    }

    ghost function States(): seq<Obj>
      reads this, objs
    {
      seq(|objs|, i requires 0 <= i < |objs| reads this, objs => objs[i].State())
    }

    ghost function View(): World
      reads this, objs
    {
      World(States(), inbox, env, false)
    }

    /** A handler of object p has returned: send what it had to send. */
    method Settle(p: Id, ghost w: World, ghost r: Reaction)
      requires |objs| == |inbox| == |env| && p < |objs| && objs[p].Outcome() == r && r.React?
      requires forall i, j :: 0 <= i < j < |objs| ==> objs[i] != objs[j]
      requires forall i :: 0 <= i < |objs| && i != p ==> objs[i].Idle()
      requires |w.objs| == |objs| && w.inbox == inbox && w.env == env && !w.fault
      requires forall i :: 0 <= i < |objs| && i != p ==> w.objs[i] == objs[i].State()
      modifies this`inbox, objs[p]
      ensures Valid() && View() == Apply(w, p, r)
    {
      inbox := Post(inbox, objs[p].sends);
      objs[p].Flush();
      assert States() == w.objs[p := r.obj];
    }

    method Deliver(p: Id)
      requires Valid() && Enabled(View(), Step.Deliver(p)) && !Next(View(), Step.Deliver(p)).fault
      modifies this, objs
      ensures Valid() && View() == Next(old(View()), Step.Deliver(p)) && objs == old(objs)
    {
      ghost var w := Pop(View(), p);
      var cmd := inbox[p][0];
      inbox := inbox[p := inbox[p][1..]];
      ghost var r := Handle(objs[p].State(), cmd);
      objs[p].ProcessCommand(cmd);
      Settle(p, w, r);
    }

    method Terminate(p: Id)
      requires Valid() && Enabled(View(), DoTerminate(p)) && !Next(View(), DoTerminate(p)).fault
      modifies this, objs
      ensures Valid() && View() == Next(old(View()), DoTerminate(p)) && objs == old(objs)
    {
      ghost var w, r := View(), M.Terminate(objs[p].State(), p);
      objs[p].Terminate(p);
      Settle(p, w, r);
    }

    method TermChild(p: Id, child: Id)
      requires Valid() && Enabled(View(), Step.TermChild(p, child))
      modifies this, objs
      ensures Valid() && View() == Next(old(View()), Step.TermChild(p, child)) && objs == old(objs)
    {
      ghost var w, r := View(), ProcessTermReq(objs[p].State(), child);
      objs[p].ProcessTermReq(child);
      Settle(p, w, r);
    }

    /** An acknowledgement that was registered from outside has come. */
    method UnregisterAck(p: Id)
      requires Valid() && Enabled(View(), Step.UnregisterAck(p)) && !Next(View(), Step.UnregisterAck(p)).fault
      modifies this, objs
      ensures Valid() && View() == Next(old(View()), Step.UnregisterAck(p)) && objs == old(objs)
    {
      env := env[p := env[p].(ext := env[p].ext - 1)];
      ghost var w, r := View(), UnregisterTermAck(objs[p].State());
      objs[p].UnregisterTermAck();
      Settle(p, w, r);
    }

    method RegisterAcks(p: Id, n: nat)
      requires Valid() && Enabled(View(), Step.RegisterAcks(p, n))
      modifies this, objs
      ensures Valid() && View() == Next(old(View()), Step.RegisterAcks(p, n)) && objs == old(objs)
    {
      objs[p].RegisterTermAcks(n);
      env := env[p := env[p].(ext := env[p].ext + n)];
      assert States() == Next(old(View()), Step.RegisterAcks(p, n)).objs;
    }

    method Push(o: OwnT, q: seq<Command>)
      requires Valid() && o.Idle() && o !in objs
      modifies this
      ensures Valid() && objs == old(objs) + [o] && View() == M.Push(old(View()), o.State(), q)
    {
      objs, inbox, env := objs + [o], inbox + [q], env + [Env(0, 0, None)];
      assert States() == old(States()) + [o.State()];
    }

    /** A root object. */
    method Create(linger: int)
      requires Valid()
      modifies this
      ensures Valid() && View() == Next(old(View()), Step.Create(linger))
      ensures forall i :: 0 <= i < |objs| ==> objs[i] in old(objs) || fresh(objs[i])
    {
      var o := new OwnT(linger);
      Push(o, []);
    }

    /** launch_child, up to the plug command. */
    method LaunchPlug(p: Id, linger: int)
      requires Valid() && Enabled(View(), Step.LaunchPlug(p, linger))
      modifies this
      ensures Valid() && View() == Next(old(View()), Step.LaunchPlug(p, linger))
      ensures forall i :: 0 <= i < |objs| ==> objs[i] in old(objs) || fresh(objs[i])
    {
      env := env[p := env[p].(launching := Some(|objs|))];
      var o := new OwnT.Launched(p, linger);
      Push(o, [Plug]);
    }

    /** launch_child, the own command. */
    method LaunchOwn(p: Id)
      requires Valid() && Enabled(View(), Step.LaunchOwn(p))
      modifies this, objs
      ensures Valid() && View() == Next(old(View()), Step.LaunchOwn(p)) && objs == old(objs)
    {
      objs[p].IncSeqnum();
      inbox := inbox[p := inbox[p] + [Own(env[p].launching.value)]];
      env := env[p := env[p].(launching := None)];
      assert States() == Next(old(View()), Step.LaunchOwn(p)).objs;
    }

    /** The rest of the library announces a command to p. */
    method Take(p: Id)
      requires Valid() && Enabled(View(), Step.Take(p))
      modifies this, objs
      ensures Valid() && View() == Next(old(View()), Step.Take(p)) && objs == old(objs)
    {
      objs[p].IncSeqnum();
      env := env[p := env[p].(debt := env[p].debt + 1)];
      assert States() == Next(old(View()), Step.Take(p)).objs;
    }

    /** It sends the command. */
    method Pay(p: Id, cmd: Command)
      requires Valid() && Enabled(View(), Step.Pay(p, cmd))
      modifies this`inbox, this`env
      ensures Valid() && View() == Next(old(View()), Step.Pay(p, cmd))
    {
      inbox := inbox[p := inbox[p] + [cmd]];
      env := env[p := env[p].(debt := env[p].debt - 1)];
    }

    method Perform(s: Step)
      requires Valid() && Enabled(View(), s) && !Next(View(), s).fault
      modifies this, objs
      ensures Valid() && View() == Next(old(View()), s)
      ensures forall i :: 0 <= i < |objs| ==> objs[i] in old(objs) || fresh(objs[i])
    {
      match s
      case Create(l) => Create(l);
      case LaunchPlug(p, l) => LaunchPlug(p, l);
      case LaunchOwn(p) => LaunchOwn(p);
      case DoTerminate(p) => Terminate(p);
      case TermChild(p, c) => TermChild(p, c);
      case RegisterAcks(p, n) => RegisterAcks(p, n);
      case UnregisterAck(p) => UnregisterAck(p);
      case Take(p) => Take(p);
      case Pay(p, cmd) => Pay(p, cmd);
      case Deliver(p) => Deliver(p);
    }
  }

  /** Whatever the threads do, step by step, the objects and mailboxes are in a
      reachable world after it, and no assertion has failed. */
  method Operate(ts: seq<Step>, ghost ws: seq<World>) returns (sys: SystemT)
    requires Steps(ws, ts) && ws[0] == START
    ensures sys.Valid() && sys.View() == ws[|ts|] && Reachable(sys.View())
  {
    sys := new SystemT();
    StartIsReachable();
    for i := 0 to |ts|
      invariant fresh(sys) && (forall k :: 0 <= k < |sys.objs| ==> fresh(sys.objs[k]))
      invariant sys.Valid() && sys.View() == ws[i]
    {
      StepsReach(ws, ts, i + 1);
      sys.Perform(ts[i]);
    }
    StepsReach(ws, ts, |ts|);
  }
}
