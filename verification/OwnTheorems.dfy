/** What the invariant means for every run of the shutdown protocol. */
module OwnTheorems {
  import opened Basics
  import opened OwnModel
  import opened OwnInvariant
  import opened OwnSteps

  lemma KeepTerminate(w: World, p: Id)
    requires Inv(w) && Enabled(w, DoTerminate(p))
    ensures Inv(Next(w, DoTerminate(p)))
  {
    var o := w.objs[p];
    var w' := Next(w, DoTerminate(p));
    if o.terminating {
      assert w' == w by { assert w'.inbox == w.inbox && w'.objs == w.objs; }
    } else if o.owner.None? {
      KeepTerm(w, p, false, o.linger);
    } else {
      var q := o.owner.value;
      assert ObjOk(w, p);
      assert ObjOk(w, q);
      assert w'.objs == w.objs && w'.inbox == w.inbox[q := w.inbox[q] + [TermReq(p)]];
      AskIsQuiet(w, q, p, w');
      QuietKeepsInv(w, w', q);
    }
  }

  lemma KeepDeliver(w: World, p: Id)
    requires Inv(w) && Enabled(w, Deliver(p))
    ensures Inv(Next(w, Deliver(p)))
  {
    assert ObjOk(w, p);
    match w.inbox[p][0]
    case Own(c) => KeepOwn(w, p, c);
    case TermReq(c) => KeepTermReq(w, p, true, c);
    case Term(l) => TermMeetsLiveObject(w, p); KeepTerm(w, p, true, l);
    case TermAck => KeepAck(w, p);
    case _ => KeepCounted(w, p);
  }

  /** The assertion at the head of process_term holds. */
  lemma TermMeetsLiveObject(w: World, p: Id)
    requires Sized(w) && p < |w.objs| && w.objs[p].alive && LiveOk(w, p)
    requires w.inbox[p] != [] && w.inbox[p][0].Term?
    ensures !w.objs[p].terminating
  {
  }

  lemma KeepQuiet(w: World, s: Step)
    requires Inv(w) && Enabled(w, s)
    requires s.LaunchOwn? || s.RegisterAcks? || s.Take? || s.Pay?
    ensures Inv(Next(w, s))
  {
    assert ObjOk(w, s.p);
    match s {
      case LaunchOwn(p) => LaunchOwnIsQuiet(w, p);
      case RegisterAcks(p, n) => RegisterIsQuiet(w, p, n);
      case Take(p) => TakeIsQuiet(w, p);
      case Pay(p, cmd) => PayIsQuiet(w, p, cmd);
    }
    QuietKeepsInv(w, Next(w, s), s.p);
  }

  /** Every step of every thread keeps the invariant. */
  lemma StepKeepsInv(w: World, s: Step)
    requires Inv(w) && Enabled(w, s)
    ensures Inv(Next(w, s))
  {
    match s
    case Create(l) => KeepCreate(w, l);
    case LaunchPlug(p, l) => KeepLaunchPlug(w, p, l);
    case DoTerminate(p) => KeepTerminate(w, p);
    case TermChild(p, c) => KeepTermReq(w, p, false, c);
    case UnregisterAck(p) => KeepUnregister(w, p);
    case Deliver(p) => KeepDeliver(w, p);
    case _ => KeepQuiet(w, s);
  }

  lemma {:induction false} RunKeepsInv(ws: seq<World>)
    requires Run(ws) && Inv(ws[0])
    ensures Inv(ws[|ws| - 1])
  {
    if |ws| > 1 {
      var n := |ws| - 1;
      RunKeepsInv(ws[..n]);
      assert IsStep(ws[n - 1], ws[n]);
      var s :| Enabled(ws[n - 1], s) && ws[n] == Next(ws[n - 1], s);
      StepKeepsInv(ws[n - 1], s);
    }
  }

  lemma ReachableInv(w: World)
    requires Reachable(w)
    ensures Inv(w)
  {
    var ws :| Run(ws) && ws[0] == START && ws[|ws| - 1] == w;
    assert Inv(START);
    RunKeepsInv(ws);
  }

  // ---------------------------------------------------------------- safety

  /** p is destroyed and nobody can reach it any more: no live object names it
      as owner or holds it, no command is in flight to it and none is owed. */
  ghost predicate Unreferenced(w: World, p: Id)
    requires Sized(w) && p < |w.objs|
  {
    && w.inbox[p] == [] && w.env[p] == Env(0, 0, None)
    && (forall c: Id :: c < |w.objs| && w.objs[c].alive ==>
                          w.objs[c].owner != Some(p) && p !in w.objs[c].owned
                          && w.env[c].launching != Some(p) && Own(p) !in w.inbox[c])
  }

  lemma {:induction false} InCounted(q: seq<Command>, c: Id)
    requires Own(c) in q
    ensures Count(q, KOwn(c)) > 0
  {
    var i :| 0 <= i < |q| && q[i] == Own(c);
    CountPositive(q, i, KOwn(c));
  }

  /** Shutdown safety: in every reachable world no assertion has fired, no
      command has met a destroyed object, and destroyed objects are unreferenced. */
  lemma ShutdownSafety(w: World)
    requires Reachable(w)
    ensures Sized(w) && !w.fault
    ensures forall p: Id :: p < |w.objs| && !w.objs[p].alive ==> Unreferenced(w, p)
  {
    ReachableInv(w);
    forall p: Id | p < |w.objs| && !w.objs[p].alive
      ensures Unreferenced(w, p)
    {
      assert ObjOk(w, p);
      forall c: Id | c < |w.objs| && w.objs[c].alive
        ensures w.objs[c].owner != Some(p) && p !in w.objs[c].owned
                && w.env[c].launching != Some(p) && Own(p) !in w.inbox[c]
      {
        assert ObjOk(w, c);
        if Own(p) in w.inbox[c] { InCounted(w.inbox[c], p); }
        assert Held(w, p, c) == 0;
      }
    }
  }

  // ---------------------------------------------------------------- exactly once

  /** The live descendants of one object pass through the phases one at a
      time, and its ack count is exactly what it waits for. */
  lemma ExactlyOnePhase(w: World, p: Id)
    requires Reachable(w) && Sized(w) && p < |w.objs| && w.objs[p].alive
    ensures w.objs[p].acks == w.env[p].ext + Count(w.inbox[p], KAck) + |Dying(w, p)|
    ensures w.objs[p].sent == w.objs[p].processed + Count(w.inbox[p], KCounted) + w.env[p].debt
    ensures forall c: Id :: Child(w, c, p) ==>
                              Bit(w.env[p].launching == Some(c)) + Count(w.inbox[p], KOwn(c))
                              + Bit(c in w.objs[p].owned)
                              + Count(w.inbox[c], KTerm) + Bit(w.objs[c].terminating) == 1
    ensures forall c: Id :: c in w.objs[p].owned ==> Child(w, c, p)
  {
    ReachableInv(w);
    assert ObjOk(w, p);
    forall c: Id | Child(w, c, p) ensures Phases(w, c, p) == 1 { assert ObjOk(w, c); }
    forall c: Id | c in w.objs[p].owned ensures Child(w, c, p) { assert Held(w, c, p) > 0; }
  }

  // ---------------------------------------------------------------- no stuck shutdown

  /** Nothing is in flight and the rest of the library owes nothing. */
  ghost predicate Quiescent(w: World) {
    Sized(w) && forall p: Id :: p < |w.objs| ==> w.inbox[p] == [] && w.env[p] == Env(0, 0, None)
  }

  /** d is r or owned, directly or not, by r. */
  predicate Descends(w: World, d: Id, r: Id)
    requires OlderOwners(w) && d < |w.objs|
    decreases d
  {
    d == r || (w.objs[d].owner.Some? && Descends(w, w.objs[d].owner.value, r))
  }

  lemma {:induction false} NoLiveTerminating(w: World, p: Id)
    requires Inv(w) && Quiescent(w) && p < |w.objs| && w.objs[p].alive
    ensures !w.objs[p].terminating
    decreases |w.objs| - p
  {
    assert ObjOk(w, p);
    forall c: Id | p < c < |w.objs| && Child(w, c, p) ensures !w.objs[c].terminating {
      NoLiveTerminating(w, c);
    }
    assert Dying(w, p) == {} by {
      forall c: Id | c < |w.objs| && Child(w, c, p) ensures p < c { assert ObjOk(w, c); }
    }
  }

  lemma {:induction false} DeadOwnerDeadTree(w: World, d: Id, r: Id)
    requires Inv(w) && d < |w.objs| && r < |w.objs| && !w.objs[r].alive && Descends(w, d, r)
    ensures !w.objs[d].alive
    decreases d
  {
    assert ObjOk(w, d);
    if d != r { DeadOwnerDeadTree(w, w.objs[d].owner.value, r); }
  }

  /** Once a terminating object has nothing outstanding anywhere, it and all
      of its descendants have been destroyed. */
  lemma NoStuckShutdown(w: World, r: Id, d: Id)
    requires Reachable(w) && Quiescent(w) && r < |w.objs| && d < |w.objs|
    requires !w.objs[r].alive || w.objs[r].terminating
    requires OlderOwners(w) && Descends(w, d, r)
    ensures !w.objs[r].alive && !w.objs[d].alive
  {
    ReachableInv(w);
    if w.objs[r].alive { NoLiveTerminating(w, r); }
    DeadOwnerDeadTree(w, d, r);
  }

  /** The ownership relation is well founded in every reachable world. */
  lemma ReachableOlderOwners(w: World)
    requires Reachable(w)
    ensures OlderOwners(w)
  {
    ReachableInv(w);
  }

  /** Why the model bounds the counted commands: the 32-bit counter and the
      64-bit one can be compared exactly while fewer than 2^32 were announced. */
  lemma CounterIsExactBelowWrap(o: Obj)
    ensures (forall k: nat :: k <= o.sent ==> (CaughtUp(o.(processed := k)) <==> k == o.sent)) <==> o.sent < SEQ_WRAP
  {
    assert CaughtUp(o.(processed := o.sent)) <==> o.sent < SEQ_WRAP;
  }

  // ---------------------------------------------------------------- runs with their steps

  /** A run with its steps. */
  ghost predicate Steps(ws: seq<World>, ts: seq<Step>) {
    && |ws| == |ts| + 1
    && forall i :: 0 <= i < |ts| ==> Sized(ws[i]) && Enabled(ws[i], ts[i]) && ws[i + 1] == Next(ws[i], ts[i])
  }

  lemma StepIsReachable(w: World, s: Step)
    requires Reachable(w) && Sized(w) && Enabled(w, s)
    ensures Reachable(Next(w, s))
  {
    var run :| Run(run) && run[0] == START && run[|run| - 1] == w;
    var longer := run + [Next(w, s)];
    forall j | 0 <= j < |longer| - 1 ensures IsStep(longer[j], longer[j + 1]) {
      if j < |run| - 1 { assert IsStep(run[j], run[j + 1]); }
    }
    assert Run(longer);
  }

  lemma {:induction false} StepsReach(ws: seq<World>, ts: seq<Step>, i: nat)
    requires Steps(ws, ts) && Reachable(ws[0]) && i <= |ts|
    ensures Reachable(ws[i]) && Sized(ws[i]) && !ws[i].fault
    decreases i
  {
    if i > 0 {
      StepsReach(ws, ts, i - 1);
      StepIsReachable(ws[i - 1], ts[i - 1]);
    }
    ShutdownSafety(ws[i]);
  }

  lemma StartIsReachable()
    ensures Reachable(START)
  {
    assert Run([START]);
  }
}
