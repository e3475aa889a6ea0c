/**
 Shutdown terminates.  The steps that finish what was begun (delivering a
 command, paying an announced command, finishing a launch, an external
 acknowledgement) each lower a measure; when none of them is left, a
 terminating object and its descendants are gone.
 */
module OwnDrain {
  import opened Basics
  import opened OwnModel
  import opened OwnInvariant
  import opened OwnSteps
  import opened OwnTheorems

  predicate Draining(s: Step) {
    s.Deliver? || s.Pay? || s.LaunchOwn? || s.UnregisterAck?
  }

  /** An own command turns into an entry of `owned` or into a term. */
  function CommandWeight(c: Command): nat {
    if c.Own? then 2 else 1
  }

  function InboxWeight(q: seq<Command>): nat {
    if q == [] then 0 else CommandWeight(q[0]) + InboxWeight(q[1..])
  }

  function Weight(w: World, p: Id): nat
    requires Sized(w) && p < |w.objs|
  {
    InboxWeight(w.inbox[p]) + |w.objs[p].owned| + Bit(w.objs[p].alive)
    + 2 * w.env[p].debt + w.env[p].ext + 3 * Bit(w.env[p].launching.Some?)
  }

  function Sum(a: seq<nat>): nat {
    if a == [] then 0 else Sum(a[..|a| - 1]) + a[|a| - 1]
  }

  function Weights(w: World): (a: seq<nat>)
    requires Sized(w)
    ensures |a| == |w.objs| && forall i :: 0 <= i < |a| ==> a[i] == Weight(w, i)
  {
    seq(|w.objs|, i requires 0 <= i < |w.objs| => Weight(w, i))
  }

  function Measure(w: World): nat
    requires Sized(w)
  {
    Sum(Weights(w))
  }

  lemma {:induction false} InboxWeightAppend(q: seq<Command>, c: Command)
    ensures InboxWeight(q + [c]) == InboxWeight(q) + CommandWeight(c)
  {
    if q == [] {
      assert q + [c] == [c];
    } else {
      assert (q + [c])[1..] == q[1..] + [c];
      InboxWeightAppend(q[1..], c);
    }
  }

  function Below(S: set<Id>, n: nat): set<Id> {
    set i | i in S && i < n
  }

  /** The objects of S gained one unit each and p changed by its own amount. */
  ghost predicate Shifts(w: World, w': World, p: Id, S: set<Id>) {
    && Sized(w) && Sized(w') && |w.objs| == |w'.objs| && p < |w.objs| && p !in S
    && (forall i: Id :: i < |w.objs| && i != p ==> Weight(w', i) == Weight(w, i) + Bit(i in S))
  }

  lemma {:induction false} ShiftSum(a: seq<nat>, b: seq<nat>, p: nat, S: set<Id>)
    requires |a| == |b| && p !in S
    requires forall i :: 0 <= i < |a| && i != p ==> b[i] == a[i] + Bit(i in S)
    ensures Sum(b) + (if p < |a| then a[p] else 0) == Sum(a) + |Below(S, |a|)| + if p < |a| then b[p] else 0
  {
    if |a| == 0 {
      assert Below(S, 0) == {};
    } else {
      var n := |a| - 1;
      ShiftSum(a[..n], b[..n], p, S);
      assert Below(S, |a|) == Below(S, n) + if n in S then {n} else {};
    }
  }

  lemma ShiftMeasure(w: World, w': World, p: Id, S: set<Id>)
    requires Shifts(w, w', p, S) && forall i: Id :: i in S ==> i < |w.objs|
    ensures Measure(w') == Measure(w) + |S| + Weight(w', p) - Weight(w, p)
  {
    ShiftSum(Weights(w), Weights(w'), p, S);
    assert Below(S, |w.objs|) == S;
  }

  lemma MovesShift(w: World, w1: World, p: Id, pop: bool, S: set<Id>)
    requires Moves(w, w1, p, pop, S)
    ensures Shifts(w, w1, p, S)
  {
    forall i: Id | i < |w.objs| && i != p ensures Weight(w1, i) == Weight(w, i) + Bit(i in S) {
      if i in S {
        InboxWeightAppend(w.inbox[i], w1.inbox[i][|w1.inbox[i]| - 1]);
      }
    }
  }

  /** check_term_acks trades a live object for at most one acknowledgement. */
  lemma CheckMeasure(w: World, p: Id)
    requires Sized(w) && p < |w.objs| && w.objs[p].alive
    requires w.objs[p].owner.Some? ==> w.objs[p].owner.value < p
    ensures var w' := Apply(w, p, CheckTermAcks(w.objs[p], map[]));
            Sized(w') && Measure(w') <= Measure(w)
  {
    var o := w.objs[p];
    var w' := Apply(w, p, CheckTermAcks(o, map[]));
    if o.terminating && CaughtUp(o) && o.acks == 0 && o.owned == {} {
      var S: set<Id> := if o.owner.Some? then {o.owner.value} else {};
      assert Shifts(w, w', p, S) by {
        forall i: Id | i < |w.objs| && i != p ensures Weight(w', i) == Weight(w, i) + Bit(i in S) {
          if i in S { InboxWeightAppend(w.inbox[i], TermAck); }
        }
      }
      ShiftMeasure(w, w', p, S);
    } else {
      assert w'.objs == w.objs && w'.inbox == w.inbox;
      assert Measure(w') == Measure(w) by { assert Weights(w') == Weights(w); }
    }
  }

  /** Before its check, a handler that consumed a command lowered the measure. */
  lemma ConsumeLowers(w: World, w1: World, p: Id, S: set<Id>)
    requires Moves(w, w1, p, true, S) && Accounts(w, p, true, w1.objs[p], w1.env[p], S)
    requires w1.env[p] == w.env[p] && forall i: Id :: i in S ==> i < |w.objs|
    requires w.inbox[p][0].Own? ==> w.inbox[p][0].child !in w.objs[p].owned
    ensures Measure(w1) < Measure(w)
  {
    MovesShift(w, w1, p, true, S);
    ShiftMeasure(w, w1, p, S);
    var c := w.inbox[p][0];
    var extra := if c.Own? then {c.child} else {};
    SetBalance(w1.objs[p].owned, S, w.objs[p].owned, extra);
  }

  lemma SetBalance(A1: set<Id>, S: set<Id>, A: set<Id>, extra: set<Id>)
    requires A !! extra
    requires forall x: Id :: Bit(x in A1) + Bit(x in S) == Bit(x in A) + Bit(x in extra)
    ensures |A1| + |S| == |A| + |extra|
  {
    assert A1 !! S;
    assert A1 + S == A + extra;
    assert |A1 + S| == |A1| + |S| && |A + extra| == |A| + |extra|;
  }

  // ---------------------------------------------------------------- deliveries

  lemma HandlerLowers(w: World, p: Id, o: Obj, sends: map<Id, Command>)
    requires Inv(w) && Ready(w, p) && w.inbox[p] != []
    requires Sends(w, p, sends) && Accounts(w, p, true, o, w.env[p], sends.Keys)
    ensures var w1 := Apply(Pop(w, p), p, React(o, sends)); Sized(w1) && Measure(w1) < Measure(w)
  {
    var w1 := Apply(Pop(w, p), p, React(o, sends));
    InvHoldsOnce(w, p);
    forall i: Id | i in sends ensures p < i < |w.objs| { assert Held(w, i, p) > 0; }
    BaseMoves(w, p, true, o, sends);
    var c := w.inbox[p][0];
    if c.Own? {
      assert Held(w, c.child, p) == 1;
    }
    ConsumeLowers(w, w1, p, sends.Keys);
  }

  lemma CheckedLowers(w: World, p: Id, o: Obj, sends: map<Id, Command>)
    requires Inv(w) && Ready(w, p) && w.inbox[p] != []
    requires Sends(w, p, sends) && Accounts(w, p, true, o, w.env[p], sends.Keys)
    ensures var w' := Apply(Pop(w, p), p, CheckTermAcks(o, sends)); Sized(w') && Measure(w') < Measure(w)
  {
    var w1 := Apply(Pop(w, p), p, React(o, sends));
    HandlerLowers(w, p, o, sends);
    InvHoldsOnce(w, p);
    forall i: Id | i in sends ensures p < i { assert Held(w, i, p) > 0; }
    SplitCheck(Pop(w, p), p, o, sends);
    CheckMeasure(w1, p);
  }

  lemma DeliverTermLowers(w: World, p: Id, linger: int)
    requires Inv(w) && Ready(w, p) && w.inbox[p] != [] && w.inbox[p][0] == Term(linger)
    ensures Sized(Next(w, Deliver(p))) && Measure(Next(w, Deliver(p))) < Measure(w)
  {
    var o := w.objs[p];
    assert ObjOk(w, p);
    TermMeetsLiveObject(w, p);
    var o1 := o.(terminating := true, acks := o.acks + |o.owned|, owned := {});
    var sends := map c | c in o.owned :: Term(linger);
    assert sends.Keys == o.owned;
    assert Handle(o, w.inbox[p][0]) == CheckTermAcks(o1, sends);
    TermAccounts(w, p, true, o1);
    assert Next(w, Deliver(p)) == Apply(Pop(w, p), p, CheckTermAcks(o1, sends));
    CheckedLowers(w, p, o1, sends);
  }

  lemma DeliverOwnLowers(w: World, p: Id, c: Id)
    requires Inv(w) && Ready(w, p) && w.inbox[p] != [] && w.inbox[p][0] == Own(c)
    ensures Sized(Next(w, Deliver(p))) && Measure(Next(w, Deliver(p))) < Measure(w)
  {
    var (o1, sends) := ProcessOwn(w.objs[p], c);
    InvHoldsOnce(w, p);
    assert Held(w, c, p) == 1;
    assert ObjOk(w, p);
    OwnAccounts(w, p, c);
    CheckedLowers(w, p, o1.(processed := o1.processed + 1), sends);
  }

  lemma DeliverReqLowers(w: World, p: Id, c: Id)
    requires Inv(w) && Ready(w, p) && w.inbox[p] != [] && w.inbox[p][0] == TermReq(c)
    ensures Sized(Next(w, Deliver(p))) && Measure(Next(w, Deliver(p))) < Measure(w)
  {
    assert ObjOk(w, p);
    TermReqAccounts(w, p, true, c);
    var r := ProcessTermReq(w.objs[p], c);
    assert Next(w, Deliver(p)) == Apply(Pop(w, p), p, React(r.obj, r.sends));
    HandlerLowers(w, p, r.obj, r.sends);
  }

  lemma DeliverAckLowers(w: World, p: Id)
    requires Inv(w) && Ready(w, p) && w.inbox[p] != [] && w.inbox[p][0].TermAck?
    ensures Sized(Next(w, Deliver(p))) && Measure(Next(w, Deliver(p))) < Measure(w)
  {
    assert ObjOk(w, p);
    AckCounted(w, p);
    var o1 := w.objs[p].(acks := w.objs[p].acks - 1);
    assert Next(w, Deliver(p)) == Apply(Pop(w, p), p, CheckTermAcks(o1, map[]));
    CheckedLowers(w, p, o1, map[]);
  }

  lemma DeliverCountedLowers(w: World, p: Id)
    requires Inv(w) && Ready(w, p) && w.inbox[p] != [] && Counted(w.inbox[p][0]) && !w.inbox[p][0].Own?
    ensures Sized(Next(w, Deliver(p))) && Measure(Next(w, Deliver(p))) < Measure(w)
  {
    var o1 := w.objs[p].(processed := w.objs[p].processed + 1);
    CountedIsChecked(w, p, o1);
    CountedAccounts(w, p, o1);
    CheckedLowers(w, p, o1, map[]);
  }

  lemma CountedIsChecked(w: World, p: Id, o: Obj)
    requires Inv(w) && Ready(w, p) && w.inbox[p] != [] && Counted(w.inbox[p][0]) && !w.inbox[p][0].Own?
    requires o == w.objs[p].(processed := w.objs[p].processed + 1)
    ensures Next(w, Deliver(p)) == Apply(Pop(w, p), p, CheckTermAcks(o, map[]))
  {
    assert ObjOk(w, p);
  }

  lemma CountedAccounts(w: World, p: Id, o: Obj)
    requires Inv(w) && Ready(w, p) && w.inbox[p] != [] && Counted(w.inbox[p][0]) && !w.inbox[p][0].Own?
    requires o == w.objs[p].(processed := w.objs[p].processed + 1)
    ensures Sends(w, p, map[]) && Accounts(w, p, true, o, w.env[p], {})
  {
    assert ObjOk(w, p);
  }

  lemma DeliverLowers(w: World, p: Id)
    requires Inv(w) && Enabled(w, Deliver(p))
    ensures Sized(Next(w, Deliver(p))) && Measure(Next(w, Deliver(p))) < Measure(w)
  {
    assert ObjOk(w, p);
    match w.inbox[p][0]
    case Own(c) => DeliverOwnLowers(w, p, c);
    case TermReq(c) => DeliverReqLowers(w, p, c);
    case Term(l) => DeliverTermLowers(w, p, l);
    case TermAck => DeliverAckLowers(w, p);
    case _ => DeliverCountedLowers(w, p);
  }

  // ---------------------------------------------------------------- the other draining steps

  lemma SettleLowers(w: World, s: Step)
    requires Inv(w) && Enabled(w, s) && (s.Pay? || s.LaunchOwn?)
    ensures Sized(Next(w, s)) && Measure(Next(w, s)) < Measure(w)
  {
    var p := s.p;
    var w' := Next(w, s);
    InboxWeightAppend(w.inbox[p], if s.Pay? then s.cmd else Own(w.env[p].launching.value));
    assert Shifts(w, w', p, {});
    ShiftMeasure(w, w', p, {});
  }

  lemma UnregisterLowers(w: World, p: Id)
    requires Inv(w) && Enabled(w, UnregisterAck(p))
    ensures Sized(Next(w, UnregisterAck(p))) && Measure(Next(w, UnregisterAck(p))) < Measure(w)
  {
    assert ObjOk(w, p);
    AckCounted(w, p);
    var o := w.objs[p].(acks := w.objs[p].acks - 1);
    var e := w.env[p].(ext := w.env[p].ext - 1);
    var w1 := w.(objs := w.objs[p := o], env := w.env[p := e]);
    assert Shifts(w, w1, p, {});
    ShiftMeasure(w, w1, p, {});
    var b := w.(env := w1.env);
    SplitCheck(b, p, o, map[]);
    assert Apply(b, p, React(o, map[])) == w1;
    CheckMeasure(w1, p);
  }

  /** Every draining step strictly lowers the measure. */
  lemma DrainLowers(w: World, s: Step)
    requires Inv(w) && Enabled(w, s) && Draining(s)
    ensures Sized(Next(w, s)) && Measure(Next(w, s)) < Measure(w)
  {
    match s
    case Deliver(p) => DeliverLowers(w, p);
    case UnregisterAck(p) => UnregisterLowers(w, p);
    case _ => SettleLowers(w, s);
  }

  /** A run of draining steps only. */
  ghost predicate DrainRun(ws: seq<World>) {
    |ws| > 0 && forall i :: 0 <= i < |ws| - 1 ==> IsDrain(ws[i], ws[i + 1])
  }

  ghost predicate IsDrain(w: World, w': World) {
    Sized(w) && exists s :: Draining(s) && Enabled(w, s) && w' == Next(w, s)
  }

  lemma {:induction false} DrainRunBound(ws: seq<World>)
    requires DrainRun(ws) && Inv(ws[0])
    ensures Inv(ws[|ws| - 1]) && |ws| - 1 + Measure(ws[|ws| - 1]) <= Measure(ws[0])
  {
    if |ws| > 1 {
      var n := |ws| - 1;
      DrainRunBound(ws[..n]);
      assert IsDrain(ws[n - 1], ws[n]);
      var s :| Draining(s) && Enabled(ws[n - 1], s) && ws[n] == Next(ws[n - 1], s);
      StepKeepsInv(ws[n - 1], s);
      DrainLowers(ws[n - 1], s);
    }
  }

  /** No draining step is possible, and no launch is blocked by a full counter. */
  ghost predicate Drained(w: World) {
    && Sized(w)
    && (forall s :: Draining(s) ==> !Enabled(w, s))
    && (forall p: Id :: p < |w.objs| && w.env[p].launching.Some? ==> MayCount(w, p))
  }

  lemma DrainedIsQuiescent(w: World)
    requires Inv(w) && Drained(w)
    ensures Quiescent(w)
  {
    forall p: Id | p < |w.objs| ensures w.inbox[p] == [] && w.env[p] == Env(0, 0, None) {
      assert ObjOk(w, p);
      assert !Enabled(w, LaunchOwn(p));
      assert !Enabled(w, Deliver(p));
      assert !Enabled(w, Pay(p, Bind));
      assert !Enabled(w, UnregisterAck(p));
    }
  }

  /** Shutdown completes: from any reachable world the draining steps come to
      an end within Measure steps, and when they have, every terminating
      object and everything it owns has been destroyed. */
  lemma ShutdownCompletes(ws: seq<World>, r: Id, d: Id)
    requires DrainRun(ws) && Reachable(ws[0])
    ensures Sized(ws[0]) && Sized(ws[|ws| - 1]) && OlderOwners(ws[|ws| - 1])
    ensures |ws| - 1 <= Measure(ws[0])
    ensures var w := ws[|ws| - 1];
            && Drained(w) && r < |w.objs| && d < |w.objs|
            && (w.objs[r].alive ==> w.objs[r].terminating) && Descends(w, d, r)
            ==> !w.objs[r].alive && !w.objs[d].alive
  {
    ReachableInv(ws[0]);
    DrainRunBound(ws);
    var w := ws[|ws| - 1];
    if Drained(w) && r < |w.objs| && d < |w.objs| && (w.objs[r].alive ==> w.objs[r].terminating) && Descends(w, d, r) {
      DrainedIsQuiescent(w);
      if w.objs[r].alive { NoLiveTerminating(w, r); }
      DeadOwnerDeadTree(w, d, r);
    }
  }

  /** A launch that is half done can be finished: its owner's counter is not full. */
  predicate Room(w: World)
    requires Sized(w)
  {
    forall p: Id :: p < |w.objs| && w.env[p].launching.Some? ==> MayCount(w, p)
  }

  lemma DrainKeepsRoom(w: World, s: Step)
    requires Sized(w) && Room(w) && Enabled(w, s) && Draining(s)
    ensures Sized(Next(w, s)) && Room(Next(w, s))
  {
    var w' := Next(w, s);
    forall p: Id | p < |w'.objs| && w'.env[p].launching.Some?
      ensures MayCount(w', p)
    {
      assert w.env[p].launching.Some?;
      assert w'.objs[p] == w.objs[p];
    }
  }

  lemma DrainExtends(w: World, s: Step, ws: seq<World>)
    requires Sized(w) && Enabled(w, s) && Draining(s) && DrainRun(ws) && ws[0] == Next(w, s)
    ensures DrainRun([w] + ws)
  {
    var all := [w] + ws;
    forall i | 0 <= i < |all| - 1
      ensures IsDrain(all[i], all[i + 1])
    {
      if i == 0 {
        assert all[1] == ws[0];
      } else {
        assert all[i] == ws[i - 1] && all[i + 1] == ws[i];
      }
    }
  }

  /** Draining steps can be taken until none is left. */
  lemma {:induction false} DrainCompletes(w: World) returns (ws: seq<World>)
    requires Inv(w) && Room(w)
    ensures DrainRun(ws) && ws[0] == w && Inv(ws[|ws| - 1]) && Drained(ws[|ws| - 1])
    ensures |ws| - 1 <= Measure(w)
    decreases Measure(w)
  {
    ws := [w];
    if !Drained(w) {
      var s :| Draining(s) && Enabled(w, s);
      StepKeepsInv(w, s);
      DrainLowers(w, s);
      DrainKeepsRoom(w, s);
      var rest := DrainCompletes(Next(w, s));
      DrainExtends(w, s, rest);
      ws := [w] + rest;
    }
  }

  /** The object is on its way out, or gone. */
  predicate Ending(w: World, r: Id) {
    r < |w.objs| && (w.objs[r].alive ==> w.objs[r].terminating)
  }

  lemma EndingStays(w: World, s: Step, r: Id)
    requires Sized(w) && Enabled(w, s) && Draining(s) && Ending(w, r)
    ensures |Next(w, s).objs| == |w.objs| && Ending(Next(w, s), r)
  {
    if s.p == r && s.Deliver? && w.objs[r].alive {
      var o := w.objs[r];
      var re := Handle(o, w.inbox[r][0]);
      assert re.React? ==> re.obj.terminating;
    }
  }

  lemma {:induction false} EndingEnds(ws: seq<World>, r: Id)
    requires DrainRun(ws) && Ending(ws[0], r)
    ensures |ws[|ws| - 1].objs| == |ws[0].objs| && Ending(ws[|ws| - 1], r)
  {
    if |ws| > 1 {
      var n := |ws| - 1;
      EndingEnds(ws[..n], r);
      assert IsDrain(ws[n - 1], ws[n]);
      var s :| Draining(s) && Enabled(ws[n - 1], s) && ws[n] == Next(ws[n - 1], s);
      EndingStays(ws[n - 1], s, r);
    }
  }

  /** From every reachable world there is a bounded run of draining steps after
      which nothing is outstanding, and whatever was terminating, with
      everything it owns, is destroyed. */
  lemma ShutdownHappens(w: World) returns (ws: seq<World>, e: World)
    requires Reachable(w) && Sized(w) && Room(w)
    ensures DrainRun(ws) && ws[0] == w && ws[|ws| - 1] == e && |ws| - 1 <= Measure(w)
    ensures Quiescent(e) && OlderOwners(e)
    ensures forall r: Id, d: Id :: Ending(w, r) && d < |e.objs| && Descends(e, d, r) ==>
                                     r < |e.objs| && !e.objs[r].alive && !e.objs[d].alive
  {
    ReachableInv(w);
    ws := DrainCompletes(w);
    e := ws[|ws| - 1];
    DrainedIsQuiescent(e);
    ShutdownCompletes(ws, 0, 0);
    forall r: Id, d: Id | Ending(w, r) && d < |e.objs| && Descends(e, d, r)
      ensures r < |e.objs| && !e.objs[r].alive && !e.objs[d].alive
    {
      EndingEnds(ws, r);
      ShutdownCompletes(ws, r, d);
    }
  }
}
