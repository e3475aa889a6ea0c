/**
 "Every termination request is honoured" does not hold: launch_child plugs the
 child before its own command is sent, so the child can ask its owner to be
 terminated before the owner has heard of it.
 */
module OwnEarlyRequest {
  import opened Basics
  import opened OwnModel
  import opened OwnInvariant
  import opened OwnTheorems

  const SCHEDULE: seq<Step> :=
    [Create(0), LaunchPlug(0, 0), Deliver(1), DoTerminate(1), LaunchOwn(0), Deliver(0), Deliver(0)]

  function After(n: nat): World
    requires n <= |SCHEDULE|
  {
    var root := Obj(true, None, {}, false, 0, 0, 0, 0);
    var child := Obj(true, Some(0), {}, false, 1, 0, 0, 0);
    var plugged := child.(processed := 1);
    var calm := Env(0, 0, None);
    if n == 0 then START
    else if n == 1 then World([root], [[]], [calm], false)
    else if n == 2 then World([root, child], [[], [Plug]], [Env(0, 0, Some(1)), calm], false)
    else if n == 3 then World([root, plugged], [[], []], [Env(0, 0, Some(1)), calm], false)
    else if n == 4 then World([root, plugged], [[TermReq(1)], []], [Env(0, 0, Some(1)), calm], false)
    else if n == 5 then World([root.(sent := 1), plugged], [[TermReq(1), Own(1)], []], [calm, calm], false)
    else if n == 6 then World([root.(sent := 1), plugged], [[Own(1)], []], [calm, calm], false)
    else World([root.(sent := 1, processed := 1, owned := {1}), plugged], [[], []], [calm, calm], false)
  }

  lemma ScheduleStart(n: nat)
    requires n < 4
    ensures Sized(After(n)) && Enabled(After(n), SCHEDULE[n]) && After(n + 1) == Next(After(n), SCHEDULE[n])
  {
    var w := Next(After(n), SCHEDULE[n]);
    var e: seq<Command> := [];
    assert e + [TermReq(1)] == [TermReq(1)] && [Plug][1..] == e;
    assert w.objs == After(n + 1).objs;
    assert w.inbox == After(n + 1).inbox;
    assert w.env == After(n + 1).env;
  }

  lemma ScheduleEnd(n: nat)
    requires 4 <= n < |SCHEDULE|
    ensures Sized(After(n)) && Enabled(After(n), SCHEDULE[n]) && After(n + 1) == Next(After(n), SCHEDULE[n])
  {
    var w := Next(After(n), SCHEDULE[n]);
    var none: set<Id> := {};
    assert none + {1} == {1};
    assert [TermReq(1)] + [Own(1)] == [TermReq(1), Own(1)] && [TermReq(1), Own(1)][1..] == [Own(1)];
    assert w.objs == After(n + 1).objs;
    assert w.inbox == After(n + 1).inbox;
    assert w.env == After(n + 1).env;
  }

  /** A reachable world in which the child asked to be terminated, nothing is
      in flight any more, and neither object is terminating. */
  lemma EarlyRequestIsLost()
    ensures Reachable(After(7)) && Quiescent(After(7))
    ensures TermReq(1) in After(4).inbox[0]
    ensures forall p :: 0 <= p < 2 ==> After(7).objs[p].alive && !After(7).objs[p].terminating
  {
    var ws := seq(8, i requires 0 <= i < 8 => After(i));
    forall i | 0 <= i < 7 ensures IsStep(ws[i], ws[i + 1]) {
      if i < 4 { ScheduleStart(i); } else { ScheduleEnd(i); }
    }
    assert Run(ws);
  }

  /** The object has been asked to terminate, or does so already. */
  predicate Asked(w: World, c: Id)
    requires Sized(w) && c < |w.objs|
  {
    w.objs[c].terminating || Count(w.inbox[c], KTerm) > 0
  }

  lemma {:induction false} OwnIsThere(q: seq<Command>, c: Id)
    ensures Count(q, KOwn(c)) > 0 <==> Own(c) in q
    decreases |q|
  {
    if q != [] {
      OwnIsThere(q[1..], c);
      assert q == [q[0]] + q[1..];
    }
  }

  /** Exactly when a request is honoured: the own command that announces the
      child is no longer behind it in the owner's mailbox. */
  lemma RequestHonouredIff(w: World, p: Id, c: Id)
    requires Reachable(w) && Sized(w) && Enabled(w, Deliver(p)) && w.inbox[p][0] == TermReq(c) && Child(w, c, p)
    ensures Sized(Next(w, Deliver(p))) && c < |Next(w, Deliver(p)).objs|
    ensures Asked(Next(w, Deliver(p)), c) <==> Own(c) !in w.inbox[p]
  {
    ReachableInv(w);
    assert ObjOk(w, c) && ObjOk(w, p);
    OwnIsThere(w.inbox[p], c);
    var w' := Next(w, Deliver(p));
    if c in w.objs[p].owned {
      CountAppend(w.inbox[c], Term(w.objs[p].linger), KTerm);
      assert w'.inbox[c] == w.inbox[c] + [Term(w.objs[p].linger)];
    } else {
      assert w'.objs[c] == w.objs[c] && w'.inbox[c] == w.inbox[c];
    }
  }

  // ---------------------------------------------------------------- from the call on

  /** How many of the first n steps deliver a command to p. */
  function Delivered(ts: seq<Step>, p: Id, n: nat): nat
    requires n <= |ts|
  {
    if n == 0 then 0 else Delivered(ts, p, n - 1) + Bit(ts[n - 1] == Deliver(p))
  }

  /** The own command of c is not sent yet, or comes after position k. */
  predicate OwnFollows(w: World, p: Id, c: Id, k: nat)
    requires Sized(w) && p < |w.objs|
  {
    w.env[p].launching == Some(c) || (k <= |w.inbox[p]| && Own(c) in w.inbox[p][k..])
  }

  /** A handler sends no own command. */
  predicate SendsNoOwn(r: Reaction) {
    r.React? ==> forall i :: i in r.sends ==> !r.sends[i].Own?
  }

  lemma HandlersSendNoOwn(o: Obj, cmd: Command, self: Id, child: Id)
    ensures SendsNoOwn(Handle(o, cmd)) && SendsNoOwn(Terminate(o, self)) && SendsNoOwn(ProcessTermReq(o, child))
    ensures SendsNoOwn(UnregisterTermAck(o))
  {
  }

  /** What is left of the mailbox of p when a delivery has taken its command. */
  function Rest(w: World, s: Step, p: Id): seq<Command>
    requires Sized(w) && p < |w.objs| && Enabled(w, s)
  {
    if s == Deliver(p) then w.inbox[p][1..] else w.inbox[p]
  }

  lemma ApplyMailbox(w: World, i: Id, r: Reaction, p: Id)
    requires Sized(w) && i < |w.objs| && p < |w.objs| && SendsNoOwn(r)
    ensures var w' := Apply(w, i, r);
            && Sized(w') && w'.env == w.env && |w'.objs| == |w.objs|
            && (w'.inbox[p] == w.inbox[p] || exists cmd: Command :: !cmd.Own? && w'.inbox[p] == w.inbox[p] + [cmd])
  {
    if r.React? && p in r.sends {
      assert Apply(w, i, r).inbox[p] == w.inbox[p] + [r.sends[p]];
    }
  }

  /** Only the end of a launch adds an own command, and only the beginning of
      one announces a new object. */
  lemma MailboxGrows(w: World, s: Step, p: Id)
    requires Sized(w) && Enabled(w, s) && p < |w.objs| && w.objs[p].alive
    ensures var w' := Next(w, s);
            && Sized(w') && |w.objs| <= |w'.objs|
            && (w'.inbox[p] == Rest(w, s, p)
                || exists cmd: Command :: (cmd.Own? ==> s == LaunchOwn(p) && w.env[p].launching == Some(cmd.child))
                                          && w'.inbox[p] == Rest(w, s, p) + [cmd])
            && (if s == LaunchOwn(p) then
                  w'.env[p].launching.None? && w'.inbox[p] == w.inbox[p] + [Own(w.env[p].launching.value)]
                else
                  || w'.env[p].launching == w.env[p].launching
                  || (w.env[p].launching.None? && w'.env[p].launching == Some(|w.objs|)))
  {
    var w' := Next(w, s);
    match s
    case Deliver(i) =>
      if w.objs[i].alive {
        HandlersSendNoOwn(w.objs[i], w.inbox[i][0], 0, 0);
        ApplyMailbox(Pop(w, i), i, Handle(w.objs[i], w.inbox[i][0]), p);
      }
    case DoTerminate(i) =>
      HandlersSendNoOwn(w.objs[i], TermAck, i, 0);
      ApplyMailbox(w, i, Terminate(w.objs[i], i), p);
    case TermChild(i, c) =>
      HandlersSendNoOwn(w.objs[i], TermAck, i, c);
      ApplyMailbox(w, i, ProcessTermReq(w.objs[i], c), p);
    case UnregisterAck(i) =>
      HandlersSendNoOwn(w.objs[i], TermAck, i, 0);
      ApplyMailbox(w.(env := w.env[i := w.env[i].(ext := w.env[i].ext - 1)]), i, UnregisterTermAck(w.objs[i]), p);
    case LaunchOwn(i) =>
      if i == p { assert w'.inbox[p] == w.inbox[p] + [Own(w.env[p].launching.value)]; }
    case Pay(i, cmd) =>
      if i == p { assert w'.inbox[p] == w.inbox[p] + [cmd]; }
    case _ =>
  }

  /** The command at position k moves to the head of the mailbox, and the own
      command of c neither appears behind it nor disappears. */
  lemma MailboxStep(w: World, s: Step, p: Id, c: Id, k: nat)
    requires Sized(w) && Enabled(w, s) && p < |w.objs| && w.objs[p].alive && c < |w.objs| && k < |w.inbox[p]|
    requires s == Deliver(p) ==> k > 0
    ensures var w' := Next(w, s);
            var k' := if s == Deliver(p) then k - 1 else k;
            && Sized(w') && |w.objs| <= |w'.objs| && k' < |w'.inbox[p]| && w'.inbox[p][k'] == w.inbox[p][k]
            && (OwnFollows(w', p, c, k') <==> OwnFollows(w, p, c, k))
  {
    var w' := Next(w, s);
    var q := Rest(w, s, p);
    var k' := if s == Deliver(p) then k - 1 else k;
    MailboxGrows(w, s, p);
    assert q[k'..] == w.inbox[p][k..];
    if s == LaunchOwn(p) {
      assert w'.inbox[p][k'..] == q[k'..] + [Own(w.env[p].launching.value)];
    } else if w'.inbox[p] != q {
      var cmd: Command :| !cmd.Own? && w'.inbox[p] == q + [cmd];
      assert w'.inbox[p][k'..] == q[k'..] + [cmd];
    }
  }

  /** The objects that are alive later were alive before. */
  lemma AliveBefore(w: World, s: Step, p: Id)
    requires Sized(w) && Enabled(w, s) && p < |w.objs|
    ensures p < |Next(w, s).objs| && (Next(w, s).objs[p].alive ==> w.objs[p].alive)
  {
  }

  lemma {:induction false} AliveSince(ws: seq<World>, ts: seq<Step>, p: Id, i: nat)
    requires Steps(ws, ts) && p < |ws[0].objs| && i <= |ts|
    ensures p < |ws[i].objs| && |ws[0].objs| <= |ws[i].objs|
    ensures ws[i].objs[p].alive ==> forall j :: 0 <= j <= i ==> p < |ws[j].objs| && ws[j].objs[p].alive
    decreases i
  {
    if i > 0 {
      AliveSince(ws, ts, p, i - 1);
      AliveBefore(ws[i - 1], ts[i - 1], p);
      MoreObjects(ws[i - 1], ts[i - 1]);
    }
  }

  lemma MoreObjects(w: World, s: Step)
    requires Sized(w) && Enabled(w, s)
    ensures |w.objs| <= |Next(w, s).objs| && Sized(Next(w, s))
  {
  }

  /** The command is at position d of the mailbox of p; b says whether the own
      command of c is still to come after it. */
  predicate Travelling(w: World, p: Id, c: Id, d: int, cmd: Command, b: bool) {
    && Sized(w) && p < |w.objs| && c < |w.objs| && 0 <= d < |w.inbox[p]| && w.inbox[p][d] == cmd
    && (OwnFollows(w, p, c, d) <==> b)
  }

  lemma TravelStep(w: World, s: Step, p: Id, c: Id, d: nat, cmd: Command, b: bool)
    requires Travelling(w, p, c, d, cmd, b) && Enabled(w, s) && w.objs[p].alive && (s == Deliver(p) ==> d > 0)
    ensures Travelling(Next(w, s), p, c, d - Bit(s == Deliver(p)), cmd, b)
  {
    MailboxStep(w, s, p, c, d);
  }

  /** The request on its way through the mailbox of p, i steps after the call. */
  lemma {:induction false} RequestTravels(ws: seq<World>, ts: seq<Step>, p: Id, c: Id, k: nat, cmd: Command,
                                          b: bool, i: nat)
    requires Steps(ws, ts) && Travelling(ws[0], p, c, k, cmd, b)
    requires i <= |ts| && Delivered(ts, p, i) <= k
    requires forall j :: 0 <= j <= i ==> p < |ws[j].objs| && ws[j].objs[p].alive
    ensures Travelling(ws[i], p, c, k - Delivered(ts, p, i), cmd, b)
    decreases i
  {
    if i > 0 {
      RequestTravels(ws, ts, p, c, k, cmd, b, i - 1);
      TravelStep(ws[i - 1], ts[i - 1], p, c, k - Delivered(ts, p, i - 1), cmd, b);
    }
  }

  /** Exactly when a request will be honoured, at the moment it is made: the
      owner's thread is not in the middle of launching the child.  ws[0] is the
      world of the call, and the last step delivers the request. */
  lemma HonouredIffLaunched(ws: seq<World>, ts: seq<Step>, p: Id, c: Id)
    requires Steps(ws, ts) && Reachable(ws[0]) && Sized(ws[0]) && |ts| > 1 && ts[0] == DoTerminate(c)
    requires Child(ws[0], c, p) && !ws[0].objs[c].terminating && p < |ws[0].objs|
    requires var n := |ts| - 1; ts[n] == Deliver(p) && Delivered(ts, p, n) == |ws[0].inbox[p]| && Child(ws[n], c, p)
    ensures Sized(ws[|ts|]) && c < |ws[|ts|].objs|
    ensures Asked(ws[|ts|], c) <==> ws[0].env[p].launching != Some(c)
  {
    var n, k := |ts| - 1, |ws[0].inbox[p]|;
    StepsReach(ws, ts, n);
    OwnerLives(ws[0], c, p);
    OwnerLives(ws[n], c, p);
    AliveSince(ws, ts, p, n);
    var w1 := ws[1];
    assert w1 == Next(ws[0], ts[0]);
    assert w1.inbox[p] == ws[0].inbox[p] + [TermReq(c)];
    var ws1, ts1 := ws[1..], ts[1..];
    assert Steps(ws1, ts1);
    DeliveredTail(ts, p, n);
    assert w1.inbox[p][k..] == [TermReq(c)];
    RequestTravels(ws1, ts1, p, c, k, TermReq(c), ws[0].env[p].launching == Some(c), n - 1);
    assert ws1[n - 1] == ws[n];
    RequestHonouredIff(ws[n], p, c);
    assert ws[n].inbox[p][0..] == ws[n].inbox[p];
    assert ws[n + 1] == Next(ws[n], ts[n]);
  }

  lemma {:induction false} DeliveredTail(ts: seq<Step>, p: Id, n: nat)
    requires 0 < n <= |ts| && ts[0] != Deliver(p)
    ensures Delivered(ts[1..], p, n - 1) == Delivered(ts, p, n)
    decreases n
  {
    if n > 1 { DeliveredTail(ts, p, n - 1); }
  }

  lemma OwnerLives(w: World, c: Id, p: Id)
    requires Reachable(w) && Sized(w) && Child(w, c, p)
    ensures p < c && w.objs[p].alive
  {
    ReachableInv(w);
    assert ObjOk(w, c);
  }
}
