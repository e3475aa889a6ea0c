/**
 What a call of terminate leads to.  An object that calls it, and is not being
 launched at that moment, is destroyed with all its descendants once the steps
 that finish what was begun are taken.
 */
module OwnShutdown {
  import opened Basics
  import opened OwnModel
  import opened OwnInvariant
  import opened OwnTheorems
  import opened OwnDrain
  import opened OwnEarlyRequest

  /** A request of c that will be honoured is in the mailbox of p. */
  predicate Requested(w: World, p: Id, c: Id)
    requires Sized(w) && p < |w.objs|
  {
    exists k :: 0 <= k < |w.inbox[p]| && w.inbox[p][k] == TermReq(c) && !OwnFollows(w, p, c, k)
  }

  /** c is ending, was told to, has an owner that is ending, or has asked. */
  predicate Doomed(w: World, c: Id)
    requires Sized(w)
  {
    && c < |w.objs|
    && (|| Ending(w, c)
        || Count(w.inbox[c], KTerm) > 0
        || (&& w.objs[c].owner.Some? && w.objs[c].owner.value < |w.objs|
            && (Ending(w, w.objs[c].owner.value) || Requested(w, w.objs[c].owner.value, c))))
  }

  // ---------------------------------------------------------------- draining keeps it

  /** A term command stays in the mailbox until it is delivered. */
  lemma ToldStays(w: World, s: Step, c: Id)
    requires Sized(w) && Enabled(w, s) && Draining(s) && c < |w.objs| && w.objs[c].alive && !w.objs[c].terminating
    requires Count(w.inbox[c], KTerm) > 0
    ensures Sized(Next(w, s)) && Doomed(Next(w, s), c)
  {
    var w' := Next(w, s);
    MailboxGrows(w, s, c);
    if s == Deliver(c) && w.inbox[c][0].Term? {
      assert Handle(w.objs[c], w.inbox[c][0]).React?;
      assert w'.objs[c].terminating;
    } else if w'.inbox[c] != Rest(w, s, c) {
      var cmd: Command :| w'.inbox[c] == Rest(w, s, c) + [cmd];
      CountAppend(Rest(w, s, c), cmd, KTerm);
    }
  }

  /** A request stays in the mailbox until it is delivered, and then it is honoured. */
  lemma RequestStays(w: World, s: Step, p: Id, c: Id)
    requires Reachable(w) && Sized(w) && Enabled(w, s) && Draining(s) && Child(w, c, p) && p < |w.objs|
    requires w.objs[p].alive && Requested(w, p, c)
    ensures Sized(Next(w, s)) && Doomed(Next(w, s), c)
  {
    var k :| 0 <= k < |w.inbox[p]| && w.inbox[p][k] == TermReq(c) && !OwnFollows(w, p, c, k);
    OwnerStays(w, s, c);
    if s == Deliver(p) && k == 0 {
      assert w.inbox[p][0..] == w.inbox[p];
      RequestHonouredIff(w, p, c);
    } else {
      MailboxStep(w, s, p, c, k);
      var k' := if s == Deliver(p) then k - 1 else k;
      assert !OwnFollows(Next(w, s), p, c, k');
    }
  }

  lemma OwnerStays(w: World, s: Step, c: Id)
    requires Sized(w) && Enabled(w, s) && c < |w.objs|
    ensures Sized(Next(w, s)) && c < |Next(w, s).objs| && Next(w, s).objs[c].owner == w.objs[c].owner
  {
  }

  lemma DoomedStep(w: World, s: Step, c: Id)
    requires Reachable(w) && Sized(w) && Enabled(w, s) && Draining(s) && Doomed(w, c)
    ensures Sized(Next(w, s)) && Doomed(Next(w, s), c)
  {
    OwnerStays(w, s, c);
    if Ending(w, c) {
      EndingStays(w, s, c);
    } else if Count(w.inbox[c], KTerm) > 0 {
      ToldStays(w, s, c);
    } else {
      var p := w.objs[c].owner.value;
      if Ending(w, p) {
        EndingStays(w, s, p);
      } else {
        RequestStays(w, s, p, c);
      }
    }
  }

  lemma {:induction false} DoomedRun(ws: seq<World>, c: Id)
    requires DrainRun(ws) && Reachable(ws[0]) && Sized(ws[0]) && Doomed(ws[0], c)
    ensures Reachable(ws[|ws| - 1]) && Sized(ws[|ws| - 1]) && Doomed(ws[|ws| - 1], c)
  {
    if |ws| > 1 {
      var n := |ws| - 1;
      DoomedRun(ws[..n], c);
      assert IsDrain(ws[n - 1], ws[n]);
      var s :| Draining(s) && Enabled(ws[n - 1], s) && ws[n] == Next(ws[n - 1], s);
      StepIsReachable(ws[n - 1], s);
      DoomedStep(ws[n - 1], s, c);
    }
  }

  /** When nothing is outstanding any more, what was doomed is gone. */
  lemma DoomedIsGone(w: World, c: Id, d: Id)
    requires Reachable(w) && Quiescent(w) && Doomed(w, c) && OlderOwners(w) && d < |w.objs| && Descends(w, d, c)
    ensures !w.objs[d].alive
  {
    if Ending(w, c) {
      NoStuckShutdown(w, c, d);
    } else {
      var p := w.objs[c].owner.value;
      assert Descends(w, p, p);
      NoStuckShutdown(w, p, c);
      NoStuckShutdown(w, c, d);
    }
  }

  // ---------------------------------------------------------------- the call

  /** c is not the child that its owner's thread is launching. */
  predicate Launched(w: World, c: Id)
    requires Sized(w) && c < |w.objs|
  {
    w.objs[c].owner.Some? && w.objs[c].owner.value < |w.objs| ==> w.env[w.objs[c].owner.value].launching != Some(c)
  }

  lemma CallDooms(w: World, c: Id)
    requires Reachable(w) && Sized(w) && Ready(w, c) && Launched(w, c)
    ensures Sized(Next(w, DoTerminate(c))) && Doomed(Next(w, DoTerminate(c)), c)
  {
    ReachableInv(w);
    assert ObjOk(w, c);
    var w' := Next(w, DoTerminate(c));
    if !w.objs[c].terminating && w.objs[c].owner.Some? {
      var p := w.objs[c].owner.value;
      var k := |w.inbox[p]|;
      assert w'.inbox[p] == w.inbox[p] + [TermReq(c)];
      assert w'.inbox[p][k] == TermReq(c) && w'.inbox[p][k..] == [TermReq(c)];
      assert !OwnFollows(w', p, c, k);
    }
  }

  lemma CallKeepsRoom(w: World, c: Id)
    requires Sized(w) && Ready(w, c) && Room(w)
    ensures Sized(Next(w, DoTerminate(c))) && Room(Next(w, DoTerminate(c)))
  {
    var w' := Next(w, DoTerminate(c));
    forall p: Id | p < |w'.objs| && w'.env[p].launching.Some?
      ensures MayCount(w', p)
    {
      assert w.env[p].launching.Some? && w'.objs[p] == w.objs[p];
    }
  }

  /** An object that calls terminate, a root or one whose launch is over, is
      destroyed with all its descendants by a bounded run of the steps that
      finish what was begun. */
  lemma TerminateEnds(w: World, c: Id) returns (ws: seq<World>, e: World)
    requires Reachable(w) && Sized(w) && Room(w) && Ready(w, c) && Launched(w, c)
    ensures DrainRun(ws) && ws[0] == Next(w, DoTerminate(c)) && ws[|ws| - 1] == e
    ensures Sized(ws[0]) && |ws| - 1 <= Measure(ws[0])
    ensures Quiescent(e) && OlderOwners(e) && c < |e.objs|
    ensures forall d: Id :: d < |e.objs| && Descends(e, d, c) ==> !e.objs[d].alive
  {
    var w1 := Next(w, DoTerminate(c));
    StepIsReachable(w, DoTerminate(c));
    CallDooms(w, c);
    CallKeepsRoom(w, c);
    ws, e := ShutdownHappens(w1);
    DoomedRun(ws, c);
    forall d: Id | d < |e.objs| && Descends(e, d, c)
      ensures !e.objs[d].alive
    {
      DoomedIsGone(e, c, d);
    }
  }

  // ---------------------------------------------------------------- the linger period

  /** A root that terminates tells every object it owns to do so with its own
      linger period, and one that is told passes on the period it was told. */
  lemma LingerIsPassedOn(w: World, p: Id, s: Step, linger: int, c: Id)
    requires Reachable(w) && Sized(w) && Enabled(w, s) && c < |w.objs| && p < |w.objs| && c in w.objs[p].owned
    requires || (s == DoTerminate(p) && w.objs[p].owner.None? && linger == w.objs[p].linger)
             || (s == Deliver(p) && w.inbox[p][0] == Term(linger))
    ensures Sized(Next(w, s)) && Next(w, s).inbox[c] == w.inbox[c] + [Term(linger)]
  {
    ReachableInv(w);
    assert ObjOk(w, p);
    assert Held(w, c, p) > 0;
    assert p < c;
    assert w.objs[p].alive;
  }

  /** A child whose request is honoured is told its owner's period, and one
      that is launched while its owner terminates is told to end at once. */
  lemma LingerOfOneChild(w: World, p: Id, c: Id)
    requires Reachable(w) && Sized(w) && Enabled(w, Deliver(p)) && c < |w.objs| && p != c
    ensures w.inbox[p][0] == TermReq(c) && c in w.objs[p].owned ==>
              Next(w, Deliver(p)).inbox[c] == w.inbox[c] + [Term(w.objs[p].linger)]
    ensures w.inbox[p][0] == Own(c) && w.objs[p].terminating ==>
              Next(w, Deliver(p)).inbox[c] == w.inbox[c] + [Term(0)]
  {
    ReachableInv(w);
    assert ObjOk(w, p);
    if w.objs[p].owner.Some? && w.inbox[p][0] == Own(c) {
      assert Held(w, c, p) > 0;
    }
  }
}
