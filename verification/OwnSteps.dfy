/** Every step of the shutdown protocol keeps the invariant. */
module OwnSteps {
  import opened Basics
  import opened OwnModel
  import opened OwnInvariant

  // ---------------------------------------------------------------- local updates

  /** Object p changed, and exactly the children in S were sent a term. */
  ghost predicate Local(w: World, w': World, p: Id, S: set<Id>) {
    && Sized(w) && Sized(w') && |w'.objs| == |w.objs| && p < |w.objs| && !w'.fault
    && w.objs[p].alive && w'.objs[p].alive && w'.objs[p].owner == w.objs[p].owner
    && p !in S
    && (forall i: Id :: i < |w.objs| && i != p ==>
                          w'.objs[i] == w.objs[i] && w'.env[i] == w.env[i] && InboxGrows(w, w', i, i in S))
    && (forall c: Id :: c in S ==> Child(w, c, p) && Held(w, c, p) > 0 && Held(w', c, p) == 0)
    && (forall c: Id :: c !in S ==> Held(w', c, p) == Held(w, c, p))
  }

  predicate InboxGrows(w: World, w': World, i: Id, term: bool)
    requires Sized(w) && Sized(w') && |w'.objs| == |w.objs| && i < |w.objs|
  {
    if term then w'.inbox[i] != [] && w'.inbox[i][|w'.inbox[i]| - 1].Term?
                 && w'.inbox[i] == w.inbox[i] + [w'.inbox[i][|w'.inbox[i]| - 1]]
    else w'.inbox[i] == w.inbox[i]
  }

  /** An owned object trades a term in its inbox for the terminating flag; a
      root is never sent a term. */
  predicate TermBalanced(w: World, w': World, p: Id)
    requires Sized(w) && Sized(w') && |w'.objs| == |w.objs| && p < |w.objs|
  {
    match w.objs[p].owner
    case None => Count(w'.inbox[p], KTerm) == 0
    case Some(_) =>
      Count(w'.inbox[p], KTerm) + Bit(w'.objs[p].terminating)
      == Count(w.inbox[p], KTerm) + Bit(w.objs[p].terminating)
  }

  /** The bookkeeping of p itself stays balanced. */
  ghost predicate Balanced(w: World, w': World, p: Id, S: set<Id>)
    requires Sized(w) && Sized(w') && |w'.objs| == |w.objs| && p < |w.objs|
  {
    && SeqOk(w', p)
    && w'.objs[p].acks - w'.env[p].ext - Count(w'.inbox[p], KAck)
       == w.objs[p].acks - w.env[p].ext - Count(w.inbox[p], KAck) + |S|
    && TermBalanced(w, w', p)
    && ReqsOk(w', p)
    && (w'.objs[p].terminating ==> w'.objs[p].owned == {})
  }

  lemma GrowsCounts(w: World, w': World, i: Id, term: bool, k: Kind)
    requires Sized(w) && Sized(w') && |w'.objs| == |w.objs| && i < |w.objs|
    requires InboxGrows(w, w', i, term)
    ensures Count(w'.inbox[i], k) == Count(w.inbox[i], k) + Bit(term && k.KTerm?)
  {
    if term { CountAppend(w.inbox[i], w'.inbox[i][|w'.inbox[i]| - 1], k); }
  }

  lemma LocalChildren(w: World, w': World, p: Id, S: set<Id>, i: Id)
    requires Local(w, w', p, S) && i < |w.objs|
    ensures forall c: Id :: Child(w', c, i) <==> Child(w, c, i)
  {
  }

  lemma LocalDying(w: World, w': World, p: Id, S: set<Id>, i: Id)
    requires Local(w, w', p, S) && i < |w.objs|
    requires TermBalanced(w, w', p)
    ensures Dying(w', i) == if i == p then Dying(w, i) + S else Dying(w, i)
  {
    LocalChildren(w, w', p, S, i);
    forall c: Id | c < |w.objs| && c != p
      ensures Count(w'.inbox[c], KTerm) == Count(w.inbox[c], KTerm) + Bit(c in S)
    {
      GrowsCounts(w, w', c, c in S, KTerm);
    }
  }

  lemma LocalHeld(w: World, w': World, p: Id, S: set<Id>, c: Id, q: Id)
    requires Local(w, w', p, S) && q < |w.objs| && c < |w.objs|
    ensures Held(w', c, q) == if q == p && c in S then 0 else Held(w, c, q)
  {
    if q != p { GrowsCounts(w, w', q, q in S, KOwn(c)); }
  }

  lemma LocalOwner(w: World, w': World, p: Id, S: set<Id>, i: Id)
    requires Local(w, w', p, S) && i < |w.objs| && OwnerOk(w, i)
    requires TermBalanced(w, w', p)
    ensures OwnerOk(w', i)
  {
    if i != p { GrowsCounts(w, w', i, i in S, KTerm); }
    match w.objs[i].owner
    case None =>
    case Some(q) => LocalHeld(w, w', p, S, i, q);
  }

  lemma LocalReqs(w: World, w': World, p: Id, S: set<Id>, i: Id)
    requires Local(w, w', p, S) && i < |w.objs| && i != p && ReqsOk(w, i)
    ensures ReqsOk(w', i)
  {
    LocalChildren(w, w', p, S, i);
    var q, q' := w.inbox[i], w'.inbox[i];
    forall k | 0 <= k < |q'| && q'[k].TermReq?
      ensures Child(w', q'[k].child, i) || Count(q'[k..], KAck) > 0
    {
      if i in S {
        assert q'[k..] == q[k..] + [q'[|q'| - 1]];
        CountAppend(q[k..], q'[|q'| - 1], KAck);
      }
    }
  }

  lemma LocalOthers(w: World, w': World, p: Id, S: set<Id>, i: Id)
    requires Local(w, w', p, S) && i < |w.objs| && i != p && LiveOk(w, i)
    requires TermBalanced(w, w', p)
    ensures LiveOk(w', i)
  {
    GrowsCounts(w, w', i, i in S, KCounted);
    assert AcksOk(w', i) by {
      GrowsCounts(w, w', i, i in S, KAck);
      LocalDying(w, w', p, S, i);
    }
    assert OwnerOk(w', i) by { LocalOwner(w, w', p, S, i); }
    assert HoldsChildrenOnly(w', i) by {
      LocalChildren(w, w', p, S, i);
      forall c: Id ensures Held(w', c, i) == Held(w, c, i) { GrowsCounts(w, w', i, i in S, KOwn(c)); }
    }
    LocalReqs(w, w', p, S, i);
  }

  lemma LocalSelf(w: World, w': World, p: Id, S: set<Id>)
    requires Local(w, w', p, S) && LiveOk(w, p) && Balanced(w, w', p, S)
    requires forall c: Id :: c in S ==> OwnerOk(w, c)
    ensures LiveOk(w', p)
  {
    assert AcksOk(w', p) by {
      LocalDying(w, w', p, S, p);
      assert S !! Dying(w, p);
    }
    assert OwnerOk(w', p) by { LocalOwner(w, w', p, S, p); }
    assert HoldsChildrenOnly(w', p) by {
      LocalChildren(w, w', p, S, p);
    }
  }

  lemma LocalObj(w: World, w': World, p: Id, S: set<Id>, i: Id)
    requires Local(w, w', p, S) && Balanced(w, w', p, S) && i < |w.objs| && ObjOk(w, i)
    requires forall c: Id :: c in S ==> OwnerOk(w, c)
    ensures ObjOk(w', i)
  {
    if i == p {
      LocalSelf(w, w', p, S);
    } else if w.objs[i].alive {
      LocalOthers(w, w', p, S, i);
    }
  }

  lemma LocalKeepsInv(w: World, w': World, p: Id, S: set<Id>)
    requires Inv(w) && Local(w, w', p, S) && Balanced(w, w', p, S)
    ensures InvBut(w', {p})
  {
    forall c: Id | c in S ensures OwnerOk(w, c) { assert ObjOk(w, c); }
    forall i: Id | i < |w.objs| ensures ObjOk(w', i) {
      LocalObj(w, w', p, S, i);
    }
  }

  lemma NoCheckNeeded(w: World, p: Id)
    requires InvBut(w, {p}) && p < |w.objs| && Waiting(w.objs[p])
    ensures Inv(w)
  {
  }

  // ---------------------------------------------------------------- requests in an inbox

  lemma ReqsTail(w: World, w': World, p: Id)
    requires Sized(w) && Sized(w') && p < |w.objs| == |w'.objs| && ReqsOk(w, p)
    requires forall c: Id :: Child(w', c, p) <==> Child(w, c, p)
    requires w.inbox[p] != [] && w'.inbox[p] == w.inbox[p][1..]
    ensures ReqsOk(w', p)
  {
    var q, q' := w.inbox[p], w'.inbox[p];
    forall k | 0 <= k < |q'| && q'[k].TermReq?
      ensures Child(w', q'[k].child, p) || Count(q'[k..], KAck) > 0
    {
      assert q[k + 1..] == q'[k..] && q[k + 1] == q'[k];
    }
  }

  lemma ReqsAppend(w: World, w': World, p: Id, c: Command)
    requires Sized(w) && Sized(w') && p < |w.objs| == |w'.objs| && ReqsOk(w, p)
    requires forall c: Id :: Child(w', c, p) <==> Child(w, c, p)
    requires w'.inbox[p] == w.inbox[p] + [c]
    requires c.TermReq? ==> Child(w, c.child, p)
    ensures ReqsOk(w', p)
  {
    var q, q' := w.inbox[p], w'.inbox[p];
    forall k | 0 <= k < |q'| && q'[k].TermReq?
      ensures Child(w', q'[k].child, p) || Count(q'[k..], KAck) > 0
    {
      if k < |q| {
        assert q'[k..] == q[k..] + [c];
        CountAppend(q[k..], c, KAck);
      }
    }
  }

  // ---------------------------------------------------------------- steps without a handler

  /** A local step that involves no check_term_acks and leaves p waiting. */
  ghost predicate QuietLocal(w: World, w': World, p: Id) {
    && Local(w, w', p, {}) && Balanced(w, w', p, {})
    && (w'.objs[p].terminating ==> !CaughtUp(w'.objs[p]) || w'.objs[p].acks != 0)
  }

  lemma QuietKeepsInv(w: World, w': World, p: Id)
    requires Inv(w) && QuietLocal(w, w', p)
    ensures Inv(w')
  {
    LocalKeepsInv(w, w', p, {});
    NoCheckNeeded(w', p);
  }

  lemma TakeIsQuiet(w: World, p: Id)
    requires Sized(w) && !w.fault && Enabled(w, Take(p)) && LiveOk(w, p)
    ensures QuietLocal(w, Next(w, Take(p)), p)
  {
  }

  lemma RegisterIsQuiet(w: World, p: Id, n: nat)
    requires Sized(w) && !w.fault && Enabled(w, RegisterAcks(p, n)) && LiveOk(w, p) && Waiting(w.objs[p])
    ensures QuietLocal(w, Next(w, RegisterAcks(p, n)), p)
  {
  }

  /** p's inbox grew by cmd and the counters of p were adjusted for it. */
  ghost predicate Appends(w: World, w': World, p: Id, cmd: Command) {
    && Sized(w) && Sized(w') && |w'.objs| == |w.objs| && p < |w.objs| && !w'.fault && w.objs[p].alive
    && (forall i: Id :: i < |w.objs| && i != p ==>
                          w'.objs[i] == w.objs[i] && w'.env[i] == w.env[i] && w'.inbox[i] == w.inbox[i])
    && w'.inbox[p] == w.inbox[p] + [cmd]
    && w'.objs[p] == w.objs[p].(sent := w'.objs[p].sent)
    && w'.objs[p].sent - w'.env[p].debt == w.objs[p].sent - w.env[p].debt + Bit(Counted(cmd))
    && w'.objs[p].sent < SEQ_WRAP
    && w'.env[p].ext == w.env[p].ext
    && (forall c: Id :: Bit(w'.env[p].launching == Some(c)) + Bit(cmd == Own(c)) == Bit(w.env[p].launching == Some(c)))
    && !cmd.Term? && !cmd.TermAck? && (cmd.TermReq? ==> Child(w, cmd.child, p))
  }

  lemma AppendsLocal(w: World, w': World, p: Id, cmd: Command)
    requires Appends(w, w', p, cmd)
    ensures Local(w, w', p, {})
  {
    forall c: Id ensures Held(w', c, p) == Held(w, c, p) { CountAppend(w.inbox[p], cmd, KOwn(c)); }
  }

  lemma AppendsBalanced(w: World, w': World, p: Id, cmd: Command)
    requires Appends(w, w', p, cmd) && LiveOk(w, p)
    ensures Balanced(w, w', p, {})
  {
    CountAppend(w.inbox[p], cmd, KCounted);
    CountAppend(w.inbox[p], cmd, KTerm);
    CountAppend(w.inbox[p], cmd, KAck);
    ReqsAppend(w, w', p, cmd);
  }

  lemma AppendsIsQuiet(w: World, w': World, p: Id, cmd: Command)
    requires Appends(w, w', p, cmd) && LiveOk(w, p)
    requires Waiting(w'.objs[p])
    ensures QuietLocal(w, w', p)
  {
    AppendsLocal(w, w', p, cmd);
    AppendsBalanced(w, w', p, cmd);
  }

  lemma PayIsQuiet(w: World, p: Id, cmd: Command)
    requires Sized(w) && !w.fault && Enabled(w, Pay(p, cmd)) && w.objs[p].alive && LiveOk(w, p) && Waiting(w.objs[p])
    ensures QuietLocal(w, Next(w, Pay(p, cmd)), p)
  {
    AppendsIsQuiet(w, Next(w, Pay(p, cmd)), p, cmd);
  }

  lemma LaunchOwnIsQuiet(w: World, p: Id)
    requires Sized(w) && !w.fault && Enabled(w, LaunchOwn(p)) && LiveOk(w, p)
    ensures QuietLocal(w, Next(w, LaunchOwn(p)), p)
  {
    AppendsIsQuiet(w, Next(w, LaunchOwn(p)), p, Own(w.env[p].launching.value));
  }

  /** A child that asks to be terminated only adds a request to its owner's inbox. */
  lemma AskIsQuiet(w: World, p: Id, c: Id, w': World)
    requires Sized(w) && !w.fault && p < |w.objs| && w.objs[p].alive && LiveOk(w, p) && Waiting(w.objs[p])
    requires Child(w, c, p)
    requires Sized(w') && w'.objs == w.objs && w'.env == w.env && !w'.fault
    requires w'.inbox == w.inbox[p := w.inbox[p] + [TermReq(c)]]
    ensures QuietLocal(w, w', p)
  {
    AppendsIsQuiet(w, w', p, TermReq(c));
  }

  // ---------------------------------------------------------------- steps with a handler

  /** check_term_acks may be read as a step of its own after the handler. */
  lemma SplitCheck(w: World, p: Id, o: Obj, sends: map<Id, Command>)
    requires Sized(w) && p < |w.objs|
    requires o.owner.Some? ==> o.owner.value !in sends
    requires o.terminating ==> o.owned == {}
    ensures Apply(w, p, CheckTermAcks(o, sends))
            == Apply(Apply(w, p, React(o, sends)), p, CheckTermAcks(o, map[]))
  {
    var w1 := Apply(w, p, React(o, sends));
    var x := Apply(w, p, CheckTermAcks(o, sends));
    var y := Apply(w1, p, CheckTermAcks(o, map[]));
    assert x.objs == y.objs;
    assert x.inbox == y.inbox;
  }

  /** The part of a handler before check_term_acks. */
  ghost predicate Handled(w: World, w1: World, p: Id, S: set<Id>) {
    Local(w, w1, p, S) && Balanced(w, w1, p, S) && w1.env[p].launching.None?
  }

  lemma HandledKeepsInv(w: World, w1: World, p: Id, S: set<Id>)
    requires Inv(w) && Handled(w, w1, p, S)
    ensures Inv(Apply(w1, p, CheckTermAcks(w1.objs[p], map[])))
  {
    LocalKeepsInv(w, w1, p, S);
    CheckKeepsInv(w1, p);
  }

  /** The children p may still have to ask, each held exactly once. */
  ghost predicate HoldsOnce(w: World, p: Id)
    requires Sized(w) && p < |w.objs|
  {
    forall c: Id :: Held(w, c, p) > 0 ==> p < c && Child(w, c, p) && Held(w, c, p) == 1
  }

  lemma InvHoldsOnce(w: World, p: Id)
    requires Inv(w) && p < |w.objs| && w.objs[p].alive
    ensures HoldsOnce(w, p)
  {
    assert ObjOk(w, p);
    forall c: Id | Held(w, c, p) > 0 ensures p < c && Child(w, c, p) && Held(w, c, p) == 1 {
      assert ObjOk(w, c);
    }
  }

  /** The command a handler consumed, if any, is of kind k. */
  predicate Consumed(w: World, p: Id, pop: bool, k: Kind)
    requires Sized(w) && p < |w.objs| && (pop ==> w.inbox[p] != [])
  {
    pop && Is(w.inbox[p][0], k)
  }

  /** p consumed the head of its inbox (if pop) and sent a term to each object of S. */
  ghost predicate Moves(w: World, w1: World, p: Id, pop: bool, S: set<Id>) {
    && Sized(w) && Sized(w1) && |w1.objs| == |w.objs| && p < |w.objs| && !w1.fault
    && (pop ==> w.inbox[p] != [])
    && w1.inbox[p] == (if pop then w.inbox[p][1..] else w.inbox[p])
    && w.objs[p].alive && w1.objs[p].alive && w1.objs[p].owner == w.objs[p].owner
    && w.env[p].launching.None? && w1.env[p].launching.None?
    && p !in S
    && (forall i: Id :: i < |w.objs| && i != p ==>
                          w1.objs[i] == w.objs[i] && w1.env[i] == w.env[i] && InboxGrows(w, w1, i, i in S))
  }

  /** The new fields of p account for what was consumed and what was sent. */
  ghost predicate Accounts(w: World, p: Id, pop: bool, o1: Obj, e1: Env, S: set<Id>)
    requires Sized(w) && p < |w.objs| && (pop ==> w.inbox[p] != [])
  {
    var o, e := w.objs[p], w.env[p];
    && (forall c: Id :: Bit(c in o1.owned) + Bit(c in S) == Bit(c in o.owned) + Bit(Consumed(w, p, pop, KOwn(c))))
    && o1.sent == o.sent && e1.debt == e.debt
    && o1.processed == o.processed + Bit(Consumed(w, p, pop, KCounted))
    && o1.acks - e1.ext == o.acks - e.ext + |S| - Bit(Consumed(w, p, pop, KAck))
    && (o.owner.Some? ==> Bit(o1.terminating) == Bit(o.terminating) + Bit(Consumed(w, p, pop, KTerm)))
    && (o1.terminating ==> o1.owned == {})
    && o1.alive && o1.owner == o.owner
  }

  lemma MovesCount(w: World, w1: World, p: Id, pop: bool, S: set<Id>, k: Kind)
    requires Moves(w, w1, p, pop, S)
    ensures Count(w1.inbox[p], k) == Count(w.inbox[p], k) - Bit(Consumed(w, p, pop, k))
  {
  }

  lemma MovesLocal(w: World, w1: World, p: Id, pop: bool, S: set<Id>)
    requires Moves(w, w1, p, pop, S) && Accounts(w, p, pop, w1.objs[p], w1.env[p], S) && HoldsOnce(w, p)
    ensures Local(w, w1, p, S)
  {
    forall c: Id ensures Held(w1, c, p) + Bit(c in S) == Held(w, c, p) {
      MovesCount(w, w1, p, pop, S, KOwn(c));
    }
  }

  lemma MovesBalanced(w: World, w1: World, p: Id, pop: bool, S: set<Id>)
    requires Moves(w, w1, p, pop, S) && Accounts(w, p, pop, w1.objs[p], w1.env[p], S) && LiveOk(w, p)
    ensures Balanced(w, w1, p, S)
  {
    MovesCount(w, w1, p, pop, S, KCounted);
    MovesCount(w, w1, p, pop, S, KAck);
    MovesCount(w, w1, p, pop, S, KTerm);
    MovesReqs(w, w1, p, pop, S);
  }

  lemma MovesReqs(w: World, w1: World, p: Id, pop: bool, S: set<Id>)
    requires Moves(w, w1, p, pop, S) && Accounts(w, p, pop, w1.objs[p], w1.env[p], S) && LiveOk(w, p)
    ensures ReqsOk(w1, p)
  {
    if pop { ReqsTail(w, w1, p); }
  }

  lemma AccountsKeepsInv(w: World, w1: World, p: Id, pop: bool, S: set<Id>)
    requires Inv(w) && Moves(w, w1, p, pop, S) && Accounts(w, p, pop, w1.objs[p], w1.env[p], S)
    ensures Inv(Apply(w1, p, CheckTermAcks(w1.objs[p], map[])))
  {
    InvHoldsOnce(w, p);
    MovesLocal(w, w1, p, pop, S);
    assert ObjOk(w, p);
    MovesBalanced(w, w1, p, pop, S);
    HandledKeepsInv(w, w1, p, S);
  }

  // ---------------------------------------------------------------- the handlers one by one

  /** The world a handler starts from: its command has left the inbox. */
  function Base(w: World, p: Id, pop: bool): World
    requires Sized(w) && p < |w.objs| && (pop ==> w.inbox[p] != [])
  {
    if pop then Pop(w, p) else w
  }

  ghost predicate Sends(w: World, p: Id, sends: map<Id, Command>)
    requires Sized(w) && p < |w.objs|
  {
    forall c: Id :: c in sends ==> sends[c].Term? && Held(w, c, p) > 0
  }

  /** A handler that sends terms to held children and then checks its acks. */
  lemma CheckedHandler(w: World, p: Id, pop: bool, o: Obj, sends: map<Id, Command>)
    requires Inv(w) && Ready(w, p) && (pop ==> w.inbox[p] != [])
    requires Sends(w, p, sends) && Accounts(w, p, pop, o, w.env[p], sends.Keys)
    ensures Inv(Apply(Base(w, p, pop), p, CheckTermAcks(o, sends)))
  {
    var b := Base(w, p, pop);
    var w1 := Apply(b, p, React(o, sends));
    InvHoldsOnce(w, p);
    assert p !in sends && (o.owner.Some? ==> o.owner.value !in sends);
    SplitCheck(b, p, o, sends);
    assert Moves(w, w1, p, pop, sends.Keys) by { BaseMoves(w, p, pop, o, sends); }
    AccountsKeepsInv(w, w1, p, pop, sends.Keys);
  }

  lemma BaseMoves(w: World, p: Id, pop: bool, o: Obj, sends: map<Id, Command>)
    requires Sized(w) && !w.fault && Ready(w, p) && (pop ==> w.inbox[p] != [])
    requires o.alive && o.owner == w.objs[p].owner && p !in sends
    requires forall c: Id :: c in sends ==> sends[c].Term?
    ensures Moves(w, Apply(Base(w, p, pop), p, React(o, sends)), p, pop, sends.Keys)
  {
  }

  lemma TermAccounts(w: World, p: Id, pop: bool, o1: Obj)
    requires Sized(w) && p < |w.objs| && w.objs[p].alive && !w.objs[p].terminating
    requires if pop then w.inbox[p] != [] && w.inbox[p][0].Term? else w.objs[p].owner.None?
    requires var o := w.objs[p]; o1 == o.(terminating := true, acks := o.acks + |o.owned|, owned := {})
    ensures Accounts(w, p, pop, o1, w.env[p], w.objs[p].owned)
  {
  }

  lemma KeepTerm(w: World, p: Id, pop: bool, linger: int)
    requires Inv(w) && Ready(w, p) && !w.objs[p].terminating
    requires if pop then w.inbox[p] != [] && w.inbox[p][0].Term? else w.objs[p].owner.None?
    ensures Inv(Apply(Base(w, p, pop), p, ProcessTerm(w.objs[p], linger)))
  {
    var o := w.objs[p];
    var o1 := o.(terminating := true, acks := o.acks + |o.owned|, owned := {});
    var sends := map c | c in o.owned :: Term(linger);
    assert sends.Keys == o.owned;
    assert ProcessTerm(o, linger) == CheckTermAcks(o1, sends);
    TermAccounts(w, p, pop, o1);
    CheckedHandler(w, p, pop, o1, sends);
  }

  lemma OwnAccounts(w: World, p: Id, c: Id)
    requires Sized(w) && p < |w.objs| && w.objs[p].alive && (w.objs[p].terminating ==> w.objs[p].owned == {})
    requires w.inbox[p] != [] && w.inbox[p][0] == Own(c) && Held(w, c, p) == 1
    ensures var (o1, sends) := ProcessOwn(w.objs[p], c);
            Accounts(w, p, true, o1.(processed := o1.processed + 1), w.env[p], sends.Keys)
  {
  }

  lemma KeepOwn(w: World, p: Id, c: Id)
    requires Inv(w) && Ready(w, p) && w.inbox[p] != [] && w.inbox[p][0] == Own(c)
    ensures Inv(Apply(Pop(w, p), p, Handle(w.objs[p], Own(c))))
  {
    var (o1, sends) := ProcessOwn(w.objs[p], c);
    InvHoldsOnce(w, p);
    assert Held(w, c, p) == 1;
    assert ObjOk(w, p);
    OwnAccounts(w, p, c);
    CheckedHandler(w, p, true, o1.(processed := o1.processed + 1), sends);
  }

  lemma KeepCounted(w: World, p: Id)
    requires Inv(w) && Ready(w, p) && w.inbox[p] != [] && Counted(w.inbox[p][0]) && !w.inbox[p][0].Own?
    ensures Inv(Apply(Pop(w, p), p, Handle(w.objs[p], w.inbox[p][0])))
  {
    var o := w.objs[p];
    var o1 := o.(processed := o.processed + 1);
    assert ObjOk(w, p);
    assert Handle(o, w.inbox[p][0]) == CheckTermAcks(o1, map[]);
    assert Accounts(w, p, true, o1, w.env[p], {});
    CheckedHandler(w, p, true, o1, map[]);
  }

  lemma AckCounted(w: World, p: Id)
    requires Sized(w) && p < |w.objs| && LiveOk(w, p)
    requires w.env[p].ext > 0 || (w.inbox[p] != [] && w.inbox[p][0].TermAck?)
    ensures w.objs[p].acks > 0
  {
  }

  lemma KeepAck(w: World, p: Id)
    requires Inv(w) && Ready(w, p) && w.inbox[p] != [] && w.inbox[p][0].TermAck?
    ensures Inv(Apply(Pop(w, p), p, Handle(w.objs[p], w.inbox[p][0])))
  {
    var o := w.objs[p];
    assert ObjOk(w, p);
    AckCounted(w, p);
    var o1 := o.(acks := o.acks - 1);
    assert Handle(o, w.inbox[p][0]) == CheckTermAcks(o1, map[]);
    assert Accounts(w, p, true, o1, w.env[p], {});
    CheckedHandler(w, p, true, o1, map[]);
  }

  lemma KeepUnregister(w: World, p: Id)
    requires Inv(w) && Enabled(w, UnregisterAck(p))
    ensures Inv(Next(w, UnregisterAck(p)))
  {
    assert ObjOk(w, p);
    AckCounted(w, p);
    var o := w.objs[p].(acks := w.objs[p].acks - 1);
    var e := w.env[p].(ext := w.env[p].ext - 1);
    var w1 := w.(objs := w.objs[p := o], env := w.env[p := e]);
    assert Accounts(w, p, false, o, e, {});
    AccountsKeepsInv(w, w1, p, false, {});
    var b := w.(env := w1.env);
    SplitCheck(b, p, o, map[]);
    assert Apply(b, p, React(o, map[])) == w1;
  }

  /** A handler that does not check its acks and leaves p waiting if it was. */
  lemma UncheckedHandler(w: World, p: Id, pop: bool, o: Obj, sends: map<Id, Command>)
    requires Inv(w) && Ready(w, p) && (pop ==> w.inbox[p] != [])
    requires Sends(w, p, sends) && Accounts(w, p, pop, o, w.env[p], sends.Keys)
    requires o == w.objs[p] || !o.terminating
    ensures Inv(Apply(Base(w, p, pop), p, React(o, sends)))
  {
    var w1 := Apply(Base(w, p, pop), p, React(o, sends));
    InvHoldsOnce(w, p);
    BaseMoves(w, p, pop, o, sends);
    MovesLocal(w, w1, p, pop, sends.Keys);
    assert ObjOk(w, p);
    MovesBalanced(w, w1, p, pop, sends.Keys);
    LocalKeepsInv(w, w1, p, sends.Keys);
    NoCheckNeeded(w1, p);
  }

  lemma IgnoredAccounts(w: World, p: Id, pop: bool)
    requires Sized(w) && p < |w.objs| && w.objs[p].alive && (w.objs[p].terminating ==> w.objs[p].owned == {})
    requires pop ==> w.inbox[p] != [] && w.inbox[p][0].TermReq?
    ensures Accounts(w, p, pop, w.objs[p], w.env[p], {})
  {
  }

  lemma HonouredAccounts(w: World, p: Id, pop: bool, c: Id)
    requires Sized(w) && p < |w.objs| && w.objs[p].alive && !w.objs[p].terminating && c in w.objs[p].owned
    requires pop ==> w.inbox[p] != [] && w.inbox[p][0].TermReq?
    ensures var o := w.objs[p];
            Accounts(w, p, pop, o.(owned := o.owned - {c}, acks := o.acks + 1), w.env[p], {c})
  {
  }

  lemma TermReqAccounts(w: World, p: Id, pop: bool, c: Id)
    requires Sized(w) && p < |w.objs| && w.objs[p].alive && (w.objs[p].terminating ==> w.objs[p].owned == {})
    requires pop ==> w.inbox[p] != [] && w.inbox[p][0].TermReq?
    ensures var r := ProcessTermReq(w.objs[p], c);
            r.React? && Sends(w, p, r.sends) && Accounts(w, p, pop, r.obj, w.env[p], r.sends.Keys)
  {
    var r := ProcessTermReq(w.objs[p], c);
    if c in w.objs[p].owned {
      assert r.sends.Keys == {c};
      HonouredAccounts(w, p, pop, c);
    } else {
      assert r.sends.Keys == {};
      IgnoredAccounts(w, p, pop);
    }
  }

  lemma KeepTermReq(w: World, p: Id, pop: bool, c: Id)
    requires Inv(w) && Ready(w, p) && (pop ==> w.inbox[p] != [] && w.inbox[p][0].TermReq?)
    ensures Inv(Apply(Base(w, p, pop), p, ProcessTermReq(w.objs[p], c)))
  {
    assert ObjOk(w, p);
    TermReqAccounts(w, p, pop, c);
    var r := ProcessTermReq(w.objs[p], c);
    UncheckedHandler(w, p, pop, r.obj, r.sends);
  }

  // ---------------------------------------------------------------- new objects

  lemma PushKeepsOthers(w: World, w': World, i: Id)
    requires Sized(w) && Sized(w') && |w'.objs| == |w.objs| + 1 && i < |w.objs| && LiveOk(w, i)
    requires forall j: Id :: j < |w.objs| ==> w'.objs[j] == w.objs[j] && w'.inbox[j] == w.inbox[j]
    requires forall j: Id :: j < |w.objs| && j != i ==>
               w'.env[j] == w.env[j] || w'.env[j] == w.env[j].(launching := Some(|w.objs|))
    requires w'.env[i] == w.env[i]
    requires forall j: Id :: j < |w.objs| && w'.env[j] != w.env[j] ==> w.env[j].launching.None?
    requires w'.objs[|w.objs|].owner != Some(i)
    ensures LiveOk(w', i)
  {
    assert Dying(w', i) == Dying(w, i);
    LiveFrame(w, w', i);
  }

  lemma KeepCreate(w: World, linger: int)
    requires Inv(w)
    ensures Inv(Next(w, Create(linger)))
  {
    var n := |w.objs|;
    var w' := Next(w, Create(linger));
    forall i: Id | i < n ensures ObjOk(w', i) {
      assert ObjOk(w, i);
      if w.objs[i].alive { PushKeepsOthers(w, w', i); }
    }
    assert Dying(w', n) == {};
    assert ObjOk(w', n);
  }

  lemma LaunchKeepsParent(w: World, p: Id, linger: int)
    requires Sized(w) && Enabled(w, LaunchPlug(p, linger)) && LiveOk(w, p)
    ensures LiveOk(Next(w, LaunchPlug(p, linger)), p)
  {
    var n := |w.objs|;
    var w' := Next(w, LaunchPlug(p, linger));
    assert Dying(w', p) == Dying(w, p);
    forall c: Id ensures Held(w', c, p) == Held(w, c, p) + Bit(c == n) { }
    assert OwnerOk(w', p);
    assert HoldsChildrenOnly(w', p);
    assert ReqsOk(w', p);
  }

  lemma LaunchedChild(w: World, p: Id, linger: int)
    requires Sized(w) && Enabled(w, LaunchPlug(p, linger)) && HoldsChildrenOnly(w, p)
    requires forall i: Id :: i < |w.objs| && w.objs[i].owner.Some? ==> w.objs[i].owner.value < i
    ensures LiveOk(Next(w, LaunchPlug(p, linger)), |w.objs|)
  {
    var n := |w.objs|;
    var w' := Next(w, LaunchPlug(p, linger));
    assert Dying(w', n) == {};
    forall c: Id ensures Held(w', c, n) == 0 {
      assert Count([Plug], KOwn(c)) == 0;
    }
    assert !Child(w, n, p);
    assert Phases(w', n, p) == 1;
  }

  lemma LaunchKeepsObj(w: World, p: Id, linger: int, i: Id)
    requires Sized(w) && Enabled(w, LaunchPlug(p, linger)) && i < |w.objs| && ObjOk(w, i)
    ensures ObjOk(Next(w, LaunchPlug(p, linger)), i)
  {
    if i == p {
      LaunchKeepsParent(w, p, linger);
    } else if w.objs[i].alive {
      PushKeepsOthers(w, Next(w, LaunchPlug(p, linger)), i);
    }
  }

  lemma KeepLaunchPlug(w: World, p: Id, linger: int)
    requires Inv(w) && Enabled(w, LaunchPlug(p, linger))
    ensures Inv(Next(w, LaunchPlug(p, linger)))
  {
    var w' := Next(w, LaunchPlug(p, linger));
    assert ObjOk(w, p);
    assert ObjOk(w', |w.objs|) by { LaunchedChild(w, p, linger); }
    forall i: Id | i < |w.objs| ensures ObjOk(w', i) {
      LaunchKeepsObj(w, p, linger, i);
    }
  }
}
