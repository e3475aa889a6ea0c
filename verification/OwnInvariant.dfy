/** The invariant of the shutdown protocol, and its preservation by every step. */
module OwnInvariant {
  import opened Basics
  import opened OwnModel

  /** What is counted in an inbox. */
  datatype Kind = KCounted | KOwn(child: Id) | KTerm | KAck

  predicate Is(c: Command, k: Kind) {
    match k
    case KCounted => Counted(c)
    case KOwn(x) => c == Own(x)
    case KTerm => c.Term?
    case KAck => c.TermAck?
  }

  function Count(q: seq<Command>, k: Kind): nat {
    if q == [] then 0 else Bit(Is(q[0], k)) + Count(q[1..], k)
  }

  lemma {:induction false} CountAppend(q: seq<Command>, c: Command, k: Kind)
    ensures Count(q + [c], k) == Count(q, k) + Bit(Is(c, k))
  {
    if q == [] {
      assert q + [c] == [c];
    } else {
      assert (q + [c])[1..] == q[1..] + [c];
      CountAppend(q[1..], c, k);
    }
  }

  lemma {:induction false} CountPositive(q: seq<Command>, i: nat, k: Kind)
    requires i < |q| && Is(q[i], k)
    ensures Count(q, k) > 0
  {
    if i > 0 { CountPositive(q[1..], i - 1, k); }
  }

  // ---------------------------------------------------------------- the invariant

  predicate Child(w: World, c: Id, p: Id) {
    c < |w.objs| && w.objs[c].alive && w.objs[c].owner == Some(p)
  }

  /** The phases of the termination of a live child; exactly one holds. */
  function Phases(w: World, c: Id, p: Id): nat
    requires Sized(w) && p < |w.objs| && c < |w.objs|
  {
    Held(w, c, p) + Count(w.inbox[c], KTerm) + Bit(w.objs[c].terminating)
  }

  /** The phases in which the owner still has to ask the child to terminate. */
  function Held(w: World, c: Id, p: Id): nat
    requires Sized(w) && p < |w.objs|
  {
    Bit(w.env[p].launching == Some(c)) + Count(w.inbox[p], KOwn(c)) + Bit(c in w.objs[p].owned)
  }

  /** The live children that were asked to terminate. */
  function Dying(w: World, p: Id): set<Id>
    requires Sized(w)
  {
    set c | 0 <= c < |w.objs| && Child(w, c, p) && (Count(w.inbox[c], KTerm) > 0 || w.objs[c].terminating)
  }

  predicate SeqOk(w: World, p: Id)
    requires Sized(w) && p < |w.objs|
  {
    w.objs[p].sent == w.objs[p].processed + Count(w.inbox[p], KCounted) + w.env[p].debt
    && w.objs[p].sent < SEQ_WRAP
  }

  predicate AcksOk(w: World, p: Id)
    requires Sized(w) && p < |w.objs|
  {
    w.objs[p].acks == w.env[p].ext + Count(w.inbox[p], KAck) + |Dying(w, p)|
  }

  predicate OwnerOk(w: World, c: Id)
    requires Sized(w) && c < |w.objs|
  {
    match w.objs[c].owner
    case None => Count(w.inbox[c], KTerm) == 0
    case Some(p) => p < c && w.objs[p].alive && Phases(w, c, p) == 1
  }

  ghost predicate HoldsChildrenOnly(w: World, p: Id)
    requires Sized(w) && p < |w.objs|
  {
    forall c :: Held(w, c, p) > 0 ==> Child(w, c, p)
  }

  /** A request of a child that is gone is followed by an acknowledgement. */
  ghost predicate ReqsOk(w: World, p: Id)
    requires Sized(w) && p < |w.objs|
  {
    forall i :: 0 <= i < |w.inbox[p]| && w.inbox[p][i].TermReq? ==>
                  Child(w, w.inbox[p][i].child, p) || Count(w.inbox[p][i..], KAck) > 0
  }

  /** A terminating object still waits for something. */
  predicate Waiting(o: Obj) {
    o.terminating ==> !CaughtUp(o) || o.acks != 0
  }

  ghost predicate LiveOk(w: World, p: Id)
    requires Sized(w) && p < |w.objs|
  {
    && SeqOk(w, p)
    && AcksOk(w, p)
    && OwnerOk(w, p)
    && HoldsChildrenOnly(w, p)
    && ReqsOk(w, p)
    && (w.objs[p].terminating ==> w.objs[p].owned == {})
  }

  /** Nothing is in flight to a destroyed object and nothing is owed to it. */
  predicate GoneOk(w: World, p: Id)
    requires Sized(w) && p < |w.objs|
  {
    w.inbox[p] == [] && w.env[p] == Env(0, 0, None)
  }

  ghost predicate ObjOk(w: World, p: Id)
    requires Sized(w) && p < |w.objs|
  {
    if w.objs[p].alive then LiveOk(w, p) else GoneOk(w, p)
  }

  /** The owner of every object, alive or not, is older. */
  predicate OlderOwners(w: World) {
    forall c :: 0 <= c < |w.objs| && w.objs[c].owner.Some? ==> w.objs[c].owner.value < c
  }

  /** The invariant, except that the objects in `busy` may have nothing left
      to wait for: their handler has not reached check_term_acks yet. */
  ghost predicate InvBut(w: World, busy: set<Id>) {
    && Sized(w)
    && !w.fault
    && OlderOwners(w)
    && (forall p :: 0 <= p < |w.objs| ==> ObjOk(w, p))
    && (forall p :: 0 <= p < |w.objs| && w.objs[p].alive && p !in busy ==> Waiting(w.objs[p]))
  }

  ghost predicate Inv(w: World) {
    InvBut(w, {})
  }

  // ---------------------------------------------------------------- frames

  /** Nothing that LiveOk says about i has changed. */
  ghost predicate Unaffected(w: World, w': World, i: Id) {
    && Sized(w) && Sized(w') && i < |w.objs| <= |w'.objs|
    && w'.objs[i] == w.objs[i] && w'.inbox[i] == w.inbox[i] && w'.env[i] == w.env[i]
    && SameChildren(w, w', i)
    && (w.objs[i].owner.Some? && w.objs[i].owner.value < i ==>
          var p := w.objs[i].owner.value;
          w'.objs[p].alive && Held(w', i, p) == Held(w, i, p))
  }

  ghost predicate SameChildren(w: World, w': World, i: Id)
    requires Sized(w) && Sized(w')
  {
    && (forall c :: Child(w', c, i) <==> Child(w, c, i))
    && Dying(w', i) == Dying(w, i)
  }

  lemma LiveFrame(w: World, w': World, i: Id)
    requires Unaffected(w, w', i) && LiveOk(w, i)
    ensures LiveOk(w', i)
  {
    forall c ensures Held(w', c, i) == Held(w, c, i) { }
  }

  // ---------------------------------------------------------------- check_term_acks

  /** The heart of the safety argument: when the guard of check_term_acks
      holds, no live object names p as its owner and nothing is in flight. */
  lemma NothingOutstanding(w: World, p: Id)
    requires InvBut(w, {p}) && Ready(w, p)
    requires w.objs[p].terminating && CaughtUp(w.objs[p]) && w.objs[p].acks == 0
    ensures forall c :: !Child(w, c, p)
    ensures GoneOk(w, p)
    ensures w.objs[p].owned == {}
  {
    assert ObjOk(w, p);
    forall c: Id | c < |w.objs| ensures !Child(w, c, p) {
      assert ObjOk(w, c);
      if w.objs[c].alive { ChildIsAwaited(w, c, p); }
    }
    assert w.inbox[p][0..] == w.inbox[p];
    NonEmptyInbox(w.inbox[p]);
  }

  /** A child that is still there keeps its owner waiting. */
  lemma ChildIsAwaited(w: World, c: Id, p: Id)
    requires Sized(w) && p < |w.objs| && c < |w.objs| && LiveOk(w, c) && LiveOk(w, p)
    requires w.env[p].launching.None? && w.objs[p].terminating
    ensures Child(w, c, p) ==> !CaughtUp(w.objs[p]) || w.objs[p].acks != 0
  {
    OwnIsCounted(w.inbox[p], c);
    if Child(w, c, p) && Held(w, c, p) == 0 {
      assert c in Dying(w, p);
    }
  }

  lemma {:induction false} OwnIsCounted(q: seq<Command>, c: Id)
    ensures Count(q, KOwn(c)) <= Count(q, KCounted)
  {
    if q != [] { OwnIsCounted(q[1..], c); }
  }

  lemma NonEmptyInbox(q: seq<Command>)
    ensures q != [] && !q[0].TermReq? ==> Count(q, KCounted) + Count(q, KAck) + Count(q, KTerm) > 0
  {
  }

  lemma CheckKeepsInv(w: World, p: Id)
    requires InvBut(w, {p}) && Ready(w, p)
    ensures Inv(Apply(w, p, CheckTermAcks(w.objs[p], map[])))
  {
    var o := w.objs[p];
    var w' := Apply(w, p, CheckTermAcks(o, map[]));
    if o.terminating && CaughtUp(o) && o.acks == 0 {
      NothingOutstanding(w, p);
      DestroyKeepsInv(w, p, w');
    } else {
      assert w'.objs == w.objs && w'.inbox == w.inbox;
    }
  }

  lemma DestroyKeepsInv(w: World, p: Id, w': World)
    requires InvBut(w, {p}) && Ready(w, p)
    requires w.objs[p].terminating && GoneOk(w, p)
    requires forall c :: !Child(w, c, p)
    requires w' == Apply(w, p, React(w.objs[p].(alive := false),
                                     if w.objs[p].owner.Some? then map[w.objs[p].owner.value := TermAck] else map[]))
    ensures Inv(w')
  {
    assert ObjOk(w, p);
    forall i: Id | i < |w.objs|
      ensures ObjOk(w', i)
    {
      assert ObjOk(w, i);
      if w'.objs[i].alive {
        if w.objs[p].owner == Some(i) {
          DestroyNotifiesOwner(w, p, w', i);
        } else {
          DestroySpares(w, p, w', i);
        }
      }
    }
  }

  lemma DestroySpares(w: World, p: Id, w': World, i: Id)
    requires Sized(w) && p < |w.objs| && i < |w.objs| && w.objs[p].alive && w.objs[i].alive && i != p
    requires LiveOk(w, i) && !Child(w, i, p) && w.objs[p].owner != Some(i)
    requires w' == Apply(w, p, React(w.objs[p].(alive := false),
                                     if w.objs[p].owner.Some? then map[w.objs[p].owner.value := TermAck] else map[]))
    ensures LiveOk(w', i)
  {
    forall c: Id | Child(w, c, i) ensures Count(w'.inbox[c], KTerm) == Count(w.inbox[c], KTerm) {
      CountAppend(w.inbox[c], TermAck, KTerm);
    }
    assert Dying(w', i) == Dying(w, i);
    if w.objs[i].owner.Some? { HeldAck(w, w', i, w.objs[i].owner.value); }
    LiveFrame(w, w', i);
  }

  lemma HeldAck(w: World, w': World, c: Id, q: Id)
    requires Sized(w) && Sized(w') && q < |w.objs| == |w'.objs|
    requires w'.env == w.env && w'.objs[q].owned == w.objs[q].owned
    requires w'.inbox[q] == w.inbox[q] || w'.inbox[q] == w.inbox[q] + [TermAck]
    ensures Held(w', c, q) == Held(w, c, q)
  {
    CountAppend(w.inbox[q], TermAck, KOwn(c));
  }

  lemma DestroyNotifiesOwner(w: World, p: Id, w': World, i: Id)
    requires Sized(w) && p < |w.objs| && w.objs[p].alive && w.objs[p].terminating
    requires w.objs[p].owner == Some(i) && i < p && LiveOk(w, i) && OwnerOk(w, p)
    requires w' == Apply(w, p, React(w.objs[p].(alive := false), map[i := TermAck]))
    ensures LiveOk(w', i)
  {
    assert w'.inbox[i] == w.inbox[i] + [TermAck];
    DestroyAcks(w, p, w', i);
    DestroyHolds(w, p, w', i);
    AckCoversRequests(w', i);
    DestroyOthers(w, p, w', i);
  }

  lemma DestroyOthers(w: World, p: Id, w': World, i: Id)
    requires Sized(w) && p < |w.objs| && i < p && SeqOk(w, i) && OwnerOk(w, i)
    requires w' == Apply(w, p, React(w.objs[p].(alive := false), map[i := TermAck]))
    ensures SeqOk(w', i) && OwnerOk(w', i) && w'.objs[i] == w.objs[i]
  {
    CountAppend(w.inbox[i], TermAck, KCounted);
    CountAppend(w.inbox[i], TermAck, KTerm);
  }

  lemma DestroyHolds(w: World, p: Id, w': World, i: Id)
    requires Sized(w) && p < |w.objs| && i < p && HoldsChildrenOnly(w, i)
    requires w.objs[p].owner == Some(i) && w.objs[p].alive && w.objs[p].terminating && OwnerOk(w, p)
    requires w' == Apply(w, p, React(w.objs[p].(alive := false), map[i := TermAck]))
    ensures HoldsChildrenOnly(w', i)
  {
    assert Held(w, p, i) == 0;
    forall c: Id ensures Held(w', c, i) == Held(w, c, i) { HeldAck(w, w', c, i); }
  }

  lemma DestroyAcks(w: World, p: Id, w': World, i: Id)
    requires Sized(w) && p < |w.objs| && i < p && Child(w, p, i) && w.objs[p].terminating
    requires AcksOk(w, i)
    requires w' == Apply(w, p, React(w.objs[p].(alive := false), map[i := TermAck]))
    ensures AcksOk(w', i)
  {
    CountAppend(w.inbox[i], TermAck, KAck);
    CountAppend(w.inbox[i], TermAck, KTerm);
    assert p in Dying(w, i);
    assert Dying(w', i) == Dying(w, i) - {p};
  }

  lemma AckCoversRequests(w: World, i: Id)
    requires Sized(w) && i < |w.objs|
    requires w.inbox[i] != [] && w.inbox[i][|w.inbox[i]| - 1] == TermAck
    ensures ReqsOk(w, i)
  {
    var q := w.inbox[i];
    forall k | 0 <= k < |q|
      ensures Count(q[k..], KAck) > 0
    {
      CountPositive(q[k..], |q[k..]| - 1, KAck);
    }
  }
}
