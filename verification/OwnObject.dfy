/** own_t as an object updated in place: every handler meets its specification in OwnModel. */
module OwnObject {
  import opened Basics
  import M = OwnModel
  import opened OwnModel

  class OwnT {
    var alive: bool
    var owner: Option<Id>
    var owned: set<Id>
    var terminating: bool
    var sentSeqnum: nat
    var processedSeqnum: nat
    var termAcks: int
    const linger: int

    /** The commands sent by the handler that is running. */
    var sends: map<Id, Command>
    /** Set when an assertion fails. */
    var aborted: bool

    constructor (linger: int)
      ensures State() == Fresh(None, linger) && Idle()
    {
      this.linger := linger;
      alive, owner, owned, terminating := true, None, {}, false;
      sentSeqnum, processedSeqnum, termAcks := 0, 0, 0;
      sends, aborted := map[], false;
    }

    /** The child that launch_child creates: its plug command is announced. */
    constructor Launched(owner: Id, linger: int)
      ensures State() == Fresh(Some(owner), linger) && Idle()
    {
      this.linger := linger;
      alive, this.owner, owned, terminating := true, Some(owner), {}, false;
      sentSeqnum, processedSeqnum, termAcks := 1, 0, 0;
      sends, aborted := map[], false;
    }

    function State(): Obj
      reads this
    {
      Obj(alive, owner, owned, terminating, sentSeqnum, processedSeqnum, termAcks, linger)
    }

    function Outcome(): Reaction
      reads this
    {
      if aborted then Abort else React(State(), sends)
    }

    predicate Idle()
      reads this
    {
      sends == map[] && !aborted
    }

    method IncSeqnum()
      modifies this`sentSeqnum
      ensures State() == old(State()).(sent := old(sentSeqnum) + 1)
    {
      sentSeqnum := sentSeqnum + 1;
    }

    method RegisterTermAcks(n: nat)
      modifies this`termAcks
      ensures State() == old(State()).(acks := old(termAcks) + n)
    {
      termAcks := termAcks + n;
    }

    /** The commands are on their way. */
    method Flush()
      modifies this`sends
      ensures State() == old(State()) && sends == map[]
    {
      sends := map[];
    }

    method CheckTermAcks()
      requires !aborted
      modifies this`alive, this`sends, this`aborted
      ensures Outcome() == M.CheckTermAcks(old(State()), old(sends))
    {
      if terminating && processedSeqnum == Stored(sentSeqnum) && termAcks == 0 {
        if owned != {} {
          aborted := true;
          return;
        }
        if owner.Some? {
          sends := sends[owner.value := TermAck];
        }
        alive := false;
      }
    }

    method ProcessSeqnum()
      requires !aborted
      modifies this
      ensures Outcome() == M.ProcessSeqnum(old(State()), old(sends))
    {
      processedSeqnum := processedSeqnum + 1;
      CheckTermAcks();
    }

    method ProcessOwn(child: Id)
      requires Idle()
      modifies this
      ensures !aborted && (State(), sends) == M.ProcessOwn(old(State()), child)
    {
      if terminating {
        termAcks := termAcks + 1;
        sends := sends[child := Term(0)];
        return;
      }
      owned := owned + {child};
    }

    method ProcessTermReq(child: Id)
      requires Idle()
      modifies this
      ensures Outcome() == M.ProcessTermReq(old(State()), child)
    {
      if terminating || child !in owned { return; }
      owned := owned - {child};
      termAcks := termAcks + 1;
      sends := sends[child := Term(linger)];
    }

    method ProcessTerm(linger: int)
      requires Idle()
      modifies this
      ensures Outcome() == M.ProcessTerm(old(State()), linger)
    {
      if terminating {
        aborted := true;
        return;
      }
      var todo := owned;
      while todo != {}
        invariant todo <= owned
        invariant sends.Keys == owned - todo && forall c :: c in sends ==> sends[c] == Term(linger)
        invariant State() == old(State()) && !aborted
        decreases |todo|
      {
        var c :| c in todo;
        sends := sends[c := Term(linger)];
        todo := todo - {c};
      }
      assert sends == map c | c in owned :: Term(linger);
      termAcks := termAcks + |owned|;
      owned := {};
      terminating := true;
      CheckTermAcks();
    }

    method UnregisterTermAck()
      requires Idle()
      modifies this
      ensures Outcome() == M.UnregisterTermAck(old(State()))
    {
      if termAcks <= 0 {
        aborted := true;
        return;
      }
      termAcks := termAcks - 1;
      CheckTermAcks();
    }

    method Terminate(self: Id)
      requires Idle()
      modifies this
      ensures Outcome() == M.Terminate(old(State()), self)
    {
      if terminating { return; }
      if owner.None? {
        ProcessTerm(linger);
        return;
      }
      sends := sends[owner.value := TermReq(self)];
    }

    method ProcessCommand(cmd: Command)
      requires Idle()
      modifies this
      ensures Outcome() == Handle(old(State()), cmd)
    {
      match cmd
      case Own(c) =>
        ProcessOwn(c);
        ProcessSeqnum();
      case TermReq(c) => ProcessTermReq(c);
      case Term(l) => ProcessTerm(l);
      case TermAck => UnregisterTermAck();
      case _ => ProcessSeqnum();
    }
  }
}
