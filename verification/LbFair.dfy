/**
 The load balancer is fair: it goes round the active pipes like the fair queue,
 so a pipe that takes frames gets its turn.
 */
module LbFair {
  import opened Basics
  import opened PipeArray
  import opened Lb
  import opened LbRuns
  import Fq

  /** The round of a balancer, between messages, is that of a fair queue. */
  function Ring(b: Balance): Fq.State {
    Fq.State(b.items, b.active, b.current, false, None)
  }

  predicate IsActive(b: Balance, q: Pipe)
    requires BalanceOk(b)
  {
    Fq.IsActive(Ring(b), q)
  }

  /** How many active pipes come before q in the round. */
  function Distance(b: Balance, q: Pipe): nat
    requires BalanceOk(b) && IsActive(b, q)
  {
    Fq.Distance(Ring(b), q)
  }

  // ---------------------------------------------------------------- what brings q nearer or further

  /** The pipes that would take a frame. */
  function Willing(b: Balance, refusing: set<Pipe>): set<Pipe> {
    All(b.items) - refusing
  }

  lemma {:induction false} SkippedRing(b: Balance, refusing: set<Pipe>, ready: set<Pipe>)
    requires BalanceOk(b) && !b.more
    requires forall i :: 0 <= i < |b.items| ==> (b.items[i] in ready <==> b.items[i] !in refusing)
    ensures Ring(Skipped(b, refusing)) == Fq.Skipped(Ring(b), ready)
    decreases b.active
  {
    if b.active > 0 && b.items[b.current] in refusing {
      SwapDistinct(b.items, b.current, b.active - 1);
      SkippedRing(Deactivated(b), refusing, ready);
    }
  }

  /** Making pipes that refuse passive keeps one that does not, no further away. */
  lemma SkippedDistance(b: Balance, refusing: set<Pipe>, q: Pipe)
    requires BalanceOk(b) && !b.more && IsActive(b, q) && q !in refusing
    ensures BalanceOk(Skipped(b, refusing)) && IsActive(Skipped(b, refusing), q)
    ensures Skipped(b, refusing).active > 0 && Distance(Skipped(b, refusing), q) <= Distance(b, q)
  {
    var ready := Willing(b, refusing);
    SkippedRing(b, refusing, ready);
    var j := Fq.ActiveAt(Ring(b), q);
    assert q in ready;
    Fq.SkipFindsReady(Ring(b), ready, q);
    Fq.SkipDistance(Ring(b), ready, q);
  }

  lemma NewDistance(b: Balance, p: Pipe, q: Pipe)
    requires BalanceOk(b) && IsActive(b, q) && p !in b.items
    ensures BalanceOk(PutNew(b, p)) && IsActive(PutNew(b, p), q) && Distance(PutNew(b, p), q) <= Distance(b, q) + 1
  {
    Fq.JoinDistance(Ring(b), p, q);
    PutNewView(b, p);
    assert Ring(PutNew(b, p)) == Fq.Attached(Ring(b), p);
  }

  lemma ActivatedDistance(b: Balance, p: Pipe, q: Pipe)
    requires BalanceOk(b) && IsActive(b, q)
    requires p in b.items && p !in First(b.items, b.active) && b.active < |b.items|
    ensures BalanceOk(PutActive(b, p)) && IsActive(PutActive(b, p), q)
    ensures Distance(PutActive(b, p), q) <= Distance(b, q) + 1
  {
    Fq.JoinDistance(Ring(b), p, q);
    PutActiveView(b, p);
    assert Ring(PutActive(b, p)) == Fq.Activated(Ring(b), p);
  }

  /** How far the termination of p may take q away. */
  function Setback(b: Balance, p: Pipe, q: Pipe): nat
    requires BalanceOk(b)
  {
    Fq.Setback(Ring(b), p, q)
  }

  lemma RemoveDistance(b: Balance, p: Pipe, q: Pipe)
    requires BalanceOk(b) && p in b.items && IsActive(b, q) && p != q
    ensures var c := Remove(b, Position(b.items, p));
            BalanceOk(c) && IsActive(c, q) && Distance(c, q) <= Distance(b, q) + Setback(b, p, q)
  {
    RemovedView(b, Position(b.items, p));
    Fq.TerminateDistance(Ring(b), p, q);
    assert Ring(Remove(b, Position(b.items, p))) == Fq.Terminated(Ring(b), p);
  }

  /** A last frame that another pipe takes brings q one nearer. */
  lemma TurnDistance(b: Balance, q: Pipe)
    requires BalanceOk(b) && IsActive(b, q) && b.items[b.current] != q
    ensures var c := b.(current := if b.current + 1 >= b.active then 0 else b.current + 1, more := false);
            BalanceOk(c) && IsActive(c, q) && Distance(c, q) + 1 <= Distance(b, q)
  {
    var c := b.(current := if b.current + 1 >= b.active then 0 else b.current + 1, more := false);
    var j := Fq.ActiveAt(Ring(b), q);
    Fq.DistanceAt(Ring(b), q, j);
    Fq.DistanceAt(Ring(c), q, j);
  }

  // ---------------------------------------------------------------- sending

  /** The step flushes something to the pipe. */
  predicate Flushes(x: Sender, y: Sender, p: Pipe) {
    p in x.flushed && p in y.flushed && |y.flushed[p]| > |x.flushed[p]|
  }

  /** Some pipe other than q is flushed something. */
  ghost predicate FlushesOther(x: Sender, y: Sender, q: Pipe) {
    exists p :: p != q && Flushes(x, y, p)
  }

  /** q is there, takes frames when asked to, and does not go away. */
  predicate Takes(t: Act, q: Pipe) {
    match t
    case TerminatePipe(p) => p != q
    case Ask(full) => q !in full
    case SendFrame(refusing, _, _) => q !in refusing
    case _ => true
  }

  /** What a call of sendpipe means for q: it gets the frame, another pipe does,
      or nothing is written. */
  lemma SendDistance(b: Balance, refusing: set<Pipe>, more: bool, q: Pipe)
    requires BalanceOk(b) && IsActive(b, q) && q !in refusing
    ensures var (c, out) := SendOne(b, refusing, more);
            && BalanceOk(c) && IsActive(c, q)
            && (out != Written(q) ==> Distance(c, q) + Bit(out.Written? && !more) <= Distance(b, q))
            && (out == Written(q) && more ==> Distance(c, q) == 0)
  {
    SendView(b, refusing, more);
    var (c, out) := SendOne(b, refusing, more);
    if out.Written? {
      if !b.more { SkippedDistance(b, refusing, q); }
      var u := if b.more then b else Skipped(b, refusing);
      if u.items[u.current] != q && !more { TurnDistance(u, q); }
      var j := Fq.ActiveAt(Ring(u), q);
      Fq.DistanceAt(Ring(c), q, j);
      Fq.DistanceAt(Ring(u), q, j);
    }
  }

  /** The pipe that takes a last frame is the last of the round from then on, and
      one that takes another frame stays in turn.  When no frame is written in
      the middle of a message the round stays as it is. */
  lemma ServedGoesLast(b: Balance, refusing: set<Pipe>, more: bool)
    requires BalanceOk(b)
    ensures var (c, out) := SendOne(b, refusing, more);
            && BalanceOk(c)
            && (out.Written? ==> IsActive(c, out.pipe) && Distance(c, out.pipe) == if more then 0 else c.active - 1)
            && (out.Dropped? || out.RolledBack? ==> Ring(c) == Ring(b))
  {
    SendView(b, refusing, more);
    var (c, out) := SendOne(b, refusing, more);
    if out.Written? {
      var u := if b.more then b else Skipped(b, refusing);
      Fq.DistanceAt(Ring(c), out.pipe, u.current);
    }
  }

  /** Only the pipe that takes a last frame is flushed something. */
  lemma FlushedBy(x: Sender, t: Act, p: Pipe)
    requires CanDo(x, t) && Flushes(x, Do(x, t), p)
    ensures t.SendFrame? && !t.more && SendOne(x.b, t.refusing, t.more).1 == Written(p)
  {
    if t.SendFrame? { SendView(x.b, t.refusing, t.more); }
  }

  lemma TakenIsFlushed(x: Sender, t: Act, p: Pipe)
    requires CanDo(x, t) && t.SendFrame? && !t.more && SendOne(x.b, t.refusing, t.more).1 == Written(p)
    requires p in x.flushed && p in x.pending
    ensures Flushes(x, Do(x, t), p)
  {
    SendView(x.b, t.refusing, t.more);
  }

  lemma SendActDistance(x: Sender, t: Act, q: Pipe)
    requires CanDo(x, t) && t.SendFrame? && IsActive(x.b, q) && Takes(t, q) && !Flushes(x, Do(x, t), q)
    requires q in x.flushed && q in x.pending
    ensures BalanceOk(Do(x, t).b) && IsActive(Do(x, t).b, q)
    ensures Distance(Do(x, t).b, q) + Bit(FlushesOther(x, Do(x, t), q)) <= Distance(x.b, q)
  {
    SendView(x.b, t.refusing, t.more);
    SendDistance(x.b, t.refusing, t.more, q);
    if SendOne(x.b, t.refusing, t.more).1 == Written(q) && !t.more { TakenIsFlushed(x, t, q); }
    if FlushesOther(x, Do(x, t), q) {
      var p :| p != q && Flushes(x, Do(x, t), p);
      FlushedBy(x, t, p);
    }
  }

  /** By how much a step may take q away: a pipe that joins, or a termination. */
  function Delay(x: Sender, t: Act, q: Pipe): nat
    requires CanDo(x, t)
  {
    if t.AttachPipe? || t.ActivatePipe? then 1 else if t.TerminatePipe? then Setback(x.b, t.p, q) else 0
  }

  lemma OtherActDistance(x: Sender, t: Act, q: Pipe)
    requires CanDo(x, t) && !t.SendFrame? && IsActive(x.b, q) && Takes(t, q)
    ensures BalanceOk(Do(x, t).b) && IsActive(Do(x, t).b, q)
    ensures Distance(Do(x, t).b, q) <= Distance(x.b, q) + Delay(x, t, q)
  {
    match t
    case AttachPipe(p) => NewDistance(x.b, p, q);
    case ActivatePipe(p) => ActivatedDistance(x.b, p, q);
    case TerminatePipe(p) => RemoveDistance(x.b, p, q);
    case Ask(full) => if !x.b.more { SkippedDistance(x.b, full, q); }
    case DropRest =>
  }

  /** q is active, and what it was given is on record. */
  predicate Served(x: Sender, q: Pipe) {
    BalanceOk(x.b) && IsActive(x.b, q) && q in x.flushed && q in x.pending
  }

  lemma ActDistance(x: Sender, t: Act, q: Pipe)
    requires CanDo(x, t) && Served(x, q) && Takes(t, q) && !Flushes(x, Do(x, t), q)
    ensures Served(Do(x, t), q)
    ensures Distance(Do(x, t).b, q) + Bit(FlushesOther(x, Do(x, t), q)) <= Distance(x.b, q) + Delay(x, t, q)
  {
    if t.SendFrame? {
      SendActDistance(x, t, q);
      RecordsStay(x, t, q);
    } else {
      OtherActDistance(x, t, q);
      if FlushesOther(x, Do(x, t), q) {
        var p :| p != q && Flushes(x, Do(x, t), p);
        FlushedBy(x, t, p);
      }
    }
  }

  lemma RecordsStay(x: Sender, t: Act, q: Pipe)
    requires CanDo(x, t) && q in x.flushed && q in x.pending
    ensures q in Do(x, t).flushed && q in Do(x, t).pending
  {
    if t.SendFrame? { SendView(x.b, t.refusing, t.more); }
  }

  // ---------------------------------------------------------------- runs

  /** A stretch of a run, in which q takes what it is offered and is not flushed anything. */
  ghost predicate Waits(xs: seq<Sender>, ts: seq<Act>, q: Pipe) {
    && |xs| == |ts| + 1
    && forall i :: 0 <= i < |ts| ==> WaitsAt(xs[i], ts[i], xs[i + 1], q)
  }

  ghost predicate WaitsAt(x: Sender, t: Act, y: Sender, q: Pipe) {
    CanDo(x, t) && y == Do(x, t) && Takes(t, q) && !Flushes(x, y, q)
  }

  /** How many of the first n steps flush a message to another pipe. */
  ghost function Messages(xs: seq<Sender>, q: Pipe, n: nat): nat
    requires n < |xs|
  {
    if n == 0 then 0 else Messages(xs, q, n - 1) + Bit(FlushesOther(xs[n - 1], xs[n], q))
  }

  /** The pipes that joined, and how far terminations took q away. */
  ghost function Delays(xs: seq<Sender>, ts: seq<Act>, q: Pipe, n: nat): nat
    requires Waits(xs, ts, q) && n <= |ts|
  {
    if n == 0 then 0
    else
      assert WaitsAt(xs[n - 1], ts[n - 1], xs[n], q);
      Delays(xs, ts, q, n - 1) + Delay(xs[n - 1], ts[n - 1], q)
  }

  /** While an active pipe that takes frames is flushed nothing, the messages
      flushed to others are at most its distance plus the pipes that joined plus
      the setbacks by terminations. */
  lemma {:induction false} NoStarvation(xs: seq<Sender>, ts: seq<Act>, q: Pipe, n: nat)
    requires Waits(xs, ts, q) && Served(xs[0], q) && n <= |ts|
    ensures Served(xs[n], q)
    ensures Messages(xs, q, n) + Distance(xs[n].b, q) <= Distance(xs[0].b, q) + Delays(xs, ts, q, n)
    decreases n
  {
    if n > 0 {
      NoStarvation(xs, ts, q, n - 1);
      WaitStep(xs[n - 1], ts[n - 1], xs[n], q);
    }
  }

  lemma WaitStep(x: Sender, t: Act, y: Sender, q: Pipe)
    requires WaitsAt(x, t, y, q) && Served(x, q)
    ensures Served(y, q) && Distance(y.b, q) + Bit(FlushesOther(x, y, q)) <= Distance(x.b, q) + Delay(x, t, q)
  {
    ActDistance(x, t, q);
  }

  /** A pipe that is attached or activated is active, and behind no more than
      the pipes that are. */
  lemma JoinerIsActive(x: Sender, t: Act, q: Pipe)
    requires CanDo(x, t) && (t == AttachPipe(q) || (t == ActivatePipe(q) && q in x.flushed && q in x.pending))
    ensures Served(Do(x, t), q) && Distance(Do(x, t).b, q) <= x.b.active
  {
    var y := Do(x, t);
    if t.AttachPipe? { PutNewView(x.b, q); } else { PutActiveView(x.b, q); }
    assert y.b.items[x.b.active] == q;
    Fq.DistanceAt(Ring(y.b), q, x.b.active);
  }

  /** From joining on, a pipe that takes what it is offered waits for at most as
      many messages as there were active pipes, plus the delays. */
  lemma JoinerIsServed(xs: seq<Sender>, ts: seq<Act>, x: Sender, t: Act, q: Pipe, n: nat)
    requires CanDo(x, t) && (t == AttachPipe(q) || (t == ActivatePipe(q) && q in x.flushed && q in x.pending))
    requires Waits(xs, ts, q) && xs[0] == Do(x, t) && n <= |ts|
    ensures Messages(xs, q, n) <= x.b.active + Delays(xs, ts, q, n)
  {
    JoinerIsActive(x, t, q);
    NoStarvation(xs, ts, q, n);
  }

  // ---------------------------------------------------------------- a message is taken

  /** The frame at the head of the input has been taken by p. */
  predicate TakenBy(x: Sender, y: Sender, p: Pipe, more: bool) {
    && p in x.flushed && p in x.pending && p in y.flushed && p in y.pending
    && var frames := x.pending[p] + [Frame(x.msg, x.part, !more)];
       if more then y.pending[p] == frames && y.flushed[p] == x.flushed[p]
       else y.flushed[p] == x.flushed[p] + frames && y.pending[p] == []
  }

  /** Between messages a frame is taken whenever some active pipe would take it,
      and by a pipe that would. */
  lemma FirstFrameIsTaken(x: Sender, t: Act, q: Pipe) returns (p: Pipe)
    requires CanDo(x, t) && t.SendFrame? && Ok(Abstract(x)) && !x.b.more && !x.b.dropping
    requires IsActive(x.b, q) && q !in t.refusing
    ensures p !in t.refusing && TakenBy(x, Do(x, t), p, t.more)
  {
    SkippedDistance(x.b, t.refusing, q);
    SendView(x.b, t.refusing, t.more);
    var u := Skipped(x.b, t.refusing);
    p := u.items[u.current];
    assert SendOne(x.b, t.refusing, t.more).1 == Written(p);
    assert p in Look(x.b).all;
  }

  /** In the middle of a message the pipe that holds it takes the frame unless it
      refuses; then nothing of the message stays on it. */
  lemma NextFrameIsTaken(x: Sender, t: Act)
    requires CanDo(x, t) && t.SendFrame? && Ok(Abstract(x)) && x.b.more && !x.b.dropping
    ensures var p := x.b.items[x.b.current];
            if p in t.refusing then p in Do(x, t).pending && Do(x, t).pending[p] == []
            else TakenBy(x, Do(x, t), p, t.more)
  {
    SendView(x.b, t.refusing, t.more);
    assert x.b.items[x.b.current] in Look(x.b).all;
  }

  /** After the last frame of a message the balancer is between messages, even
      when the message was dropped. */
  lemma LastFrameEnds(x: Sender, t: Act)
    requires CanDo(x, t) && t.SendFrame? && !t.more
    ensures !Do(x, t).b.more && !Do(x, t).b.dropping
  {
    SendView(x.b, t.refusing, t.more);
  }
}
