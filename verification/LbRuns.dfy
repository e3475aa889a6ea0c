/** Atomicity of multipart messages over whole runs of a load balancer. */
module LbRuns {
  import opened Basics
  import opened PipeArray
  import opened Lb

  /** Frame `part` of message `msg`, and whether it is the last of the message. */
  datatype Frame = Frame(msg: nat, part: nat, last: bool)

  /** The balancer, what was flushed and what is still unflushed on every pipe,
      and the position of the next frame in the input. */
  datatype State = State(v: View, flushed: map<Pipe, seq<Frame>>, pending: map<Pipe, seq<Frame>>, msg: nat, part: nat)

  const START: State := State(View({}, {}, None, false, false), map[], map[], 0, 0)

  datatype Step =
    | Attach(p: Pipe)
    | Activate(p: Pipe)
    | Terminate(p: Pipe)
    | Misdirect(p: Pipe, q: Pipe)
    | Probe(active: set<Pipe>)
    | Send(refusing: set<Pipe>, more: bool, blocking: bool, v': View, out: Outcome)
    | GiveUp

  /** The last frame of a message was refused and the caller, who does not
      block, still has it. */
  predicate Stranded(s: State) {
    s.part > 0 && !s.v.more && !s.v.dropping
  }

  predicate Enabled(s: State, t: Step) {
    match t
    case Attach(p) => p !in s.flushed
    case Activate(p) => p in s.v.all && p !in s.v.active
    case Terminate(p) => p in s.v.all
    case Misdirect(p, q) =>
      s.v.holder.Some? && p in s.v.active && q in s.v.active && s.v.holder.value != p && q != p && q != s.v.holder.value
    case Probe(active) => !s.v.more && active <= s.v.active
    case Send(r, more, _, v', out) => Sends(s.v, r, more, v', out) && (Stranded(s) ==> !more)
    case GiveUp => s.v.holder.None?
  }

  /** The frame being sent. */
  function Current(s: State, more: bool): Frame {
    Frame(s.msg, s.part, !more)
  }

  function Consumed(s: State, more: bool): State {
    if more then s.(part := s.part + 1) else s.(msg := s.msg + 1, part := 0)
  }

  /** The socket's caller keeps a frame for which there was no pipe.  A frame
      that was refused in mid message is dropped for a caller that blocks, and
      kept by one that does not. */
  function Sent(s: State, more: bool, blocking: bool, v': View, out: Outcome): State {
    match out
    case Again => s.(v := v')
    case Dropped => Consumed(s, more).(v := v')
    case RolledBack(p) => (if blocking then Consumed(s, more) else s).(v := v', pending := s.pending[p := []])
    case Written(p) =>
      if p !in s.pending || p !in s.flushed then s
      else
        var frames := s.pending[p] + [Current(s, more)];
        if more then Consumed(s, more).(v := v', pending := s.pending[p := frames])
        else Consumed(s, more).(v := v', pending := s.pending[p := []],
                                flushed := s.flushed[p := s.flushed[p] + frames])
  }

  function Next(s: State, t: Step): State
    requires Enabled(s, t)
  {
    match t
    case Attach(p) => s.(v := Attached(s.v, p), flushed := s.flushed[p := []], pending := s.pending[p := []])
    case Activate(p) => s.(v := Activated(s.v, p))
    case Terminate(p) => s.(v := Terminated(s.v, p))
    case Misdirect(p, q) => s.(v := Terminated(s.v, p).(holder := Some(q)))
    case Probe(active) => s.(v := s.v.(active := active))
    case Send(_, more, blocking, v', out) => Sent(s, more, blocking, v', out)
    case GiveUp => s.(msg := s.msg + 1, part := 0)
  }

  /** A last frame that was refused is offered again, and a pipe takes it. */
  predicate Reoffers(s: State, t: Step) {
    t.Send? && Stranded(s) && t.out.Written?
  }

  /** What is shown below to break atomicity. */
  predicate Spoils(s: State, t: Step) {
    t.Misdirect? || Reoffers(s, t)
  }

  // ---------------------------------------------------------------- whole messages

  /** The stream is a sequence of complete messages: frames number from 0 and
      follow each other without a gap until a last one. */
  predicate Whole(st: seq<Frame>) {
    forall k :: 0 <= k < |st| ==> WholeAt(st, k)
  }

  predicate WholeAt(st: seq<Frame>, k: nat)
    requires k < |st|
  {
    && (st[k].part > 0 ==> k > 0 && st[k - 1] == Frame(st[k].msg, st[k].part - 1, false))
    && (!st[k].last ==> k + 1 < |st| && st[k + 1].msg == st[k].msg && st[k + 1].part == st[k].part + 1)
  }

  /** The first n frames of a message, none of them the last. */
  function Parts(msg: nat, n: nat): (ps: seq<Frame>)
    ensures |ps| == n && forall k :: 0 <= k < n ==> ps[k] == Frame(msg, k, false)
  {
    seq(n, k requires 0 <= k < n => Frame(msg, k, false))
  }

  lemma WholeAppend(st: seq<Frame>, msg: nat, n: nat)
    requires Whole(st)
    ensures Whole(st + (Parts(msg, n) + [Frame(msg, n, true)]))
  {
    var u := st + (Parts(msg, n) + [Frame(msg, n, true)]);
    forall k | 0 <= k < |u| ensures WholeAt(u, k) {
      if k < |st| { assert WholeAt(st, k); }
    }
  }

  // ---------------------------------------------------------------- invariant

  predicate PipeOk(s: State, p: Pipe)
    requires p in s.flushed && p in s.pending
  {
    && Whole(s.flushed[p])
    && (p in s.v.all ==> s.pending[p] == if s.v.holder == Some(p) then Parts(s.msg, s.part) else [])
  }

  predicate Ok(s: State) {
    && ViewOk(s.v) && s.v.all <= s.flushed.Keys && s.flushed.Keys == s.pending.Keys
    && (s.v.holder.Some? ==> s.part > 0)
    && forall p :: p in s.flushed ==> PipeOk(s, p)
  }

  lemma PartsStep(msg: nat, n: nat)
    ensures Parts(msg, n) + [Frame(msg, n, false)] == Parts(msg, n + 1)
  {
  }

  lemma KeepSend(s: State, t: Step)
    requires Ok(s) && Enabled(s, t) && t.Send? && !Reoffers(s, t)
    ensures Ok(Next(s, t))
  {
    var s' := Next(s, t);
    OperationsKeepView(s.v, 0, t.refusing, t.more, t.v', t.out);
    PartsStep(s.msg, s.part);
    if t.out.Written? {
      assert PipeOk(s, t.out.pipe);
      assert s.pending[t.out.pipe] == Parts(s.msg, s.part);
      WholeAppend(s.flushed[t.out.pipe], s.msg, s.part);
    }
    forall p | p in s'.flushed ensures PipeOk(s', p) { assert PipeOk(s, p); }
  }

  lemma KeepOther(s: State, t: Step)
    requires Ok(s) && Enabled(s, t) && !t.Send? && !t.Misdirect?
    ensures Ok(Next(s, t))
  {
    var s' := Next(s, t);
    forall p | p in s'.flushed ensures PipeOk(s', p) { assert p in s.flushed ==> PipeOk(s, p); }
  }

  // ---------------------------------------------------------------- runs

  ghost predicate IsStep(s: State, s': State) {
    exists t: Step :: !Spoils(s, t) && Enabled(s, t) && s' == Next(s, t)
  }

  /** A run in which no termination misdirects an unfinished message and no
      refused last frame is sent again. */
  ghost predicate Run(ss: seq<State>) {
    |ss| > 0 && ss[0] == START && forall i :: 0 <= i < |ss| - 1 ==> IsStep(ss[i], ss[i + 1])
  }

  lemma {:induction false} RunKeepsOk(ss: seq<State>)
    requires Run(ss)
    ensures Ok(ss[|ss| - 1])
  {
    if |ss| > 1 {
      var n := |ss| - 1;
      RunKeepsOk(ss[..n]);
      assert IsStep(ss[n - 1], ss[n]);
      var t: Step :| !Spoils(ss[n - 1], t) && Enabled(ss[n - 1], t) && ss[n] == Next(ss[n - 1], t);
      if t.Send? { KeepSend(ss[n - 1], t); } else { KeepOther(ss[n - 1], t); }
    }
  }

  /** What is flushed to a pipe is always a sequence of whole messages. */
  lemma FlushedIsWhole(ss: seq<State>, p: Pipe)
    requires Run(ss) && p in ss[|ss| - 1].flushed
    ensures Whole(ss[|ss| - 1].flushed[p])
  {
    RunKeepsOk(ss);
    assert PipeOk(ss[|ss| - 1], p);
  }

  /** A last frame that is flushed to a pipe without what comes before it. */
  lemma LoneFrame(st: seq<Frame>, f: Frame)
    requires Whole(st) && f.part > 0
    ensures !Whole(st + [f])
  {
    var k := |st|;
    if k > 0 { assert WholeAt(st, k - 1); }
    assert !WholeAt(st + [f], k);
  }

  /** The excluded terminations break atomicity: the rest of the message goes to
      a pipe that never saw its beginning, and is flushed there with its last
      frame. */
  lemma MisdirectionBreaksAtomicity(s: State, p: Pipe, q: Pipe, blocking: bool)
    requires Ok(s) && Enabled(s, Misdirect(p, q))
    ensures var s1 := Next(s, Misdirect(p, q));
            var last := Send({}, false, blocking, s1.v.(more := false, holder := None), Written(q));
            && Enabled(s1, last) && !Ok(s1)
            && !Whole(Next(s1, last).flushed[q])
  {
    var s1 := Next(s, Misdirect(p, q));
    assert PipeOk(s, q) && PipeOk(s, s.v.holder.value);
    assert !PipeOk(s1, q);
    var f := Frame(s.msg, s.part, true);
    assert s.pending[q] + [f] == [f];
    LoneFrame(s.flushed[q], f);
  }

  /** So does a refused last frame that is sent again: it is flushed alone. */
  lemma ReofferingBreaksAtomicity(s: State, t: Step)
    requires Ok(s) && Enabled(s, t) && Reoffers(s, t)
    ensures t.out.pipe in Next(s, t).flushed && !Whole(Next(s, t).flushed[t.out.pipe])
  {
    var q, f := t.out.pipe, Frame(s.msg, s.part, true);
    assert PipeOk(s, q);
    assert s.pending[q] + [f] == [f];
    LoneFrame(s.flushed[q], f);
  }

  // ---------------------------------------------------------------- runs of the array

  /** The balancer with its array, what was flushed and what is unflushed. */
  datatype Sender =
    Sender(b: Balance, flushed: map<Pipe, seq<Frame>>, pending: map<Pipe, seq<Frame>>, msg: nat, part: nat)

  const EMPTY: Sender := Sender(Balance([], 0, 0, false, false), map[], map[], 0, 0)

  datatype Act =
    | AttachPipe(p: Pipe)
    | ActivatePipe(p: Pipe)
    | TerminatePipe(p: Pipe)
    | Ask(full: set<Pipe>)
    | SendFrame(refusing: set<Pipe>, more: bool, blocking: bool)
    | DropRest

  function Abstract(x: Sender): State
    requires BalanceOk(x.b)
  {
    State(Look(x.b), x.flushed, x.pending, x.msg, x.part)
  }

  predicate CanDo(x: Sender, t: Act) {
    && BalanceOk(x.b)
    && match t
       case AttachPipe(p) => p !in x.flushed && p !in x.b.items
       case ActivatePipe(p) => p in x.b.items && p !in First(x.b.items, x.b.active) && x.b.active < |x.b.items|
       case TerminatePipe(p) => p in x.b.items
       case Ask(_) => true
       case SendFrame(_, more, _) => Stranded(Abstract(x)) ==> !more
       case DropRest => Look(x.b).holder.None?
  }

  function WithArray(b: Balance, s: State): Sender {
    Sender(b, s.flushed, s.pending, s.msg, s.part)
  }

  function Do(x: Sender, t: Act): Sender
    requires CanDo(x, t)
  {
    match t
    case AttachPipe(p) => x.(b := PutNew(x.b, p), flushed := x.flushed[p := []], pending := x.pending[p := []])
    case ActivatePipe(p) => x.(b := PutActive(x.b, p))
    case TerminatePipe(p) => x.(b := Remove(x.b, Position(x.b.items, p)))
    case Ask(full) => if x.b.more then x else x.(b := Skipped(x.b, full))
    case SendFrame(refusing, more, blocking) =>
      var (b, out) := SendOne(x.b, refusing, more);
      SendView(x.b, refusing, more);
      WithArray(b, Sent(Abstract(x), more, blocking, Look(b), out))
    case DropRest => x.(msg := x.msg + 1, part := 0)
  }

  predicate Misdirecting(x: Sender, t: Act)
    requires CanDo(x, t)
  {
    t.TerminatePipe? && Misdirects(x.b, Position(x.b.items, t.p))
  }

  predicate Reoffering(x: Sender, t: Act)
    requires CanDo(x, t)
  {
    t.SendFrame? && Stranded(Abstract(x)) && SendOne(x.b, t.refusing, t.more).1.Written?
  }

  predicate Spoiling(x: Sender, t: Act)
    requires CanDo(x, t)
  {
    Misdirecting(x, t) || Reoffering(x, t)
  }

  /** The steps of the array are steps of the sets, so they keep the invariant. */
  lemma ActKeepsOk(x: Sender, t: Act)
    requires CanDo(x, t) && Ok(Abstract(x)) && !Spoiling(x, t)
    ensures BalanceOk(Do(x, t).b) && Ok(Abstract(Do(x, t)))
  {
    var s := Abstract(x);
    match t
    case AttachPipe(p) =>
      PutNewView(x.b, p);
      KeepOther(s, Attach(p));
    case ActivatePipe(p) =>
      PutActiveView(x.b, p);
      KeepOther(s, Activate(p));
    case TerminatePipe(p) =>
      RemovedView(x.b, Position(x.b.items, p));
      KeepOther(s, Terminate(p));
    case Ask(full) =>
      if !x.b.more {
        SkippedView(x.b, full);
        var u := Skipped(x.b, full);
        KeepOther(s, Probe(First(u.items, u.active)));
      }
    case SendFrame(refusing, more, blocking) =>
      SendView(x.b, refusing, more);
      var (b, out) := SendOne(x.b, refusing, more);
      KeepSend(s, Send(refusing, more, blocking, Look(b), out));
    case DropRest =>
      KeepOther(s, GiveUp);
  }

  /** A run of the array from the empty balancer. */
  ghost predicate ArrayRun(xs: seq<Sender>, ts: seq<Act>) {
    && |xs| == |ts| + 1 && xs[0] == EMPTY
    && forall i :: 0 <= i < |ts| ==> CanDo(xs[i], ts[i]) && xs[i + 1] == Do(xs[i], ts[i])
  }

  predicate NoneSpoils(xs: seq<Sender>, ts: seq<Act>) {
    |ts| <= |xs| && forall i :: 0 <= i < |ts| ==> CanDo(xs[i], ts[i]) && !Spoiling(xs[i], ts[i])
  }

  lemma {:induction false} ArrayRunKeepsOk(xs: seq<Sender>, ts: seq<Act>, n: nat)
    requires ArrayRun(xs, ts) && n <= |ts| && NoneSpoils(xs, ts)
    ensures BalanceOk(xs[n].b) && Ok(Abstract(xs[n]))
    decreases n
  {
    if n > 0 {
      ArrayRunKeepsOk(xs, ts, n - 1);
      ActKeepsOk(xs[n - 1], ts[n - 1]);
    }
  }

  /** In every run of the array in which no termination misdirects and no
      refused last frame is sent again, what is flushed to a pipe is a sequence
      of whole messages. */
  lemma ArrayFlushedIsWhole(xs: seq<Sender>, ts: seq<Act>, p: Pipe)
    requires ArrayRun(xs, ts) && NoneSpoils(xs, ts) && p in xs[|ts|].flushed
    ensures Whole(xs[|ts|].flushed[p])
  {
    ArrayRunKeepsOk(xs, ts, |ts|);
    assert PipeOk(Abstract(xs[|ts|]), p);
  }

  /** A termination that misdirects always shows: the last frame of the message
      is flushed to the first pipe of the array, which has no beginning of it. */
  lemma MisdirectingShows(x: Sender, t: Act, blocking: bool)
    requires CanDo(x, t) && Ok(Abstract(x)) && Misdirecting(x, t)
    ensures CanDo(Do(x, t), SendFrame({}, false, blocking))
    ensures var y := Do(Do(x, t), SendFrame({}, false, blocking));
            x.b.items[0] in y.flushed && !Whole(y.flushed[x.b.items[0]])
  {
    var i, p, q := Position(x.b.items, t.p), t.p, x.b.items[0];
    var s, x1 := Abstract(x), Do(x, t);
    RemovedView(x.b, i);
    FirstIndex(x.b.items, 0, x.b.active);
    FirstIndex(x.b.items, i, x.b.active);
    FirstIndex(x.b.items, x.b.current, x.b.active);
    MisdirectionBreaksAtomicity(s, p, q, blocking);
    assert Abstract(x1) == Next(s, Misdirect(p, q));
    SendView(x1.b, {}, false);
  }

  /** A refused last frame that is sent again always shows, at once. */
  lemma ReofferingShows(x: Sender, t: Act)
    requires CanDo(x, t) && Ok(Abstract(x)) && Reoffering(x, t)
    ensures var q := SendOne(x.b, t.refusing, t.more).1.pipe;
            q in Do(x, t).flushed && !Whole(Do(x, t).flushed[q])
  {
    SendView(x.b, t.refusing, t.more);
    var (b, out) := SendOne(x.b, t.refusing, t.more);
    ReofferingBreaksAtomicity(Abstract(x), Send(t.refusing, t.more, t.blocking, Look(b), out));
  }

  /** Only a caller that does not block, and only a last frame, gets there. */
  lemma StrandedBy(x: Sender, t: Act)
    requires CanDo(x, t) && !Stranded(Abstract(x)) && BalanceOk(Do(x, t).b) && Stranded(Abstract(Do(x, t)))
    requires Ok(Abstract(x))
    ensures t.SendFrame? && !t.more && !t.blocking && SendOne(x.b, t.refusing, t.more).1.RolledBack?
  {
    if t.SendFrame? { SendView(x.b, t.refusing, t.more); }
    if t.Ask? && !x.b.more { SkippedView(x.b, t.full); }
  }

  // ---------------------------------------------------------------- a run that misdirects

  /** Three pipes, two messages, the first frame of a third message; then the
      second pipe goes away and the message is finished. */
  const SCHEDULE: seq<Act> :=
    [AttachPipe(1), AttachPipe(2), AttachPipe(3), SendFrame({}, false, true), SendFrame({}, false, true),
     SendFrame({}, true, true), TerminatePipe(2), SendFrame({}, false, true)]

  /** The array before each of the first seven steps. */
  function ArrayAt(n: nat): Balance {
    if n == 0 then Balance([], 0, 0, false, false)
    else if n == 1 then Balance([1], 1, 0, false, false)
    else if n == 2 then Balance([1, 2], 2, 0, false, false)
    else if n == 3 then Balance([1, 2, 3], 3, 0, false, false)
    else if n == 4 then Balance([1, 2, 3], 3, 1, false, false)
    else if n == 5 then Balance([1, 2, 3], 3, 2, false, false)
    else Balance([1, 2, 3], 3, 2, true, false)
  }

  lemma AttachStep(x: Sender, n: nat)
    requires n < 3 && x.b == ArrayAt(n) && x.flushed.Keys == All(x.b.items)
    ensures CanDo(x, SCHEDULE[n]) && Do(x, SCHEDULE[n]).b == ArrayAt(n + 1)
    ensures Do(x, SCHEDULE[n]).flushed.Keys == All(Do(x, SCHEDULE[n]).b.items)
  {
    PutNewView(x.b, n + 1);
    assert PutNew(x.b, n + 1).items == ArrayAt(n + 1).items;
  }

  lemma SendStep(x: Sender, n: nat)
    requires 3 <= n < 6 && x.b == ArrayAt(n) && x.part == 0
    ensures CanDo(x, SCHEDULE[n]) && Do(x, SCHEDULE[n]).b == ArrayAt(n + 1) && (n < 5 ==> Do(x, SCHEDULE[n]).part == 0)
  {
  }

  /** The state before step n of the schedule. */
  predicate Before(x: Sender, n: nat) {
    x.b == ArrayAt(n) && (n <= 3 ==> x.flushed.Keys == All(x.b.items)) && (n <= 5 ==> x.part == 0)
  }

  lemma ScheduleStep(x: Sender, n: nat, t: Act)
    requires n < 6 && Before(x, n) && t == SCHEDULE[n]
    ensures CanDo(x, t) && !Spoiling(x, t) && Before(Do(x, t), n + 1)
  {
    if n < 3 { AttachStep(x, n); } else { SendStep(x, n); }
  }

  lemma NoneMore(xs: seq<Sender>, ts: seq<Act>, x: Sender, t: Act)
    requires NoneSpoils(xs, ts) && |xs| == |ts| + 1 && CanDo(xs[|ts|], t) && !Spoiling(xs[|ts|], t)
    ensures NoneSpoils(xs + [x], ts + [t])
  {
    var xs', ts' := xs + [x], ts + [t];
    forall i | 0 <= i < |ts'| ensures CanDo(xs'[i], ts'[i]) && !Spoiling(xs'[i], ts'[i]) {
      assert xs'[i] == xs[i];
      if i < |ts| { assert ts'[i] == ts[i]; }
    }
  }

  /** The beginning of the schedule is a run. */
  lemma {:induction false} ScheduleRuns(n: nat, ts: seq<Act>) returns (xs: seq<Sender>)
    requires n <= 6 && ts == SCHEDULE[..n]
    ensures ArrayRun(xs, ts) && Before(xs[n], n) && NoneSpoils(xs, ts)
    decreases n
  {
    if n == 0 {
      xs := [EMPTY];
    } else {
      var ts0, t := ts[..n - 1], ts[n - 1];
      assert ts0 == SCHEDULE[..n - 1] && ts0 + [t] == ts;
      var xs0 := ScheduleRuns(n - 1, ts0);
      var x := xs0[n - 1];
      ScheduleStep(x, n - 1, t);
      RunGrows(xs0, ts0, t);
      NoneMore(xs0, ts0, Do(x, t), t);
      xs := xs0 + [Do(x, t)];
    }
  }

  lemma RunGrows(xs: seq<Sender>, ts: seq<Act>, t: Act)
    requires ArrayRun(xs, ts) && CanDo(xs[|ts|], t)
    ensures ArrayRun(xs + [Do(xs[|ts|], t)], ts + [t])
  {
    var xs', ts' := xs + [Do(xs[|ts|], t)], ts + [t];
    forall i | 0 <= i < |ts'| ensures CanDo(xs'[i], ts'[i]) && xs'[i + 1] == Do(xs'[i], ts'[i]) {
      assert xs'[i] == xs[i];
      if i < |ts| { assert ts'[i] == ts[i] && xs'[i + 1] == xs[i + 1]; }
    }
  }

  /** The schedule is a run of the array whose only termination misdirects, and
      it ends with an incomplete message flushed to the first pipe. */
  lemma MisdirectedRun() returns (xs: seq<Sender>)
    ensures ArrayRun(xs, SCHEDULE) && Misdirecting(xs[6], SCHEDULE[6])
    ensures Look(xs[6].b).holder == Some(3) && 1 in xs[8].flushed && !Whole(xs[8].flushed[1])
  {
    var front := ScheduleRuns(6, SCHEDULE[..6]);
    ArrayRunKeepsOk(front, SCHEDULE[..6], 6);
    var x := front[6];
    PositionIs([1, 2, 3], 2, 1);
    MisdirectingShows(x, SCHEDULE[6], true);
    RunGrows(front, SCHEDULE[..6], SCHEDULE[6]);
    var middle := front + [Do(x, SCHEDULE[6])];
    assert SCHEDULE[..6] + [SCHEDULE[6]] == SCHEDULE[..7];
    RunGrows(middle, SCHEDULE[..7], SCHEDULE[7]);
    assert SCHEDULE[..7] + [SCHEDULE[7]] == SCHEDULE;
    xs := middle + [Do(middle[7], SCHEDULE[7])];
  }

  // ---------------------------------------------------------------- a run that sends a refused frame again

  /** Two pipes, the first frame of a message; the pipe that has it refuses the
      last frame, which a caller that does not block then offers again. */
  const RETRY: seq<Act> :=
    [AttachPipe(1), AttachPipe(2), SendFrame({}, true, false), SendFrame({1}, false, false),
     SendFrame({1}, false, false)]

  /** The states of that run. */
  function RetryAt(n: nat): Sender {
    var none: map<Pipe, seq<Frame>> := map[];
    var two := none[1 := []][2 := []];
    if n == 0 then EMPTY
    else if n == 1 then Sender(Balance([1], 1, 0, false, false), none[1 := []], none[1 := []], 0, 0)
    else if n == 2 then Sender(Balance([1, 2], 2, 0, false, false), two, two, 0, 0)
    else if n == 3 then Sender(Balance([1, 2], 2, 0, true, false), two, two[1 := [Frame(0, 0, false)]], 0, 1)
    else if n == 4 then Sender(Balance([1, 2], 2, 0, false, false), two, two, 0, 1)
    else Sender(Balance([2, 1], 1, 0, false, false), two[2 := [Frame(0, 1, true)]], two, 1, 0)
  }

  lemma RetryAttaches(n: nat)
    requires n < 2
    ensures CanDo(RetryAt(n), RETRY[n]) && Do(RetryAt(n), RETRY[n]) == RetryAt(n + 1)
  {
    var x := Do(RetryAt(n), RETRY[n]);
    assert x.b.items == RetryAt(n + 1).b.items;
    assert x.flushed == RetryAt(n + 1).flushed && x.pending == RetryAt(n + 1).pending;
  }

  lemma RetryBegins()
    ensures CanDo(RetryAt(2), RETRY[2]) && Do(RetryAt(2), RETRY[2]) == RetryAt(3)
  {
    var x := Do(RetryAt(2), RETRY[2]);
    assert [] + [Frame(0, 0, false)] == [Frame(0, 0, false)];
    assert x.pending == RetryAt(3).pending;
  }

  lemma RetryIsRefused()
    ensures CanDo(RetryAt(3), RETRY[3]) && Do(RetryAt(3), RETRY[3]) == RetryAt(4)
  {
    var x := Do(RetryAt(3), RETRY[3]);
    assert x.pending == RetryAt(4).pending;
  }

  lemma RetryIsTaken()
    ensures CanDo(RetryAt(4), RETRY[4]) && Reoffering(RetryAt(4), RETRY[4]) && Do(RetryAt(4), RETRY[4]) == RetryAt(5)
  {
    var b := RetryAt(4).b;
    var u := Balance([2, 1], 1, 0, false, false);
    assert Deactivated(b) == u;
    assert Skipped(u, {1}) == u;
    assert Skipped(b, {1}) == u;
    var x := Do(RetryAt(4), RETRY[4]);
    assert [] + ([] + [Frame(0, 1, true)]) == [Frame(0, 1, true)];
    assert x.pending == RetryAt(5).pending && x.flushed == RetryAt(5).flushed;
  }

  /** A run without any termination that ends with an incomplete message flushed. */
  lemma ReofferedRun() returns (xs: seq<Sender>)
    ensures ArrayRun(xs, RETRY) && Reoffering(xs[4], RETRY[4]) && 2 in xs[5].flushed && !Whole(xs[5].flushed[2])
  {
    xs := seq(6, i requires 0 <= i < 6 => RetryAt(i));
    forall i | 0 <= i < 5 ensures CanDo(xs[i], RETRY[i]) && xs[i + 1] == Do(xs[i], RETRY[i]) {
      if i < 2 { RetryAttaches(i); }
      RetryBegins();
      RetryIsRefused();
      RetryIsTaken();
    }
    RetryIsTaken();
    assert !WholeAt(xs[5].flushed[2], 0);
  }
}
