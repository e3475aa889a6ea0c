/** Atomicity of the messages that a fair queue delivers, over whole runs. */
module FqRuns {
  import opened Basics
  import opened PipeArray
  import opened Fq

  /** Frame `part` of message `msg` of a pipe, and whether it is the last of the message. */
  datatype Frame = Frame(pipe: Pipe, msg: nat, part: nat, last: bool)

  /** The queue, how much was read from every pipe, all that was read, and
      whether an assertion failed and ended the program. */
  datatype Reader = Reader(q: State, read: map<Pipe, (nat, nat)>, out: seq<Frame>, aborted: bool)

  const START: Reader := Reader(State([], 0, 0, false, None), map[], [], false)

  /** What a pipe promises: once the first frame of a message is read from it,
      the others are there to be read. */
  predicate Honest(r: Reader, ready: set<Pipe>) {
    forall p :: p in All(r.q.items) && p in r.read && r.read[p].1 > 0 ==> p in ready
  }

  predicate CanStep(r: Reader, t: Step) {
    && !r.aborted && Ok(r.q) && Enabled(r.q, t) && All(r.q.items) <= r.read.Keys
    && (t.Attach? ==> t.p !in r.read) && (t.Recv? ==> Honest(r, t.ready))
  }

  /** The next frame of a pipe, with the given more flag. */
  function FrameOf(r: Reader, p: Pipe, more: bool): Frame
    requires p in r.read
  {
    Frame(p, r.read[p].0, r.read[p].1, !more)
  }

  function Do(r: Reader, t: Step): Reader
    requires CanStep(r, t)
  {
    var q := Next(r.q, t);
    var from := Source(r.q, t);
    if t.Attach? then r.(q := q, read := r.read[t.p := (0, 0)])
    else if from.Some? && from.value in r.read then
      var (m, k) := r.read[from.value];
      r.(q := q, read := r.read[from.value := if t.more then (m, k + 1) else (m + 1, 0)],
         out := r.out + [FrameOf(r, from.value, t.more)])
    else r.(q := q, aborted := t.Recv? && Fails(r.q, t.ready))
  }

  /** Frame i begins a message behind a finished one, or continues the message before it. */
  predicate AtomicAt(out: seq<Frame>, i: nat)
    requires i < |out|
  {
    if out[i].part == 0 then i == 0 || out[i - 1].last
    else i > 0 && out[i - 1] == Frame(out[i].pipe, out[i].msg, out[i].part - 1, false)
  }

  /** Messages are delivered whole, one after the other; the last may be unfinished. */
  predicate Atomic(out: seq<Frame>) {
    forall i :: 0 <= i < |out| ==> AtomicAt(out, i)
  }

  // ---------------------------------------------------------------- the exact condition

  /** The termination of p, in the middle of a message, leaves `_current` on a
      pipe other than the one the message comes from: p is that pipe, or p lies
      between the first and that pipe, which is the last active one and gets
      swapped into the gap while `_current` is reset to 0. */
  predicate Breaks(s: State, p: Pipe)
    requires Ok(s) && p in s.items
  {
    var i := Position(s.items, p);
    s.more && s.active > 0 && (i == s.current || (0 < i < s.current && s.current == s.active - 1))
  }

  predicate Breaking(s: State, t: Step)
    requires Ok(s) && Enabled(s, t)
  {
    t.Terminate? && Breaks(s, t.p)
  }

  /** The pipe under `_current`, if there is an active one. */
  function Under(s: State): Option<Pipe>
    requires Ok(s)
  {
    if s.active > 0 then Some(s.items[s.current]) else None
  }

  /** In the middle of a message, a step other than a read keeps the pipe under
      `_current` if and only if it is not a breaking termination. */
  lemma KeepsReader(s: State, t: Step)
    requires Ok(s) && Enabled(s, t) && s.more && s.active > 0 && !t.Recv?
    ensures Ok(Next(s, t)) && Next(s, t).more
    ensures Under(Next(s, t)) == Under(s) <==> !Breaking(s, t)
  {
    StepKeepsOk(s, t);
    match t
    case Attach(p) =>
    case Activate(p) =>
      InPrefix(s.items, s.active, Position(s.items, p));
    case Terminate(p) =>
      TerminatedAt(s, p);
      CurrentGoes(s, p);
    case HasIn(_) =>
  }

  lemma CurrentGoes(s: State, p: Pipe)
    requires Ok(s) && p in s.items && s.active > 0
    ensures var t := Terminated(s, p);
            && Ok(t) && (s.items[s.current] == p ==> Under(t) != Some(p))
            && (s.items[s.current] == p <==> Position(s.items, p) == s.current)
  {
    TerminatedAt(s, p);
    var t := Terminated(s, p);
    PositionIs(s.items, s.items[s.current], s.current);
    if t.active > 0 { assert t.items[t.current] in All(t.items); }
  }

  // ---------------------------------------------------------------- atomicity

  /** A pipe that was read in the middle of a message is the one under
      `_current`, and its last frame is the last one read. */
  predicate Resumes(r: Reader, p: Pipe)
    requires Ok(r.q) && p in r.read
  {
    r.read[p].1 > 0 ==>
      && r.q.more && Under(r.q) == Some(p) && r.out != []
      && r.out[|r.out| - 1] == Frame(p, r.read[p].0, r.read[p].1 - 1, false)
  }

  predicate Whole(r: Reader) {
    && !r.aborted && Ok(r.q) && All(r.q.items) <= r.read.Keys && Atomic(r.out)
    && (forall p :: p in All(r.q.items) ==> Resumes(r, p))
    && (r.q.more ==> Under(r.q).Some? && r.read[Under(r.q).value].1 > 0)
    && (!r.q.more && r.out != [] ==> r.out[|r.out| - 1].last)
  }

  lemma UnderIsItem(s: State)
    requires Ok(s) && s.active > 0
    ensures s.items[s.current] in All(s.items)
  {
  }

  lemma {:induction false} SkipItems(s: State, ready: set<Pipe>)
    requires Ok(s)
    ensures All(Skipped(s, ready).items) == All(s.items)
    decreases s.active
  {
    if s.active > 0 && s.items[s.current] !in ready && !s.more {
      SwapDistinct(s.items, s.current, s.active - 1);
      SwapAll(s.items, s.current, s.active - 1);
      SkipItems(Deactivated(s), ready);
    }
  }

  lemma NextItems(s: State, t: Step)
    requires Ok(s) && Enabled(s, t)
    ensures All(Next(s, t).items)
            == if t.Attach? then All(s.items) + {t.p} else if t.Terminate? then All(s.items) - {t.p} else All(s.items)
  {
    match t
    case Attach(p) =>
      AppendFirst(s.items, p);
      SwapAll(s.items + [p], s.active, |s.items|);
    case Activate(p) => SwapAll(s.items, Position(s.items, p), s.active);
    case Terminate(p) => TerminatedAt(s, p);
    case Recv(ready, more) => SkipItems(s, ready);
    case HasIn(ready) => SkipItems(s, ready);
  }

  lemma AtomicAppend(out: seq<Frame>, f: Frame)
    requires Atomic(out)
    requires if f.part == 0 then out == [] || out[|out| - 1].last
             else out != [] && out[|out| - 1] == Frame(f.pipe, f.msg, f.part - 1, false)
    ensures Atomic(out + [f])
  {
    var longer := out + [f];
    forall i | 0 <= i < |longer| ensures AtomicAt(longer, i) {
      if i < |out| { assert AtomicAt(out, i); }
    }
  }

  /** What a read does: it continues the unfinished message, or begins one. */
  lemma ReadFrom(r: Reader, t: Step)
    requires Whole(r) && CanStep(r, t) && t.Recv?
    ensures Ok(Next(r.q, t)) && Next(r.q, t).more == (if Source(r.q, t).Some? then t.more else r.q.more)
    ensures Source(r.q, t).Some? ==>
              && Source(r.q, t).value in All(r.q.items)
              && (t.more ==> Under(Next(r.q, t)) == Source(r.q, t))
              && (r.q.more ==> Source(r.q, t) == Under(r.q))
    ensures Source(r.q, t).None? ==> !r.q.more
    ensures !Fails(r.q, t.ready)
  {
    StepKeepsOk(r.q, t);
    if r.q.more { UnderIsItem(r.q); }
    SkipItems(r.q, t.ready);
    var u := Skipped(r.q, t.ready);
    if u.active > 0 { UnderIsItem(u); }
  }

  lemma KeepRead(r: Reader, t: Step)
    requires Whole(r) && CanStep(r, t) && t.Recv?
    ensures Whole(Do(r, t))
  {
    ReadFrom(r, t);
    NextItems(r.q, t);
    var r' := Do(r, t);
    var from := Source(r.q, t);
    if from.Some? {
      var p := from.value;
      assert Resumes(r, p);
      AtomicAppend(r.out, FrameOf(r, p, t.more));
      forall x | x in All(r'.q.items) ensures Resumes(r', x) {
        assert Resumes(r, x);
      }
    } else {
      forall x | x in All(r'.q.items) ensures Resumes(r', x) {
        assert Resumes(r, x);
      }
    }
  }

  lemma KeepOther(r: Reader, t: Step)
    requires Whole(r) && CanStep(r, t) && !t.Recv? && !Breaking(r.q, t)
    ensures Whole(Do(r, t))
  {
    StepKeepsOk(r.q, t);
    NextItems(r.q, t);
    var r' := Do(r, t);
    if r.q.more { KeepsReader(r.q, t); }
    forall x | x in All(r'.q.items) ensures Resumes(r', x) {
      if !t.Attach? || x != t.p { assert Resumes(r, x); }
    }
    if r'.q.more { UnderIsItem(r.q); }
  }

  /** A run from the empty queue. */
  ghost predicate Run(rs: seq<Reader>, ts: seq<Step>) {
    && |rs| == |ts| + 1 && rs[0] == START
    && forall i :: 0 <= i < |ts| ==> CanStep(rs[i], ts[i]) && rs[i + 1] == Do(rs[i], ts[i])
  }

  /** No termination in the run is a breaking one. */
  ghost predicate Unbroken(rs: seq<Reader>, ts: seq<Step>)
    requires Run(rs, ts)
  {
    forall i :: 0 <= i < |ts| ==> !Breaking(rs[i].q, ts[i])
  }

  lemma {:induction false} RunKeepsWhole(rs: seq<Reader>, ts: seq<Step>, n: nat)
    requires Run(rs, ts) && Unbroken(rs, ts) && n <= |ts|
    ensures Whole(rs[n])
    decreases n
  {
    if n > 0 {
      RunKeepsWhole(rs, ts, n - 1);
      StepKeepsWhole(rs[n - 1], ts[n - 1]);
    }
  }

  lemma StepKeepsWhole(r: Reader, t: Step)
    requires Whole(r) && CanStep(r, t) && !Breaking(r.q, t)
    ensures Whole(Do(r, t))
  {
    if t.Recv? { KeepRead(r, t); } else { KeepOther(r, t); }
  }

  /** In every run without a breaking termination all messages are delivered
      whole, a message once begun is read to its end from the same pipe, and
      the assertion of recvpipe does not fail. */
  lemma DeliveredAtomically(rs: seq<Reader>, ts: seq<Step>)
    requires Run(rs, ts) && Unbroken(rs, ts)
    ensures Atomic(rs[|ts|].out) && !rs[|ts|].aborted
  {
    RunKeepsWhole(rs, ts, |ts|);
  }

  /** A breaking termination always shows in the next read, if a pipe is active.
      When the pipe that is now under `_current` has something to read, the
      frame does not belong to the message that was begun.  When it has nothing,
      and only then, the assertion of recvpipe fails; nothing obliges that pipe
      to have something, since it is not in the middle of a message. */
  lemma BreakingShows(r: Reader, p: Pipe, t: Step)
    requires Whole(r) && CanStep(r, Terminate(p)) && Breaks(r.q, p)
    requires CanStep(Do(r, Terminate(p)), t) && t.Recv? && Do(r, Terminate(p)).q.active > 0
    ensures var r1 := Do(r, Terminate(p));
            var q := Under(r1.q).value;
            && q in r1.read && r1.read[q].1 == 0
            && (Do(r1, t).aborted <==> q !in t.ready)
            && (q in t.ready ==> !Atomic(Do(r1, t).out))
  {
    var r1 := Do(r, Terminate(p));
    KeepsReader(r.q, Terminate(p));
    NextItems(r.q, Terminate(p));
    var q := Under(r1.q).value;
    UnderIsItem(r1.q);
    UnderIsItem(r.q);
    assert Resumes(r, q) && Resumes(r, Under(r.q).value);
    if q in t.ready {
      assert Source(r1.q, t) == Some(q);
      assert !AtomicAt(Do(r1, t).out, |r.out|);
    }
  }

  // ---------------------------------------------------------------- a run that breaks

  /** Three pipes; a message is read from each of the first two and a first
      frame from the third, then the second pipe goes away. */
  const SCHEDULE: seq<Step> :=
    [Attach(1), Attach(2), Attach(3), Recv({1, 2, 3}, false), Recv({1, 2, 3}, false), Recv({1, 2, 3}, true),
     Terminate(2), Recv({1, 3}, true)]

  function After(n: nat): Reader
    requires n <= |SCHEDULE|
  {
    var q := State([1, 2, 3], 3, 0, false, None);
    var none: map<Pipe, (nat, nat)> := map[];
    var unread := none[1 := (0, 0)][2 := (0, 0)][3 := (0, 0)];
    var f1, f2, f3 := Frame(1, 0, 0, true), Frame(2, 0, 0, true), Frame(3, 0, 0, false);
    if n == 0 then START
    else if n == 1 then Reader(State([1], 1, 0, false, None), none[1 := (0, 0)], [], false)
    else if n == 2 then Reader(State([1, 2], 2, 0, false, None), none[1 := (0, 0)][2 := (0, 0)], [], false)
    else if n == 3 then Reader(q, unread, [], false)
    else if n == 4 then Reader(q.(current := 1, lastIn := Some(1)), unread[1 := (1, 0)], [f1], false)
    else if n == 5 then Reader(q.(current := 2, lastIn := Some(2)), unread[1 := (1, 0)][2 := (1, 0)], [f1, f2], false)
    else
      var read := unread[1 := (1, 0)][2 := (1, 0)][3 := (0, 1)];
      if n == 6 then Reader(q.(current := 2, lastIn := Some(2), more := true), read, [f1, f2, f3], false)
      else if n == 7 then Reader(State([1, 3], 2, 0, true, None), read, [f1, f2, f3], false)
      else Reader(State([1, 3], 2, 0, true, None), read[1 := (1, 1)], [f1, f2, f3, Frame(1, 1, 0, false)], false)
  }

  lemma ScheduleAttaches(n: nat)
    requires n < 3
    ensures CanStep(After(n), SCHEDULE[n]) && After(n + 1) == Do(After(n), SCHEDULE[n])
  {
    var r := Do(After(n), SCHEDULE[n]);
    assert r.q.items == After(n + 1).q.items;
    assert r.read == After(n + 1).read;
  }

  lemma ScheduleReadsFirst()
    ensures CanStep(After(3), SCHEDULE[3]) && After(4) == Do(After(3), SCHEDULE[3])
  {
    var r := Do(After(3), SCHEDULE[3]);
    assert r.read == After(4).read && r.out == After(4).out;
  }

  lemma ScheduleReadsSecond()
    ensures CanStep(After(4), SCHEDULE[4]) && After(5) == Do(After(4), SCHEDULE[4])
  {
    var r := Do(After(4), SCHEDULE[4]);
    assert r.read == After(5).read && r.out == After(5).out;
  }

  lemma ScheduleBegins()
    ensures CanStep(After(5), SCHEDULE[5]) && After(6) == Do(After(5), SCHEDULE[5])
  {
    var r := Do(After(5), SCHEDULE[5]);
    assert r.read == After(6).read && r.out == After(6).out;
  }

  lemma ScheduleContinues()
    ensures CanStep(After(7), SCHEDULE[7]) && After(8) == Do(After(7), SCHEDULE[7])
  {
    var r := Do(After(7), SCHEDULE[7]);
    assert r.read == After(8).read && r.out == After(8).out;
  }

  lemma ScheduleTerminates()
    ensures CanStep(After(6), SCHEDULE[6]) && After(7) == Do(After(6), SCHEDULE[6]) && Breaks(After(6).q, 2)
  {
    PositionIs([1, 2, 3], 2, 1);
    assert Without([1, 2, 3], 1, 3) == [1, 3];
  }

  lemma ScheduleStep(i: nat)
    requires i < 8
    ensures CanStep(After(i), SCHEDULE[i]) && After(i + 1) == Do(After(i), SCHEDULE[i])
  {
    if i < 3 {
      ScheduleAttaches(i);
    } else if i == 3 {
      ScheduleReadsFirst();
    } else if i == 4 {
      ScheduleReadsSecond();
    } else if i == 5 {
      ScheduleBegins();
    } else if i == 6 {
      ScheduleTerminates();
    } else {
      ScheduleContinues();
    }
  }

  /** A run whose only termination is a breaking one of a pipe that is not being
      read, and in which the message of pipe 3 is continued by pipe 1. */
  lemma BrokenRun() returns (rs: seq<Reader>)
    ensures Run(rs, SCHEDULE) && Breaking(rs[6].q, SCHEDULE[6]) && Under(rs[6].q) == Some(3) && !Atomic(rs[8].out)
  {
    rs := seq(9, i requires 0 <= i < 9 => After(i));
    forall i | 0 <= i < 8 ensures CanStep(rs[i], SCHEDULE[i]) && rs[i + 1] == Do(rs[i], SCHEDULE[i]) {
      ScheduleStep(i);
    }
    ScheduleTerminates();
    assert !AtomicAt(rs[8].out, 3);
  }

  lemma AbortingRead()
    ensures CanStep(After(7), Recv({3}, false)) && Do(After(7), Recv({3}, false)).aborted
  {
    var r := After(7);
    assert r.q == State([1, 3], 2, 0, true, None) && r.read[1] == (1, 0) && !r.aborted;
    ScheduleContinues();
    assert Honest(r, {3});
  }

  /** The same run when pipe 1 has nothing to read after the termination: the
      assertion of recvpipe fails, although the next frame of the message of
      pipe 3 is there. */
  lemma AbortedRun() returns (rs: seq<Reader>, ts: seq<Step>)
    ensures Run(rs, ts) && ts == SCHEDULE[..7] + [Recv({3}, false)] && rs[8].aborted
  {
    ts := SCHEDULE[..7] + [Recv({3}, false)];
    rs := seq(9, i requires 0 <= i < 9 => if i < 8 then After(i) else Do(After(7), ts[7]));
    AbortingRead();
    forall i | 0 <= i < 8 ensures CanStep(rs[i], ts[i]) && rs[i + 1] == Do(rs[i], ts[i]) {
      if i < 7 { ScheduleStep(i); }
    }
  }
}
