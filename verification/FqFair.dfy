/** The fair queue over whole runs, told by what it delivers: who is served, how soon, and who was served last. */
module FqFair {
  import opened Basics
  import opened PipeArray
  import opened Fq
  import opened FqRuns

  // ---------------------------------------------------------------- a read delivers

  /** The next frame of pipe p was delivered. */
  predicate Delivers(r: Reader, r': Reader, p: Pipe, more: bool) {
    p in r.read && r'.out == r.out + [Frame(p, r.read[p].0, r.read[p].1, !more)]
  }

  /** Between messages a read delivers a frame whenever some active pipe has one,
      and from a pipe that has one. */
  lemma ReadDelivers(r: Reader, t: Step, q: Pipe) returns (p: Pipe)
    requires CanStep(r, t) && t.Recv? && !r.q.more && IsActive(r.q, q) && q in t.ready
    ensures p in t.ready && Delivers(r, Do(r, t), p, t.more)
  {
    SkipFindsReady(r.q, t.ready, q);
    SkipItems(r.q, t.ready);
    var u := Skipped(r.q, t.ready);
    UnderIsItem(u);
    p := u.items[u.current];
  }

  /** In the middle of a message a read delivers the next frame of its pipe. */
  lemma ReadContinues(r: Reader, t: Step)
    requires Whole(r) && CanStep(r, t) && t.Recv? && r.q.more
    ensures r.out != [] && Delivers(r, Do(r, t), r.out[|r.out| - 1].pipe, t.more)
  {
    ReadFrom(r, t);
    UnderIsItem(r.q);
    assert Resumes(r, Under(r.q).value);
  }

  // ---------------------------------------------------------------- the wait for a turn

  /** q has something to read whenever it is looked at, and does not go away. */
  predicate HasData(t: Step, q: Pipe) {
    match t
    case Terminate(p) => p != q
    case Recv(ready, _) => q in ready
    case HasIn(ready) => q in ready
    case _ => true
  }

  lemma {:induction false} SkippedStays(s: State, ready: set<Pipe>, q: Pipe)
    requires Ok(s) && IsActive(s, q) && q in ready
    ensures IsActive(Skipped(s, ready), q)
    decreases s.active
  {
    if s.active > 0 && s.items[s.current] !in ready && !s.more {
      DeactivateRemoves(s, q);
      SkippedStays(Deactivated(s), ready, q);
    }
  }

  lemma StaysActive(s: State, t: Step, q: Pipe)
    requires Ok(s) && Enabled(s, t) && IsActive(s, q) && HasData(t, q)
    ensures Ok(Next(s, t)) && IsActive(Next(s, t), q)
  {
    StepKeepsOk(s, t);
    match t
    case Attach(p) => JoinDistance(s, p, q);
    case Activate(p) => JoinDistance(s, p, q);
    case Terminate(p) => TerminateDistance(s, p, q);
    case Recv(ready, _) => SkippedStays(s, ready, q);
    case HasIn(ready) => SkippedStays(s, ready, q);
  }

  /** The frames that end a message. */
  function Ended(out: seq<Frame>): nat {
    if out == [] then 0 else Ended(out[..|out| - 1]) + Bit(out[|out| - 1].last)
  }

  /** A stretch of a run in which q is active and has something to read. */
  ghost predicate Stretch(rs: seq<Reader>, ts: seq<Step>, q: Pipe) {
    && |rs| == |ts| + 1 && Ok(rs[0].q) && IsActive(rs[0].q, q)
    && forall i :: 0 <= i < |ts| ==> CanStep(rs[i], ts[i]) && rs[i + 1] == Do(rs[i], ts[i]) && HasData(ts[i], q)
  }

  /** Nothing was delivered from q between the two. */
  predicate NothingFrom(r: Reader, r': Reader, q: Pipe) {
    |r.out| <= |r'.out| && forall i :: |r.out| <= i < |r'.out| ==> r'.out[i].pipe != q
  }

  lemma StepOut(r: Reader, t: Step)
    requires CanStep(r, t)
    ensures var r' := Do(r, t);
            if Source(r.q, t).Some? && Source(r.q, t).value in r.read then
              Delivers(r, r', Source(r.q, t).value, t.more) && Ended(r'.out) == Ended(r.out) + Bit(!t.more)
            else r'.out == r.out
  {
    var r' := Do(r, t);
    if Source(r.q, t).Some? && Source(r.q, t).value in r.read { assert r'.out[..|r.out|] == r.out; }
  }

  lemma SourceIsRead(r: Reader, t: Step)
    requires CanStep(r, t) && Source(r.q, t).Some?
    ensures Source(r.q, t).value in r.read
  {
    SkipItems(r.q, t.ready);
    var u := Skipped(r.q, t.ready);
    UnderIsItem(u);
  }

  /** One step of the stretch: the messages that end are paid for by distance. */
  lemma StretchStep(r: Reader, t: Step, q: Pipe)
    requires CanStep(r, t) && IsActive(r.q, q) && HasData(t, q) && Source(r.q, t) != Some(q)
    ensures var r' := Do(r, t);
            && Ok(r'.q) && IsActive(r'.q, q)
            && Ended(r'.out) + Distance(r'.q, q) <= Ended(r.out) + Distance(r.q, q)
                 + Bit(t.Attach? || t.Activate?) + if t.Terminate? then Setback(r.q, t.p, q) else 0
  {
    StaysActive(r.q, t, q);
    StepDistance(r.q, t, q);
    StepOut(r, t);
    if Source(r.q, t).Some? { SourceIsRead(r, t); }
  }

  lemma {:induction false} StretchOk(rs: seq<Reader>, ts: seq<Step>, q: Pipe, n: nat)
    requires Stretch(rs, ts, q) && n <= |ts|
    ensures Ok(rs[n].q) && IsActive(rs[n].q, q)
    decreases n
  {
    if n > 0 {
      StretchOk(rs, ts, q, n - 1);
      StaysActive(rs[n - 1].q, ts[n - 1], q);
    }
  }

  /** The pipes that joined, and how far terminations took q away. */
  ghost function Delays(rs: seq<Reader>, ts: seq<Step>, q: Pipe, n: nat): nat
    requires Stretch(rs, ts, q) && n <= |ts|
  {
    if n == 0 then 0
    else
      var t := ts[n - 1];
      StretchOk(rs, ts, q, n - 1);
      Delays(rs, ts, q, n - 1) + Bit(t.Attach? || t.Activate?)
      + if t.Terminate? then Setback(rs[n - 1].q, t.p, q) else 0
  }

  lemma {:induction false} OutGrows(rs: seq<Reader>, ts: seq<Step>, q: Pipe, n: nat, m: nat)
    requires Stretch(rs, ts, q) && n <= m <= |ts|
    ensures rs[n].out <= rs[m].out
    decreases m
  {
    if n < m {
      OutGrows(rs, ts, q, n, m - 1);
      StepOut(rs[m - 1], ts[m - 1]);
    }
  }

  /** While an active pipe that has something to read is not served, the messages
      that end are at most its distance plus the pipes that joined plus the
      setbacks by terminations. */
  lemma {:induction false} ServedInTurn(rs: seq<Reader>, ts: seq<Step>, q: Pipe, n: nat)
    requires Stretch(rs, ts, q) && n <= |ts| && NothingFrom(rs[0], rs[n], q)
    ensures Ok(rs[n].q) && IsActive(rs[n].q, q)
    ensures Ended(rs[n].out) + Distance(rs[n].q, q) <= Ended(rs[0].out) + Distance(rs[0].q, q) + Delays(rs, ts, q, n)
    decreases n
  {
    if n > 0 {
      var r, t := rs[n - 1], ts[n - 1];
      OutGrows(rs, ts, q, 0, n - 1);
      OutGrows(rs, ts, q, n - 1, n);
      ServedInTurn(rs, ts, q, n - 1);
      NotFromHere(r, t, rs[0], q);
      StretchStep(r, t, q);
    }
  }

  lemma NotFromHere(r: Reader, t: Step, first: Reader, q: Pipe)
    requires CanStep(r, t) && |first.out| <= |r.out| && NothingFrom(first, Do(r, t), q)
    ensures Source(r.q, t) != Some(q)
  {
    if Source(r.q, t).Some? {
      SourceIsRead(r, t);
      assert Do(r, t).out[|r.out|].pipe == Source(r.q, t).value;
    }
  }

  /** A pipe that is attached or activated is active, behind no more than those that are. */
  lemma JoinerIsActive(s: State, t: Step, q: Pipe)
    requires Ok(s) && Enabled(s, t) && (t == Attach(q) || t == Activate(q))
    ensures Ok(Next(s, t)) && IsActive(Next(s, t), q) && Distance(Next(s, t), q) <= s.active
  {
    StepKeepsOk(s, t);
    var s' := Next(s, t);
    assert s'.items[s.active] == q;
    DistanceAt(s', q, s.active);
  }

  // ---------------------------------------------------------------- the pipe that was served last

  /** The pipe from which the last whole message was delivered. */
  function LastServed(out: seq<Frame>): Option<Pipe> {
    if out == [] then None
    else if out[|out| - 1].last then Some(out[|out| - 1].pipe)
    else LastServed(out[..|out| - 1])
  }

  /** `_last_in` is that pipe as long as it has not gone away. */
  predicate Remembers(r: Reader) {
    var last := LastServed(r.out);
    r.q.lastIn == if last.Some? && last.value in All(r.q.items) then last else None
  }

  lemma {:induction false} SkipKeepsLast(s: State, ready: set<Pipe>)
    requires Ok(s)
    ensures Skipped(s, ready).lastIn == s.lastIn
    decreases s.active
  {
    if s.active > 0 && s.items[s.current] !in ready && !s.more {
      SwapDistinct(s.items, s.current, s.active - 1);
      SkipKeepsLast(Deactivated(s), ready);
    }
  }

  lemma RememberStep(r: Reader, t: Step)
    requires CanStep(r, t) && Remembers(r) && (LastServed(r.out).Some? ==> LastServed(r.out).value in r.read)
    ensures Remembers(Do(r, t))
    ensures LastServed(Do(r, t).out).Some? ==> LastServed(Do(r, t).out).value in Do(r, t).read
  {
    NextItems(r.q, t);
    StepOut(r, t);
    var r' := Do(r, t);
    if t.Recv? {
      SkipKeepsLast(r.q, t.ready);
      if Source(r.q, t).Some? {
        SourceIsRead(r, t);
        SourceStays(r, t);
        assert r'.out[..|r.out|] == r.out;
      }
    } else if t.HasIn? {
      SkipKeepsLast(r.q, t.ready);
    }
  }

  lemma SourceStays(r: Reader, t: Step)
    requires CanStep(r, t) && Source(r.q, t).Some?
    ensures Source(r.q, t).value in All(Next(r.q, t).items)
  {
    SkipItems(r.q, t.ready);
    var u := Skipped(r.q, t.ready);
    UnderIsItem(u);
  }

  /** In every run, broken or not, `_last_in` is the pipe of the last whole
      message that was delivered, or nothing when that pipe has gone away. */
  lemma {:induction false} LastInIsLastServed(rs: seq<Reader>, ts: seq<Step>, n: nat)
    requires Run(rs, ts) && n <= |ts|
    ensures Remembers(rs[n])
    ensures LastServed(rs[n].out).Some? ==> LastServed(rs[n].out).value in rs[n].read
    decreases n
  {
    if n > 0 {
      LastInIsLastServed(rs, ts, n - 1);
      RememberStep(rs[n - 1], ts[n - 1]);
    }
  }
}
