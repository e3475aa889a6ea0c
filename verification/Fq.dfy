/** The fair queue of src/fq.cpp and its starvation bound. */
module Fq {
  import opened Basics
  import opened PipeArray

  /** The first `active` pipes are active; `_current` is the next one to read. */
  datatype State = State(items: seq<Pipe>, active: nat, current: nat, more: bool, lastIn: Option<Pipe>)

  predicate Ok(s: State) {
    && Distinct(s.items) && s.active <= |s.items|
    && (if s.active == 0 then s.current == 0 else s.current < s.active)
  }

  predicate IsActive(s: State, q: Pipe)
    requires s.active <= |s.items|
  {
    q in s.items[..s.active]
  }

  lemma InPrefix(items: seq<Pipe>, a: nat, i: nat)
    requires a <= |items| && i < |items|
    ensures i < a ==> items[i] in items[..a]
  {
    if i < a { assert items[..a][i] == items[i]; }
  }

  // ---------------------------------------------------------------- specification

  function Activated(s: State, p: Pipe): State
    requires p in s.items && s.active < |s.items|
  {
    s.(items := Swapped(s.items, Position(s.items, p), s.active), active := s.active + 1)
  }

  function Attached(s: State, p: Pipe): State
    requires s.active <= |s.items|
  {
    s.(items := Swapped(s.items + [p], s.active, |s.items|), active := s.active + 1)
  }

  /** pipe_terminated: the last active pipe takes the place of one that was active. */
  function Terminated(s: State, p: Pipe): State
    requires p in s.items && s.active <= |s.items|
  {
    var i := Position(s.items, p);
    var a := if i < s.active then s.active - 1 else s.active;
    s.(items := Without(s.items, i, s.active), active := a,
       current := if i < s.active && s.current == a then 0 else s.current,
       lastIn := if s.lastIn == Some(p) then None else s.lastIn)
  }

  /** The current pipe has nothing to read: it leaves the active ones. */
  function Deactivated(s: State): State
    requires s.current < s.active <= |s.items|
  {
    var a := s.active - 1;
    s.(items := Swapped(s.items, s.current, a), active := a, current := if s.current == a then 0 else s.current)
  }

  /** Skip pipes that are not ready. */
  function Skipped(s: State, ready: set<Pipe>): (u: State)
    requires Ok(s)
    ensures Ok(u) && u.more == s.more
    decreases s.active
  {
    if s.active == 0 || s.items[s.current] in ready then s
    else if s.more then s
    else SwapDistinct(s.items, s.current, s.active - 1); Skipped(Deactivated(s), ready)
  }

  /** c modulo a, for c up to a. */
  function Wrapped(c: nat, a: nat): nat
    requires c <= a
  {
    if c == a then 0 else c
  }

  lemma WrappedIsMod(c: nat, a: nat)
    requires c <= a && a > 0
    ensures Wrapped(c, a) == c % a
  {
  }

  /** recvpipe: ready are the pipes with something to read, more is the flag
      of the frame that is read. */
  function Received(s: State, ready: set<Pipe>, more: bool): (State, Option<Pipe>)
    requires Ok(s)
  {
    var u := Skipped(s, ready);
    if u.active == 0 || u.items[u.current] !in ready then (u, None)
    else
      var p := u.items[u.current];
      if more then (u.(more := true), Some(p))
      else (u.(more := false, lastIn := Some(p), current := Wrapped(u.current + 1, u.active)), Some(p))
  }

  /** The assertion of recvpipe fails: in the middle of a message the pipe
      under `_current` has nothing to read. */
  predicate Fails(s: State, ready: set<Pipe>)
    requires Ok(s)
  {
    s.more && s.active > 0 && s.items[s.current] !in ready
  }

  // ---------------------------------------------------------------- the queue

  class FqT {
    const pipes: ArrayT
    var active: nat
    var current: nat
    var more: bool
    var lastIn: Option<Pipe>

    ghost predicate Valid()
      reads this, pipes
    {
      pipes.Valid() && Ok(Now())
    }

    function Now(): State
      reads this, pipes
    {
      State(pipes.items, active, current, more, lastIn)
    }

    constructor ()
      ensures Valid() && fresh(pipes) && Now() == State([], 0, 0, false, None)
    {
      pipes := new ArrayT();
      active, current, more, lastIn := 0, 0, false, None;
    }

    method Attach(p: Pipe)
      requires Valid() && p !in pipes.items
      modifies this, pipes
      ensures Valid() && Now() == Attached(old(Now()), p)
    {
      pipes.PushBack(p);
      SwapDistinct(pipes.items, active, |pipes.items| - 1);
      pipes.Swap(active, |pipes.items| - 1);
      active := active + 1;
    }

    method Activate(p: Pipe)
      requires Valid() && p in pipes.items && !IsActive(Now(), p)
      modifies this, pipes
      ensures Valid() && active == old(active) + 1 && old(active) < |old(pipes.items)|
      ensures Now() == Activated(old(Now()), p)
    {
      var i := pipes.Index(p);
      assert i == Position(pipes.items, p);
      InPrefix(pipes.items, active, i);
      SwapDistinct(pipes.items, i, active);
      pipes.Swap(i, active);
      active := active + 1;
    }

    method Deactivate()
      requires Valid() && active > 0 && !more
      modifies this, pipes
      ensures Valid() && Now() == Deactivated(old(Now()))
    {
      SwapDistinct(pipes.items, current, active - 1);
      active := active - 1;
      pipes.Swap(current, active);
      if current == active {
        current := 0;
      }
    }

    method PipeTerminated(p: Pipe)
      requires Valid() && p in pipes.items
      modifies this, pipes
      ensures Valid() && Now() == Terminated(old(Now()), p)
    {
      var i := pipes.Index(p);
      PositionIs(pipes.items, p, i);
      TerminatedAt(Now(), p);
      if i < active {
        active := active - 1;
        SwapDistinct(pipes.items, i, active);
        pipes.Swap(i, active);
        if current == active {
          current := 0;
        }
      }
      pipes.Erase(p, if i < old(active) then old(active) - 1 else i);
      if lastIn == Some(p) {
        lastIn := None;
      }
    }

    /** Read a frame; aborts says that the assertion fails, on which the program ends. */
    method RecvPipe(ready: set<Pipe>, frameMore: bool) returns (p: Option<Pipe>, aborts: bool)
      requires Valid()
      modifies this, pipes
      ensures Valid() && (Now(), p) == Received(old(Now()), ready, frameMore)
      ensures aborts <==> Fails(old(Now()), ready)
    {
      while active > 0
        invariant Valid() && Skipped(Now(), ready) == Skipped(old(Now()), ready)
        invariant Fails(Now(), ready) <==> Fails(old(Now()), ready)
        decreases active
      {
        var fetched := pipes.items[current] in ready;
        if fetched {
          p := Some(pipes.items[current]);
          more := frameMore;
          if !more {
            lastIn := p;
            WrappedIsMod(current + 1, active);
            current := (current + 1) % active;
          }
          return p, false;
        }
        if more { return None, true; }
        Deactivate();
      }
      return None, false;
    }

    method HasIn(ready: set<Pipe>) returns (ok: bool)
      requires Valid()
      modifies this, pipes
      ensures Valid() && Now() == (if old(more) then old(Now()) else Skipped(old(Now()), ready))
      ensures ok <==> old(more) || active > 0
    {
      if more { return true; }
      while active > 0
        invariant Valid() && !more && Skipped(Now(), ready) == Skipped(old(Now()), ready)
        decreases active
      {
        if pipes.items[current] in ready { return true; }
        Deactivate();
      }
      return false;
    }
  }

  // ---------------------------------------------------------------- distance

  /** How many active pipes come before q in the round. */
  function Distance(s: State, q: Pipe): nat
    requires Ok(s) && IsActive(s, q)
  {
    var j := Position(s.items[..s.active], q);
    if j >= s.current then j - s.current else j + s.active - s.current
  }

  lemma DistanceAt(s: State, q: Pipe, j: nat)
    requires Ok(s) && j < s.active && s.items[j] == q
    ensures IsActive(s, q) && Distance(s, q) == if j >= s.current then j - s.current else j + s.active - s.current
  {
    assert s.items[..s.active][j] == q;
    PositionIs(s.items[..s.active], q, j);
  }

  lemma ActiveAt(s: State, q: Pipe) returns (j: nat)
    requires Ok(s) && IsActive(s, q)
    ensures j < s.active && s.items[j] == q
  {
    j :| 0 <= j < s.active && s.items[..s.active][j] == q;
  }

  /** A deactivation never takes another pipe further away. */
  lemma DeactivateDistance(s: State, q: Pipe)
    requires Ok(s) && s.active > 0 && !s.more && IsActive(s, q) && q != s.items[s.current]
    ensures Ok(Deactivated(s)) && IsActive(Deactivated(s), q) && Distance(Deactivated(s), q) <= Distance(s, q)
  {
    SwapDistinct(s.items, s.current, s.active - 1);
    var t := Deactivated(s);
    var j := ActiveAt(s, q);
    DistanceAt(s, q, j);
    DistanceAt(t, q, if j == s.active - 1 then s.current else j);
  }

  /** A pipe that drops out of the active ones stays out while pipes are skipped. */
  lemma {:induction false} SkipDistance(s: State, ready: set<Pipe>, q: Pipe)
    requires Ok(s)
    ensures Ok(Skipped(s, ready)) && Skipped(s, ready).more == s.more
    ensures IsActive(Skipped(s, ready), q) ==>
              IsActive(s, q) && Distance(Skipped(s, ready), q) <= Distance(s, q)
    decreases s.active
  {
    if s.active > 0 && s.items[s.current] !in ready && !s.more {
      var t := Deactivated(s);
      SwapDistinct(s.items, s.current, s.active - 1);
      SkipDistance(t, ready, q);
      if IsActive(t, q) {
        var j := ActiveAt(t, q);
        assert s.items[if j == s.current then s.active - 1 else j] == q;
        DistanceAt(s, q, if j == s.current then s.active - 1 else j);
        DeactivateDistance(s, q);
      }
    }
  }

  /** Making the current pipe passive removes it and no other pipe from the active ones. */
  lemma DeactivateRemoves(s: State, q: Pipe)
    requires Ok(s) && s.active > 0 && !s.more
    ensures Ok(Deactivated(s)) && (IsActive(Deactivated(s), q) <==> IsActive(s, q) && q != s.items[s.current])
  {
    var t := Deactivated(s);
    SwapDistinct(s.items, s.current, s.active - 1);
    if IsActive(t, q) {
      var j := ActiveAt(t, q);
      DistanceAt(s, q, if j == s.current then s.active - 1 else j);
    }
    if IsActive(s, q) && q != s.items[s.current] { DeactivateDistance(s, q); }
  }

  /** The pipes that are skipped are those without a message: a message is found
      exactly when some active pipe has one, and no pipe that has one is lost. */
  lemma {:induction false} SkipFindsReady(s: State, ready: set<Pipe>, q: Pipe)
    requires Ok(s) && !s.more
    ensures var u := Skipped(s, ready);
            && Ok(u) && (u.active > 0 ==> u.items[u.current] in ready && IsActive(s, u.items[u.current]))
            && (IsActive(s, q) && q in ready ==> IsActive(u, q) && u.active > 0)
    decreases s.active
  {
    if s.active > 0 {
      var first := s.items[s.current];
      DistanceAt(s, first, s.current);
      if first !in ready {
        var t := Deactivated(s);
        DeactivateRemoves(s, q);
        SkipFindsReady(t, ready, q);
        var u := Skipped(t, ready);
        if u.active > 0 { DeactivateRemoves(s, u.items[u.current]); }
      } else if IsActive(s, q) {
        var j := ActiveAt(s, q);
      }
    } else if IsActive(s, q) {
      var j := ActiveAt(s, q);
    }
  }

  /** Reading the last frame of a message brings every other pipe one closer. */
  lemma ReceiveDistance(s: State, ready: set<Pipe>, more: bool, q: Pipe)
    requires Ok(s)
    ensures var (s', p) := Received(s, ready, more);
            && Ok(s')
            && (IsActive(s', q) && p != Some(q) ==>
                  IsActive(s, q) && Distance(s', q) + Bit(p.Some? && !more) <= Distance(s, q))
  {
    SkipDistance(s, ready, q);
    var u := Skipped(s, ready);
    var (s', p) := Received(s, ready, more);
    if p.Some? && IsActive(u, q) && p != Some(q) {
      var j := ActiveAt(u, q);
      DistanceAt(u, q, j);
      DistanceAt(s', q, j);
    }
  }

  /** A pipe that joins takes at most one place in the round before q. */
  lemma JoinDistance(s: State, p: Pipe, q: Pipe)
    requires Ok(s) && IsActive(s, q)
    ensures p !in s.items ==> var t := Attached(s, p); Ok(t) && IsActive(t, q) && Distance(t, q) <= Distance(s, q) + 1
    ensures p in s.items && !IsActive(s, p) ==>
              && s.active < |s.items|
              && var t := Activated(s, p); Ok(t) && IsActive(t, q) && Distance(t, q) <= Distance(s, q) + 1
  {
    var j := ActiveAt(s, q);
    DistanceAt(s, q, j);
    if p !in s.items {
      SwapDistinct(s.items + [p], s.active, |s.items|);
      DistanceAt(Attached(s, p), q, j);
    }
    if p in s.items && !IsActive(s, p) {
      var i := Position(s.items, p);
      InPrefix(s.items, s.active, i);
      SwapDistinct(s.items, i, s.active);
      DistanceAt(Activated(s, p), q, j);
    }
  }

  /** A termination can only take the last active pipe further away, and by at
      most the position of the pipe that went. */
  function Setback(s: State, p: Pipe, q: Pipe): nat
    requires Ok(s)
  {
    if p in s.items && Position(s.items, p) < s.active && q == s.items[s.active - 1] then Position(s.items, p) else 0
  }

  lemma TerminatedAt(s: State, p: Pipe)
    requires Ok(s) && p in s.items
    ensures var i, t := Position(s.items, p), Terminated(s, p);
            && Ok(t) && All(t.items) == All(s.items) - {p}
            && (forall k :: 0 <= k < t.active ==> t.items[k] == s.items[if k == i then s.active - 1 else k])
  {
    RemovedItems(s.items, Position(s.items, p), s.active);
  }

  lemma TerminateDistance(s: State, p: Pipe, q: Pipe)
    requires Ok(s) && p in s.items && IsActive(s, q) && p != q
    ensures var t := Terminated(s, p);
            Ok(t) && IsActive(t, q) && Distance(t, q) <= Distance(s, q) + Setback(s, p, q)
  {
    var i := Position(s.items, p);
    var j := ActiveAt(s, q);
    if i < s.active && j == s.active - 1 { LastDistance(s, p, q); } else { OtherDistance(s, p, q, j); }
  }

  /** The last active pipe moves to the place of the one that went. */
  lemma LastDistance(s: State, p: Pipe, q: Pipe)
    requires Ok(s) && p in s.items && s.active > 0 && s.items[s.active - 1] == q && p != q
    requires Position(s.items, p) < s.active
    ensures var t := Terminated(s, p);
            Ok(t) && IsActive(s, q) && IsActive(t, q) && Distance(t, q) <= Distance(s, q) + Position(s.items, p)
  {
    TerminatedAt(s, p);
    DistanceAt(s, q, s.active - 1);
    DistanceAt(Terminated(s, p), q, Position(s.items, p));
  }

  /** Every other active pipe keeps its place and comes no later. */
  lemma OtherDistance(s: State, p: Pipe, q: Pipe, j: nat)
    requires Ok(s) && p in s.items && j < s.active && s.items[j] == q && p != q
    requires Position(s.items, p) < s.active ==> j != s.active - 1
    ensures var t := Terminated(s, p);
            Ok(t) && IsActive(s, q) && IsActive(t, q) && Distance(t, q) <= Distance(s, q)
  {
    TerminatedAt(s, p);
    DistanceAt(s, q, j);
    DistanceAt(Terminated(s, p), q, j);
  }

  // ---------------------------------------------------------------- runs

  datatype Step =
    | Attach(p: Pipe)
    | Activate(p: Pipe)
    | Terminate(p: Pipe)
    | Recv(ready: set<Pipe>, more: bool)
    | HasIn(ready: set<Pipe>)

  predicate Enabled(s: State, t: Step)
    requires Ok(s)
  {
    match t
    case Attach(p) => p !in s.items
    case Activate(p) => p in s.items && !IsActive(s, p) && s.active < |s.items|
    case Terminate(p) => p in s.items
    case Recv(_, _) => true
    case HasIn(_) => true
  }

  function Next(s: State, t: Step): State
    requires Ok(s) && Enabled(s, t)
  {
    match t
    case Attach(p) => Attached(s, p)
    case Activate(p) => Activated(s, p)
    case Terminate(p) => Terminated(s, p)
    case Recv(ready, more) => Received(s, ready, more).0
    case HasIn(ready) => if s.more then s else Skipped(s, ready)
  }

  /** The pipe a step read from. */
  function Source(s: State, t: Step): Option<Pipe>
    requires Ok(s)
  {
    if t.Recv? then Received(s, t.ready, t.more).1 else None
  }

  /** ts leads from ss[0] through all of ss, and q stays active without being read. */
  predicate Waits(ss: seq<State>, ts: seq<Step>, q: Pipe) {
    && |ss| == |ts| + 1
    && (forall i :: 0 <= i < |ss| ==> Ok(ss[i]) && IsActive(ss[i], q))
    && (forall i :: 0 <= i < |ts| ==> PassesOver(ss, ts, q, i))
  }

  predicate PassesOver(ss: seq<State>, ts: seq<Step>, q: Pipe, i: nat)
    requires i < |ts| && |ss| == |ts| + 1 && Ok(ss[i])
  {
    Enabled(ss[i], ts[i]) && ss[i + 1] == Next(ss[i], ts[i]) && Source(ss[i], ts[i]) != Some(q)
  }

  /** Whole messages read from other pipes. */
  function Messages(ss: seq<State>, ts: seq<Step>, n: nat): nat
    requires n <= |ts| < |ss| && forall i :: 0 <= i < |ss| ==> Ok(ss[i])
  {
    if n == 0 then 0
    else Messages(ss, ts, n - 1) + Bit(ts[n - 1].Recv? && !ts[n - 1].more && Source(ss[n - 1], ts[n - 1]).Some?)
  }

  /** The pipes that joined, and how far terminations took q away. */
  function Delays(ss: seq<State>, ts: seq<Step>, q: Pipe, n: nat): nat
    requires n <= |ts| < |ss| && forall i :: 0 <= i < |ss| ==> Ok(ss[i])
  {
    if n == 0 then 0
    else
      var t := ts[n - 1];
      Delays(ss, ts, q, n - 1) + Bit(t.Attach? || t.Activate?) + if t.Terminate? then Setback(ss[n - 1], t.p, q) else 0
  }

  lemma StepDistance(s: State, t: Step, q: Pipe)
    requires Ok(s) && Enabled(s, t) && IsActive(s, q) && Source(s, t) != Some(q)
    requires Ok(Next(s, t)) && IsActive(Next(s, t), q)
    ensures Distance(Next(s, t), q) + Bit(t.Recv? && !t.more && Source(s, t).Some?)
            <= Distance(s, q) + Bit(t.Attach? || t.Activate?) + if t.Terminate? then Setback(s, t.p, q) else 0
  {
    match t
    case Attach(p) => JoinDistance(s, p, q);
    case Activate(p) => JoinDistance(s, p, q);
    case Terminate(p) =>
      TerminatedAt(s, p);
      TerminateDistance(s, p, q);
    case Recv(ready, more) => ReceiveDistance(s, ready, more, q);
    case HasIn(ready) => SkipDistance(s, ready, q);
  }

  /** Starvation bound: while q waits, the whole messages read from other
      pipes are at most its initial distance plus the pipes that joined plus
      the setbacks by terminations. */
  lemma {:induction false} NoStarvation(ss: seq<State>, ts: seq<Step>, q: Pipe, n: nat)
    requires Waits(ss, ts, q) && n <= |ts|
    ensures Messages(ss, ts, n) + Distance(ss[n], q) <= Distance(ss[0], q) + Delays(ss, ts, q, n)
  {
    if n > 0 {
      NoStarvation(ss, ts, q, n - 1);
      assert PassesOver(ss, ts, q, n - 1);
      StepDistance(ss[n - 1], ts[n - 1], q);
    }
  }

  /** Every step keeps the array well formed, so every run does. */
  lemma StepKeepsOk(s: State, t: Step)
    requires Ok(s) && Enabled(s, t)
    ensures Ok(Next(s, t))
  {
    match t
    case Attach(p) => SwapDistinct(s.items + [p], s.active, |s.items|);
    case Activate(p) => SwapDistinct(s.items, Position(s.items, p), s.active);
    case Terminate(p) => TerminatedAt(s, p);
    case Recv(ready, more) => ReceiveDistance(s, ready, more, 0);
    case HasIn(ready) => SkipDistance(s, ready, 0);
  }
}
