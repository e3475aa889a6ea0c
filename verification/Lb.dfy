/** The load balancer of src/lb.cpp: one message at a time goes to one pipe. */
module Lb {
  import opened Basics
  import opened PipeArray

  /** What matters for atomicity: which pipes are active, and which pipe holds
      the beginning of an unfinished message. */
  datatype View = View(all: set<Pipe>, active: set<Pipe>, holder: Option<Pipe>, more: bool, dropping: bool)

  predicate ViewOk(v: View) {
    && v.active <= v.all
    && (v.holder.Some? <==> v.more && !v.dropping)
    && (v.holder.Some? ==> v.holder.value in v.active)
  }

  /** The outcome of sendpipe: written to a pipe, dropped, refused in mid
      message (-2), or no pipe available (-1). */
  datatype Outcome = Written(pipe: Pipe) | Dropped | RolledBack(pipe: Pipe) | Again

  // ---------------------------------------------------------------- specification

  function Attached(v: View, p: Pipe): View {
    v.(all := v.all + {p}, active := v.active + {p})
  }

  function Activated(v: View, p: Pipe): View {
    v.(active := v.active + {p})
  }

  /** The pipe is gone; the rest of a message it held the beginning of is dropped. */
  function Terminated(v: View, p: Pipe): View {
    var w := v.(all := v.all - {p}, active := v.active - {p});
    if v.holder == Some(p) then w.(holder := None, dropping := true) else w
  }

  /** One call of sendpipe with a frame whose more flag is `more`. */
  predicate Sends(v: View, refusing: set<Pipe>, more: bool, v': View, out: Outcome) {
    if v.dropping then
      out == Dropped && v' == v.(more := more, dropping := more, holder := None)
    else if v.more then
      var p := v.holder;
      p.Some? &&
      if p.value in refusing then
        out == RolledBack(p.value) && v' == v.(more := false, dropping := more, holder := None)
      else
        out == Written(p.value) && v' == v.(more := more, holder := if more then p else None)
    else
      && v'.all == v.all && v'.active <= v.active && v.active - v'.active <= refusing && !v'.dropping
      && match out
         case Again => v'.active == {} && v'.holder.None? && !v'.more
         case Written(p) =>
           p in v'.active && p !in refusing && v'.more == more && v'.holder == if more then Some(p) else None
         case _ => false
  }

  lemma OperationsKeepView(v: View, p: Pipe, refusing: set<Pipe>, more: bool, v': View, out: Outcome)
    requires ViewOk(v)
    ensures ViewOk(Attached(v, p)) && ViewOk(Terminated(v, p))
    ensures p in v.all ==> ViewOk(Activated(v, p))
    ensures Sends(v, refusing, more, v', out) ==> ViewOk(v')
  {
  }

  // ---------------------------------------------------------------- the array of pipes

  /** The first `active` pipes are active; `_current` is the one to send to. */
  datatype Balance = Balance(items: seq<Pipe>, active: nat, current: nat, more: bool, dropping: bool)

  predicate BalanceOk(s: Balance) {
    && Distinct(s.items) && s.active <= |s.items|
    && (if s.active == 0 then s.current == 0 else s.current < s.active)
    && (s.more && !s.dropping ==> s.active > 0)
  }

  function Look(s: Balance): View
    requires s.active <= |s.items| && (s.more && !s.dropping ==> s.current < |s.items|)
  {
    View(All(s.items), First(s.items, s.active), if s.more && !s.dropping then Some(s.items[s.current]) else None,
         s.more, s.dropping)
  }

  function PutActive(s: Balance, p: Pipe): Balance
    requires p in s.items && s.active < |s.items|
  {
    s.(items := Swapped(s.items, Position(s.items, p), s.active), active := s.active + 1)
  }

  function PutNew(s: Balance, p: Pipe): Balance
    requires s.active <= |s.items|
  {
    s.(items := Swapped(s.items + [p], |s.items|, s.active), active := s.active + 1)
  }

  /** pipe_terminated, for the pipe at position i. */
  function Remove(s: Balance, i: nat): Balance
    requires i < |s.items| && s.active <= |s.items|
  {
    var a := if i < s.active then s.active - 1 else s.active;
    Balance(Without(s.items, i, s.active), a, if i < s.active && s.current == a then 0 else s.current,
            s.more, s.dropping || (i == s.current && s.more))
  }

  /** The pipe at `_current` refused: the last active pipe takes its place. */
  function Deactivated(s: Balance): Balance
    requires s.current < s.active <= |s.items|
  {
    var a := s.active - 1;
    s.(items := Swapped(s.items, s.current, a), active := a, current := if s.current == a then 0 else s.current)
  }

  /** Make pipes that refuse passive, in turn, until one does not. */
  function Skipped(s: Balance, refusing: set<Pipe>): (u: Balance)
    requires BalanceOk(s) && !s.more
    ensures BalanceOk(u) && !u.more
    decreases s.active
  {
    if s.active == 0 || s.items[s.current] !in refusing then s
    else SwapDistinct(s.items, s.current, s.active - 1); Skipped(Deactivated(s), refusing)
  }

  /** One call of sendpipe. */
  function SendOne(s: Balance, refusing: set<Pipe>, more: bool): (Balance, Outcome)
    requires BalanceOk(s)
  {
    if s.dropping then (s.(more := more, dropping := more), Dropped)
    else if s.more && s.items[s.current] in refusing then
      (s.(more := false, dropping := more), RolledBack(s.items[s.current]))
    else
      var u := if s.more then s else Skipped(s, refusing);
      if u.active == 0 then (u, Again)
      else
        (u.(more := more,
            current := if more then u.current else if u.current + 1 >= u.active then 0 else u.current + 1),
         Written(u.items[u.current]))
  }

  /** The position of the terminating pipe makes the code lose track of the
      pipe that holds the unfinished message: it is the last active one and
      gets swapped into the gap, while `_current` is reset to 0. */
  predicate Misdirects(s: Balance, i: nat) {
    s.more && !s.dropping && 0 < i < s.current && s.current == s.active - 1
  }

  lemma DeactivatedView(s: Balance)
    requires BalanceOk(s) && s.active > 0 && !s.more
    ensures var t := Deactivated(s);
            && BalanceOk(t) && t.dropping == s.dropping && All(t.items) == All(s.items)
            && First(t.items, t.active) == First(s.items, s.active) - {s.items[s.current]}
  {
    SwapOut(s.items, s.current, s.active);
  }

  /** Only pipes that refuse become passive, until one does not. */
  predicate Skips(v: View, u: Balance, refusing: set<Pipe>)
    requires u.active <= |u.items|
  {
    && u.dropping == v.dropping && All(u.items) == v.all && First(u.items, u.active) <= v.active
    && v.active - First(u.items, u.active) <= refusing
    && (u.active > 0 ==> u.current < u.active && u.items[u.current] !in refusing)
  }

  lemma {:induction false} SkippedView(s: Balance, refusing: set<Pipe>)
    requires BalanceOk(s) && !s.more
    ensures Skips(Look(s), Skipped(s, refusing), refusing)
    decreases s.active
  {
    if s.active > 0 && s.items[s.current] in refusing {
      DeactivatedView(s);
      SkippedView(Deactivated(s), refusing);
    }
  }

  /** All active pipes become passive exactly when all of them refuse. */
  lemma SkippedFinds(s: Balance, refusing: set<Pipe>)
    requires BalanceOk(s) && !s.more
    ensures Skipped(s, refusing).active > 0 <==> !(Look(s).active <= refusing)
  {
    SkippedView(s, refusing);
    var u := Skipped(s, refusing);
    if u.active > 0 { FirstIndex(u.items, u.current, u.active); }
  }

  /** A call of sendpipe has its effect on the sets and the holder. */
  lemma SendView(s: Balance, refusing: set<Pipe>, more: bool)
    requires BalanceOk(s)
    ensures var (s', out) := SendOne(s, refusing, more);
            BalanceOk(s') && Sends(Look(s), refusing, more, Look(s'), out)
  {
    if !s.more && !s.dropping { SkippedView(s, refusing); }
    var (s', out) := SendOne(s, refusing, more);
    if out.Written? {
      var u := if s.more then s else Skipped(s, refusing);
      FirstIndex(u.items, u.current, u.active);
    }
  }

  /** A termination has its effect on the sets and the holder, unless it misdirects. */
  lemma RemovedView(s: Balance, i: nat)
    requires BalanceOk(s) && i < |s.items|
    ensures BalanceOk(Remove(s, i))
    ensures Look(Remove(s, i)) ==
            if Misdirects(s, i) then Terminated(Look(s), s.items[i]).(holder := Some(s.items[0]))
            else Terminated(Look(s), s.items[i])
  {
    RemovedItems(s.items, i, s.active);
  }

  lemma PutNewView(s: Balance, p: Pipe)
    requires BalanceOk(s) && p !in s.items
    ensures BalanceOk(PutNew(s, p)) && Look(PutNew(s, p)) == Attached(Look(s), p)
  {
    AppendFirst(s.items, p);
    SwapIn(s.items + [p], |s.items|, s.active);
  }

  lemma PutActiveView(s: Balance, p: Pipe)
    requires BalanceOk(s) && p in s.items && p !in First(s.items, s.active)
    ensures s.active < |s.items| && BalanceOk(PutActive(s, p)) && Look(PutActive(s, p)) == Activated(Look(s), p)
  {
    var i := Position(s.items, p);
    FirstIndex(s.items, i, s.active);
    SwapIn(s.items, i, s.active);
  }

  // ---------------------------------------------------------------- the balancer

  class LbT {
    const pipes: ArrayT
    var active: nat
    var current: nat
    var more: bool
    var dropping: bool

    ghost predicate Valid()
      reads this, pipes
    {
      pipes.Valid() && BalanceOk(Now())
    }

    function Now(): Balance
      reads this, pipes
    {
      Balance(pipes.items, active, current, more, dropping)
    }

    constructor ()
      ensures Valid() && fresh(pipes) && Now() == Balance([], 0, 0, false, false)
    {
      pipes := new ArrayT();
      active, current, more, dropping := 0, 0, false, false;
    }

    method Attach(p: Pipe)
      requires Valid() && p !in pipes.items
      modifies this, pipes
      ensures Valid() && Now() == PutNew(old(Now()), p)
    {
      PutNewView(Now(), p);
      pipes.PushBack(p);
      Activate(p);
    }

    method Activate(p: Pipe)
      requires pipes.Valid() && p in pipes.items && Position(pipes.items, p) >= active
      modifies this`active, pipes
      ensures pipes.Valid() && Now() == PutActive(old(Now()), p)
    {
      var i := pipes.Index(p);
      pipes.ValidDistinct();
      PositionIs(pipes.items, p, i);
      pipes.Swap(i, active);
      active := active + 1;
    }

    method PipeTerminated(p: Pipe) returns (i: nat)
      requires Valid() && p in pipes.items
      modifies this, pipes
      ensures Valid() && i == Position(old(pipes.items), p) && Now() == Remove(old(Now()), i)
    {
      i := pipes.Index(p);
      PositionIs(pipes.items, p, i);
      RemovedView(Now(), i);
      if i == current && more {
        dropping := true;
      }
      TakeOut(p, i);
    }

    method TakeOut(p: Pipe, i: nat)
      requires pipes.Valid() && active <= |pipes.items| && i < |pipes.items| && pipes.items[i] == p
      modifies this`active, this`current, pipes
      ensures pipes.Valid() && pipes.items == Without(old(pipes.items), i, old(active))
      ensures active == if i < old(active) then old(active) - 1 else old(active)
      ensures current == if i < old(active) && old(current) == active then 0 else old(current)
    {
      if i < active {
        active := active - 1;
        pipes.Swap(i, active);
        if current == active {
          current := 0;
        }
      }
      pipes.Erase(p, if i < old(active) then old(active) - 1 else i);
    }

    method Deactivate()
      requires Valid() && active > 0 && !more
      modifies this`active, this`current, pipes
      ensures Valid() && Now() == Deactivated(old(Now()))
    {
      SwapDistinct(pipes.items, current, active - 1);
      active := active - 1;
      pipes.Swap(current, active);
      if current == active {
        current := 0;
      }
    }

    /** Find a pipe that takes the frame: in the middle of a message there is
        only one, otherwise those that refuse become passive. */
    method Choose(refusing: set<Pipe>) returns (refused: bool)
      requires Valid() && !dropping
      modifies this`active, this`current, pipes
      ensures Valid() && Now() == (if more then old(Now()) else Skipped(old(Now()), refusing))
      ensures refused == (more && pipes.items[current] in refusing)
    {
      while active > 0
        invariant Valid() && (more ==> Now() == old(Now()))
        invariant !more ==> Skipped(Now(), refusing) == Skipped(old(Now()), refusing)
        decreases active
      {
        if pipes.items[current] !in refusing { return false; }
        if more { return true; }
        Deactivate();
      }
      return false;
    }

    /** Send one frame; refusing are the pipes that would not take it. */
    method SendPipe(frameMore: bool, refusing: set<Pipe>) returns (out: Outcome)
      requires Valid()
      modifies this, pipes
      ensures Valid() && (Now(), out) == SendOne(old(Now()), refusing, frameMore)
    {
      SendView(Now(), refusing, frameMore);
      if dropping {
        more := frameMore;
        dropping := more;
        return Dropped;
      }
      var refused := Choose(refusing);
      if refused {
        dropping, more := frameMore, false;
        return RolledBack(pipes.items[current]);
      }
      if active == 0 {
        return Again;
      }
      out := Written(pipes.items[current]);
      more := frameMore;
      if !more {
        current := current + 1;
        if current >= active {
          current := 0;
        }
      }
    }

    /** Whether a frame can be sent; full are the pipes without room. */
    method HasOut(full: set<Pipe>) returns (ok: bool)
      requires Valid()
      modifies this, pipes
      ensures Valid() && Now() == (if old(more) then old(Now()) else Skipped(old(Now()), full))
      ensures ok <==> old(more) || active > 0
    {
      if more { return true; }
      while active > 0
        invariant Valid() && !more && Skipped(Now(), full) == Skipped(old(Now()), full)
        decreases active
      {
        if pipes.items[current] !in full { return true; }
        Deactivate();
      }
      return false;
    }
  }
}
