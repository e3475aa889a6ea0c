/**
 dist_t (src/dist.cpp) keeps three nested sets of pipes in one permuted array.
 The operations are specified by their effect on the sets; the class below
 works on the array.
 */
module Dist {
  import opened PipeArray
  import opened MsgRefs

  /** The sets an array of pipes and three bounds stand for. */
  datatype View = View(all: set<Pipe>, eligible: set<Pipe>, active: set<Pipe>, matching: set<Pipe>, more: bool)

  predicate ViewOk(v: View) {
    v.matching <= v.active <= v.eligible <= v.all && (!v.more ==> v.active == v.eligible)
  }

  // ---------------------------------------------------------------- specification

  function Attached(v: View, p: Pipe): View {
    v.(all := v.all + {p}, eligible := v.eligible + {p}, active := if v.more then v.active else v.active + {p})
  }

  function Matched(v: View, p: Pipe): View {
    if p in v.eligible then v.(matching := v.matching + {p}) else v
  }

  function Reversed(v: View): View {
    v.(matching := v.eligible - v.matching)
  }

  function Unmatched(v: View): View {
    v.(matching := {})
  }

  function Terminated(v: View, p: Pipe): View {
    Refused(v, {p}).(all := v.all - {p})
  }

  function Activated(v: View, p: Pipe): View {
    v.(eligible := v.eligible + {p}, active := if v.more then v.active else v.active + {p})
  }

  /** The pipes in ps refused a write. */
  function Refused(v: View, ps: set<Pipe>): View {
    v.(eligible := v.eligible - ps, active := v.active - ps, matching := v.matching - ps)
  }

  /** A frame goes to the matching pipes; `more` is its flag. */
  function Sent(v: View, refusing: set<Pipe>, more: bool): View {
    var w := Refused(v, v.matching * refusing);
    w.(active := if more then w.active else w.eligible, more := more)
  }

  function Broadcast(v: View, refusing: set<Pipe>, more: bool): View {
    Sent(v.(matching := v.active), refusing, more)
  }

  lemma OperationsKeepView(v: View, p: Pipe, refusing: set<Pipe>, more: bool)
    requires ViewOk(v)
    ensures ViewOk(Attached(v, p)) && ViewOk(Unmatched(v)) && ViewOk(Terminated(v, p))
    ensures p in v.all ==> ViewOk(Activated(v, p))
    ensures !v.more ==> ViewOk(Matched(v, p)) && ViewOk(Reversed(v))
    ensures ViewOk(Sent(v, refusing, more)) && ViewOk(Broadcast(v, refusing, more))
  {
  }

  // ---------------------------------------------------------------- references

  /** What distributing a message to n pipes, of which f refuse, does to the counters. */
  function DistributeHeap(h: Heap, m: Msg, n: nat, f: nat): Heap {
    if n == 0 || m.kind.Vsm? then CloseHeap(h, m)
    else
      var (h1, m1) := AddRefs(h, m, n - 1);
      RmRefs(h1, m1, f)
  }

  /** The handle that the accepting pipes receive. */
  function DistributeMsg(h: Heap, m: Msg, n: nat): Msg {
    if n == 0 || m.kind.Vsm? then m else AddRefs(h, m, n - 1).1
  }

  /** One more eligible pipe moves to the front, behind those before it that were not matching. */
  lemma ReverseStep(s: seq<Pipe>, t: seq<Pipe>, prev: nat, i: nat)
    requires Distinct(s) && Distinct(t) && |t| == |s| && prev <= i < |s| && t[i] == s[i]
    requires First(t, i) == First(s, i) && First(t, i - prev) == First(s, i) - First(s, prev)
    ensures var u := Swapped(t, i, i - prev);
            && Distinct(u) && All(u) == All(t)
            && First(u, i + 1 - prev) == First(s, i + 1) - First(s, prev) && First(u, i + 1) == First(s, i + 1)
            && (forall k :: i < k <= |s| ==> First(u, k) == First(t, k))
  {
    SwapIn(t, i, i - prev);
    FirstStep(s, i);
    FirstStep(t, i);
    FirstMonotone(s, prev, i);
  }

  /** Swapping item i to position m changes the first a items as a set exactly
      when i lies behind them and m does not. */
  lemma MatchActive(s: seq<Pipe>, i: nat, m: nat, a: nat)
    requires Distinct(s) && m <= i < |s| && m <= a <= |s|
    ensures i < a ==> First(Swapped(s, i, m), a) == First(s, a)
    ensures m < a <= i ==> First(Swapped(s, i, m), a) != First(s, a)
  {
    SwapIn(s, i, m);
    if m < a <= i {
      FirstIndex(Swapped(s, i, m), m, a);
      FirstIndex(s, i, a);
    }
  }

  /** When the pipes t matching now are those eligible that were not, and some
      eligible pipe is not active, it matches without being active. */
  lemma ReversedActive(s: seq<Pipe>, t: seq<Pipe>, m: nat, a: nat, e: nat)
    requires Distinct(s) && m <= a <= e <= |s| == |t| && First(t, e - m) == First(s, e) - First(s, m)
    ensures a < e && e - m <= a ==> First(t, a) != First(s, a)
    ensures First(s, a) == First(s, e) <==> a == e
  {
    if a < e {
      FirstIndex(s, a, e);
      FirstIndex(s, a, m);
      FirstIndex(s, a, a);
      if e - m <= a { FirstMonotone(t, e - m, a); }
    }
  }

  /** A pipe that is swapped to the end of a region leaves it when the region
      shrinks, and the other two regions are as before. */
  lemma LeavesRegion(s: seq<Pipe>, i: nat, n: nat, a: nat, b: nat)
    requires Distinct(s) && i < n <= |s| && (a <= i || n <= a <= |s|) && (b <= i || n <= b <= |s|)
    ensures var t := Swapped(s, i, n - 1);
            && Distinct(t) && All(t) == All(s) && t[n - 1] == s[i] && First(t, n - 1) == First(s, n) - {s[i]}
            && First(t, a) == First(s, a) && First(t, b) == First(s, b)
  {
    SwapOut(s, i, n);
  }

  // ---------------------------------------------------------------- the distributor

  class DistT {
    const pipes: ArrayT
    var matching: nat
    var active: nat
    var eligible: nat
    var more: bool

    ghost predicate Valid()
      reads this, pipes
    {
      Nested() && (!more ==> active == eligible)
    }

    ghost predicate Nested()
      reads this, pipes
    {
      pipes.Valid() && Distinct(pipes.items) && matching <= active <= eligible <= |pipes.items|
    }

    function Sets(): View
      requires matching <= |pipes.items| && active <= |pipes.items| && eligible <= |pipes.items|
      reads this, pipes
    {
      var s := pipes.items;
      View(All(s), First(s, eligible), First(s, active), First(s, matching), more)
    }

    constructor ()
      ensures Valid() && fresh(pipes) && Sets() == View({}, {}, {}, {}, false)
    {
      pipes := new ArrayT();
      matching, active, eligible, more := 0, 0, 0, false;
    }

    method Attach(p: Pipe)
      requires Valid() && p !in pipes.items
      modifies this, pipes
      ensures Valid() && Sets() == Attached(old(Sets()), p)
    {
      ghost var s := pipes.items;
      pipes.PushBack(p);
      var at := if more then eligible else active;
      PushFirst(s, p, at);
      pipes.Swap(at, |pipes.items| - 1);
      if more {
        eligible := eligible + 1;
      } else {
        active := active + 1;
        eligible := eligible + 1;
      }
      PushKeeps(s, p, at, matching);
      PushKeeps(s, p, at, if old(more) then active else matching);
    }

    /** The array is well formed, whatever the regions. */
    ghost predicate Formed()
      reads this, pipes
    {
      && pipes.Valid() && Distinct(pipes.items)
      && matching <= |pipes.items| && active <= |pipes.items| && eligible <= |pipes.items|
    }

    /** In the middle of a message a pipe that is eligible but not active must
        not be matched: that, and only that, disturbs the active pipes. */
    method Match(p: Pipe)
      requires Valid() && p in pipes.items
      modifies this, pipes
      ensures Formed() && more == old(more)
      ensures Valid() && Sets() == Matched(old(Sets()), p) <==> p in old(Sets()).active || p !in old(Sets()).eligible
    {
      var i := pipes.Index(p);
      Positions(i);
      if i < matching { return; }
      if i >= eligible { return; }
      SwapIn(pipes.items, i, matching);
      MatchActive(pipes.items, i, matching, active);
      pipes.Swap(i, matching);
      matching := matching + 1;
    }

    method Unmatch()
      requires Valid()
      modifies this`matching
      ensures Valid() && matching == 0 && Sets() == Unmatched(old(Sets()))
    {
      matching := 0;
    }

    /** The matching pipes become the eligible ones that were not.  The regions
        stay nested with the same active pipes exactly when every eligible pipe
        is active. */
    method ReverseMatch()
      requires Valid()
      modifies this, pipes
      ensures Formed() && more == old(more) && active == old(active) && eligible == old(eligible)
      ensures Sets().(active := {}) == Reversed(old(Sets())).(active := {})
      ensures Valid() && Sets() == Reversed(old(Sets())) <==> old(Sets()).active == old(Sets()).eligible
    {
      var prev := matching;
      ghost var s := pipes.items;
      ghost var M, E := First(s, matching), First(s, eligible);
      Unmatch();
      for i := prev to eligible
        invariant pipes.Valid() && Distinct(pipes.items) && |pipes.items| == |s| && All(pipes.items) == All(s)
        invariant eligible == old(eligible) && active == old(active) && more == old(more) && matching == i - prev
        invariant forall k :: i <= k < |s| ==> pipes.items[k] == s[k]
        invariant First(pipes.items, eligible) == E && First(pipes.items, i) == First(s, i)
        invariant First(pipes.items, matching) == First(s, i) - M
      {
        ghost var t := pipes.items;
        ReverseStep(s, t, prev, i);
        pipes.Swap(i, matching);
        matching := matching + 1;
      }
      ReversedActive(s, pipes.items, prev, active, eligible);
    }

    /** Move a pipe out of the matching ones, if it is one of them. */
    method LeaveMatching(p: Pipe)
      requires Nested() && p in pipes.items
      modifies this, pipes
      ensures Nested() && p in pipes.items && |pipes.items| == |old(pipes.items)|
      ensures Sets() == old(Sets()).(matching := old(Sets()).matching - {p})
      ensures active == old(active) && eligible == old(eligible) && more == old(more)
    {
      var i := pipes.Index(p);
      Positions(i);
      if i < matching {
        LeavesRegion(pipes.items, i, matching, active, eligible);
        pipes.Swap(i, matching - 1);
        matching := matching - 1;
      } else {
        assert Sets().matching - {p} == Sets().matching;
      }
    }

    /** Move a pipe that is not matching out of the active ones. */
    method LeaveActive(p: Pipe)
      requires Nested() && p in pipes.items && p !in Sets().matching
      modifies this, pipes
      ensures Nested() && p in pipes.items && |pipes.items| == |old(pipes.items)|
      ensures Sets() == old(Sets()).(active := old(Sets()).active - {p})
      ensures matching == old(matching) && eligible == old(eligible) && more == old(more)
      ensures active == if p in old(Sets()).active then old(active) - 1 else old(active)
    {
      var i := pipes.Index(p);
      Positions(i);
      if i < active {
        LeavesRegion(pipes.items, i, active, matching, eligible);
        pipes.Swap(i, active - 1);
        active := active - 1;
      } else {
        assert Sets().active - {p} == Sets().active;
      }
    }

    method LeaveEligible(p: Pipe)
      requires Nested() && p in pipes.items && p !in Sets().active && p !in Sets().matching
      modifies this, pipes
      ensures Nested() && p in pipes.items
      ensures Sets() == old(Sets()).(eligible := old(Sets()).eligible - {p})
      ensures matching == old(matching) && active == old(active) && more == old(more)
      ensures eligible == if p in old(Sets()).eligible then old(eligible) - 1 else old(eligible)
    {
      var i := pipes.Index(p);
      Positions(i);
      if i < eligible {
        LeavesRegion(pipes.items, i, eligible, matching, active);
        pipes.Swap(i, eligible - 1);
        eligible := eligible - 1;
      } else {
        assert Sets().eligible - {p} == Sets().eligible;
      }
    }

    method PipeTerminated(p: Pipe)
      requires Valid() && p in pipes.items
      modifies this, pipes
      ensures Valid() && Sets() == Terminated(old(Sets()), p)
    {
      LeaveMatching(p);
      LeaveActive(p);
      LeaveEligible(p);
      EraseIt(p);
    }

    method EraseIt(p: Pipe)
      requires Nested() && p in pipes.items && p !in Sets().eligible && p !in Sets().active && p !in Sets().matching
      modifies pipes
      ensures Nested() && Sets() == old(Sets()).(all := old(Sets()).all - {p})
    {
      var i := pipes.Index(p);
      Positions(i);
      EraseFirst(pipes.items, i);
      pipes.Erase(p, i);
    }

    lemma Positions(i: nat)
      requires matching <= |pipes.items| && active <= |pipes.items| && eligible <= |pipes.items|
      requires i < |pipes.items| && Distinct(pipes.items)
      ensures pipes.items[i] in Sets().matching <==> i < matching
      ensures pipes.items[i] in Sets().active <==> i < active
      ensures pipes.items[i] in Sets().eligible <==> i < eligible
      ensures pipes.items[i] in Sets().all
    {
      FirstIndex(pipes.items, i, matching);
      FirstIndex(pipes.items, i, active);
      FirstIndex(pipes.items, i, eligible);
    }

    method BecomeEligible(p: Pipe)
      requires Nested() && p in pipes.items && p !in Sets().eligible
      modifies this, pipes
      ensures Nested() && eligible == old(eligible) + 1 && pipes.items[eligible - 1] == p && active == old(active)
      ensures Sets() == old(Sets()).(eligible := old(Sets()).eligible + {p})
    {
      var i := pipes.Index(p);
      Positions(i);
      if eligible < |pipes.items| {
        SwapIn(pipes.items, i, eligible);
        pipes.Swap(i, eligible);
        eligible := eligible + 1;
      }
    }

    /** A pipe that had refused a write can be written again. */
    method Activate(p: Pipe)
      requires Valid() && p in pipes.items && p !in Sets().eligible
      modifies this, pipes
      ensures Valid() && Sets() == Activated(old(Sets()), p)
    {
      BecomeEligible(p);
      if !more && active < |pipes.items| {
        SwapIn(pipes.items, eligible - 1, active);
        pipes.Swap(eligible - 1, active);
        active := active + 1;
      }
    }

    /** Write to the matching pipe at position i; refuses tells what the pipe answers. */
    method Write(i: nat, refuses: bool) returns (ok: bool)
      requires Nested() && i < matching
      modifies this, pipes
      ensures Nested() && ok == !refuses && more == old(more) && |pipes.items| == |old(pipes.items)|
      ensures Sets() == if refuses then Refused(old(Sets()), {old(pipes.items)[i]}) else old(Sets())
      ensures matching == if refuses then old(matching) - 1 else old(matching)
      ensures active - eligible == old(active) - old(eligible)
      ensures forall k :: 0 <= k < i ==> pipes.items[k] == old(pipes.items)[k]
      ensures !refuses ==> pipes.items == old(pipes.items)
    {
      ok := !refuses;
      if refuses {
        RefusedSets(pipes.items, i, matching, active, eligible);
        MoveOut(i);
      }
    }

    /** The three swaps of a failed write. */
    method MoveOut(i: nat)
      requires Nested() && i < matching
      modifies this, pipes
      ensures pipes.Valid() && pipes.items == MovedOut(old(pipes.items), i, old(matching), old(active), old(eligible))
      ensures matching == old(matching) - 1 && active == old(active) - 1 && eligible == old(eligible) - 1
      ensures more == old(more)
    {
      var p := pipes.items[i];
      SwapOut(pipes.items, i, matching);
      pipes.Swap(i, matching - 1);
      matching := matching - 1;
      var j := pipes.Index(p);
      assert j == matching;
      pipes.Swap(j, active - 1);
      active := active - 1;
      pipes.Swap(active, eligible - 1);
      eligible := eligible - 1;
    }

    /** Send the frame m to every matching pipe.  refusing are the pipes whose
        write fails; accepted lists the pipes that took the frame, in order. */
    method Distribute(h: Heap, m: Msg, refusing: set<Pipe>) returns (h': Heap, sent: Msg, accepted: seq<Pipe>)
      requires Nested()
      modifies this, pipes
      ensures Nested() && more == old(more) && active - eligible == old(active) - old(eligible)
      ensures Sets() == Refused(old(Sets()), old(Sets()).matching * refusing)
      ensures Distinct(accepted) && All(accepted) == old(Sets()).matching - refusing
      ensures |accepted| <= old(matching)
      ensures h' == DistributeHeap(h, m, old(matching), old(matching) - |accepted|)
      ensures sent == DistributeMsg(h, m, old(matching))
    {
      h', sent := h, m;
      var n := matching;
      if matching == 0 {
        accepted := [];
        h' := CloseHeap(h', m);
        return;
      }
      if m.kind.Vsm? {
        var failed;
        accepted, failed := WriteAll(refusing);
        h' := CloseHeap(h', m);
        return;
      }
      var shared := AddRefs(h, m, matching - 1);
      h', sent := shared.0, shared.1;
      var failed;
      accepted, failed := WriteAll(refusing);
      h' := RmRefs(h', sent, failed);
    }

    /** The pipes before i have taken the frame, those in gone have refused it. */
    ghost predicate Writing(v: View, refusing: set<Pipe>, gone: set<Pipe>, i: nat, accepted: seq<Pipe>)
      reads this, pipes
    {
      && Nested() && i <= matching && more == v.more
      && gone <= v.matching * refusing && Sets() == Refused(v, gone)
      && accepted == pipes.items[..i] && First(pipes.items, i) !! refusing
    }

    /** Write to the pipe at position i; when it refuses, another pipe is there now. */
    method WriteNext(i: nat, refusing: set<Pipe>, accepted: seq<Pipe>, ghost v: View, ghost gone: set<Pipe>)
      returns (ok: bool, accepted': seq<Pipe>, ghost gone': set<Pipe>)
      requires Writing(v, refusing, gone, i, accepted) && i < matching
      modifies this, pipes
      ensures Writing(v, refusing, gone', if ok then i + 1 else i, accepted')
      ensures matching == (if ok then old(matching) else old(matching) - 1)
      ensures active - eligible == old(active) - old(eligible)
    {
      var p := pipes.items[i];
      Positions(i);
      FirstStep(pipes.items, i);
      ok := Write(i, p in refusing);
      accepted', gone' := accepted, gone;
      if ok {
        accepted' := accepted + [p];
      } else {
        gone' := gone + {p};
        assert accepted == pipes.items[..i];
      }
    }

    /** The loop over the matching pipes: the position stays when its pipe is removed. */
    method WriteAll(refusing: set<Pipe>) returns (accepted: seq<Pipe>, failed: nat)
      requires Nested()
      modifies this, pipes
      ensures Nested() && more == old(more) && active - eligible == old(active) - old(eligible)
      ensures Sets() == Refused(old(Sets()), old(Sets()).matching * refusing)
      ensures Distinct(accepted) && All(accepted) == old(Sets()).matching - refusing
      ensures failed + |accepted| == old(matching)
    {
      accepted, failed := [], 0;
      var i := 0;
      ghost var v, gone := Sets(), {};
      while i < matching
        invariant Writing(v, refusing, gone, i, accepted) && active - eligible == old(active) - old(eligible)
        invariant failed + matching == old(matching)
        decreases matching - i
      {
        var ok;
        ok, accepted, gone := WriteNext(i, refusing, accepted, v, gone);
        if ok { i := i + 1; } else { failed := failed + 1; }
      }
      assert All(accepted) == First(pipes.items, matching);
      assert gone == v.matching * refusing;
    }

    method SendToMatching(h: Heap, m: Msg, msgMore: bool, refusing: set<Pipe>)
      returns (h': Heap, sent: Msg, accepted: seq<Pipe>)
      requires Valid()
      modifies this, pipes
      ensures Valid() && Sets() == Sent(old(Sets()), refusing, msgMore)
      ensures Distinct(accepted) && All(accepted) == old(Sets()).matching - refusing
      ensures |accepted| <= old(matching)
      ensures h' == DistributeHeap(h, m, old(matching), old(matching) - |accepted|)
      ensures sent == DistributeMsg(h, m, old(matching))
    {
      h', sent, accepted := Distribute(h, m, refusing);
      if !msgMore {
        active := eligible;
      }
      more := msgMore;
    }

    method SendToAll(h: Heap, m: Msg, msgMore: bool, refusing: set<Pipe>)
      returns (h': Heap, sent: Msg, accepted: seq<Pipe>)
      requires Valid()
      modifies this, pipes
      ensures Valid() && Sets() == Broadcast(old(Sets()), refusing, msgMore)
      ensures Distinct(accepted) && All(accepted) == old(Sets()).active - refusing
      ensures |accepted| <= old(active)
      ensures h' == DistributeHeap(h, m, old(active), old(active) - |accepted|)
      ensures sent == DistributeMsg(h, m, old(active))
    {
      matching := active;
      h', sent, accepted := SendToMatching(h, m, msgMore, refusing);
    }

    method CheckHwm(full: set<Pipe>) returns (ok: bool)
      requires Valid()
      ensures ok <==> Sets().matching !! full
    {
      var i := 0;
      while i < matching
        invariant i <= matching && First(pipes.items, i) !! full
      {
        FirstStep(pipes.items, i);
        FirstMonotone(pipes.items, i + 1, matching);
        if pipes.items[i] in full { return false; }
        i := i + 1;
      }
      return true;
    }
  }

  function MovedOut(s: seq<Pipe>, i: nat, m: nat, a: nat, e: nat): (w: seq<Pipe>)
    requires i < m <= a <= e <= |s|
    ensures |w| == |s|
  {
    Swapped(Swapped(Swapped(s, i, m - 1), m - 1, a - 1), a - 1, e - 1)
  }

  /** The three swaps of a failed write take just that pipe out of all three regions. */
  lemma RefusedSets(s: seq<Pipe>, i: nat, m: nat, a: nat, e: nat)
    requires Distinct(s) && i < m <= a <= e <= |s|
    ensures var w := MovedOut(s, i, m, a, e);
            && Distinct(w) && All(w) == All(s)
            && First(w, m - 1) == First(s, m) - {s[i]}
            && First(w, a - 1) == First(s, a) - {s[i]}
            && First(w, e - 1) == First(s, e) - {s[i]}
            && forall k :: 0 <= k < i ==> w[k] == s[k]
  {
    var t := Swapped(s, i, m - 1);
    LeavesRegion(s, i, m, a, e);
    var u := Swapped(t, m - 1, a - 1);
    LeavesRegion(t, m - 1, a, m - 1, e);
    LeavesRegion(u, a - 1, e, m - 1, a - 1);
  }

  lemma PushFirst(s: seq<Pipe>, p: Pipe, at: nat)
    requires Distinct(s) && p !in s && at <= |s|
    ensures Distinct(s + [p]) && Distinct(Swapped(s + [p], at, |s|))
    ensures First(Swapped(s + [p], at, |s|), at + 1) == First(s, at) + {p}
    ensures All(Swapped(s + [p], at, |s|)) == All(s) + {p}
  {
    var t := Swapped(s + [p], at, |s|);
    SwapAll(s + [p], at, |s|);
    assert All(s + [p]) == All(s) + {p} by {
      FirstStep(s + [p], |s|);
      assert (s + [p])[..|s|] == s[..|s|];
    }
    assert t[..at] == s[..at];
    FirstStep(t, at);
  }

  lemma PushKeeps(s: seq<Pipe>, p: Pipe, at: nat, n: nat)
    requires n <= at <= |s|
    ensures First(Swapped(s + [p], at, |s|), n) == First(s, n)
  {
    assert Swapped(s + [p], at, |s|)[..n] == s[..n];
  }
}
