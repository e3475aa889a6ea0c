/** Multipart delivery and reference counts over whole runs of a distributor. */
module DistRuns {
  import opened Basics
  import opened PipeArray
  import opened MsgRefs
  import opened MsgSystem
  import opened Dist

  // ---------------------------------------------------------------- runs

  /** Frame `part` of message `msg`. */
  datatype Frame = Frame(msg: nat, part: nat)

  /** The distributor with what every pipe was given so far, the number of the
      current message, the number of its next frame, and whether its frames go
      to all pipes (send_to_all) or to the matching ones: a socket uses one of
      the two for all frames of a message. */
  datatype State = State(v: View, streams: map<Pipe, seq<Frame>>, msg: nat, part: nat, all: bool)

  const START: State := State(View({}, {}, {}, {}, false), map[], 0, 0, false)

  datatype Step =
    | Attach(p: Pipe)
    | Activate(p: Pipe)
    | Terminate(p: Pipe)
    | Match(p: Pipe)
    | Reverse
    | Unmatch
    | Send(refusing: set<Pipe>, more: bool)
    | SendAll(refusing: set<Pipe>, more: bool)

  predicate Enabled(s: State, t: Step) {
    match t
    case Attach(p) => p !in s.streams
    case Activate(p) => p in s.v.all && p !in s.v.eligible
    case Terminate(p) => p in s.v.all
    case Match(p) => p in s.v.all && !s.v.more
    case Reverse => !s.v.more
    case Unmatch => true
    case Send(_, _) => s.v.more ==> !s.all
    case SendAll(_, _) => s.v.more ==> s.all
  }

  function Deliver(s: State, to: set<Pipe>): map<Pipe, seq<Frame>> {
    map p | p in s.streams :: if p in to then s.streams[p] + [Frame(s.msg, s.part)] else s.streams[p]
  }

  function Advance(s: State, v: View, to: set<Pipe>, more: bool, all: bool): State {
    State(v, Deliver(s, to),
          if more then s.msg else s.msg + 1,
          if more then s.part + 1 else 0,
          if s.v.more then s.all else all)
  }

  function Next(s: State, t: Step): State
    requires Enabled(s, t)
  {
    match t
    case Attach(p) => s.(v := Attached(s.v, p), streams := s.streams[p := []])
    case Activate(p) => s.(v := Activated(s.v, p))
    case Terminate(p) => s.(v := Terminated(s.v, p))
    case Match(p) => s.(v := Matched(s.v, p))
    case Reverse => s.(v := Reversed(s.v))
    case Unmatch => s.(v := Unmatched(s.v))
    case Send(r, more) => Advance(s, Sent(s.v, r, more), s.v.matching - r, more, false)
    case SendAll(r, more) => Advance(s, Broadcast(s.v, r, more), s.v.active - r, more, true)
  }

  // ---------------------------------------------------------------- invariant

  /** Every frame but a first one comes right after its predecessor. */
  predicate Contiguous(st: seq<Frame>) {
    forall k :: 0 <= k < |st| && st[k].part > 0 ==> k > 0 && st[k - 1] == Frame(st[k].msg, st[k].part - 1)
  }

  /** The pipes that may still be given frames of the current message. */
  function Receiving(s: State): set<Pipe> {
    if s.all then s.v.active + s.v.matching else s.v.matching
  }

  predicate UpToDate(s: State, p: Pipe) {
    p in s.streams && s.streams[p] != [] && s.part > 0 && s.streams[p][|s.streams[p]| - 1] == Frame(s.msg, s.part - 1)
  }

  predicate StreamOk(s: State, p: Pipe)
    requires p in s.streams
  {
    && Contiguous(s.streams[p])
    && forall k :: 0 <= k < |s.streams[p]| ==>
                     var f := s.streams[p][k]; f.msg < s.msg || (f.msg == s.msg && f.part < s.part)
  }

  predicate Ok(s: State) {
    && ViewOk(s.v) && (s.v.more <==> s.part > 0)
    && s.v.all <= s.streams.Keys
    && (forall p :: p in s.streams ==> StreamOk(s, p))
    && (s.v.more ==> forall p :: p in Receiving(s) ==> UpToDate(s, p))
  }

  lemma DeliverStream(s: State, to: set<Pipe>, s': State, p: Pipe)
    requires p in s.streams && StreamOk(s, p) && s'.streams == Deliver(s, to)
    requires p in to && s.part > 0 ==> UpToDate(s, p)
    requires (s'.msg == s.msg && s'.part == s.part + 1) || s'.msg == s.msg + 1
    ensures StreamOk(s', p)
  {
  }

  lemma KeepSend(s: State, t: Step)
    requires Ok(s) && Enabled(s, t) && (t.Send? || t.SendAll?)
    ensures Ok(Next(s, t))
  {
    var s' := Next(s, t);
    var to := (if t.Send? then s.v.matching else s.v.active) - t.refusing;
    assert s'.streams == Deliver(s, to);
    forall p | p in s'.streams ensures StreamOk(s', p) { DeliverStream(s, to, s', p); }
    if t.more {
      forall p | p in Receiving(s') ensures UpToDate(s', p) {
        assert p in to;
        assert p in s.streams;
      }
    }
  }

  lemma KeepOther(s: State, t: Step)
    requires Ok(s) && Enabled(s, t) && !t.Send? && !t.SendAll?
    ensures Ok(Next(s, t))
  {
    var s' := Next(s, t);
    forall p | p in s'.streams ensures StreamOk(s', p) {
      assert p in s.streams ==> StreamOk(s, p);
    }
    if s.v.more {
      forall p | p in Receiving(s') ensures UpToDate(s', p) { assert p in Receiving(s); }
    }
  }

  ghost predicate IsStep(s: State, s': State) {
    exists t :: Enabled(s, t) && s' == Next(s, t)
  }

  ghost predicate Run(ss: seq<State>) {
    |ss| > 0 && forall i :: 0 <= i < |ss| - 1 ==> IsStep(ss[i], ss[i + 1])
  }

  lemma {:induction false} RunKeepsOk(ss: seq<State>)
    requires Run(ss) && Ok(ss[0])
    ensures forall i :: 0 <= i < |ss| ==> Ok(ss[i])
  {
    if |ss| > 1 {
      var n := |ss| - 1;
      var front := ss[..n];
      assert forall i :: 0 <= i < n ==> front[i] == ss[i];
      RunKeepsOk(front);
      assert IsStep(ss[n - 1], ss[n]) && Ok(front[n - 1]);
      var t :| Enabled(ss[n - 1], t) && ss[n] == Next(ss[n - 1], t);
      if t.Send? || t.SendAll? { KeepSend(ss[n - 1], t); } else { KeepOther(ss[n - 1], t); }
    }
  }

  // ---------------------------------------------------------------- multipart delivery

  lemma {:induction false} EarlierParts(st: seq<Frame>, k: nat, part: nat)
    requires Contiguous(st) && k < |st| && part <= st[k].part
    ensures st[k].part - part <= k && st[k - (st[k].part - part)] == Frame(st[k].msg, part)
    decreases k
  {
    if part < st[k].part { EarlierParts(st, k - 1, part); }
  }

  /** In every run, a pipe that holds a frame of a message holds every earlier
      frame of it, first frame included, right before it and in order. */
  lemma OnlyWholePrefixes(ss: seq<State>, p: Pipe, k: nat, part: nat)
    requires Run(ss) && ss[0] == START
    requires var s := ss[|ss| - 1]; p in s.streams && k < |s.streams[p]| && part <= s.streams[p][k].part
    ensures var st := ss[|ss| - 1].streams[p];
            st[k].part - part <= k && st[k - (st[k].part - part)] == Frame(st[k].msg, part)
  {
    RunKeepsOk(ss);
    EarlierParts(ss[|ss| - 1].streams[p], k, part);
  }

  /** What p holds of message m. */
  function Received(st: seq<Frame>, m: nat): seq<Frame> {
    if st == [] then []
    else Received(st[..|st| - 1], m) + if st[|st| - 1].msg == m then [st[|st| - 1]] else []
  }

  lemma StepStream(s: State, t: Step, p: Pipe)
    requires Enabled(s, t) && p in s.streams
    ensures var s' := Next(s, t);
            p in s'.streams
            && (s'.streams[p] == s.streams[p]
                || (s'.streams[p] == s.streams[p] + [Frame(s.msg, s.part)] && p in s.v.matching + s.v.active
                    && (p in Receiving(s) || !s.v.more)))
            && s.msg <= s'.msg <= s.msg + 1 && (s'.msg == s.msg && s.v.more ==> s'.v.more)
  {
  }

  lemma StaysOut(s: State, t: Step, p: Pipe)
    requires Ok(s) && Enabled(s, t) && s.v.more && p !in Receiving(s) && Next(s, t).msg == s.msg
    ensures p !in Receiving(Next(s, t)) && Next(s, t).v.more
  {
  }

  /** A pipe that is not among the receivers at some point within a message,
      because it was attached, activated or refused since, is given nothing
      more of that message. */
  lemma {:induction false} LateComersGetNothing(ss: seq<State>, p: Pipe)
    requires Run(ss) && Ok(ss[0]) && ss[0].v.more && p in ss[0].streams && p !in Receiving(ss[0])
    ensures p in ss[|ss| - 1].streams && ss[|ss| - 1].msg >= ss[0].msg
    ensures Received(ss[|ss| - 1].streams[p], ss[0].msg) == Received(ss[0].streams[p], ss[0].msg)
    ensures ss[|ss| - 1].msg == ss[0].msg ==> ss[|ss| - 1].v.more && p !in Receiving(ss[|ss| - 1])
  {
    if |ss| > 1 {
      var n := |ss| - 1;
      var front := ss[..n];
      LateComersGetNothing(front, p);
      var s := ss[n - 1];
      assert front[|front| - 1] == s;
      assert IsStep(s, ss[n]);
      var t :| Enabled(s, t) && ss[n] == Next(s, t);
      RunKeepsOk(ss);
      StepStream(s, t, p);
      if ss[n].msg == ss[0].msg { StaysOut(s, t, p); }
      var st, st' := s.streams[p], ss[n].streams[p];
      if st' != st { assert st'[..|st'| - 1] == st; }
    }
  }

  /** A run with its steps. */
  ghost predicate Steps(ss: seq<State>, ts: seq<Step>) {
    |ss| == |ts| + 1 && forall i :: 0 <= i < |ts| ==> Enabled(ss[i], ts[i]) && ss[i + 1] == Next(ss[i], ts[i])
  }

  /** In the middle of a message the pipe is eligible, but not active yet. */
  predicate Joining(s: State, p: Pipe) {
    Ok(s) && s.v.more && p in s.v.eligible && p !in s.v.active
  }

  /** A pipe that joins within a message stays eligible and cannot refuse
      anything, as nothing is written to it; the last frame makes it active. */
  lemma JoiningStep(s: State, t: Step, p: Pipe)
    requires Joining(s, p) && Enabled(s, t) && t != Terminate(p)
    ensures if Next(s, t).msg == s.msg then Joining(Next(s, t), p)
            else Ok(Next(s, t)) && !Next(s, t).v.more && p in Next(s, t).v.active
  {
    if t.Send? || t.SendAll? { KeepSend(s, t); } else { KeepOther(s, t); }
  }

  lemma {:induction false} StaysJoining(ss: seq<State>, ts: seq<Step>, p: Pipe, n: nat)
    requires Steps(ss, ts) && n <= |ts| && Joining(ss[0], p)
    requires forall i :: 0 <= i < n ==> ts[i] != Terminate(p)
    requires forall i :: 0 <= i <= n ==> ss[i].msg == ss[0].msg
    ensures Joining(ss[n], p)
    decreases n
  {
    if n > 0 {
      StaysJoining(ss, ts, p, n - 1);
      JoiningStep(ss[n - 1], ts[n - 1], p);
    }
  }

  /** A pipe that is attached or activated in the middle of message m and does
      not go away is active in the first state after message m, whatever
      happens in between and whoever refuses frames. */
  lemma JoinersBecomeActive(ss: seq<State>, ts: seq<Step>, p: Pipe)
    requires Steps(ss, ts) && |ts| > 1 && Ok(ss[0]) && ss[0].v.more && (ts[0] == Attach(p) || ts[0] == Activate(p))
    requires forall i :: 0 < i < |ts| ==> ts[i] != Terminate(p)
    requires (forall i :: 0 <= i < |ts| ==> ss[i].msg == ss[0].msg) && ss[|ts|].msg == ss[0].msg + 1
    ensures p in ss[|ts|].v.active && !ss[|ts|].v.more
  {
    var n := |ts| - 1;
    KeepOther(ss[0], ts[0]);
    assert ss[1] == Next(ss[0], ts[0]);
    assert Joining(ss[1], p);
    var ss1, ts1 := ss[1..], ts[1..];
    assert Steps(ss1, ts1);
    StaysJoining(ss1, ts1, p, n - 1);
    assert ss1[n - 1] == ss[n] && ss[n + 1] == Next(ss[n], ts[n]);
    JoiningStep(ss[n], ts[n], p);
  }

  // ---------------------------------------------------------------- references

  /** Slots that hold the copies after distributing: i is given up, D receives. */
  function Handed(hs: Handles, i: Slot, D: set<Slot>, m: Msg): Handles {
    (hs - {i}) + map d | d in D :: m
  }

  /** Distributing a message to n pipes of which |D| accept replaces the
      sender's handle by |D| handles and keeps all counts exact. */
  lemma DistributeConserves(s: Sys, i: Slot, D: set<Slot>, n: nat)
    requires MsgSystem.Ok(s) && i in s.hs && !s.hs[i].kind.Invalid?
    requires D !! s.hs.Keys && |D| <= n
    ensures Inv(DistributeHeap(s.h, s.hs[i], n, n - |D|),
                Handed(s.hs, i, D, DistributeMsg(s.h, s.hs[i], n)), s.held)
  {
    var m := s.hs[i];
    var f := n - |D|;
    var hs' := Handed(s.hs, i, D, DistributeMsg(s.h, m, n));
    if m.Content().None? {
      SameUsers(s.h, s.hs, s.held, hs');
    } else if n == 0 {
      assert D == {};
      assert CloseHeap(s.h, m) == RmRefs(s.h, m, |{i}|);
      DropHandles(s.h, s.hs, s.held, i, {i}, hs');
    } else if f == 0 {
      HandAll(s, i, D, n);
    } else {
      var E := SpareSlots(s.hs.Keys + D, f - 1);
      HandSome(s, i, D, E, n);
    }
  }

  lemma {:induction false} Above(taken: set<Slot>) returns (b: Slot)
    ensures forall x :: x in taken ==> x < b
    decreases taken
  {
    b := 0;
    if taken != {} {
      var x :| x in taken;
      var c := Above(taken - {x});
      b := if x < c then c else x + 1;
      forall y | y in taken ensures y < b {
        if y != x { assert y in taken - {x}; }
      }
    }
  }

  /** There are always slots for the copies that pipes refused. */
  lemma {:induction false} SpareSlots(taken: set<Slot>, n: nat) returns (E: set<Slot>)
    ensures E !! taken && |E| == n
    decreases n
  {
    E := {};
    if n > 0 {
      var F := SpareSlots(taken, n - 1);
      var b := Above(taken + F);
      assert b !in taken + F;
      E := F + {b};
    }
  }

  function Copies(hs: Handles, i: Slot, K: set<Slot>, m: Msg): Handles {
    hs[i := m] + map k | k in K :: m
  }

  /** After add_refs the references that were taken count as handles. */
  lemma Reserve(s: Sys, i: Slot, K: set<Slot>)
    requires MsgSystem.Ok(s) && i in s.hs && K !! s.hs.Keys
    ensures Inv(AddRefs(s.h, s.hs[i], |K|).0, Copies(s.hs, i, K, AddRefs(s.h, s.hs[i], |K|).1), s.held)
  {
    var (h1, m1) := AddRefs(s.h, s.hs[i], |K|);
    var hs1 := Copies(s.hs, i, K, m1);
    if K == {} {
      assert hs1 == s.hs;
    } else {
      ShareHandles(s.h, s.hs, s.held, i, K, hs1);
    }
  }

  lemma HandSome(s: Sys, i: Slot, D: set<Slot>, E: set<Slot>, n: nat)
    requires MsgSystem.Ok(s) && i in s.hs && s.hs[i].Content().Some?
    requires D !! s.hs.Keys && E !! s.hs.Keys && D !! E && |D| < n && |E| == n - |D| - 1
    ensures Inv(DistributeHeap(s.h, s.hs[i], n, n - |D|),
                Handed(s.hs, i, D, DistributeMsg(s.h, s.hs[i], n)), s.held)
  {
    var m := s.hs[i];
    assert |D + E| == n - 1;
    Reserve(s, i, D + E);
    assert ContentOk(s.h, s.hs, m.Content().value);
    assert i in Users(s.hs, m.Content().value);
    GiveBack(AddRefs(s.h, m, n - 1).0, s.hs, s.held, i, D, E, AddRefs(s.h, m, n - 1).1);
  }

  /** rm_refs gives back the references nobody took. */
  lemma GiveBack(h: Heap, hs: Handles, held: set<BufferId>, i: Slot, D: set<Slot>, E: set<Slot>, m: Msg)
    requires i in hs && D !! hs.Keys && E !! hs.Keys && D !! E && m.Content().Some?
    requires Inv(h, Copies(hs, i, D + E, m), held) && (!m.shared ==> D + E == {})
    ensures Inv(RmRefs(h, m, |E| + 1), Handed(hs, i, D, m), held)
  {
    CopiesDropped(hs, i, D, E, m);
    assert |E + {i}| == |E| + 1;
    DropHandles(h, Copies(hs, i, D + E, m), held, i, E + {i}, Handed(hs, i, D, m));
  }

  lemma CopiesDropped(hs: Handles, i: Slot, D: set<Slot>, E: set<Slot>, m: Msg)
    requires i in hs && D !! hs.Keys && E !! hs.Keys && D !! E && m.Content().Some?
    ensures Dropped(Copies(hs, i, D + E, m), Handed(hs, i, D, m), E + {i})
    ensures E + {i} <= Users(Copies(hs, i, D + E, m), m.Content().value)
  {
  }

  lemma HandAll(s: Sys, i: Slot, D: set<Slot>, n: nat)
    requires MsgSystem.Ok(s) && i in s.hs && s.hs[i].Content().Some?
    requires D !! s.hs.Keys && |D| == n && n > 0
    ensures Inv(DistributeHeap(s.h, s.hs[i], n, 0), Handed(s.hs, i, D, DistributeMsg(s.h, s.hs[i], n)), s.held)
  {
    var d :| d in D;
    var K := D - {d};
    var (h1, m1) := AddRefs(s.h, s.hs[i], n - 1);
    Reserve(s, i, K);
    var hs1 := Copies(s.hs, i, K, m1);
    var hs' := Handed(s.hs, i, D, m1);
    HandedRenames(s.hs, i, D, d, m1);
    forall c: ContentId ensures ContentOk(h1, hs', c) {
      assert ContentOk(h1, hs1, c);
      Renamed(h1, hs1, hs', i, d, c);
    }
  }

  lemma HandedRenames(hs: Handles, i: Slot, D: set<Slot>, d: Slot, m: Msg)
    requires i in hs && D !! hs.Keys && d in D
    ensures Handed(hs, i, D, m) == (Copies(hs, i, D - {d}, m) - {i})[d := m]
  {
  }

  /** A handle may change its slot. */
  lemma Renamed(h: Heap, hs: Handles, hs': Handles, i: Slot, d: Slot, c: ContentId)
    requires ContentOk(h, hs, c) && i in hs && d !in hs && hs' == (hs - {i})[d := hs[i]]
    ensures ContentOk(h, hs', c)
  {
    var U, U' := Users(hs, c), Users(hs', c);
    if i in U {
      assert U' == U - {i} + {d};
      assert |U'| == |U|;
    } else {
      assert U' == U;
    }
    forall j | j in U' ensures (if j == d then i else j) in U && hs'[j] == hs[if j == d then i else j] { }
  }

  /** The number of handles changes by the accepting pipes minus one, and the
      content is freed exactly when that leaves none. */
  lemma DistributeCounts(s: Sys, i: Slot, D: set<Slot>, n: nat, c: ContentId)
    requires MsgSystem.Ok(s) && i in s.hs && s.hs[i].Content() == Some(c)
    requires D !! s.hs.Keys && |D| <= n
    ensures var h' := DistributeHeap(s.h, s.hs[i], n, n - |D|);
            var hs' := Handed(s.hs, i, D, DistributeMsg(s.h, s.hs[i], n));
            && |Users(hs', c)| == |Users(s.hs, c)| + |D| - 1
            && h'.freed[c] == s.h.freed[c] + Bit(|Users(s.hs, c)| + |D| == 1)
  {
    var h' := DistributeHeap(s.h, s.hs[i], n, n - |D|);
    var m := DistributeMsg(s.h, s.hs[i], n);
    DistributeConserves(s, i, D, n);
    MsgKept(s.h, s.hs[i], n);
    HandedUsers(s.hs, i, D, m, c);
    KnownSame(s.h, s.hs[i], n, n - |D|);
    FreedWhenUnused(s.h, s.hs, h', Handed(s.hs, i, D, m), c);
  }

  lemma MsgKept(h: Heap, m: Msg, n: nat)
    ensures DistributeMsg(h, m, n).Content() == m.Content()
  {
  }

  lemma HandedUsers(hs: Handles, i: Slot, D: set<Slot>, m: Msg, c: ContentId)
    requires i in hs && hs[i].Content() == m.Content() == Some(c) && D !! hs.Keys
    ensures |Users(Handed(hs, i, D, m), c)| == |Users(hs, c)| + |D| - 1
    ensures Users(hs, c) != {}
  {
    assert i in Users(hs, c);
    assert Users(Handed(hs, i, D, m), c) == Users(hs, c) - {i} + D;
    assert |Users(hs, c) - {i} + D| == |Users(hs, c)| - 1 + |D|;
  }

  /** A content that had users is freed once, when it has none any more. */
  lemma FreedWhenUnused(h: Heap, hs: Handles, h': Heap, hs': Handles, c: ContentId)
    requires ContentOk(h, hs, c) && ContentOk(h', hs', c) && Users(hs, c) != {} && h'.known == h.known
    ensures h'.freed[c] == h.freed[c] + Bit(Users(hs', c) == {})
  {
  }

  lemma KnownSame(h: Heap, m: Msg, n: nat, f: nat)
    ensures DistributeHeap(h, m, n, f).known == h.known
  {
    if n > 0 && !m.kind.Vsm? {
      var (h1, m1) := AddRefs(h, m, n - 1);
      assert h1.known == h.known;
    }
  }
}
