/**
 What each pipe is given by a distributor, over whole runs: the sets of pipes
 are traded for one small automaton per pipe.
 */
module DistStreams {
  import opened PipeArray
  import opened DistRuns

  /** A pipe does not take part, joined in the middle of the current message, or takes part. */
  datatype Place = Away | Late | Present

  /** One pipe: its place, whether it is chosen for the next frame that is sent
      to some, what it was given, and which frame comes next. */
  datatype Fate = Fate(place: Place, chosen: bool, given: seq<Frame>, msg: nat, part: nat)

  const NOWHERE: Fate := Fate(Away, false, [], 0, 0)

  /** A frame is sent; the pipe is addressed or not, and would refuse it or not.
      A pipe that refuses drops out; the last frame lets late pipes in. */
  function Passed(f: Fate, addressed: bool, refuses: bool, more: bool): Fate {
    var place := if addressed && refuses then Away else f.place;
    Fate(if place.Late? && !more then Present else place, addressed && !refuses,
         if addressed && !refuses then f.given + [Frame(f.msg, f.part)] else f.given,
         if more then f.msg else f.msg + 1, if more then f.part + 1 else 0)
  }

  function Moved(f: Fate, t: Step, p: Pipe): Fate {
    match t
    case Attach(q) => if q == p then f.(place := if f.part > 0 then Late else Present, given := []) else f
    case Activate(q) => if q == p then f.(place := if f.part > 0 then Late else Present) else f
    case Terminate(q) => if q == p then f.(place := Away, chosen := false) else f
    case Match(q) => if q == p && !f.place.Away? then f.(chosen := true) else f
    case Reverse => f.(chosen := !f.place.Away? && !f.chosen)
    case Unmatch => f.(chosen := false)
    case Send(refusing, more) => Passed(f, f.chosen, p in refusing, more)
    case SendAll(refusing, more) => Passed(f, f.place.Present?, p in refusing, more)
  }

  /** The pipe after the first n steps. */
  function FateOf(ts: seq<Step>, p: Pipe, n: nat): Fate
    requires n <= |ts|
  {
    if n == 0 then NOWHERE else Moved(FateOf(ts, p, n - 1), ts[n - 1], p)
  }

  /** The automaton of a pipe shows what the sets say of it. */
  predicate Shows(s: State, p: Pipe, f: Fate) {
    && f.msg == s.msg && f.part == s.part
    && (f.place.Away? <==> p !in s.v.eligible) && (f.place.Present? <==> p in s.v.active)
    && (f.chosen <==> p in s.v.matching)
    && (p in s.streams ==> s.streams[p] == f.given)
  }

  lemma ShowsSend(s: State, t: Step, p: Pipe, f: Fate)
    requires Ok(s) && Enabled(s, t) && (t.Send? || t.SendAll?) && Shows(s, p, f)
    ensures Shows(Next(s, t), p, Moved(f, t, p))
  {
  }

  lemma ShowsOther(s: State, t: Step, p: Pipe, f: Fate)
    requires Ok(s) && Enabled(s, t) && !t.Send? && !t.SendAll? && Shows(s, p, f)
    ensures Shows(Next(s, t), p, Moved(f, t, p))
  {
  }

  /** In every run each pipe is given exactly the frames its automaton says:
      those that address it while it takes part, until it refuses one. */
  lemma {:induction false} StreamsExact(ss: seq<State>, ts: seq<Step>, p: Pipe, n: nat)
    requires Steps(ss, ts) && ss[0] == START && n <= |ts|
    ensures Ok(ss[n]) && Shows(ss[n], p, FateOf(ts, p, n))
    decreases n
  {
    if n > 0 {
      StreamsExact(ss, ts, p, n - 1);
      var s, t := ss[n - 1], ts[n - 1];
      if t.Send? || t.SendAll? {
        KeepSend(s, t);
        ShowsSend(s, t, p, FateOf(ts, p, n - 1));
      } else {
        KeepOther(s, t);
        ShowsOther(s, t, p, FateOf(ts, p, n - 1));
      }
    }
  }

  // ---------------------------------------------------------------- who is given a frame

  /** The step takes the pipe out: it goes away or refuses a frame. */
  predicate Leaves(t: Step, p: Pipe) {
    t == Terminate(p) || ((t.Send? || t.SendAll?) && p in t.refusing)
  }

  predicate Stays(ts: seq<Step>, p: Pipe, i: nat, j: nat) {
    i <= j <= |ts| && forall k :: i <= k < j ==> !Leaves(ts[k], p)
  }

  lemma {:induction false} StaysPresent(ts: seq<Step>, p: Pipe, i: nat, j: nat)
    requires Stays(ts, p, i, j) && FateOf(ts, p, i).place.Present?
    ensures FateOf(ts, p, j).part == 0 ==> FateOf(ts, p, j).place.Present?
    ensures !FateOf(ts, p, j).place.Away?
    decreases j
  {
    if i < j { StaysPresent(ts, p, i, j - 1); }
  }

  /** The frame that is sent at step j is the next one the pipe is given. */
  predicate IsGiven(ss: seq<State>, j: nat, p: Pipe) {
    && j + 1 < |ss| && p in ss[j].streams && p in ss[j + 1].streams
    && ss[j + 1].streams[p] == ss[j].streams[p] + [Frame(ss[j].msg, ss[j].part)]
  }

  lemma GivenByFate(ss: seq<State>, ts: seq<Step>, p: Pipe, j: nat)
    requires Steps(ss, ts) && ss[0] == START && j < |ts| && (ts[j].Send? || ts[j].SendAll?) && p in ss[j].streams
    ensures var f := FateOf(ts, p, j);
            IsGiven(ss, j, p) <==> p !in ts[j].refusing && if ts[j].Send? then f.chosen else f.place.Present?
  {
    StreamsExact(ss, ts, p, j);
    StreamsExact(ss, ts, p, j + 1);
    StepStream(ss[j], ts[j], p);
    var st := ss[j].streams[p];
    assert |st + [Frame(ss[j].msg, ss[j].part)]| > |st|;
  }

  lemma {:induction false} StillThere(ss: seq<State>, ts: seq<Step>, p: Pipe, i: nat, j: nat)
    requires Steps(ss, ts) && i <= j <= |ts| && p in ss[i].streams
    ensures p in ss[j].streams
    decreases j
  {
    if i < j {
      StillThere(ss, ts, p, i, j - 1);
      StepStream(ss[j - 1], ts[j - 1], p);
    }
  }

  /** A pipe that joins between messages takes part as long as it stays. */
  lemma JoinerTakesPart(ss: seq<State>, ts: seq<Step>, p: Pipe, i: nat, j: nat)
    requires Steps(ss, ts) && ss[0] == START && i < j <= |ts| && (ts[i] == Attach(p) || ts[i] == Activate(p))
    requires !ss[i].v.more && Stays(ts, p, i + 1, j)
    ensures !FateOf(ts, p, j).place.Away? && (FateOf(ts, p, j).part == 0 ==> FateOf(ts, p, j).place.Present?)
    ensures p in ss[j].streams
  {
    StreamsExact(ss, ts, p, i);
    StreamsExact(ss, ts, p, i + 1);
    StaysPresent(ts, p, i + 1, j);
    StillThere(ss, ts, p, i + 1, j);
  }

  /** A pipe that joins between messages, stays and does not refuse is given the
      first frame of every message that goes to all. */
  lemma JoinerIsGivenAll(ss: seq<State>, ts: seq<Step>, p: Pipe, i: nat, j: nat)
    requires Steps(ss, ts) && ss[0] == START && i < j < |ts| && (ts[i] == Attach(p) || ts[i] == Activate(p))
    requires !ss[i].v.more && !ss[j].v.more && ts[j].SendAll? && Stays(ts, p, i + 1, j + 1)
    ensures IsGiven(ss, j, p)
  {
    StreamsExact(ss, ts, p, j);
    JoinerTakesPart(ss, ts, p, i, j);
    GivenByFate(ss, ts, p, j);
  }

  /** Whether the pipe is among the matching ones is not changed otherwise. */
  predicate Rechooses(t: Step) {
    t.Reverse? || t.Unmatch? || t.SendAll?
  }

  lemma {:induction false} StaysChosen(ts: seq<Step>, p: Pipe, i: nat, j: nat)
    requires Stays(ts, p, i, j) && FateOf(ts, p, i).chosen
    requires forall k :: i <= k < j ==> !Rechooses(ts[k])
    ensures FateOf(ts, p, j).chosen
    decreases j
  {
    if i < j { StaysChosen(ts, p, i, j - 1); }
  }

  lemma {:induction false} StaysUnchosen(ts: seq<Step>, p: Pipe, i: nat, j: nat)
    requires i <= j <= |ts| && !FateOf(ts, p, i).chosen
    requires forall k :: i <= k < j ==> !Rechooses(ts[k]) && ts[k] != Match(p)
    ensures !FateOf(ts, p, j).chosen
    decreases j
  {
    if i < j { StaysUnchosen(ts, p, i, j - 1); }
  }

  /** A pipe that joined between messages and is matched later is given every
      frame that goes to the matching pipes, until it is unmatched, or refuses. */
  lemma MatchedIsGiven(ss: seq<State>, ts: seq<Step>, p: Pipe, i: nat, m: nat, j: nat)
    requires Steps(ss, ts) && ss[0] == START && i < m < j < |ts| && (ts[i] == Attach(p) || ts[i] == Activate(p))
    requires !ss[i].v.more && ts[m] == Match(p) && ts[j].Send? && Stays(ts, p, i + 1, j + 1)
    requires forall k :: m < k < j ==> !Rechooses(ts[k])
    ensures IsGiven(ss, j, p)
  {
    JoinerTakesPart(ss, ts, p, i, m);
    StaysChosen(ts, p, m + 1, j);
    StillThere(ss, ts, p, m, j);
    GivenByFate(ss, ts, p, j);
  }

  /** A pipe that is not matched again after all were unmatched is given nothing
      that goes to the matching pipes. */
  lemma UnmatchedIsNotGiven(ss: seq<State>, ts: seq<Step>, p: Pipe, m: nat, j: nat)
    requires Steps(ss, ts) && ss[0] == START && m < j < |ts| && ts[m] == Unmatch && ts[j].Send? && p in ss[j].streams
    requires forall k :: m < k < j ==> !Rechooses(ts[k]) && ts[k] != Match(p)
    ensures !IsGiven(ss, j, p) && ss[j + 1].streams[p] == ss[j].streams[p]
  {
    StaysUnchosen(ts, p, m + 1, j);
    GivenByFate(ss, ts, p, j);
    StreamsExact(ss, ts, p, j);
    StreamsExact(ss, ts, p, j + 1);
    StepStream(ss[j], ts[j], p);
  }

  /** Reversing the match turns the choice around: after a match of p it is not
      given the frame, and a pipe that joined and was not matched is. */
  lemma ReverseTurnsRound(ss: seq<State>, ts: seq<Step>, p: Pipe, i: nat, m: nat, j: nat)
    requires Steps(ss, ts) && ss[0] == START && i < m < j < |ts| && (ts[i] == Attach(p) || ts[i] == Activate(p))
    requires !ss[i].v.more && ts[m] == Reverse && ts[j].Send? && Stays(ts, p, i + 1, j + 1)
    requires forall k :: m < k < j ==> !Rechooses(ts[k]) && ts[k] != Match(p)
    ensures IsGiven(ss, j, p) <==> !FateOf(ts, p, m).chosen
  {
    JoinerTakesPart(ss, ts, p, i, m);
    if FateOf(ts, p, m).chosen {
      StaysUnchosen(ts, p, m + 1, j);
    } else {
      StaysChosen(ts, p, m + 1, j);
    }
    StillThere(ss, ts, p, m, j);
    GivenByFate(ss, ts, p, j);
  }
}
