/** Runs of a PGM sender and of a receiver that joins late, from end to end. */
module PgmRuns {
  import opened Basics
  import opened Decoder
  import opened V1Codec
  import opened PgmSender
  import opened PgmReceiver
  import opened PgmTheorems

  /** A sender is given batches of frames, one before each event on its socket,
      which takes the packet or not.  queue are the frames it has not taken. */
  method SendRun(cap: nat, batches: seq<seq<Frame>>, accepts: seq<bool>) returns (s: SenderT, queue: seq<Frame>)
    requires |accepts| == |batches|
    ensures s.Valid() && s.packer.cap == cap && s.packer.sent + queue == Flatten(batches)
    ensures cap <= 0x10000 ==> Sent(s.Log(), s.packer.sent, s.packer.encoder.Remaining())
    ensures cap <= 0xffff ==> AllEarliest(s.packer.sent, s.Log())
  {
    s := new SenderT(cap);
    queue := [];
    for i := 0 to |batches|
      invariant fresh(s) && fresh(s.packer) && fresh(s.packer.encoder) && s.Valid() && s.packer.cap == cap
      invariant s.packer.sent + queue == Flatten(batches[..i])
    {
      FlattenUpTo(batches, i);
      queue := SendEvent(s, queue, batches[i], accepts[i]);
    }
    assert batches[..|batches|] == batches;
    JoinsIsAppend(s.packer.emitted, s.packer.encoder.Remaining(), WireAll(s.packer.sent));
  }

  /** One event: the frames that are not taken stay in the queue. */
  method SendEvent(s: SenderT, queue: seq<Frame>, batch: seq<Frame>, accepts: bool) returns (queue': seq<Frame>)
    requires s.Valid()
    modifies s, s.packer, s.packer.encoder
    ensures s.Valid() && s.packer.sent + queue' == old(s.packer.sent) + queue + batch
  {
    var all := queue + batch;
    var taken := s.OutEvent(all, accepts);
    TakeMany(old(s.packer.sent), all, taken);
    Regroup(old(s.packer.sent), queue, batch);
    queue' := all[taken..];
  }

  lemma TakeMany(sent: seq<Frame>, queue: seq<Frame>, taken: nat)
    requires taken <= |queue|
    ensures sent + queue[..taken] + queue[taken..] == sent + queue
  {
    assert queue[..taken] + queue[taken..] == queue;
  }

  /** The receiver, which started at packet j, has dealt with those before i. */
  ghost predicate UpTo(r: ReceiverT, max: int, packets: seq<Packet>, j: nat, i: nat)
    requires j <= i <= |packets| && AllProper(packets) && Progresses(V1(max))
    reads r, r.decoder
  {
    r.max == max && r.Valid() && !r.active && r.Logical() == ReceiveAll(max, packets, j, i)
  }

  /** What a receiver has given its session that started at packet j and has
      got the packets before e: nothing, and no beginning was named, or exactly
      the frames from the first beginning that a packet names, frame k, up to
      the last whole one.  With room for at most 0xffff bytes in a packet no
      multipart message began before that. */
  ghost predicate Given(cap: nat, packets: seq<Packet>, frames: seq<Frame>, j: nat, e: nat, i: nat, k: nat, n: nat,
                        joined: bool, pushed: seq<Frame>)
  {
    && j <= e <= |packets|
    && if !joined then
         && NoBeginning(packets, j, e)
         && (cap <= 0xffff ==> NoStart(frames, Offset(packets, j), Offset(packets, e)))
       else
         && i < e && JoinsAt(packets, frames, j, i, k) && k <= n && WholeUpTo(frames, n, Offset(packets, e))
         && pushed == frames[k..n]
         && (cap <= 0xffff ==> NoStart(frames, Offset(packets, j), Position(frames, k)))
  }

  lemma Outcome(max: int, cap: nat, packets: seq<Packet>, frames: seq<Frame>, rest: seq<Byte>, j: nat, e: nat)
    returns (i: nat, k: nat, n: nat)
    requires Sent(packets, frames, rest) && Fine(max, frames) && j <= e <= |packets|
    requires Progresses(V1(max)) && AllProper(packets) && (cap <= 0xffff ==> AllEarliest(frames, packets))
    ensures var p := ReceiveAll(max, packets, j, e);
            Given(cap, packets, frames, j, e, i, k, n, p.Joined?, Out(p))
  {
    i, k, n := LateJoin(max, packets, frames, rest, j, e);
    if cap <= 0xffff {
      if ReceiveAll(max, packets, j, e).Joined? {
        JoinsFirstMessage(packets, frames, j, i, k);
      } else {
        SilentPackets(packets, frames, Offset(packets, j), j, e);
      }
    }
  }

  // ---------------------------------------------------------------- losses

  /** Packets from .. to, without a loss among them. */
  datatype Span = Span(from: nat, to: nat)

  /** The losses among the first e packets cut them into spans. */
  function Spans(lost: nat -> bool, e: nat): (spans: seq<Span>)
    ensures spans != [] && spans[|spans| - 1].to == e
    ensures forall t :: 0 <= t < |spans| ==> spans[t].from <= spans[t].to <= e
  {
    if e == 0 then [Span(0, 0)]
    else
      var spans := Spans(lost, e - 1);
      if lost(e - 1) then spans + [Span(e, e)]
      else spans[|spans| - 1 := spans[|spans| - 1].(to := e)]
  }

  /** Exactly the packets that are lost lie in no span. */
  lemma {:induction false} FindSpan(lost: nat -> bool, e: nat, i: nat) returns (t: nat)
    requires i < e && !lost(i)
    ensures t < |Spans(lost, e)| && Spans(lost, e)[t].from <= i < Spans(lost, e)[t].to
    decreases e
  {
    if i == e - 1 {
      t := |Spans(lost, e)| - 1;
    } else {
      t := FindSpan(lost, e - 1, i);
    }
  }

  lemma {:induction false} LostOutside(lost: nat -> bool, e: nat, i: nat, t: nat)
    requires lost(i) && t < |Spans(lost, e)|
    ensures !(Spans(lost, e)[t].from <= i < Spans(lost, e)[t].to)
    decreases e
  {
    if e > 0 && t < |Spans(lost, e - 1)| { LostOutside(lost, e - 1, i, t); }
  }

  /** A lost packet lies between two spans. */
  lemma {:induction false} SpansOrdered(lost: nat -> bool, e: nat, t: nat, u: nat)
    requires t < u < |Spans(lost, e)|
    ensures Spans(lost, e)[t].to < Spans(lost, e)[u].from
    decreases e
  {
    if e > 0 && u < |Spans(lost, e - 1)| {
      SpansOrdered(lost, e - 1, t, u);
    }
  }

  /** The frames a receiver decodes from each span. */
  ghost function Outs(max: int, packets: seq<Packet>, spans: seq<Span>): (outs: seq<seq<Frame>>)
    requires AllProper(packets) && Progresses(V1(max))
    requires forall t :: 0 <= t < |spans| ==> spans[t].from <= spans[t].to <= |packets|
    ensures |outs| == |spans|
  {
    seq(|spans|, t requires 0 <= t < |spans| => Out(ReceiveAll(max, packets, spans[t].from, spans[t].to)))
  }

  /** The session's frames after e packets: those of the spans before the last
      are handed over, and the last one is being received. */
  ghost predicate Hears(r: ReceiverT, max: int, packets: seq<Packet>, lost: nat -> bool, e: nat)
    requires e <= |packets| && AllProper(packets) && Progresses(V1(max))
    reads r, r.decoder
  {
    UpTo(r, max, packets, Since(lost, e), e) && r.before == Handed(max, packets, lost, e)
  }

  /** Where the last span begins. */
  function Since(lost: nat -> bool, e: nat): (j: nat)
    ensures j <= e
  {
    Spans(lost, e)[|Spans(lost, e)| - 1].from
  }

  /** What was decoded from the spans before the last. */
  ghost function Handed(max: int, packets: seq<Packet>, lost: nat -> bool, e: nat): seq<Frame>
    requires AllProper(packets) && Progresses(V1(max)) && e <= |packets|
  {
    Flatten(Outs(max, packets, Spans(lost, e)[..|Spans(lost, e)| - 1]))
  }

  lemma AfterLoss(max: int, packets: seq<Packet>, lost: nat -> bool, i: nat)
    requires AllProper(packets) && Progresses(V1(max)) && i < |packets| && lost(i)
    ensures Since(lost, i + 1) == i + 1
    ensures Handed(max, packets, lost, i + 1)
            == Handed(max, packets, lost, i) + Out(ReceiveAll(max, packets, Since(lost, i), i))
  {
    var spans := Spans(lost, i);
    assert Spans(lost, i + 1)[..|spans|] == spans;
    CloseSpan(max, packets, spans);
  }

  lemma AfterPacket(max: int, packets: seq<Packet>, lost: nat -> bool, i: nat)
    requires AllProper(packets) && Progresses(V1(max)) && i < |packets| && !lost(i)
    ensures Since(lost, i + 1) == Since(lost, i)
    ensures Handed(max, packets, lost, i + 1) == Handed(max, packets, lost, i)
  {
    var spans := Spans(lost, i);
    var last := |spans| - 1;
    assert Spans(lost, i + 1)[..last] == spans[..last];
  }

  lemma CloseSpan(max: int, packets: seq<Packet>, spans: seq<Span>)
    requires AllProper(packets) && Progresses(V1(max)) && spans != []
    requires forall t :: 0 <= t < |spans| ==> spans[t].from <= spans[t].to <= |packets|
    ensures var last := |spans| - 1;
            Flatten(Outs(max, packets, spans)) ==
            Flatten(Outs(max, packets, spans[..last])) + Out(ReceiveAll(max, packets, spans[last].from, spans[last].to))
  {
    var last := |spans| - 1;
    var outs := Outs(max, packets, spans);
    assert outs == Outs(max, packets, spans[..last]) + [outs[last]];
    FlattenOne(Outs(max, packets, spans[..last]), outs[last]);
  }

  /** A receiver of what was sent does not leave the stream by itself. */
  lemma StaysJoined(max: int, packets: seq<Packet>, frames: seq<Frame>, rest: seq<Byte>, j: nat, i: nat)
    requires Sent(packets, frames, rest) && Fine(max, frames) && Progresses(V1(max)) && AllProper(packets)
    requires j <= i < |packets|
    ensures ReceiveAll(max, packets, j, i + 1).NotJoined? ==>
              ReceiveAll(max, packets, j, i).NotJoined? && packets[i].offset == NO_START
  {
    PayloadsSent(packets, frames, rest, i);
    PayloadsSent(packets, frames, rest, i + 1);
    var i0, k0 := RunFollows(max, packets, frames, rest, j, i);
    var i1, k1 := RunFollows(max, packets, frames, rest, j, i + 1);
  }

  /** A loss ends the last span: what was decoded from it has been handed over. */
  method HearLoss(r: ReceiverT, max: int, packets: seq<Packet>, lost: nat -> bool, i: nat)
    requires Progresses(V1(max)) && AllProper(packets) && i < |packets| && lost(i) && Hears(r, max, packets, lost, i)
    modifies r
    ensures Hears(r, max, packets, lost, i + 1) && r.decoder == null
  {
    AfterLoss(max, packets, lost, i);
    r.NothingWaits();
    r.Loss();
  }

  method HearPacket(r: ReceiverT, max: int, packets: seq<Packet>, ghost frames: seq<Frame>, ghost rest: seq<Byte>,
                    ghost lost: nat -> bool, i: nat, room: nat -> nat, calls: nat)
    returns (calls': nat)
    requires Sent(packets, frames, rest) && Fine(max, frames) && Progresses(V1(max)) && AllProper(packets)
    requires i < |packets| && !lost(i) && Hears(r, max, packets, lost, i)
    modifies r, r.decoder
    ensures Hears(r, max, packets, lost, i + 1)
    ensures r.decoder != null && r.decoder != old(r.decoder) ==> fresh(r.decoder)
  {
    AfterPacket(max, packets, lost, i);
    StaysJoined(max, packets, frames, rest, Since(lost, i), i);
    r.NothingWaits();
    calls' := r.Serve(packets[i], room, calls);
  }

  method NewReceiver(max: int, ghost packets: seq<Packet>, ghost lost: nat -> bool) returns (r: ReceiverT)
    requires Progresses(V1(max)) && AllProper(packets)
    ensures fresh(r) && r.decoder == null && Hears(r, max, packets, lost, 0)
  {
    r := new ReceiverT(max);
    assert Spans(lost, 0)[..0] == [];
  }

  /** A new receiver and the first e packets, of which some are lost; room says
      how many frames its session takes at each call. */
  method ReceiveRun(max: int, packets: seq<Packet>, ghost frames: seq<Frame>, ghost rest: seq<Byte>,
                    lost: nat -> bool, e: nat, room: nat -> nat)
    returns (r: ReceiverT, calls: nat)
    requires Sent(packets, frames, rest) && Fine(max, frames) && Progresses(V1(max)) && AllProper(packets)
    requires e <= |packets|
    ensures fresh(r) && (r.decoder == null || fresh(r.decoder)) && Hears(r, max, packets, lost, e)
    decreases e
  {
    if e == 0 {
      r := NewReceiver(max, packets, lost);
      calls := 0;
    } else {
      r, calls := ReceiveRun(max, packets, frames, rest, lost, e - 1, room);
      if lost(e - 1) {
        HearLoss(r, max, packets, lost, e - 1);
      } else {
        calls := HearPacket(r, max, packets, frames, rest, lost, e - 1, room, calls);
      }
    }
  }

  /** A part of the session's stream: whether the stream was joined, by the
      packet joinedBy with frame k, and that frame n was the first not whole. */
  datatype Segment = Segment(joined: bool, joinedBy: nat, k: nat, n: nat, frames: seq<Frame>)

  ghost predicate GivenIn(cap: nat, packets: seq<Packet>, frames: seq<Frame>, span: Span, g: Segment) {
    && Given(cap, packets, frames, span.from, span.to, g.joinedBy, g.k, g.n, g.joined, g.frames)
    && (!g.joined ==> g.frames == [])
  }

  /** What the session is given of each span. */
  ghost predicate AllGiven(cap: nat, packets: seq<Packet>, frames: seq<Frame>, spans: seq<Span>,
                           segments: seq<Segment>)
  {
    && |segments| == |spans|
    && forall t :: 0 <= t < |spans| ==> GivenIn(cap, packets, frames, spans[t], segments[t])
  }

  /** The segments one after the other. */
  ghost function Stream(segments: seq<Segment>): seq<Frame> {
    if segments == [] then [] else Stream(segments[..|segments| - 1]) + segments[|segments| - 1].frames
  }

  /** No message, or the last frame of a message, is at the end. */
  predicate EndsWhole(frames: seq<Frame>) {
    frames == [] || !frames[|frames| - 1].more
  }

  lemma {:induction false} PositionGrows(frames: seq<Frame>, k: nat, n: nat)
    requires k < n <= |frames|
    ensures Position(frames, k) < Position(frames, n)
    decreases n
  {
    PositionStep(frames, n - 1);
    if k < n - 1 { PositionGrows(frames, k, n - 1); }
  }

  lemma OffsetMonotone(packets: seq<Packet>, i: nat, j: nat)
    requires i <= j <= |packets|
    ensures Offset(packets, i) <= Offset(packets, j)
  {
    PayloadsPrefix(packets[..j], i);
    assert packets[..j][..i] == packets[..i];
  }

  /** Every segment begins with the first frame of a message, and ends with the
      last frame of one if and only if the frame that follows begins another. */
  lemma SegmentEnds(cap: nat, packets: seq<Packet>, frames: seq<Frame>, span: Span, g: Segment)
    requires GivenIn(cap, packets, frames, span, g) && g.joined
    ensures g.k <= g.n <= |frames| && g.frames == frames[g.k..g.n] && First(frames, g.k)
    ensures EndsWhole(g.frames) <==> First(frames, g.n)
  {
    SliceEnds(frames, g.k, g.n);
  }

  lemma SliceEnds(frames: seq<Frame>, k: nat, n: nat)
    requires k <= n <= |frames| && First(frames, k)
    ensures EndsWhole(frames[k..n]) <==> First(frames, n)
  {
    if k < n { assert frames[k..n][n - k - 1] == frames[n - 1]; }
  }

  /** A later segment continues behind an earlier one: no frame is given twice,
      or after one that was sent later. */
  lemma SegmentsInOrder(cap: nat, packets: seq<Packet>, frames: seq<Frame>, lost: nat -> bool, e: nat,
                        segments: seq<Segment>, t: nat, u: nat)
    requires AllGiven(cap, packets, frames, Spans(lost, e), segments)
    requires t < u < |segments| && segments[t].joined && segments[u].joined
    ensures segments[t].n <= segments[u].k <= |frames|
  {
    var spans := Spans(lost, e);
    SpansOrdered(lost, e, t, u);
    assert GivenIn(cap, packets, frames, spans[t], segments[t]);
    assert GivenIn(cap, packets, frames, spans[u], segments[u]);
    FollowsBehind(cap, packets, frames, spans[t], segments[t], spans[u], segments[u]);
  }

  lemma FollowsBehind(cap: nat, packets: seq<Packet>, frames: seq<Frame>, a: Span, g: Segment, b: Span, h: Segment)
    requires GivenIn(cap, packets, frames, a, g) && GivenIn(cap, packets, frames, b, h) && g.joined && h.joined
    requires a.to <= b.from
    ensures g.n <= h.k <= |frames|
  {
    OffsetMonotone(packets, a.to, h.joinedBy);
    if h.k < g.n { PositionGrows(frames, h.k, g.n); }
  }

  lemma {:induction false} SegmentsOf(max: int, cap: nat, packets: seq<Packet>, frames: seq<Frame>, rest: seq<Byte>,
                                      spans: seq<Span>)
    returns (segments: seq<Segment>)
    requires Sent(packets, frames, rest) && Fine(max, frames) && Progresses(V1(max)) && AllProper(packets)
    requires cap <= 0xffff ==> AllEarliest(frames, packets)
    requires forall t :: 0 <= t < |spans| ==> spans[t].from <= spans[t].to <= |packets|
    ensures AllGiven(cap, packets, frames, spans, segments)
    ensures Stream(segments) == Flatten(Outs(max, packets, spans))
    ensures var t := |spans| - 1;
            t >= 0 ==> (segments[t].joined <==> ReceiveAll(max, packets, spans[t].from, spans[t].to).Joined?)
    decreases |spans|
  {
    segments := [];
    if spans != [] {
      var last := |spans| - 1;
      var front := SegmentsOf(max, cap, packets, frames, rest, spans[..last]);
      var g := SegmentOf(max, cap, packets, frames, rest, spans[last]);
      segments := front + [g];
      AddSegment(cap, packets, frames, spans, front, g);
      CloseSpan(max, packets, spans);
    }
  }

  lemma AddSegment(cap: nat, packets: seq<Packet>, frames: seq<Frame>, spans: seq<Span>, front: seq<Segment>,
                   g: Segment)
    requires spans != [] && AllGiven(cap, packets, frames, spans[..|spans| - 1], front)
    requires GivenIn(cap, packets, frames, spans[|spans| - 1], g)
    ensures AllGiven(cap, packets, frames, spans, front + [g]) && Stream(front + [g]) == Stream(front) + g.frames
  {
    var last, all := |spans| - 1, front + [g];
    assert all[..last] == front;
    forall t | 0 <= t < |spans|
      ensures GivenIn(cap, packets, frames, spans[t], all[t])
    {
      if t < last { assert GivenIn(cap, packets, frames, spans[..last][t], front[t]); }
    }
  }

  lemma SegmentOf(max: int, cap: nat, packets: seq<Packet>, frames: seq<Frame>, rest: seq<Byte>, span: Span)
    returns (g: Segment)
    requires Sent(packets, frames, rest) && Fine(max, frames) && Progresses(V1(max)) && AllProper(packets)
    requires span.from <= span.to <= |packets| && (cap <= 0xffff ==> AllEarliest(frames, packets))
    ensures GivenIn(cap, packets, frames, span, g)
    ensures var p := ReceiveAll(max, packets, span.from, span.to); g.frames == Out(p) && (g.joined <==> p.Joined?)
  {
    var p := ReceiveAll(max, packets, span.from, span.to);
    var i, k, n := Outcome(max, cap, packets, frames, rest, span.from, span.to);
    g := Segment(p.Joined?, i, k, n, Out(p));
  }

  /** What a new receiver gives its session of the first e packets. */
  method Listen(max: int, cap: nat, packets: seq<Packet>, ghost frames: seq<Frame>, ghost rest: seq<Byte>,
                lost: nat -> bool, e: nat, room: nat -> nat)
    returns (r: ReceiverT, ghost segments: seq<Segment>)
    requires Sent(packets, frames, rest) && Fine(max, frames) && Progresses(V1(max)) && AllProper(packets)
    requires e <= |packets| && (cap <= 0xffff ==> AllEarliest(frames, packets))
    ensures fresh(r) && r.Valid() && !r.active && AllGiven(cap, packets, frames, Spans(lost, e), segments)
    ensures r.before + r.pushed == Stream(segments) && (segments[|segments| - 1].joined <==> r.decoder != null)
  {
    var calls;
    r, calls := ReceiveRun(max, packets, frames, rest, lost, e, room);
    r.NothingWaits();
    ghost var spans := Spans(lost, e);
    CloseSpan(max, packets, spans);
    segments := SegmentsOf(max, cap, packets, frames, rest, spans);
  }

  lemma FineFront(max: int, frames: seq<Frame>, queue: seq<Frame>, all: seq<Frame>)
    requires frames + queue == all && Fine(max, all)
    ensures Fine(max, frames) && frames <= all
  {
    assert forall i :: 0 <= i < |frames| ==> frames[i] == all[i];
  }

  /** From end to end, for every sequence of messages, packetization, pattern of
      losses and schedule of the session: what the session has got is the frames
      of one segment for each span of packets that were received. */
  method LossyReceiver(max: int, cap: nat, batches: seq<seq<Frame>>, accepts: seq<bool>, lost: nat -> bool,
                       room: nat -> nat)
    returns (s: SenderT, r: ReceiverT, ghost segments: seq<Segment>)
    requires |accepts| == |batches| && cap <= 0x10000 && Fine(max, Flatten(batches))
    ensures s.Valid() && s.packer.cap == cap && s.packer.sent <= Flatten(batches) && r.Valid() && !r.active
    ensures AllGiven(cap, s.Log(), s.packer.sent, Spans(lost, |s.wire|), segments)
    ensures r.before + r.pushed == Stream(segments) && (segments[|segments| - 1].joined <==> r.decoder != null)
  {
    V1Progresses(max);
    var queue;
    s, queue := SendRun(cap, batches, accepts);
    var packets, e := s.Log(), |s.wire|;
    ghost var frames, rest := s.packer.sent, s.packer.encoder.Remaining();
    FineFront(max, frames, queue, Flatten(batches));
    OffsetsAreProper(packets, frames, rest);
    r, segments := Listen(max, cap, packets, frames, rest, lost, e, room);
  }

  lemma {:induction false} SkipsFirst(lost: nat -> bool, skip: nat, e: nat)
    requires forall i: nat :: lost(i) <==> i < skip
    ensures var spans := Spans(lost, e);
            && spans[|spans| - 1].from == (if skip < e then skip else e)
            && forall t :: 0 <= t < |spans| - 1 ==> spans[t].from == spans[t].to
  {
    if e > 0 { SkipsFirst(lost, skip, e - 1); }
  }

  lemma {:induction false} StreamOfLast(segments: seq<Segment>)
    requires segments != [] && forall t :: 0 <= t < |segments| - 1 ==> segments[t].frames == []
    ensures Stream(segments) == segments[|segments| - 1].frames
  {
    var front := segments[..|segments| - 1];
    if front != [] { StreamOfLast(front); }
  }

  /** Nothing is given of a span without packets. */
  lemma EmptySpans(cap: nat, packets: seq<Packet>, frames: seq<Frame>, spans: seq<Span>, segments: seq<Segment>)
    requires AllGiven(cap, packets, frames, spans, segments)
    ensures forall t :: 0 <= t < |spans| && spans[t].from == spans[t].to ==> segments[t].frames == []
  {
    forall t | 0 <= t < |spans| && spans[t].from == spans[t].to
      ensures segments[t].frames == []
    {
      assert GivenIn(cap, packets, frames, spans[t], segments[t]);
    }
  }

  /** Late join: the first packets are lost, skip of them, and no other.  The
      receiver delivers from the first message that begins in what it gets. */
  method LateJoiner(max: int, cap: nat, batches: seq<seq<Frame>>, accepts: seq<bool>, skip: nat, room: nat -> nat)
    returns (s: SenderT, r: ReceiverT, ghost j: nat, ghost g: Segment)
    requires |accepts| == |batches| && cap <= 0x10000 && Fine(max, Flatten(batches))
    ensures s.Valid() && s.packer.cap == cap && s.packer.sent <= Flatten(batches)
    ensures r.Valid() && !r.active && j == (if skip < |s.wire| then skip else |s.wire|)
    ensures GivenIn(cap, s.Log(), s.packer.sent, Span(j, |s.wire|), g)
    ensures r.before + r.pushed == g.frames && (g.joined <==> r.decoder != null)
  {
    var lost := i => i < skip;
    ghost var segments;
    s, r, segments := LossyReceiver(max, cap, batches, accepts, lost, room);
    j, g := LastSegment(cap, s.Log(), s.packer.sent, lost, skip, |s.wire|, segments);
  }

  lemma LastSegment(cap: nat, packets: seq<Packet>, frames: seq<Frame>, lost: nat -> bool, skip: nat, e: nat,
                    segments: seq<Segment>)
    returns (j: nat, g: Segment)
    requires AllGiven(cap, packets, frames, Spans(lost, e), segments) && forall i: nat :: lost(i) <==> i < skip
    ensures j == (if skip < e then skip else e) && g == segments[|segments| - 1]
    ensures GivenIn(cap, packets, frames, Span(j, e), g) && Stream(segments) == g.frames
  {
    SkipsFirst(lost, skip, e);
    EmptySpans(cap, packets, frames, Spans(lost, e), segments);
    StreamOfLast(segments);
    j := if skip < e then skip else e;
    g := segments[|segments| - 1];
    assert Spans(lost, e)[|segments| - 1] == Span(j, e);
  }
}
