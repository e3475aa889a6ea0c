/** Late join: what a receiver decodes that joins a PGM stream at any packet. */
module PgmTheorems {
  import opened Basics
  import opened Decoder
  import opened V1Codec
  import opened V1Language
  import opened PgmSender
  import opened PgmReceiver

  /** The packets carry the frames, but for the rest still in the encoder, and
      their offsets name beginnings. */
  ghost predicate Sent(packets: seq<Packet>, frames: seq<Frame>, rest: seq<Byte>) {
    Payloads(packets) + rest == WireAll(frames) && Marked(frames, packets)
  }

  predicate AllProper(packets: seq<Packet>) {
    forall i :: 0 <= i < |packets| ==> Proper(packets[i])
  }

  /** The assertion that an offset lies within its packet never fires. */
  lemma OffsetsAreProper(packets: seq<Packet>, frames: seq<Frame>, rest: seq<Byte>)
    requires Sent(packets, frames, rest)
    ensures AllProper(packets)
  {
    forall i | 0 <= i < |packets|
      ensures Proper(packets[i])
    {
      assert Marks(frames, Offset(packets, i), packets[i]);
    }
  }

  lemma PayloadsSent(packets: seq<Packet>, frames: seq<Frame>, rest: seq<Byte>, i: nat)
    requires Sent(packets, frames, rest) && i <= |packets|
    ensures Payloads(packets[..i]) <= WireAll(frames)
  {
    PayloadsPrefix(packets, i);
  }

  /** Packet i is this part of the stream. */
  lemma Span(packets: seq<Packet>, frames: seq<Frame>, rest: seq<Byte>, i: nat)
    requires Sent(packets, frames, rest) && i < |packets|
    ensures Offset(packets, i) + |packets[i].payload| == Offset(packets, i + 1) <= |WireAll(frames)|
    ensures WireAll(frames)[Offset(packets, i)..Offset(packets, i + 1)] == packets[i].payload
  {
    PayloadsStep(packets, i);
    PayloadsSent(packets, frames, rest, i + 1);
    SlicePart(WireAll(frames), Payloads(packets[..i + 1]), Payloads(packets[..i]), packets[i].payload);
  }

  /** The stream from frame k on, up to position b, as a decoder would see it. */
  ghost function DecodedFrom(max: int, frames: seq<Frame>, a: nat, b: nat): Dec<State, Frame>
    requires Progresses(V1(max)) && a <= b <= |WireAll(frames)|
  {
    Feed(V1(max), Between(false, []), WireAll(frames)[a..b])
  }

  lemma DecodeOn(max: int, frames: seq<Frame>, a: nat, b: nat, c: nat)
    requires Progresses(V1(max)) && a <= b <= c <= |WireAll(frames)|
    ensures Feed(V1(max), DecodedFrom(max, frames, a, b), WireAll(frames)[b..c]) == DecodedFrom(max, frames, a, c)
  {
    var w := WireAll(frames);
    FeedSplit(V1(max), Between(false, []), w[a..b], w[b..c]);
    SliceJoin(w, a, b, c);
  }

  lemma StreamSplit(frames: seq<Frame>, k: nat, n: nat)
    requires k <= n <= |frames|
    ensures WireAll(frames[..n]) == WireAll(frames[..k]) + WireAll(frames[k..n])
  {
    WireAllAppend(frames[..k], frames[k..n]);
    assert frames[..k] + frames[k..n] == frames[..n];
  }

  lemma StreamPrefix(frames: seq<Frame>, n: nat)
    requires n <= |frames|
    ensures WireAll(frames[..n]) <= WireAll(frames)
  {
    StreamSplit(frames, n, |frames|);
    assert frames[..|frames|] == frames;
  }

  lemma SliceOfStream(frames: seq<Frame>, k: nat, n: nat)
    requires k <= n <= |frames|
    ensures Position(frames, k) <= Position(frames, n) <= |WireAll(frames)|
    ensures WireAll(frames)[Position(frames, k)..Position(frames, n)] == WireAll(frames[k..n])
  {
    StreamSplit(frames, k, n);
    StreamPrefix(frames, n);
    SlicePart(WireAll(frames), WireAll(frames[..n]), WireAll(frames[..k]), WireAll(frames[k..n]));
  }

  /** Decoding that begins with a frame does not fail. */
  lemma DecodesWell(max: int, frames: seq<Frame>, k: nat, b: nat)
    requires Fine(max, frames) && Progresses(V1(max)) && k <= |frames| && Position(frames, k) <= b <= |WireAll(frames)|
    ensures !DecodedFrom(max, frames, Position(frames, k), b).failed
  {
    var a, c := Position(frames, k), |WireAll(frames)|;
    SliceOfStream(frames, k, |frames|);
    assert frames[..|frames|] == frames;
    StreamRoundTrip(max, frames[k..]);
    DecodeOn(max, frames, a, b, c);
  }

  // ---------------------------------------------------------------- the receiver's run

  /** The peer after the packets from j up to e, when it was not joined before. */
  ghost function ReceiveAll(max: int, packets: seq<Packet>, j: nat, e: nat): (q: Peer)
    requires Progresses(V1(max)) && AllProper(packets) && j <= e <= |packets|
    ensures PeerOk(max, q)
    decreases e
  {
    if j == e then NotJoined else Receive(max, ReceiveAll(max, packets, j, e - 1), packets[e - 1])
  }

  predicate NoBeginning(packets: seq<Packet>, j: nat, e: nat)
    requires j <= e <= |packets|
  {
    forall i :: j <= i < e ==> packets[i].offset == NO_START
  }

  /** The receiver that starts at packet j joins with packet i, the first from
      there that names a beginning, and that is where frame k begins. */
  predicate JoinsAt(packets: seq<Packet>, frames: seq<Frame>, j: nat, i: nat, k: nat) {
    && j <= i < |packets| && NoBeginning(packets, j, i) && packets[i].offset != NO_START
    && k <= |frames| && First(frames, k) && Position(frames, k) == Offset(packets, i) + packets[i].offset
  }

  /** What the receiver has decoded before packet e: nothing, when no message
      began, or the stream from the beginning of frame k. */
  ghost predicate Follows(max: int, packets: seq<Packet>, frames: seq<Frame>, j: nat, e: nat, i: nat, k: nat, p: Peer)
    requires Progresses(V1(max)) && j <= e <= |packets| && Offset(packets, e) <= |WireAll(frames)|
  {
    if p.NotJoined? then NoBeginning(packets, j, e) else
      && i < e && JoinsAt(packets, frames, j, i, k) && Position(frames, k) <= Offset(packets, e)
      && p.dec == DecodedFrom(max, frames, Position(frames, k), Offset(packets, e))
  }

  /** A joined receiver decodes on. */
  lemma FollowJoined(max: int, packets: seq<Packet>, frames: seq<Frame>, rest: seq<Byte>, e: nat, k: nat, p: Peer)
    requires Sent(packets, frames, rest) && Fine(max, frames) && Progresses(V1(max)) && e < |packets| && p.Joined?
    requires Offset(packets, e + 1) <= |WireAll(frames)|
    requires k <= |frames| && Position(frames, k) <= Offset(packets, e) <= |WireAll(frames)|
    requires p.dec == DecodedFrom(max, frames, Position(frames, k), Offset(packets, e))
    ensures Position(frames, k) <= Offset(packets, e + 1)
    ensures var d := DecodedFrom(max, frames, Position(frames, k), Offset(packets, e + 1));
            Feed(V1(max), p.dec, packets[e].payload) == d && !d.failed
  {
    Span(packets, frames, rest, e);
    DecodeOn(max, frames, Position(frames, k), Offset(packets, e), Offset(packets, e + 1));
    DecodesWell(max, frames, k, Offset(packets, e + 1));
  }

  /** A packet that names a beginning continues the stream from there. */
  lemma JoinsWith(packets: seq<Packet>, frames: seq<Frame>, rest: seq<Byte>, e: nat) returns (k: nat)
    requires Sent(packets, frames, rest) && e < |packets| && packets[e].offset != NO_START && Proper(packets[e])
    ensures k <= |frames| && First(frames, k) && Position(frames, k) == Offset(packets, e) + packets[e].offset
    ensures Position(frames, k) <= Offset(packets, e + 1) <= |WireAll(frames)|
    ensures packets[e].payload[packets[e].offset..] == WireAll(frames)[Position(frames, k)..Offset(packets, e + 1)]
  {
    var a, b := Offset(packets, e), Offset(packets, e + 1);
    Span(packets, frames, rest, e);
    assert Marks(frames, a, packets[e]);
    k :| 0 <= k <= |frames| && First(frames, k) && Position(frames, k) == a + packets[e].offset;
    SliceOfSlice(WireAll(frames), a, b, packets[e].offset);
  }

  lemma FollowOn(max: int, packets: seq<Packet>, frames: seq<Frame>, rest: seq<Byte>, j: nat, e: nat, i: nat, k: nat,
                 p: Peer)
    returns (i': nat, k': nat)
    requires Sent(packets, frames, rest) && Fine(max, frames) && Progresses(V1(max)) && PeerOk(max, p)
    requires j <= e < |packets| && Proper(packets[e]) && Offset(packets, e + 1) <= |WireAll(frames)|
    requires Offset(packets, e) <= |WireAll(frames)| && Follows(max, packets, frames, j, e, i, k, p)
    ensures Follows(max, packets, frames, j, e + 1, i', k', Receive(max, p, packets[e]))
  {
    i', k' := i, k;
    if p.Joined? {
      FollowJoined(max, packets, frames, rest, e, k, p);
    } else if packets[e].offset != NO_START {
      i' := e;
      k' := JoinsWith(packets, frames, rest, e);
      DecodesWell(max, frames, k', Offset(packets, e + 1));
    }
  }

  lemma {:induction false} RunFollows(max: int, packets: seq<Packet>, frames: seq<Frame>, rest: seq<Byte>,
                                      j: nat, e: nat)
    returns (i: nat, k: nat)
    requires Sent(packets, frames, rest) && Fine(max, frames) && Progresses(V1(max)) && AllProper(packets)
    requires j <= e <= |packets| && Offset(packets, e) <= |WireAll(frames)|
    ensures Follows(max, packets, frames, j, e, i, k, ReceiveAll(max, packets, j, e))
    decreases e
  {
    i, k := 0, 0;
    if j < e {
      EarlierOffset(packets, frames, rest, e);
      var p := ReceivesLast(max, packets, j, e);
      var i0, k0 := RunFollows(max, packets, frames, rest, j, e - 1);
      i, k := FollowOn(max, packets, frames, rest, j, e - 1, i0, k0, p);
    }
  }

  lemma EarlierOffset(packets: seq<Packet>, frames: seq<Frame>, rest: seq<Byte>, e: nat)
    requires Sent(packets, frames, rest) && 0 < e <= |packets| && Offset(packets, e) <= |WireAll(frames)|
    ensures Offset(packets, e - 1) <= |WireAll(frames)|
  {
    PayloadsSent(packets, frames, rest, e - 1);
  }

  lemma ReceivesLast(max: int, packets: seq<Packet>, j: nat, e: nat) returns (p: Peer)
    requires j < e <= |packets| && Progresses(V1(max)) && AllProper(packets)
    ensures p == ReceiveAll(max, packets, j, e - 1) && PeerOk(max, p)
    ensures ReceiveAll(max, packets, j, e) == Receive(max, p, packets[e - 1])
  {
    p := ReceiveAll(max, packets, j, e - 1);
  }

  // ---------------------------------------------------------------- what comes out

  /** The frames before n are whole in the first b bytes of the stream, and no other. */
  ghost predicate WholeUpTo(frames: seq<Frame>, n: nat, b: nat) {
    n <= |frames| && Position(frames, n) <= b && (n < |frames| ==> b < Position(frames, n + 1))
  }

  lemma FindWhole(frames: seq<Frame>, k: nat, b: nat) returns (n: nat)
    requires k <= |frames| && Position(frames, k) <= b <= |WireAll(frames)|
    ensures k <= n && WholeUpTo(frames, n, b)
    decreases |frames| - k
  {
    n := k;
    if k < |frames| && Position(frames, k + 1) <= b {
      n := FindWhole(frames, k + 1, b);
    }
  }

  /** The bytes of frame n that are in the first b bytes, and those that are not. */
  lemma CutFrame(frames: seq<Frame>, n: nat, b: nat)
    requires n < |frames| && Position(frames, n) <= b < Position(frames, n + 1) <= |WireAll(frames)|
    ensures var w := WireAll(frames);
            Wire(frames[n]) == w[Position(frames, n)..b] + w[b..Position(frames, n + 1)]
  {
    SliceOfStream(frames, n, n + 1);
    WireAllOne(frames[n]);
    assert frames[n..n + 1] == [frames[n]];
    SliceJoin(WireAll(frames), Position(frames, n), b, Position(frames, n + 1));
  }

  /** From frame k up to position b there are the frames up to n and a part of frame n. */
  lemma WholeAndPart(frames: seq<Frame>, k: nat, n: nat, b: nat)
    requires k <= n <= |frames| && Position(frames, n) <= b <= |WireAll(frames)|
    ensures Position(frames, k) <= b
    ensures WireAll(frames)[Position(frames, k)..b] ==
            WireAll(frames[k..n]) + WireAll(frames)[Position(frames, n)..b]
  {
    SliceOfStream(frames, k, n);
    SliceJoin(WireAll(frames), Position(frames, k), Position(frames, n), b);
  }

  lemma DecodedAll(max: int, frames: seq<Frame>, k: nat)
    requires Fine(max, frames) && Progresses(V1(max)) && k <= |frames|
    ensures var w := WireAll(frames);
            Position(frames, k) <= |w| && DecodedFrom(max, frames, Position(frames, k), |w|).out == frames[k..]
  {
    SliceOfStream(frames, k, |frames|);
    assert frames[..|frames|] == frames && frames[k..|frames|] == frames[k..];
    StreamRoundTrip(max, frames[k..]);
  }

  lemma DecodedPart(max: int, frames: seq<Frame>, k: nat, n: nat, b: nat)
    requires Fine(max, frames) && Progresses(V1(max)) && k <= n < |frames|
    requires Position(frames, n) <= b < Position(frames, n + 1) <= |WireAll(frames)| && Position(frames, k) <= b
    ensures DecodedFrom(max, frames, Position(frames, k), b).out == frames[k..n]
  {
    var w, front := WireAll(frames), frames[k..n];
    WholeAndPart(frames, k, n, b);
    CutFrame(frames, n, b);
    FrontDecodes(max, front, frames[n], w[Position(frames, n)..b], w[b..Position(frames, n + 1)]);
  }

  /** Whole frames and the beginning of another decode to the whole ones. */
  lemma FrontDecodes(max: int, front: seq<Frame>, f: Frame, part: seq<Byte>, tail: seq<Byte>)
    requires Fine(max, front) && Fine(max, [f]) && Progresses(V1(max)) && Wire(f) == part + tail && tail != []
    ensures Feed(V1(max), Between(false, []), WireAll(front) + part).out == front
  {
    var all := front + [f];
    assert all[..|front|] == front;
    PrefixDecodes(max, all, |front|, part, tail);
  }

  lemma DecodedFrames(max: int, frames: seq<Frame>, k: nat, n: nat, b: nat)
    requires Fine(max, frames) && Progresses(V1(max)) && k <= n && WholeUpTo(frames, n, b) && b <= |WireAll(frames)|
    requires Position(frames, k) <= b
    ensures DecodedFrom(max, frames, Position(frames, k), b).out == frames[k..n]
  {
    if n == |frames| {
      assert frames[..n] == frames && frames[k..n] == frames[k..];
      DecodedAll(max, frames, k);
    } else {
      SliceOfStream(frames, n, n + 1);
      DecodedPart(max, frames, k, n, b);
    }
  }

  /** Nothing, or exactly the frames from the beginning that the first packet
      from j names up to the last frame that is whole in the packets before e. */
  ghost predicate Delivers(packets: seq<Packet>, frames: seq<Frame>, j: nat, e: nat, i: nat, k: nat, n: nat, p: Peer)
    requires j <= e <= |packets|
  {
    if p.NotJoined? then NoBeginning(packets, j, e) else
      && i < e && JoinsAt(packets, frames, j, i, k)
      && k <= n && WholeUpTo(frames, n, Offset(packets, e)) && p.dec.out == frames[k..n]
  }

  /** A receiver that starts at any packet j and sees all packets up to e
      delivers a suffix of the frames sent so far, from the first beginning
      that a packet names. */
  lemma LateJoin(max: int, packets: seq<Packet>, frames: seq<Frame>, rest: seq<Byte>, j: nat, e: nat)
    returns (i: nat, k: nat, n: nat)
    requires Sent(packets, frames, rest) && Fine(max, frames) && j <= e <= |packets|
    requires Progresses(V1(max)) && AllProper(packets)
    ensures Delivers(packets, frames, j, e, i, k, n, ReceiveAll(max, packets, j, e))
  {
    PayloadsSent(packets, frames, rest, e);
    i, k := RunFollows(max, packets, frames, rest, j, e);
    n := k;
    if ReceiveAll(max, packets, j, e).Joined? {
      n := FindWhole(frames, k, Offset(packets, e));
      DecodedFrames(max, frames, k, n, Offset(packets, e));
    }
  }

  // ---------------------------------------------------------------- nothing is missed

  /** No multipart message begins in packets that name no beginning. */
  lemma {:induction false} SilentPackets(packets: seq<Packet>, frames: seq<Frame>, lo: nat, j: nat, i: nat)
    requires AllEarliest(frames, packets) && j <= i <= |packets| && NoBeginning(packets, j, i)
    requires NoStart(frames, lo, Offset(packets, j))
    ensures NoStart(frames, lo, Offset(packets, i))
    decreases i - j
  {
    if j < i {
      var next := Offset(packets, j + 1);
      SilentPacket(packets, frames, j);
      NoStartJoin(frames, lo, Offset(packets, j), next);
      SilentPackets(packets, frames, lo, j + 1, i);
    }
  }

  lemma NoStartJoin(frames: seq<Frame>, a: nat, b: nat, c: nat)
    requires NoStart(frames, a, b) && NoStart(frames, b, c)
    ensures NoStart(frames, a, c)
  {
  }

  lemma SilentPacket(packets: seq<Packet>, frames: seq<Frame>, i: nat)
    requires AllEarliest(frames, packets) && i < |packets| && packets[i].offset == NO_START
    ensures NoStart(frames, Offset(packets, i), Offset(packets, i + 1))
  {
    assert Earliest(frames, Offset(packets, i), packets[i]);
    PayloadsStep(packets, i);
  }

  /** The receiver joins with the first multipart message that begins in the
      packets it sees: k is the first frame of a message, and none begins from
      packet j on before it. */
  lemma JoinsFirstMessage(packets: seq<Packet>, frames: seq<Frame>, j: nat, i: nat, k: nat)
    requires AllEarliest(frames, packets) && JoinsAt(packets, frames, j, i, k)
    ensures First(frames, k) && NoStart(frames, Offset(packets, j), Position(frames, k))
  {
    SilentPackets(packets, frames, Offset(packets, j), j, i);
    assert Earliest(frames, Offset(packets, i), packets[i]);
  }

  // ---------------------------------------------------------------- bad data

  /** Whatever bytes come, a joined receiver leaves the stream exactly when there
      is an error in what it has got, and otherwise has the frames in it. */
  lemma ReceivesAsRead(max: int, soFar: seq<Byte>, packet: Packet)
    requires Progresses(V1(max)) && Proper(packet) && !Feed(V1(max), Between(false, []), soFar).failed
    ensures var q := Receive(max, Joined(Feed(V1(max), Between(false, []), soFar)), packet);
            var r := Read(max, soFar + packet.payload);
            (q.NotJoined? <==> r.failed) && (q.Joined? ==> q.dec.out == r.frames)
  {
    var m, d := V1(max), Between(false, []);
    FeedSplit(m, d, soFar, packet.payload);
    DecodesAsRead(m, max, [], soFar + packet.payload);
    assert [] + Read(max, soFar + packet.payload).frames == Read(max, soFar + packet.payload).frames;
  }
}
