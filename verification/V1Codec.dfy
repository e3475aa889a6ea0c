/**
 v1_encoder_t and v1_decoder_t (src/v1_encoder.cpp, src/v1_decoder.cpp): the
 framing that PGM carries, as steps of the generic encoder and decoder.
 */
module V1Codec {
  import opened Basics
  import opened Decoder
  import opened WireFormat

  datatype Frame = Frame(more: bool, body: seq<Byte>)

  /** What the decoder waits for: a short size, a long size, the flags of a
      body of a known size, or that body. */
  datatype State = Size | LongSize | Flags(size: nat) | Body(bodySize: nat, more: bool)

  // ---------------------------------------------------------------- encoder

  /** The size of a message and its flags byte is a 64-bit number. */
  predicate Fits(f: Frame) {
    |f.body| + 1 < Power(8)
  }

  function FlagsByte(f: Frame): Byte {
    if f.more then 1 else 0
  }

  function Header(f: Frame): (r: seq<Byte>)
    ensures |r| >= 2
  {
    var size := |f.body| + 1;
    if size < 255 then [size, FlagsByte(f)] else [255] + Put(size, 8) + [FlagsByte(f)]
  }

  /** The pieces written by the steps message_ready and size_ready. */
  function Pieces(f: Frame): seq<seq<Byte>> {
    [Header(f), f.body]
  }

  function Wire(f: Frame): seq<Byte> {
    Header(f) + f.body
  }

  function Wires(fs: seq<Frame>): (r: seq<seq<Byte>>)
    ensures |r| == |fs| && forall i :: 0 <= i < |fs| ==> r[i] == Wire(fs[i])
  {
    seq(|fs|, i requires 0 <= i < |fs| => Wire(fs[i]))
  }

  /** The encodings of the frames, one after the other. */
  function WireAll(fs: seq<Frame>): seq<Byte> {
    Flatten(Wires(fs))
  }

  lemma PiecesAreWire(f: Frame)
    ensures Flatten(Pieces(f)) == Wire(f)
  {
    var last: seq<seq<Byte>> := [];
    assert Pieces(f)[1..] == [f.body] && [f.body][1..] == last;
    assert Flatten(last) == [] && f.body + [] == f.body;
    assert Flatten([f.body]) == f.body;
  }

  lemma WireAllAppend(a: seq<Frame>, b: seq<Frame>)
    ensures WireAll(a + b) == WireAll(a) + WireAll(b)
  {
    FlattenAppend(Wires(a), Wires(b));
    WiresAppend(a, b);
  }

  lemma WiresAppend(a: seq<Frame>, b: seq<Frame>)
    ensures Wires(a + b) == Wires(a) + Wires(b)
  {
    var w := Wires(a + b);
    assert |w| == |Wires(a) + Wires(b)|;
    forall i | 0 <= i < |w|
      ensures w[i] == (Wires(a) + Wires(b))[i]
    {
      assert (a + b)[i] == if i < |a| then a[i] else b[i - |a|];
    }
  }

  lemma WireAllOne(f: Frame)
    ensures WireAll([f]) == Wire(f)
  {
    assert Wires([f]) == [Wire(f)];
    FlattenOne([], Wire(f));
    assert [] + [Wire(f)] == [Wire(f)];
  }

  // ---------------------------------------------------------------- decoder

  /** max is the largest body accepted; negative means no limit. */
  predicate Accepts(max: int, size: nat) {
    max < 0 || size <= max
  }

  function Need(s: State): nat {
    match s
    case Size => 1
    case LongSize => 8
    case Flags(_) => 1
    case Body(n, _) => n
  }

  function Sized(max: int, s: State, payload: nat): (State, Reply<Frame>) {
    if payload == 0 || !Accepts(max, payload - 1) then (s, Bad) else (Flags(payload - 1), Reply.More)
  }

  function Step(max: int, s: State, data: seq<Byte>): (State, Reply<Frame>) {
    if |data| != Need(s) then (s, Bad)
    else match s
      case Size => if data[0] == 255 then (LongSize, Reply.More) else Sized(max, s, data[0])
      case LongSize => Sized(max, s, Get(data))
      case Flags(n) => (Body(n, data[0] % 2 == 1), Reply.More)
      case Body(_, more) => (Size, Message(Frame(more, data)))
  }

  function V1(max: int): Machine<State, Frame> {
    Machine(Need, (s, data) => Step(max, s, data), s => 0)
  }

  lemma V1Progresses(max: int)
    ensures Progresses(V1(max))
  {
  }

  /** The decoder between two frames, having returned the messages out. */
  function Between(paused: bool, out: seq<Frame>): Dec<State, Frame> {
    Dec(Size, [], paused, false, out)
  }

  lemma FeedOnce(m: Machine<State, Frame>, d: Dec<State, Frame>, a: seq<Byte>, b: seq<Byte>)
    requires Progresses(m) && d.got == [] && !d.failed && |a| == m.need(d.state) && !d.paused
    ensures Feed(m, d, a + b) == Feed(m, Advance(m, d, a), b)
  {
    assert (a + b)[..|a|] == a && (a + b)[|a|..] == b;
  }

  lemma AdvanceFlags(max: int, out: seq<Frame>, f: Frame)
    ensures Advance(V1(max), Dec(Flags(|f.body|), [], false, false, out), [FlagsByte(f)]) ==
            Dec(Body(|f.body|, f.more), [], false, false, out)
  {
    assert [] + [FlagsByte(f)] == [FlagsByte(f)];
  }

  lemma AdvanceBody(max: int, out: seq<Frame>, f: Frame)
    ensures Advance(V1(max), Dec(Body(|f.body|, f.more), [], false, false, out), f.body) ==
            Between(true, out + [f])
  {
    assert [] + f.body == f.body;
  }

  lemma BodyRoundTrip(m: Machine<State, Frame>, max: int, out: seq<Frame>, f: Frame)
    requires m == V1(max) && Progresses(m)
    ensures Feed(m, Dec(Flags(|f.body|), [], false, false, out), [FlagsByte(f)] + f.body) == Between(true, out + [f])
  {
    var flags := FlagsByte(f);
    var d := Dec(Flags(|f.body|), [], false, false, out);
    FeedOnce(m, d, [flags], f.body);
    var e := Dec(Body(|f.body|, f.more), [], false, false, out);
    AdvanceFlags(max, out, f);
    FeedOnce(m, e, f.body, []);
    AdvanceBody(max, out, f);
    assert f.body + [] == f.body;
  }

  /** After the size of a body that is accepted, and after one that is not. */
  function AfterSize(max: int, f: Frame, out: seq<Frame>, s: State): Dec<State, Frame> {
    if Accepts(max, |f.body|) then Dec(Flags(|f.body|), [], false, false, out) else Dec(s, [], false, true, out)
  }

  lemma ShortSize(m: Machine<State, Frame>, max: int, out: seq<Frame>, f: Frame, tail: seq<Byte>)
    requires m == V1(max) && Progresses(m) && |f.body| + 1 < 255
    ensures Feed(m, Between(false, out), [|f.body| + 1] + tail) == Feed(m, AfterSize(max, f, out, Size), tail)
  {
    var d := Between(false, out);
    var first: seq<Byte> := [|f.body| + 1];
    FeedOnce(m, d, first, tail);
    assert [] + first == first;
    assert Advance(m, d, first) == AfterSize(max, f, out, Size);
  }

  lemma AdvanceLongSize(max: int, out: seq<Frame>, f: Frame)
    requires |f.body| + 1 >= 255 && Fits(f)
    ensures Advance(V1(max), Dec(LongSize, [], false, false, out), Put(|f.body| + 1, 8)) ==
            AfterSize(max, f, out, LongSize)
  {
    var long := Put(|f.body| + 1, 8);
    GetPut(|f.body| + 1, 8);
    assert [] + long == long;
  }

  lemma LongSizeRead(m: Machine<State, Frame>, max: int, out: seq<Frame>, f: Frame, tail: seq<Byte>)
    requires m == V1(max) && Progresses(m) && |f.body| + 1 >= 255 && Fits(f)
    ensures Feed(m, Between(false, out), [255] + (Put(|f.body| + 1, 8) + tail)) ==
            Feed(m, AfterSize(max, f, out, LongSize), tail)
  {
    var d := Between(false, out);
    var long := Put(|f.body| + 1, 8);
    FeedOnce(m, d, [255], long + tail);
    assert [] + [255] == [255];
    var e := Dec(LongSize, [], false, false, out);
    assert Advance(m, d, [255]) == e;
    FeedOnce(m, e, long, tail);
    AdvanceLongSize(max, out, f);
  }

  /** The size, then the flags and the body. */
  lemma WireParts(f: Frame)
    ensures var tail := [FlagsByte(f)] + f.body;
            Wire(f) == if |f.body| + 1 < 255 then [|f.body| + 1] + tail else [255] + (Put(|f.body| + 1, 8) + tail)
  {
  }

  /** Decoding undoes encoding; a body above the limit is an error. */
  lemma FrameRoundTrip(max: int, out: seq<Frame>, f: Frame)
    requires Fits(f) && Progresses(V1(max))
    ensures Accepts(max, |f.body|) ==> Feed(V1(max), Between(false, out), Wire(f)) == Between(true, out + [f])
    ensures !Accepts(max, |f.body|) ==> Feed(V1(max), Between(false, out), Wire(f)).failed
  {
    var m := V1(max);
    var tail := [FlagsByte(f)] + f.body;
    if |f.body| + 1 < 255 {
      WireParts(f);
      ShortSize(m, max, out, f, tail);
    } else {
      WireParts(f);
      LongSizeRead(m, max, out, f, tail);
    }
    if Accepts(max, |f.body|) {
      BodyRoundTrip(m, max, out, f);
    }
  }

  predicate Fine(max: int, fs: seq<Frame>) {
    forall i :: 0 <= i < |fs| ==> Fits(fs[i]) && Accepts(max, |fs[i].body|)
  }

  lemma FrameAfter(max: int, paused: bool, out: seq<Frame>, f: Frame)
    requires Fits(f) && Accepts(max, |f.body|) && Progresses(V1(max))
    ensures Feed(V1(max), Between(paused, out), Wire(f)) == Between(true, out + [f])
  {
    FrameRoundTrip(max, out, f);
  }

  /** A stream of frames decodes to those frames, and leaves the decoder between frames. */
  lemma {:induction false} StreamRoundTrip(max: int, fs: seq<Frame>)
    requires Fine(max, fs) && Progresses(V1(max))
    ensures Feed(V1(max), Between(false, []), WireAll(fs)) == Between(fs != [], fs)
  {
    if fs != [] {
      var n := |fs| - 1;
      var m, d := V1(max), Between(false, []);
      StreamRoundTrip(max, fs[..n]);
      assert fs == fs[..n] + [fs[n]];
      WireAllAppend(fs[..n], [fs[n]]);
      WireAllOne(fs[n]);
      FeedSplit(m, d, WireAll(fs[..n]), Wire(fs[n]));
      FrameAfter(max, fs[..n] != [], fs[..n], fs[n]);
    }
  }

  /** A frame is delivered with its last byte, not before. */
  lemma PartDelivers(max: int, out: seq<Frame>, paused: bool, f: Frame, part: seq<Byte>, tail: seq<Byte>)
    requires Fits(f) && Accepts(max, |f.body|) && Progresses(V1(max)) && Wire(f) == part + tail && tail != []
    ensures var e := Feed(V1(max), Between(paused, out), part);
            e.out == out && !e.failed
  {
    var m, d := V1(max), Between(paused, out);
    var e := Feed(m, d, part);
    FrameAfter(max, paused, out, f);
    FeedSplit(m, d, part, tail);
    FeedGrows(m, d, part);
    FeedGrows(m, e, tail);
    assert Feed(m, e, tail) == Between(true, out + [f]);
    assert |e.out| < |out + [f]|;
  }

  /** A prefix of a stream decodes to exactly the frames that are whole in it. */
  lemma PrefixDecodes(max: int, fs: seq<Frame>, n: nat, part: seq<Byte>, tail: seq<Byte>)
    requires Fine(max, fs) && Progresses(V1(max)) && n <= |fs|
    requires if n == |fs| then part == [] else Wire(fs[n]) == part + tail && tail != []
    ensures var e := Feed(V1(max), Between(false, []), WireAll(fs[..n]) + part);
            e.out == fs[..n] && !e.failed
  {
    var m, d := V1(max), Between(false, []);
    StreamRoundTrip(max, fs[..n]);
    if n == |fs| {
      assert WireAll(fs[..n]) + part == WireAll(fs[..n]);
    } else {
      FeedSplit(m, d, WireAll(fs[..n]), part);
      PartDelivers(max, fs[..n], fs[..n] != [], fs[n], part, tail);
    }
  }
}
