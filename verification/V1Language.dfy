/**
 What the framing of v1_encoder_t and v1_decoder_t is, byte by byte: a parser
 that looks at a whole stream, and the proof that the decoder, a machine that
 is fed step by step, reads every stream like it.
 */
module V1Language {
  import opened Basics
  import opened WireFormat
  import opened Decoder
  import opened V1Codec

  // ---------------------------------------------------------------- integers

  /** Network byte order: the first byte is the most significant one. */
  lemma {:induction false} MostSignificantFirst(x: Byte, bytes: seq<Byte>)
    ensures Get([x] + bytes) == x * Power(|bytes|) + Get(bytes)
  {
    if bytes == [] {
      assert [x] + bytes == [x];
      assert Get([x][..0]) == 0;
    } else {
      var n := |bytes| - 1;
      var all := [x] + bytes;
      assert all[..|all| - 1] == [x] + bytes[..n];
      MostSignificantFirst(x, bytes[..n]);
      TimesPower(x, n);
    }
  }

  lemma TimesPower(x: nat, n: nat)
    ensures 256 * (x * Power(n)) == x * Power(n + 1)
  {
    var p := Power(n);
    assert 256 * (x * p) == x * (256 * p);
  }

  // ---------------------------------------------------------------- the language

  /** The size at the head of the data, if it is there: the length of flags and
      body together, in one byte, or in eight behind the byte 255. */
  datatype Head = Cut | Head(size: nat, length: nat)

  function HeadOf(data: seq<Byte>): Head {
    if |data| == 0 then Cut
    else if data[0] < 255 then Head(data[0], 1)
    else if |data| < 9 then Cut
    else Head(Get(data[1..9]), 9)
  }

  datatype Reading = Reading(frames: seq<Frame>, failed: bool)

  /** A size of zero and a body above the limit are errors; otherwise a frame follows. */
  function Read(max: int, data: seq<Byte>): Reading
    decreases |data|, 0
  {
    match HeadOf(data)
    case Cut => Reading([], false)
    case Head(size, k) =>
      if size == 0 || (0 <= max < size - 1) then Reading([], true)
      else ReadFrame(max, size, data[k..])
  }

  /** A flags byte, of which the lowest bit counts, and the rest of the size is the body. */
  function ReadFrame(max: int, size: nat, data: seq<Byte>): Reading
    requires size > 0
    decreases |data|
  {
    if data == [] then Reading([], false) else ReadBody(max, size - 1, data[0] % 2 == 1, data[1..])
  }

  /** The body, and then the next frame. */
  function ReadBody(max: int, n: nat, more: bool, data: seq<Byte>): Reading
    decreases |data|, 1
  {
    if |data| < n then Reading([], false)
    else
      var r := Read(max, data[n..]);
      Reading([Frame(more, data[..n])] + r.frames, r.failed)
  }

  // ---------------------------------------------------------------- the decoder reads it

  /** The decoder ends with these frames more, failed or not. */
  ghost predicate Yields(m: Machine<State, Frame>, d: Dec<State, Frame>, data: seq<Byte>, r: Reading)
    requires Sound(m, d) && Progresses(m)
  {
    Feed(m, d, data).out == d.out + r.frames && Feed(m, d, data).failed == r.failed
  }

  /** The decoder in a state that waits for data, with nothing of it yet. */
  function Waiting(s: State, out: seq<Frame>): Dec<State, Frame> {
    Dec(s, [], false, false, out)
  }

  /** With less data than the state waits for nothing more comes out. */
  lemma TooShort(m: Machine<State, Frame>, max: int, s: State, out: seq<Frame>, data: seq<Byte>)
    requires m == V1(max) && Progresses(m) && |data| < Need(s)
    ensures Yields(m, Waiting(s, out), data, Reading([], false))
  {
    assert out + [] == out;
  }

  lemma Takes(m: Machine<State, Frame>, max: int, s: State, out: seq<Frame>, a: seq<Byte>, b: seq<Byte>)
    requires m == V1(max) && Progresses(m) && |a| == Need(s)
    ensures Feed(m, Waiting(s, out), a + b) == Feed(m, Advance(m, Waiting(s, out), a), b)
    ensures Advance(m, Waiting(s, out), a) ==
            var (s', r) := Step(max, s, a);
            Dec(s', [], r.Message?, r.Bad?, if r.Message? then out + [r.msg] else out)
  {
    FeedOnce(m, Waiting(s, out), a, b);
    assert [] + a == a;
  }

  lemma PausedAlike(m: Machine<State, Frame>, paused: bool, out: seq<Frame>, data: seq<Byte>, r: Reading)
    requires Progresses(m) && m.need(Size) > 0 && Yields(m, Between(false, out), data, r)
    ensures Yields(m, Between(paused, out), data, r)
  {
  }

  /** The body: too short, or a frame and what follows it. */
  lemma ReadsBody(m: Machine<State, Frame>, max: int, n: nat, more: bool, out: seq<Frame>, data: seq<Byte>)
    requires m == V1(max) && Progresses(m)
    requires n <= |data| ==> Yields(m, Between(true, out + [Frame(more, data[..n])]), data[n..], Read(max, data[n..]))
    ensures Yields(m, Waiting(Body(n, more), out), data, ReadBody(max, n, more, data))
  {
    if |data| < n {
      TooShort(m, max, Body(n, more), out, data);
    } else {
      assert data == data[..n] + data[n..];
      Takes(m, max, Body(n, more), out, data[..n], data[n..]);
      Regroup(out, [Frame(more, data[..n])], Read(max, data[n..]).frames);
    }
  }

  lemma ReadsFlags(m: Machine<State, Frame>, max: int, n: nat, out: seq<Frame>, flags: Byte, rest: seq<Byte>)
    requires m == V1(max) && Progresses(m)
    requires n <= |rest| ==>
               Yields(m, Between(true, out + [Frame(flags % 2 == 1, rest[..n])]), rest[n..], Read(max, rest[n..]))
    ensures Yields(m, Waiting(Flags(n), out), [flags] + rest, ReadBody(max, n, flags % 2 == 1, rest))
  {
    Takes(m, max, Flags(n), out, [flags], rest);
    ReadsBody(m, max, n, flags % 2 == 1, out, rest);
  }

  /** A size is read: an error, or the flags come next. */
  lemma ReadsSize(m: Machine<State, Frame>, max: int, s: State, size: nat, out: seq<Frame>, a: seq<Byte>,
                  data: seq<Byte>)
    requires m == V1(max) && Progresses(m) && |a| == Need(s)
    requires (s == Size && a[0] < 255 && size == a[0]) || (s == LongSize && size == Get(a))
    ensures Feed(m, Waiting(s, out), a + data) ==
            if size == 0 || (0 <= max < size - 1) then Dec(s, [], false, true, out)
            else Feed(m, Waiting(Flags(size - 1), out), data)
  {
    Takes(m, max, s, out, a, data);
    SizeStep(max, s, size, a);
  }

  lemma SizeStep(max: int, s: State, size: nat, a: seq<Byte>)
    requires |a| == Need(s) && ((s == Size && a[0] < 255 && size == a[0]) || (s == LongSize && size == Get(a)))
    ensures Step(max, s, a) ==
            if size == 0 || (0 <= max < size - 1) then (s, Bad) else (Flags(size - 1), Reply.More)
  {
  }

  lemma FailsAt(max: int, out: seq<Frame>, data: seq<Byte>, k: nat, size: nat)
    requires HeadOf(data) == Head(size, k) && (size == 0 || (0 <= max < size - 1))
    ensures Read(max, data) == Reading([], true)
  {
  }

  /** The long size is read in two steps. */
  lemma ReadsLong(m: Machine<State, Frame>, max: int, out: seq<Frame>, data: seq<Byte>)
    requires m == V1(max) && Progresses(m) && |data| >= 1 && data[0] == 255
    ensures Feed(m, Waiting(Size, out), data) == Feed(m, Waiting(LongSize, out), data[1..])
  {
    assert data == [data[0]] + data[1..];
    Takes(m, max, Size, out, [data[0]], data[1..]);
  }

  /** Every stream of bytes, well formed or not, decodes as the parser says:
      the same frames, and an error exactly where the parser finds one. */
  lemma {:induction false} DecodesAsRead(m: Machine<State, Frame>, max: int, out: seq<Frame>, data: seq<Byte>)
    requires m == V1(max) && Progresses(m)
    ensures Yields(m, Between(false, out), data, Read(max, data))
    decreases |data|
  {
    match HeadOf(data)
    case Cut =>
      if data == [] {
        TooShort(m, max, Size, out, data);
      } else {
        ReadsLong(m, max, out, data);
        TooShort(m, max, LongSize, out, data[1..]);
      }
    case Head(size, k) =>
      SizeIsRead(m, max, out, data, k, size);
      if size == 0 || (0 <= max < size - 1) {
        FailsAt(max, out, data, k, size);
        assert out + [] == out;
      } else {
        FrameIsRead(m, max, size, out, data[k..]);
      }
  }

  lemma {:induction false} FrameIsRead(m: Machine<State, Frame>, max: int, size: nat, out: seq<Frame>, data: seq<Byte>)
    requires m == V1(max) && Progresses(m) && size > 0
    ensures Yields(m, Waiting(Flags(size - 1), out), data, ReadFrame(max, size, data))
    decreases |data|
  {
    if data == [] {
      TooShort(m, max, Flags(size - 1), out, data);
    } else {
      var n, flags, rest := size - 1, data[0], data[1..];
      assert data == [flags] + rest;
      if n <= |rest| {
        var next, out1 := rest[n..], out + [Frame(flags % 2 == 1, rest[..n])];
        DecodesAsRead(m, max, out1, next);
        PausedAlike(m, true, out1, next, Read(max, next));
      }
      ReadsFlags(m, max, n, out, flags, rest);
    }
  }

  /** After the size, in its short or its long form. */
  lemma SizeIsRead(m: Machine<State, Frame>, max: int, out: seq<Frame>, data: seq<Byte>, k: nat, size: nat)
    requires m == V1(max) && Progresses(m) && HeadOf(data) == Head(size, k)
    ensures k <= |data|
    ensures var e := Feed(m, Between(false, out), data);
            if size == 0 || (0 <= max < size - 1) then e.failed && e.out == out
            else e == Feed(m, Waiting(Flags(size - 1), out), data[k..])
  {
    if k == 1 {
      assert data == data[..1] + data[1..];
      ReadsSize(m, max, Size, size, out, data[..1], data[1..]);
    } else {
      ReadsLong(m, max, out, data);
      assert data[1..] == data[1..9] + data[9..];
      ReadsSize(m, max, LongSize, size, out, data[1..9], data[9..]);
    }
  }

  /** A frame takes two bytes more than its body, or ten from 254 bytes on. */
  lemma WireLength(f: Frame)
    ensures |Wire(f)| == |f.body| + if |f.body| < 254 then 2 else 10
  {
  }
}
