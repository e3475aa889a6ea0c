/**
 pgm_sender_t (src/pgm_sender.cpp): frames are packed into packets; the first
 two bytes of a packet say where in it the first message begins.
 */
module PgmSender {
  import opened Basics
  import opened Encoder
  import opened V1Codec

  /** The offset that says no message begins in the packet. */
  const NO_START: nat := 0xffff

  datatype Packet = Packet(offset: nat, payload: seq<Byte>)

  function Payloads(ps: seq<Packet>): seq<Byte> {
    if ps == [] then [] else Payloads(ps[..|ps| - 1]) + ps[|ps| - 1].payload
  }

  /** Frame k is the first of a multipart message. */
  predicate First(frames: seq<Frame>, k: nat)
    requires k <= |frames|
  {
    k == 0 || !frames[k - 1].more
  }

  /** Where frame k begins in the stream. */
  function Position(frames: seq<Frame>, k: nat): nat
    requires k <= |frames|
  {
    |WireAll(frames[..k])|
  }

  ghost predicate StartAt(frames: seq<Frame>, pos: nat) {
    exists k :: 0 <= k <= |frames| && First(frames, k) && Position(frames, k) == pos
  }

  /** No multipart message begins at the positions from lo up to hi. */
  ghost predicate NoStart(frames: seq<Frame>, lo: nat, hi: nat) {
    forall k :: 0 <= k <= |frames| && First(frames, k) ==> Position(frames, k) < lo || hi <= Position(frames, k)
  }

  /** The offset of a packet whose payload begins at pos names a beginning. */
  ghost predicate Marks(frames: seq<Frame>, pos: nat, p: Packet) {
    p.offset != NO_START ==> p.offset <= |p.payload| && StartAt(frames, pos + p.offset)
  }

  lemma PositionStep(frames: seq<Frame>, k: nat)
    requires k < |frames|
    ensures Position(frames, k + 1) == Position(frames, k) + |Wire(frames[k])|
  {
    assert frames[..k + 1] == frames[..k] + [frames[k]];
    WireAllAppend(frames[..k], [frames[k]]);
    WireAllOne(frames[k]);
  }

  lemma {:induction false} PositionGrows(frames: seq<Frame>, j: nat, k: nat)
    requires j < k <= |frames|
    ensures Position(frames, j) + |Wire(frames[j])| <= Position(frames, k)
    ensures Position(frames, j) + |Wire(frames[k - 1])| <= Position(frames, k)
    decreases k
  {
    PositionStep(frames, k - 1);
    if j < k - 1 { PositionGrows(frames, j, k - 1); }
  }

  lemma PositionOfPrefix(frames: seq<Frame>, more: seq<Frame>, k: nat)
    requires k <= |frames|
    ensures Position(frames + more, k) == Position(frames, k) && First(frames + more, k) == First(frames, k)
  {
    assert (frames + more)[..k] == frames[..k];
  }

  lemma StartStays(frames: seq<Frame>, more: seq<Frame>, pos: nat)
    requires StartAt(frames, pos)
    ensures StartAt(frames + more, pos)
  {
    var k :| 0 <= k <= |frames| && First(frames, k) && Position(frames, k) == pos;
    PositionOfPrefix(frames, more, k);
  }

  /** All of the frames have begun before pos, so none begins after it but at the very end. */
  lemma NoStartBefore(frames: seq<Frame>, lo: nat, hi: nat)
    requires hi <= |WireAll(frames)|
    requires frames != [] ==> |WireAll(frames)| < lo + |Wire(frames[|frames| - 1])|
    ensures NoStart(frames, lo, hi)
  {
    assert frames[..|frames|] == frames;
    forall k | 0 <= k <= |frames| && First(frames, k)
      ensures Position(frames, k) < lo || hi <= Position(frames, k)
    {
      if k < |frames| { PositionGrows(frames, k, |frames|); }
    }
  }

  /** Appending a frame begins nothing new, unless it is a first frame. */
  lemma NoStartAppend(frames: seq<Frame>, f: Frame, lo: nat, hi: nat)
    requires NoStart(frames, lo, |WireAll(frames)|) && !First(frames, |frames|) && hi <= |WireAll(frames + [f])|
    ensures NoStart(frames + [f], lo, hi)
  {
    var all := frames + [f];
    assert frames[..|frames|] == frames && all[..|all|] == all;
    forall k | 0 <= k <= |all| && First(all, k)
      ensures Position(all, k) < lo || hi <= Position(all, k)
    {
      if k < |frames| {
        PositionOfPrefix(frames, [f], k);
        PositionGrows(frames, k, |frames|);
      } else if k == |frames| {
        PositionOfPrefix(frames, [f], k);
      }
    }
  }

  lemma NoStartKeeps(frames: seq<Frame>, more: seq<Frame>, lo: nat, hi: nat)
    requires NoStart(frames, lo, hi) && hi <= |WireAll(frames)|
    ensures NoStart(frames + more, lo, hi)
  {
    var all := frames + more;
    assert frames[..|frames|] == frames;
    forall k | 0 <= k <= |all| && First(all, k)
      ensures Position(all, k) < lo || hi <= Position(all, k)
    {
      PositionOfPrefix(frames, more, |frames|);
      if k <= |frames| {
        PositionOfPrefix(frames, more, k);
      } else {
        PositionGrows(all, |frames|, k);
      }
    }
  }

  lemma PayloadsOne(log: seq<Packet>, p: Packet)
    ensures Payloads(log + [p]) == Payloads(log) + p.payload
  {
    assert (log + [p])[..|log|] == log;
  }

  /** Where packet i begins in the stream. */
  function Offset(packets: seq<Packet>, i: nat): nat
    requires i <= |packets|
  {
    |Payloads(packets[..i])|
  }

  lemma {:induction false} PayloadsPrefix(packets: seq<Packet>, i: nat)
    requires i <= |packets|
    ensures Payloads(packets[..i]) <= Payloads(packets)
    decreases |packets|
  {
    var n := |packets| - 1;
    if i <= n {
      PayloadsPrefix(packets[..n], i);
      assert packets[..n][..i] == packets[..i];
    } else {
      assert packets[..i] == packets;
    }
  }

  lemma PayloadsStep(packets: seq<Packet>, i: nat)
    requires i < |packets|
    ensures Payloads(packets[..i + 1]) == Payloads(packets[..i]) + packets[i].payload
  {
    assert packets[..i + 1] == packets[..i] + [packets[i]];
    PayloadsOne(packets[..i], packets[i]);
  }

  // ---------------------------------------------------------------- the sender

  ghost predicate Marked(frames: seq<Frame>, log: seq<Packet>) {
    forall i :: 0 <= i < |log| ==> Marks(frames, Offset(log, i), log[i])
  }

  /** How far into the packet no message begins. */
  function Silent(p: Packet): nat {
    if p.offset == NO_START then |p.payload| else p.offset
  }

  /** No multipart message begins in the packet before the one its offset names. */
  ghost predicate Earliest(frames: seq<Frame>, pos: nat, p: Packet) {
    NoStart(frames, pos, pos + Silent(p))
  }

  ghost predicate AllEarliest(frames: seq<Frame>, log: seq<Packet>) {
    forall i :: 0 <= i < |log| ==> Earliest(frames, Offset(log, i), log[i])
  }

  /** The 16-bit field written for a marked beginning. */
  function Field(mark: Option<nat>): nat {
    if mark.Some? then mark.value % 0x10000 else NO_START
  }

  /** What the mark says of a payload that begins at base: it is a beginning,
      and for a payload that a 16-bit offset can address, the earliest one. */
  ghost predicate Located(frames: seq<Frame>, base: nat, length: nat, mark: Option<nat>, cap: nat) {
    && (mark.Some? ==> mark.value <= length && mark.value < cap && StartAt(frames, base + mark.value))
    && (cap <= 0xffff ==> NoStart(frames, base, base + if mark.Some? then mark.value else length))
  }

  lemma LocateHere(frames: seq<Frame>, base: nat, length: nat, mark: Option<nat>, cap: nat)
    requires Located(frames, base, length, mark, cap) && length < cap && Field(mark) == NO_START
    requires First(frames, |frames|) && |WireAll(frames)| == base + length
    ensures Located(frames, base, length, Some(length), cap)
  {
    assert cap <= 0xffff ==> mark.None?;
    assert frames[..|frames|] == frames;
    assert Position(frames, |frames|) == base + length;
  }

  lemma LocateMore(frames: seq<Frame>, f: Frame, base: nat, length: nat, more: nat, mark: Option<nat>, cap: nat)
    requires Located(frames, base, length, mark, cap) && length < cap
    requires First(frames, |frames|) ==> Field(mark) != NO_START || mark == Some(length)
    requires |WireAll(frames)| == base + length && base + length + more <= |WireAll(frames + [f])|
    ensures Located(frames + [f], base, length + more, mark, cap)
  {
    if mark.Some? { StartStays(frames, [f], base + mark.value); }
    if cap <= 0xffff {
      if mark.Some? {
        NoStartKeeps(frames, [f], base, base + mark.value);
      } else {
        NoStartAppend(frames, f, base, base + length + more);
      }
    }
  }

  // ---------------------------------------------------------------- building a packet

  /** A packet being built: its payload and offset so far, what the encoder
      still holds, the more flag of the last frame and how many were taken. */
  datatype Draft = Draft(payload: seq<Byte>, offset: nat, rest: seq<Byte>, more: bool, taken: nat)

  /** What the encoder makes of a frame. */
  datatype Coded = Coded(bytes: seq<Byte>, more: bool)

  function Code(f: Frame): Coded {
    Coded(Wire(f), f.more)
  }

  function Codes(queue: seq<Frame>): (cs: seq<Coded>)
    ensures |cs| == |queue|
  {
    seq(|queue|, i requires 0 <= i < |queue| => Code(queue[i]))
  }

  function Least(a: nat, b: nat): nat {
    if a <= b then a else b
  }

  /** The first n bytes, or all there are. */
  function Front(bytes: seq<Byte>, n: nat): (r: seq<Byte>)
    ensures |r| == Least(|bytes|, n)
  {
    if n == 0 || bytes == [] then [] else [bytes[0]] + Front(bytes[1..], n - 1)
  }

  /** What follows them. */
  function Back(bytes: seq<Byte>, n: nat): (r: seq<Byte>)
    ensures |r| == |bytes| - Least(|bytes|, n)
  {
    if n == 0 || bytes == [] then bytes else Back(bytes[1..], n - 1)
  }

  lemma {:induction false} FrontBack(bytes: seq<Byte>, n: nat)
    ensures Front(bytes, n) + Back(bytes, n) == bytes
    decreases n
  {
    if n > 0 && bytes != [] {
      FrontBack(bytes[1..], n - 1);
      Regroup([bytes[0]], Front(bytes[1..], n - 1), Back(bytes[1..], n - 1));
      assert [bytes[0]] + bytes[1..] == bytes;
    }
  }

  /** A frame is taken and as much of it is added as there is room for. */
  function Taken(d: Draft, c: Coded, cap: nat): Draft
    requires |d.payload| < cap
  {
    var room := cap - |d.payload|;
    Draft(d.payload + Front(c.bytes, room), d.offset, Back(c.bytes, room), c.more, d.taken + 1)
  }

  /** A first frame would begin here, and none is marked yet. */
  function Noted(d: Draft): Draft {
    if !d.more && d.offset == NO_START then d.(offset := |d.payload| % 0x10000) else d
  }

  /** Frames are taken until the packet is full or the session has no more. */
  function Fill(d: Draft, codes: seq<Coded>, cap: nat): Draft
    requires d.taken <= |codes|
    decreases |codes| - d.taken
  {
    if |d.payload| >= cap then d
    else if d.taken == |codes| then Noted(d)
    else Fill(Taken(Noted(d), codes[d.taken], cap), codes, cap)
  }

  /** The packet that is built from what the encoder holds and the queue. */
  function Build(rest: seq<Byte>, more: bool, codes: seq<Coded>, cap: nat): Draft {
    Fill(Begun(rest, more, cap), codes, cap)
  }

  /** A packet begins with what the encoder holds. */
  function Begun(rest: seq<Byte>, more: bool, cap: nat): Draft {
    Draft(Front(rest, cap), NO_START, Back(rest, cap), more, 0)
  }

  /** There is something to send whenever the encoder or the session has
      something, and there is room. */
  lemma SomethingIsBuilt(rest: seq<Byte>, more: bool, queue: seq<Frame>, cap: nat)
    requires cap > 0 && (rest != [] || queue != [])
    ensures Build(rest, more, Codes(queue), cap).payload != []
  {
    var d := Begun(rest, more, cap);
    if d.payload == [] {
      FillStep(d, queue, cap);
      PayloadGrows(Taken(Noted(d), Code(queue[0]), cap), Codes(queue), cap);
    } else {
      PayloadGrows(d, Codes(queue), cap);
    }
  }

  lemma {:induction false} PayloadGrows(d: Draft, codes: seq<Coded>, cap: nat)
    requires d.taken <= |codes|
    ensures |d.payload| <= |Fill(d, codes, cap).payload|
    decreases |codes| - d.taken
  {
    if |d.payload| < cap && d.taken < |codes| {
      PayloadGrows(Taken(Noted(d), codes[d.taken], cap), codes, cap);
    }
  }

  lemma FillStep(d: Draft, queue: seq<Frame>, cap: nat)
    requires |d.payload| < cap && d.taken < |queue|
    ensures Fill(d, Codes(queue), cap) == Fill(Taken(Noted(d), Code(queue[d.taken]), cap), Codes(queue), cap)
  {
  }

  lemma FillEnd(d: Draft, queue: seq<Frame>, cap: nat)
    requires |d.payload| >= cap || d.taken == |queue|
    requires d.taken <= |queue|
    ensures Fill(d, Codes(queue), cap) == if |d.payload| < cap then Noted(d) else d
  {
  }

  /** There is one way to cut the bytes at a place. */
  lemma CutsAlike(a: seq<Byte>, b: seq<Byte>, c: seq<Byte>, d: seq<Byte>)
    requires a + b == c + d && |a| == |c|
    ensures a == c && b == d
  {
    assert a == (a + b)[..|a|] && b == (a + b)[|a|..];
    assert c == (c + d)[..|c|] && d == (c + d)[|c|..];
  }

  /** What encode returns is as much as there is room for. */
  lemma EncodesMost(out: seq<Byte>, left: seq<Byte>, all: seq<Byte>, size: nat)
    requires out + left == all && |out| <= size && (|out| < size ==> left == [])
    ensures out == Front(all, size) && left == Back(all, size)
  {
    FrontBack(all, size);
    CutsAlike(out, left, Front(all, size), Back(all, size));
  }

  /** All bytes taken so far are what was emitted before, the payload and the
      rest; the rest is less than what was taken last. */
  ghost predicate Balanced(d: Draft, all: seq<Byte>, last: nat, ends: bool, base: seq<Byte>, cap: nat) {
    && Joins(base + d.payload, d.rest, all) && d.more == !ends && |d.rest| < last
    && |d.payload| <= cap && (|d.payload| < cap ==> d.rest == [])
  }

  /** The bytes of the last frame, or one when there is none. */
  function LastSize(sent: seq<Frame>): nat {
    if sent == [] then 1 else |Wire(sent[|sent| - 1])|
  }

  /** The frames taken so far are what was emitted before, the payload and the
      rest, and every one of them has begun to be emitted. */
  ghost predicate Accounted(d: Draft, sent: seq<Frame>, base: seq<Byte>, cap: nat) {
    Balanced(d, WireAll(sent), LastSize(sent), First(sent, |sent|), base, cap)
  }

  lemma TakenBalanced(d: Draft, c: Coded, all: seq<Byte>, last: nat, ends: bool, base: seq<Byte>, cap: nat)
    requires Balanced(d, all, last, ends, base, cap) && |d.payload| < cap && c.bytes != []
    ensures Balanced(Taken(d, c, cap), all + c.bytes, |c.bytes|, !c.more, base, cap)
  {
    var room := cap - |d.payload|;
    JoinsIsAppend(base + d.payload, d.rest, all);
    NothingBehind(base + d.payload, d.rest);
    SplitAfter(base, d.payload, c.bytes, room);
    JoinsIsAppend(base + (d.payload + Front(c.bytes, room)), Back(c.bytes, room), all + c.bytes);
  }

  lemma TakenAccounted(d: Draft, f: Frame, sent: seq<Frame>, base: seq<Byte>, cap: nat)
    requires Accounted(d, sent, base, cap) && |d.payload| < cap
    ensures Accounted(Taken(d, Code(f), cap), sent + [f], base, cap)
  {
    TakenBalanced(d, Code(f), WireAll(sent), LastSize(sent), First(sent, |sent|), base, cap);
    AddWire(sent, f);
  }

  lemma NothingBehind(a: seq<Byte>, b: seq<Byte>)
    requires b == []
    ensures a + b == a
  {
  }

  lemma AddWire(sent: seq<Frame>, f: Frame)
    ensures WireAll(sent + [f]) == WireAll(sent) + Code(f).bytes && LastSize(sent + [f]) == |Code(f).bytes|
    ensures First(sent + [f], |sent + [f]|) == !Code(f).more
  {
    WireAllAppend(sent, [f]);
    WireAllOne(f);
  }

  lemma SplitAfter(base: seq<Byte>, payload: seq<Byte>, w: seq<Byte>, n: nat)
    ensures base + payload + w == base + (payload + Front(w, n)) + Back(w, n)
  {
    FrontBack(w, n);
    Regroup(base + payload, Front(w, n), Back(w, n));
    Regroup(base, payload, Front(w, n));
  }

  lemma TakenLocated(d: Draft, f: Frame, sent: seq<Frame>, base: seq<Byte>, mark: Option<nat>, cap: nat)
    requires Accounted(d, sent, base, cap) && |d.payload| < cap && Located(sent, |base|, |d.payload|, mark, cap)
    requires First(sent, |sent|) ==> Field(mark) != NO_START || mark == Some(|d.payload|)
    ensures Located(sent + [f], |base|, |Taken(d, Code(f), cap).payload|, mark, cap)
  {
    TakenAccounted(d, f, sent, base, cap);
    LocateMore(sent, f, |base|, |d.payload|, |Taken(d, Code(f), cap).payload| - |d.payload|, mark, cap);
  }

  /** Noting a beginning marks it. */
  lemma NotedLocated(d: Draft, sent: seq<Frame>, base: seq<Byte>, mark: Option<nat>, cap: nat)
    returns (mark': Option<nat>)
    requires Accounted(d, sent, base, cap) && |d.payload| < cap && Located(sent, |base|, |d.payload|, mark, cap)
    requires d.offset == Field(mark)
    ensures Accounted(Noted(d), sent, base, cap) && Located(sent, |base|, |d.payload|, mark', cap)
    ensures Noted(d).offset == Field(mark')
    ensures First(sent, |sent|) ==> Field(mark') != NO_START || mark' == Some(|d.payload|)
  {
    mark' := mark;
    if !d.more && d.offset == NO_START {
      LocateHere(sent, |base|, |d.payload|, mark, cap);
      mark' := Some(|d.payload|);
    }
  }

  /** The draft and the first frames of the queue account for each other, and
      its offset is a mark of a beginning, the earliest one when 16 bits reach it. */
  ghost predicate Kept(d: Draft, queue: seq<Frame>, sent: seq<Frame>, base: seq<Byte>, mark: Option<nat>, cap: nat) {
    && d.taken <= |queue| && d.offset == Field(mark)
    && Accounted(d, sent + queue[..d.taken], base, cap)
    && Located(sent + queue[..d.taken], |base|, |d.payload|, mark, cap)
  }

  lemma KeptJoins(d: Draft, queue: seq<Frame>, sent: seq<Frame>, base: seq<Byte>, mark: Option<nat>, cap: nat)
    requires Kept(d, queue, sent, base, mark, cap)
    ensures Joins(base + d.payload, d.rest, WireAll(sent + queue[..d.taken]))
  {
  }

  lemma TakeOne(sent: seq<Frame>, queue: seq<Frame>, i: nat)
    requires i < |queue|
    ensures sent + queue[..i] + [queue[i]] == sent + queue[..i + 1]
  {
    assert queue[..i] + [queue[i]] == queue[..i + 1];
  }

  lemma NotedKept(d: Draft, queue: seq<Frame>, sent: seq<Frame>, base: seq<Byte>, mark: Option<nat>, cap: nat)
    returns (mark': Option<nat>)
    requires Kept(d, queue, sent, base, mark, cap) && |d.payload| < cap
    ensures Kept(Noted(d), queue, sent, base, mark', cap)
  {
    mark' := NotedLocated(d, sent + queue[..d.taken], base, mark, cap);
  }

  lemma TakenKept(d: Draft, queue: seq<Frame>, sent: seq<Frame>, base: seq<Byte>, mark: Option<nat>, cap: nat)
    returns (mark': Option<nat>)
    requires Kept(d, queue, sent, base, mark, cap) && |d.payload| < cap && d.taken < |queue|
    ensures Kept(Taken(Noted(d), Code(queue[d.taken]), cap), queue, sent, base, mark', cap)
  {
    var f, frames := queue[d.taken], sent + queue[..d.taken];
    TakeOne(sent, queue, d.taken);
    mark' := TakenBoth(d, f, frames, base, mark, cap);
    KeptOf(Taken(Noted(d), Code(f), cap), queue, sent, frames + [f], base, mark', cap);
  }

  lemma KeptOf(d: Draft, queue: seq<Frame>, sent: seq<Frame>, frames: seq<Frame>, base: seq<Byte>, mark: Option<nat>,
               cap: nat)
    requires d.taken <= |queue| && frames == sent + queue[..d.taken] && d.offset == Field(mark)
    requires Accounted(d, frames, base, cap) && Located(frames, |base|, |d.payload|, mark, cap)
    ensures Kept(d, queue, sent, base, mark, cap)
  {
  }

  lemma TakenBoth(d: Draft, f: Frame, sent: seq<Frame>, base: seq<Byte>, mark: Option<nat>, cap: nat)
    returns (mark': Option<nat>)
    requires Accounted(d, sent, base, cap) && |d.payload| < cap && Located(sent, |base|, |d.payload|, mark, cap)
    requires d.offset == Field(mark)
    ensures var e := Taken(Noted(d), Code(f), cap);
            && e.offset == Field(mark') && Accounted(e, sent + [f], base, cap)
            && Located(sent + [f], |base|, |e.payload|, mark', cap)
  {
    mark' := NotedLocated(d, sent, base, mark, cap);
    TakenAccounted(Noted(d), f, sent, base, cap);
    TakenLocated(Noted(d), f, sent, base, mark', cap);
  }

  /** Filling a packet keeps the accounts and the mark. */
  lemma {:induction false} FillKept(d: Draft, queue: seq<Frame>, sent: seq<Frame>, base: seq<Byte>,
                                    mark: Option<nat>, cap: nat)
    returns (mark': Option<nat>)
    requires Kept(d, queue, sent, base, mark, cap)
    ensures Kept(Fill(d, Codes(queue), cap), queue, sent, base, mark', cap)
    ensures |Fill(d, Codes(queue), cap).payload| < cap ==> Fill(d, Codes(queue), cap).taken == |queue|
    decreases |queue| - d.taken
  {
    if |d.payload| >= cap {
      mark' := mark;
    } else if d.taken == |queue| {
      mark' := NotedKept(d, queue, sent, base, mark, cap);
    } else {
      var noted := TakenKept(d, queue, sent, base, mark, cap);
      mark' := FillKept(Taken(Noted(d), Code(queue[d.taken]), cap), queue, sent, base, noted, cap);
    }
  }

  /** The packet that is built from the rest of the stream continues the stream. */
  lemma BuildKept(rest: seq<Byte>, more: bool, queue: seq<Frame>, sent: seq<Frame>, base: seq<Byte>, cap: nat)
    returns (mark: Option<nat>)
    requires WireAll(sent) == base + rest && more == !First(sent, |sent|)
    requires |rest| < LastSize(sent)
    ensures var e := Build(rest, more, Codes(queue), cap);
            Kept(e, queue, sent, base, mark, cap) && (|e.payload| < cap ==> e.taken == |queue|)
  {
    BegunKept(rest, more, queue, sent, base, cap);
    mark := FillKept(Begun(rest, more, cap), queue, sent, base, None, cap);
  }

  lemma BegunKept(rest: seq<Byte>, more: bool, queue: seq<Frame>, sent: seq<Frame>, base: seq<Byte>, cap: nat)
    requires WireAll(sent) == base + rest && more == !First(sent, |sent|)
    requires |rest| < LastSize(sent)
    ensures Kept(Begun(rest, more, cap), queue, sent, base, None, cap)
  {
    assert sent + queue[..0] == sent;
    FrontBack(rest, cap);
    Regroup(base, Front(rest, cap), Back(rest, cap));
    JoinsIsAppend(base + Front(rest, cap), Back(rest, cap), WireAll(sent));
    NoStartBefore(sent, |base|, |base| + |Front(rest, cap)|);
  }

  // ---------------------------------------------------------------- the packer

  /** The encoder side of the sender: packets are built here. */
  class PackerT {
    /** The room for payload in a packet. */
    const cap: nat
    const encoder: EncoderT
    var moreFlag: bool
    /** The frames taken from the session and the bytes put into packets. */
    ghost var sent: seq<Frame>
    ghost var emitted: seq<Byte>

    /** What is taken is emitted or still in the encoder, and every frame that
        was taken has begun to be emitted. */
    ghost predicate Valid()
      reads this, encoder
    {
      && Joins(emitted, encoder.Remaining(), WireAll(sent))
      && moreFlag == !First(sent, |sent|)
      && |encoder.Remaining()| < LastSize(sent)
    }

    constructor (cap: nat)
      ensures Valid() && this.cap == cap && sent == [] && emitted == [] && fresh(encoder) && !encoder.inProgress
    {
      this.cap := cap;
      encoder := new EncoderT(0);
      moreFlag, sent, emitted := false, [], [];
      new;
      assert Wires([]) == [];
    }

    /** The packet that is being built. */
    ghost function Now(payload: seq<Byte>, offset: nat, taken: nat): Draft
      reads this`moreFlag, encoder
    {
      Draft(payload, offset, encoder.Remaining(), moreFlag, taken)
    }

    /** Take a frame from the session and encode as much of it as there is room for. */
    method Pull(payload: seq<Byte>, f: Frame, ghost d: Draft) returns (longer: seq<Byte>)
      requires !encoder.inProgress && |payload| < cap && d == Now(payload, d.offset, d.taken)
      modifies this`moreFlag, encoder
      ensures Now(longer, d.offset, d.taken + 1) == Taken(d, Code(f), cap)
      ensures |longer| <= cap && (|longer| < cap ==> !encoder.inProgress)
    {
      moreFlag := f.more;
      PiecesAreWire(f);
      encoder.LoadMsg(Pieces(f));
      var room := cap - |payload|;
      var chunk := encoder.Encode(false, room);
      EncodesMost(chunk, encoder.Remaining(), Wire(f), room);
      longer := payload + chunk;
    }

    /** The draft is the packet as far as it is built. */
    ghost predicate At(d: Draft, payload: seq<Byte>, offset: nat, taken: nat)
      reads this, encoder
    {
      d == Now(payload, offset, taken) && |payload| <= cap && (|payload| < cap ==> !encoder.inProgress)
    }

    /** The first batch of a packet is the rest of the frame in the encoder. */
    method Start() returns (payload: seq<Byte>, ghost d: Draft)
      modifies encoder
      ensures d == Begun(old(encoder.Remaining()), moreFlag, cap) && At(d, payload, NO_START, 0)
    {
      payload := encoder.Encode(false, cap);
      EncodesMost(payload, encoder.Remaining(), old(encoder.Remaining()), cap);
      d := Now(payload, NO_START, 0);
    }

    method AddNext(payload: seq<Byte>, offset: nat, taken: nat, f: Frame, ghost d: Draft)
      returns (longer: seq<Byte>, offset': nat, ghost d': Draft)
      requires At(d, payload, offset, taken) && |payload| < cap
      modifies this`moreFlag, encoder
      ensures d' == Taken(Noted(d), Code(f), cap) && At(d', longer, offset', taken + 1)
    {
      offset' := Mark(payload, offset);
      longer := Pull(payload, f, Noted(d));
      d' := Now(longer, offset', taken + 1);
    }

    /** Where the first message begins, if it is here and not known yet. */
    method Mark(payload: seq<Byte>, offset: nat) returns (offset': nat)
      ensures offset' == if !moreFlag && offset == NO_START then |payload| % 0x10000 else offset
    {
      if !moreFlag && offset == NO_START { return |payload| % 0x10000; }
      return offset;
    }

    /** Frames are added until the packet is full or the session has no more. */
    method AddFrames(first: seq<Byte>, queue: seq<Frame>, ghost start: Draft)
      returns (payload: seq<Byte>, offset: nat, taken: nat, ghost d: Draft)
      requires At(start, first, NO_START, 0)
      modifies this`moreFlag, encoder
      ensures At(d, payload, offset, taken) && taken <= |queue| && (|payload| >= cap || taken == |queue|)
      ensures Fill(start, Codes(queue), cap) == Fill(d, Codes(queue), cap)
    {
      payload, offset, taken, d := first, NO_START, 0, start;
      while |payload| < cap && taken < |queue|
        invariant At(d, payload, offset, taken) && taken <= |queue|
        invariant Fill(start, Codes(queue), cap) == Fill(d, Codes(queue), cap)
        decreases |queue| - taken
      {
        FillStep(d, queue, cap);
        payload, offset, d := AddNext(payload, offset, taken, queue[taken], d);
        taken := taken + 1;
      }
    }

    /** The packet is full, or there are no more frames for it. */
    method Finish(payload: seq<Byte>, offset: nat, taken: nat, ghost d: Draft) returns (p: Packet)
      requires At(d, payload, offset, taken)
      ensures Now(p.payload, p.offset, taken) == if |d.payload| < cap then Noted(d) else d
    {
      var offset' := offset;
      if |payload| < cap {
        offset' := Mark(payload, offset);
      }
      p := Packet(offset', payload);
    }

    /** Fill a packet from the encoder and the frames that the session has now. */
    method FillPacket(queue: seq<Frame>) returns (p: Packet, taken: nat)
      modifies this`moreFlag, encoder
      ensures Now(p.payload, p.offset, taken) == Build(old(encoder.Remaining()), old(moreFlag), Codes(queue), cap)
    {
      var payload, offset;
      ghost var start, d;
      payload, start := Start();
      payload, offset, taken, d := AddFrames(payload, queue, start);
      p := Finish(payload, offset, taken, d);
      FillEnd(d, queue, cap);
    }

    /** The packet continues what was sent and emitted before: it is full or all of
        the queue is taken, and its offset is that of a beginning. */
    ghost predicate Continues(before: seq<Frame>, base: seq<Byte>, queue: seq<Frame>, d: Draft, mark: Option<nat>)
      reads this
    {
      && d.taken <= |queue| && |d.payload| <= cap && (|d.payload| < cap ==> d.taken == |queue|)
      && sent == before + queue[..d.taken] && emitted == base + d.payload
      && d.offset == Field(mark) && Located(sent, |base|, |d.payload|, mark, cap)
    }

    /** What was built from the rest of the stream and the queue is on record. */
    ghost method Record(rest: seq<Byte>, more: bool, queue: seq<Frame>, d: Draft) returns (mark: Option<nat>)
      requires Joins(emitted, rest, WireAll(sent)) && more == !First(sent, |sent|)
      requires |rest| < LastSize(sent)
      requires d == Now(d.payload, d.offset, d.taken) && d == Build(rest, more, Codes(queue), cap)
      modifies this`sent, this`emitted
      ensures Valid() && Continues(old(sent), old(emitted), queue, d, mark)
    {
      JoinsIsAppend(emitted, rest, WireAll(sent));
      mark := BuildKept(rest, more, queue, sent, emitted, cap);
      Commit(d, queue, mark);
    }

    ghost method Commit(d: Draft, queue: seq<Frame>, mark: Option<nat>)
      requires d == Now(d.payload, d.offset, d.taken) && Kept(d, queue, sent, emitted, mark, cap)
      requires |d.payload| < cap ==> d.taken == |queue|
      modifies this`sent, this`emitted
      ensures Valid() && Continues(old(sent), old(emitted), queue, d, mark)
    {
      KeptJoins(d, queue, sent, emitted, mark, cap);
      sent, emitted := sent + queue[..d.taken], emitted + d.payload;
    }

    /** Build a packet: it is the specified one, it continues the stream, and its
        mark is the beginning of a multipart message. */
    method BuildPacket(queue: seq<Frame>) returns (p: Packet, taken: nat, ghost mark: Option<nat>)
      requires Valid()
      modifies this, encoder
      ensures Valid() && Continues(old(sent), old(emitted), queue, Now(p.payload, p.offset, taken), mark)
      ensures Now(p.payload, p.offset, taken) == Build(old(encoder.Remaining()), old(moreFlag), Codes(queue), cap)
    {
      ghost var rest, more := encoder.Remaining(), moreFlag;
      p, taken := FillPacket(queue);
      ghost var d := Now(p.payload, p.offset, taken);
      mark := Record(rest, more, queue, d);
    }
  }

  lemma MarkedStays(frames: seq<Frame>, more: seq<Frame>, log: seq<Packet>)
    requires Marked(frames, log)
    ensures Marked(frames + more, log)
  {
    forall i | 0 <= i < |log|
      ensures Marks(frames + more, Offset(log, i), log[i])
    {
      assert Marks(frames, Offset(log, i), log[i]);
      if log[i].offset != NO_START { StartStays(frames, more, Offset(log, i) + log[i].offset); }
    }
  }

  lemma MarkedOne(frames: seq<Frame>, log: seq<Packet>, p: Packet)
    requires Marked(frames, log) && Marks(frames, |Payloads(log)|, p)
    ensures Marked(frames, log + [p])
  {
    var longer := log + [p];
    forall i | 0 <= i < |longer|
      ensures Marks(frames, Offset(longer, i), longer[i])
    {
      assert longer[..i] == if i < |log| then log[..i] else log;
    }
  }

  /** An offset in the packet's 16 bits is the mark itself. */
  lemma LocatedMarks(frames: seq<Frame>, base: nat, p: Packet, mark: Option<nat>, cap: nat)
    requires p.offset == Field(mark) && Located(frames, base, |p.payload|, mark, cap) && cap <= 0x10000
    ensures Marks(frames, base, p)
  {
  }

  lemma LocatedEarliest(frames: seq<Frame>, base: nat, p: Packet, mark: Option<nat>, cap: nat)
    requires p.offset == Field(mark) && Located(frames, base, |p.payload|, mark, cap) && cap <= 0xffff
    ensures Earliest(frames, base, p)
  {
  }

  lemma EarliestStays(frames: seq<Frame>, more: seq<Frame>, log: seq<Packet>)
    requires AllEarliest(frames, log) && Marked(frames, log) && |Payloads(log)| <= |WireAll(frames)|
    ensures AllEarliest(frames + more, log)
  {
    forall i | 0 <= i < |log|
      ensures Earliest(frames + more, Offset(log, i), log[i])
    {
      assert Earliest(frames, Offset(log, i), log[i]) && Marks(frames, Offset(log, i), log[i]);
      PayloadsStep(log, i);
      PayloadsPrefix(log, i + 1);
      NoStartKeeps(frames, more, Offset(log, i), Offset(log, i) + Silent(log[i]));
    }
  }

  lemma EarliestOne(frames: seq<Frame>, log: seq<Packet>, p: Packet)
    requires AllEarliest(frames, log) && Earliest(frames, |Payloads(log)|, p)
    ensures AllEarliest(frames, log + [p])
  {
    var longer := log + [p];
    forall i | 0 <= i < |longer|
      ensures Earliest(frames, Offset(longer, i), longer[i])
    {
      assert longer[..i] == if i < |log| then log[..i] else log;
    }
  }

  /** The packets carry everything that was emitted; as far as 16 bits reach,
      their offsets name beginnings, and the first one in the packet. */
  ghost predicate Logged(sent: seq<Frame>, emitted: seq<Byte>, log: seq<Packet>, cap: nat) {
    && emitted == Payloads(log) && |emitted| <= |WireAll(sent)|
    && (cap <= 0x10000 ==> Marked(sent, log))
    && (cap <= 0xffff ==> AllEarliest(sent, log))
  }

  function With(log: seq<Packet>, o: Option<Packet>): seq<Packet> {
    if o.Some? then log + [o.value] else log
  }

  /** An empty packet is not sent. */
  function Unempty(p: Packet): Option<Packet> {
    if p.payload == [] then None else Some(p)
  }

  lemma NothingLogged(cap: nat)
    ensures Logged([], [], [], cap)
  {
  }

  lemma LoggedPacket(sent: seq<Frame>, more: seq<Frame>, emitted: seq<Byte>, log: seq<Packet>, p: Packet,
                     mark: Option<nat>, cap: nat)
    requires Logged(sent, emitted, log, cap) && |emitted + p.payload| <= |WireAll(sent + more)|
    requires p.offset == Field(mark) && Located(sent + more, |emitted|, |p.payload|, mark, cap)
    ensures Logged(sent + more, emitted + p.payload, With(log, Unempty(p)), cap)
  {
    PayloadsOne(log, p);
    if cap <= 0x10000 {
      MarkedStays(sent, more, log);
      LocatedMarks(sent + more, |emitted|, p, mark, cap);
      MarkedOne(sent + more, log, p);
    }
    if cap <= 0xffff {
      EarliestStays(sent, more, log);
      LocatedEarliest(sent + more, |emitted|, p, mark, cap);
      EarliestOne(sent + more, log, p);
    }
    assert p.payload == [] ==> emitted + p.payload == emitted;
  }

  class SenderT {
    const packer: PackerT
    /** The packet that the socket has not taken yet, and those it has taken. */
    var ready: Option<Packet>
    var wire: seq<Packet>

    constructor (cap: nat)
      ensures Valid() && packer.cap == cap && packer.sent == [] && wire == [] && ready.None?
      ensures fresh(packer) && fresh(packer.encoder)
    {
      packer := new PackerT(cap);
      ready, wire := None, [];
      new;
      NothingLogged(cap);
    }

    function Log(): seq<Packet>
      reads this
    {
      With(wire, ready)
    }

    ghost predicate Valid()
      reads this, packer, packer.encoder
    {
      packer.Valid() && Logged(packer.sent, packer.emitted, Log(), packer.cap)
    }

    /** The packet that is built, unless it is empty. */
    method Assemble(queue: seq<Frame>, ghost d: Draft) returns (o: Option<Packet>, taken: nat)
      requires packer.Valid() && Logged(packer.sent, packer.emitted, wire, packer.cap)
      requires d == Build(packer.encoder.Remaining(), packer.moreFlag, Codes(queue), packer.cap)
      modifies packer, packer.encoder
      ensures packer.Valid() && taken <= |queue| && packer.sent == old(packer.sent) + queue[..taken]
      ensures o == Unempty(Packet(d.offset, d.payload)) && taken == d.taken
      ensures Logged(packer.sent, packer.emitted, With(wire, o), packer.cap)
    {
      ghost var mark;
      var p;
      p, taken, mark := packer.BuildPacket(queue);
      o := Unempty(p);
      LoggedPacket(old(packer.sent), queue[..taken], old(packer.emitted), wire, p, mark, packer.cap);
    }

    /** Build a packet when none is waiting; there is none when nothing is to be sent. */
    method Prepare(queue: seq<Frame>, ghost d: Draft) returns (taken: nat)
      requires Valid() && ready.None?
      requires d == Build(packer.encoder.Remaining(), packer.moreFlag, Codes(queue), packer.cap)
      modifies this`ready, packer, packer.encoder
      ensures Valid() && taken <= |queue| && packer.sent == old(packer.sent) + queue[..taken]
      ensures taken == d.taken && ready == Unempty(Packet(d.offset, d.payload))
    {
      var o;
      o, taken := Assemble(queue, d);
      ready := o;
    }

    /** The packet that an event offers to the socket: the one that waits, or the
        one that is built, unless it is empty. */
    ghost function Offered(d: Draft): Option<Packet>
      reads this
    {
      if ready.Some? then ready else Unempty(Packet(d.offset, d.payload))
    }

    /** The socket has taken the packet, or it waits. */
    ghost predicate Went(p: Option<Packet>, accepts: bool, before: seq<Packet>)
      reads this
    {
      if accepts && p.Some? then wire == before + [p.value] && ready.None? else wire == before && ready == p
    }

    /** The socket can be written to; accepts says whether it takes the packet. */
    method OutEvent(queue: seq<Frame>, accepts: bool) returns (taken: nat)
      requires Valid()
      modifies this, packer, packer.encoder
      ensures Valid() && taken <= |queue| && packer.sent == old(packer.sent) + queue[..taken]
      ensures var d := Build(old(packer.encoder.Remaining()), old(packer.moreFlag), Codes(queue), packer.cap);
              taken == (if old(ready).Some? then 0 else d.taken) && Went(old(Offered(d)), accepts, old(wire))
    {
      ghost var d := Build(packer.encoder.Remaining(), packer.moreFlag, Codes(queue), packer.cap);
      taken := Turn(queue, accepts, d);
    }

    method Turn(queue: seq<Frame>, accepts: bool, ghost d: Draft) returns (taken: nat)
      requires Valid()
      requires d == Build(packer.encoder.Remaining(), packer.moreFlag, Codes(queue), packer.cap)
      modifies this, packer, packer.encoder
      ensures Valid() && taken <= |queue| && packer.sent == old(packer.sent) + queue[..taken]
      ensures taken == (if old(ready).Some? then 0 else d.taken) && Went(old(Offered(d)), accepts, old(wire))
    {
      taken := 0;
      if ready.None? {
        taken := Prepare(queue, d);
      }
      if accepts && ready.Some? {
        Send();
      }
    }

    method Send()
      requires Valid() && ready.Some?
      modifies this
      ensures Valid() && ready.None? && wire == old(wire) + [old(ready).value]
      ensures Log() == old(Log())
    {
      wire := wire + [ready.value];
      ready := None;
    }
  }

  // ---------------------------------------------------------------- too wide a buffer

  lemma PositionsOfOne(f: Frame)
    ensures Position([f], 0) == 0 && Position([f], 1) == |Wire(f)| == |WireAll([f])|
  {
    assert [f][..1] == [f] && Wires([f][..0]) == [];
    WireAllOne(f);
  }

  lemma MiddleIsNoStart(f: Frame, pos: nat)
    requires 0 < pos < |Wire(f)|
    ensures !StartAt([f], pos)
  {
    PositionsOfOne(f);
  }

  function LongFrame(n: nat): (f: Frame)
    requires n >= 0x10000
    ensures |Wire(f)| == n && !f.more
  {
    Frame(false, seq(n - 10, i => 0))
  }

  /** With room for more than 0x10000 bytes the 16-bit offset can wrap around:
      a sender that is given one long frame, and then nothing, builds two
      packets, the second of which names a beginning in the middle of the frame. */
  lemma WideBufferMisplacesStart(cap: nat) returns (f: Frame, first: Draft, second: Draft)
    requires 0x10000 < cap
    ensures first == Build([], false, Codes([f]), cap) && second == Build(first.rest, first.more, [], cap)
    ensures first.payload + second.payload == WireAll([f]) && second.rest == []
    ensures !Marks([f], |first.payload|, Packet(second.offset, second.payload))
  {
    f := LongFrame(cap + 0x10000);
    var w := Wire(f);
    first := FirstOfLong(f, cap);
    second := Draft(first.rest, 0, [], false, 0);
    FrontBack(first.rest, cap);
    assert Back(first.rest, cap) == [] && Front(first.rest, cap) + [] == Front(first.rest, cap);
    assert Begun(first.rest, false, cap) == Draft(first.rest, NO_START, [], false, 0);
    WireAllOne(f);
    MiddleIsNoStart(f, cap);
  }

  /** The first packet is full and the rest of the frame stays in the encoder. */
  lemma FirstOfLong(f: Frame, cap: nat) returns (first: Draft)
    requires 0 < cap < |Wire(f)| && !f.more
    ensures first == Build([], false, Codes([f]), cap) && first.payload + first.rest == Wire(f)
    ensures |first.payload| == cap && !first.more
  {
    var w, codes := Wire(f), Codes([f]);
    var start := Draft([], NO_START, [], false, 0);
    first := Draft(Front(w, cap), 0, Back(w, cap), false, 1);
    FrontBack(w, cap);
    assert [] + Front(w, cap) == Front(w, cap);
    assert Taken(Noted(start), codes[0], cap) == first;
    assert Fill(start, codes, cap) == Fill(first, codes, cap) == first;
  }
}
