/**
 decoder_base_t (src/decoder.hpp): a state machine that knows how many bytes it
 needs before its next step, fed with buffers cut at arbitrary places.
 */
module Decoder {
  import opened Basics

  /** What a step answers: go on, a message is complete, or the data is bad. */
  datatype Reply<M> = More | Message(msg: M) | Bad

  /** The derived class: how many bytes a step waits for, and what it does with
      them.  rank bounds the steps taken without consuming data. */
  datatype Machine<!S, !M> = Machine(need: S -> nat, step: (S, seq<Byte>) -> (S, Reply<M>), rank: S -> nat)

  /** A chain of steps that need no data comes to an end. */
  ghost predicate Progresses<S(!new), M>(m: Machine<S, M>) {
    forall s: S :: m.need(s) == 0 && m.need(m.step(s, []).0) == 0 ==> m.rank(m.step(s, []).0) < m.rank(s)
  }

  /** Bounds the steps that can run from s without data. */
  ghost function Fuel<S, M>(m: Machine<S, M>, s: S): nat {
    if m.need(s) == 0 then m.rank(s) + 1 else 0
  }

  /** The decoder between calls: the state, the bytes already stored for its
      next step, whether a message was returned and nothing done since, whether
      decoding failed, and the messages returned so far. */
  datatype Dec<S, M> = Dec(state: S, got: seq<Byte>, paused: bool, failed: bool, out: seq<M>)

  predicate Sound<S, M>(m: Machine<S, M>, d: Dec<S, M>) {
    |d.got| <= m.need(d.state) && (d.got == [] || |d.got| < m.need(d.state))
  }

  function Missing<S, M>(m: Machine<S, M>, d: Dec<S, M>): nat
    requires Sound(m, d)
  {
    m.need(d.state) - |d.got|
  }

  /** Store k more bytes, which completes what the step needs, and run it. */
  function Advance<S, M>(m: Machine<S, M>, d: Dec<S, M>, bytes: seq<Byte>): (e: Dec<S, M>)
    ensures e.got == [] && Sound(m, e)
  {
    var (s, r) := m.step(d.state, d.got + bytes);
    Dec(s, [], r.Message?, r.Bad?, if r.Message? then d.out + [r.msg] else d.out)
  }

  /** The reference parser: take what the next step needs while there is
      enough data.  A step that needs no data is run at once, unless a message
      was just returned and there is no more data. */
  ghost function Feed<S(!new), M>(m: Machine<S, M>, d: Dec<S, M>, data: seq<Byte>): (e: Dec<S, M>)
    requires Sound(m, d) && Progresses(m)
    ensures Sound(m, e)
    decreases |data|, Fuel(m, d.state)
  {
    if d.failed || (data == [] && (d.paused || Missing(m, d) > 0)) then d
    else if Missing(m, d) <= |data| then
      Feed(m, Advance(m, d, data[..Missing(m, d)]), data[Missing(m, d)..])
    else d.(got := d.got + data, paused := false)
  }

  /** Parsing does not depend on where the data is cut. */
  lemma {:induction false} FeedSplit<S(!new), M>(m: Machine<S, M>, d: Dec<S, M>, a: seq<Byte>, b: seq<Byte>)
    requires Sound(m, d) && Progresses(m)
    ensures Feed(m, Feed(m, d, a), b) == Feed(m, d, a + b)
    decreases |a|, Fuel(m, d.state)
  {
    var k := Missing(m, d);
    if d.failed || (a == [] && (d.paused || k > 0)) {
      assert a == [] ==> a + b == b;
    } else if k <= |a| {
      assert (a + b)[..k] == a[..k] && (a + b)[k..] == a[k..] + b;
      FeedSplit(m, Advance(m, d, a[..k]), a[k..], b);
    } else {
      FeedAcross(m, d, a, b);
    }
  }

  /** The step that waits for data gets the rest of it from the next buffer. */
  lemma FeedAcross<S(!new), M>(m: Machine<S, M>, d: Dec<S, M>, a: seq<Byte>, b: seq<Byte>)
    requires Sound(m, d) && Progresses(m) && !d.failed && a != [] && |a| < Missing(m, d)
    ensures Feed(m, d.(got := d.got + a, paused := false), b) == Feed(m, d, a + b)
  {
    var k, e := Missing(m, d), d.(got := d.got + a, paused := false);
    if b == [] {
      assert a + b == a;
    } else if k <= |a| + |b| {
      var j := k - |a|;
      assert (a + b)[..k] == a + b[..j] && (a + b)[k..] == b[j..];
      assert e.got + b[..j] == d.got + (a + b)[..k];
      assert Advance(m, e, b[..j]) == Advance(m, d, (a + b)[..k]);
    } else {
      assert d.got + a + b == d.got + (a + b);
    }
  }

  lemma FeedStored<S(!new), M>(m: Machine<S, M>, d: Dec<S, M>, rest: seq<Byte>)
    requires Sound(m, d) && Progresses(m) && !d.failed && rest != [] && Missing(m, d) <= |rest|
    ensures var k := Missing(m, d);
            Feed(m, d, rest) == Feed(m, Advance(m, d.(got := d.got + rest[..k], paused := false), []), rest[k..])
  {
    var k := Missing(m, d);
    assert d.got + rest[..k] + [] == d.got + rest[..k];
  }

  /** Messages are only added; a decoder that ends on a message has added one. */
  lemma {:induction false} FeedGrows<S(!new), M>(m: Machine<S, M>, d: Dec<S, M>, data: seq<Byte>)
    requires Sound(m, d) && Progresses(m)
    ensures d.out <= Feed(m, d, data).out
    ensures !d.failed && (data != [] || !d.paused) && Feed(m, d, data).paused ==> |d.out| < |Feed(m, d, data).out|
    decreases |data|, Fuel(m, d.state)
  {
    var k := Missing(m, d);
    if d.failed || (data == [] && (d.paused || k > 0)) {
    } else if k <= |data| {
      FeedGrows(m, Advance(m, d, data[..k]), data[k..]);
    }
  }

  // ---------------------------------------------------------------- the decoder

  class DecoderT<S(!new), M> {
    const m: Machine<S, M>
    var state: S
    /** The bytes stored up to `_read_pos` for the next step. */
    var stored: seq<Byte>
    var toRead: nat
    /** The message that was completed last. */
    var msg: Option<M>
    ghost var paused: bool
    ghost var failed: bool
    ghost var out: seq<M>

    constructor (m: Machine<S, M>, init: S)
      ensures this.m == m && Valid() && Value() == Dec(init, [], false, false, [])
    {
      this.m, state, stored, toRead, msg := m, init, [], m.need(init), None;
      paused, failed, out := false, false, [];
    }

    ghost predicate Valid()
      reads this
    {
      Sound(m, Value()) && toRead == Missing(m, Value())
    }

    ghost function Value(): Dec<S, M>
      reads this
    {
      Dec(state, stored, paused, failed, out)
    }

    /** Run steps while the next one has all its bytes; stop at a message or an error. */
    method RunSteps() returns (rc: int)
      requires |stored| <= m.need(state) && toRead == m.need(state) - |stored| && Progresses(m)
      requires !failed && !paused
      modifies this
      ensures Valid()
      ensures rc == 0 ==> toRead > 0 && !paused && !failed && out == old(out)
      ensures rc == 1 ==> paused && !failed && msg.Some? && out == old(out) + [msg.value]
      ensures rc == -1 ==> failed && out == old(out)
      ensures rc == 0 || rc == 1 || rc == -1
      ensures old(toRead) > 0 ==> Value() == old(Value())
      ensures old(m.need(state)) == 0 ==> Fuel(m, state) < old(Fuel(m, state))
      ensures old(toRead) == 0 ==>
                forall rest: seq<Byte> :: Feed(m, Value(), rest) == Feed(m, Advance(m, old(Value()), []), rest)
    {
      ghost var d := Value();
      while toRead == 0
        invariant |stored| <= m.need(state) && toRead == m.need(state) - |stored|
        invariant !failed && !paused && out == old(out)
        invariant Value() == d || Valid()
        invariant old(m.need(state)) == 0 ==> Value() == d || Fuel(m, state) < old(Fuel(m, state))
        invariant old(toRead) > 0 ==> Value() == d
        invariant old(toRead) == 0 && Value() != d ==>
                    forall rest: seq<Byte> :: Feed(m, Value(), rest) == Feed(m, Advance(m, d, []), rest)
        decreases if toRead > 0 then 0 else if m.need(state) > 0 then 2 else 1, m.rank(state)
      {
        ghost var before := Value();
        assert stored + [] == stored;
        var (s, r) := m.step(state, stored);
        state, stored, toRead := s, [], m.need(s);
        paused, failed := r.Message?, r.Bad?;
        if r.Message? {
          msg := Some(r.msg);
          out := out + [r.msg];
        }
        assert Value() == Advance(m, before, []);
        if r.Bad? { return -1; }
        if r.Message? { return 1; }
      }
      return 0;
    }

    /** The buffer to read into next: the message itself when it needs at least
        a whole buffer, otherwise the buffer of the given size. */
    method GetBuffer(size: nat) returns (inPlace: bool, room: nat)
      requires Valid()
      ensures inPlace <==> toRead >= size
      ensures room == if inPlace then toRead else size
    {
      if toRead >= size { return true, toRead; }
      return false, size;
    }

    /** Process one buffer; inPlace when it was filled directly into the message. */
    method Decode(data: seq<Byte>, inPlace: bool) returns (rc: int, used: nat)
      requires Valid() && Progresses(m) && !failed && data != [] && (inPlace ==> |data| <= toRead)
      modifies this
      ensures Valid() && used <= |data|
      ensures Feed(m, old(Value()), data) == Feed(m, Value(), data[used..])
      ensures rc == 0 ==> used == |data| && !paused && !failed && out == old(out)
      ensures rc == 1 ==> paused && !failed && msg.Some? && out == old(out) + [msg.value]
      ensures rc == -1 ==> failed && out == old(out)
      ensures rc == 0 || rc == 1 || rc == -1
      ensures rc == 0 ==> toRead > 0
      ensures used == 0 ==> Fuel(m, state) < old(Fuel(m, state))
      ensures inPlace ==> used == |data|
    {
      used := 0;
      if inPlace {
        rc := Store(data, |data|);
        used := |data|;
        return;
      }
      ghost var goal := Feed(m, Value(), data);
      assert data[0..] == data;
      while used < |data|
        invariant Valid() && used <= |data| && !failed && out == old(out)
        invariant goal == Feed(m, Value(), data[used..])
        invariant used > 0 ==> toRead > 0 && !paused
        invariant used == 0 ==> Value() == old(Value()) || Fuel(m, state) < old(Fuel(m, state))
        decreases |data| - used, if toRead == 0 then 1 else 0
      {
        var toCopy := if toRead < |data| - used then toRead else |data| - used;
        var rest := data[used..];
        rc := Store(rest, toCopy);
        used := used + toCopy;
        assert rest[toCopy..] == data[used..];
        if rc != 0 { return; }
      }
      return 0, used;
    }

    /** Store the next n bytes and run the steps that are complete. */
    method Store(rest: seq<Byte>, n: nat) returns (rc: int)
      requires Valid() && Progresses(m) && !failed && rest != [] && n <= |rest| && n <= toRead
      requires n == toRead || n == |rest|
      modifies this
      ensures Valid() && Feed(m, old(Value()), rest) == Feed(m, Value(), rest[n..])
      ensures n == 0 ==> Fuel(m, state) < old(Fuel(m, state))
      ensures rc == 0 ==> toRead > 0 && !paused && !failed && out == old(out)
      ensures rc == 1 ==> paused && !failed && msg.Some? && out == old(out) + [msg.value]
      ensures rc == -1 ==> failed && out == old(out)
      ensures rc == 0 || rc == 1 || rc == -1
    {
      ghost var d := Value();
      if n == toRead { FeedStored(m, d, rest); }
      stored := stored + rest[..n];
      toRead := toRead - n;
      paused := false;
      rc := RunSteps();
    }
  }

  /** The engine's loop: decode until the buffer is used up, handing on every message. */
  method ProcessInput<S(!new), M>(dec: DecoderT<S, M>, data: seq<Byte>, inPlace: bool) returns (msgs: seq<M>, ok: bool)
    requires dec.Valid() && Progresses(dec.m) && !dec.failed && (inPlace ==> |data| <= dec.toRead)
    modifies dec
    ensures dec.Valid() && dec.out == old(dec.out) + msgs && ok == !dec.failed
    ensures data != [] ==> dec.Value() == Feed(dec.m, old(dec.Value()), data)
  {
    msgs, ok := [], true;
    var pos := 0;
    ghost var goal, before := Feed(dec.m, dec.Value(), data), dec.out;
    assert data[0..] == data;
    while pos < |data|
      invariant pos <= |data| && dec.Valid() && !dec.failed && dec.out == before + msgs
      invariant goal == Feed(dec.m, dec.Value(), data[pos..])
      invariant pos == |data| && data != [] ==> dec.paused || dec.toRead > 0
      invariant inPlace && pos < |data| ==> pos == 0 && |data| <= dec.toRead
      decreases |data| - pos, Fuel(dec.m, dec.state)
    {
      var rest := data[pos..];
      ghost var d := dec.Value();
      assert goal == Feed(dec.m, d, rest);
      var rc, n := dec.Decode(rest, inPlace);
      ghost var e := dec.Value();
      assert goal == Feed(dec.m, e, rest[n..]);
      pos := pos + n;
      assert rest[n..] == data[pos..];
      if rc == -1 { return msgs, false; }
      if rc == 1 {
        Regroup(before, msgs, [dec.msg.value]);
        msgs := msgs + [dec.msg.value];
      }
    }
  }

  /** A stream that is read to its end, or to an error, is parsed. */
  lemma FeedEnds<S(!new), M>(m: Machine<S, M>, d: Dec<S, M>, data: seq<Byte>, pos: nat)
    requires Sound(m, d) && Progresses(m) && pos <= |data| && (pos == |data| || Feed(m, d, data[..pos]).failed)
    ensures Feed(m, d, data[..pos]) == Feed(m, d, data)
  {
    if pos == |data| {
      assert data[..pos] == data;
    } else {
      FeedSplit(m, d, data[..pos], data[pos..]);
      assert data[..pos] + data[pos..] == data;
    }
  }

  /** Read a stream to its end.  Each read goes where get_buffer says, into the
      message or into the buffer, and brings as many bytes as are wanted, fit and
      are left, but at least one.  However the reads fall, the decoder ends where
      the reference parser ends on the whole stream, with the same messages. */
  method ReceiveStream<S(!new), M>(dec: DecoderT<S, M>, size: nat, data: seq<Byte>, wanted: nat -> nat)
    returns (ok: bool)
    requires dec.Valid() && Progresses(dec.m) && !dec.failed && (dec.paused || dec.toRead > 0) && size > 0
    modifies dec
    ensures dec.Valid() && dec.Value() == Feed(dec.m, old(dec.Value()), data) && ok == !dec.failed
  {
    ok := true;
    var pos, turn := 0, 0;
    ghost var start := dec.Value();
    while pos < |data| && ok
      invariant pos <= |data| && dec.Valid() && ok == !dec.failed && Sound(dec.m, start)
      invariant dec.Value() == Feed(dec.m, start, data[..pos])
      decreases |data| - pos, ok
    {
      var n;
      n, ok := ReadOnce(dec, size, data, pos, wanted(turn), start);
      pos, turn := pos + n, turn + 1;
    }
    FeedEnds(dec.m, start, data, pos);
  }

  lemma FeedJoin<S(!new), M>(m: Machine<S, M>, d: Dec<S, M>, a: seq<Byte>, b: seq<Byte>, c: seq<Byte>)
    requires Sound(m, d) && Progresses(m) && a + b == c
    ensures Feed(m, Feed(m, d, a), b) == Feed(m, d, c)
  {
    FeedSplit(m, d, a, b);
  }

  /** One read of the stream, decoded. */
  method ReadOnce<S(!new), M>(dec: DecoderT<S, M>, size: nat, data: seq<Byte>, pos: nat, wanted: nat,
                              ghost start: Dec<S, M>)
    returns (n: nat, ok: bool)
    requires dec.Valid() && Progresses(dec.m) && !dec.failed && size > 0 && pos < |data| && Sound(dec.m, start)
    requires dec.Value() == Feed(dec.m, start, data[..pos])
    modifies dec
    ensures dec.Valid() && 0 < n <= |data| - pos && ok == !dec.failed
    ensures dec.Value() == Feed(dec.m, start, data[..pos + n])
  {
    var inPlace, room := dec.GetBuffer(size);
    n := if wanted == 0 then 1 else wanted;
    n := if n <= room then n else room;
    n := if n <= |data| - pos then n else |data| - pos;
    var chunk := data[pos..pos + n];
    PrefixJoin(data, pos, pos + n);
    FeedJoin(dec.m, start, data[..pos], chunk, data[..pos + n]);
    var msgs;
    msgs, ok := ProcessInput(dec, chunk, inPlace);
  }
}
