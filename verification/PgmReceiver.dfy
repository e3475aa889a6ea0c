/**
 pgm_receiver_t (src/pgm_receiver.cpp), for one peer: the stream is joined at
 the beginning named by a packet; a full session stalls the input.
 */
module PgmReceiver {
  import opened Basics
  import opened Decoder
  import opened V1Codec
  import opened PgmSender

  datatype Peer = NotJoined | Joined(dec: Dec<State, Frame>)

  predicate PeerOk(max: int, p: Peer) {
    p.Joined? ==> Sound(V1(max), p.dec)
  }

  /** What can be received: an offset lies within its packet. */
  predicate Proper(p: Packet) {
    p.offset == NO_START || p.offset <= |p.payload|
  }

  /** A data error takes the peer back to not joined. */
  function Checked(d: Dec<State, Frame>): Peer {
    if d.failed then NotJoined else Joined(d)
  }

  /** The effect of a packet, when the session takes everything. */
  ghost function Receive(max: int, p: Peer, packet: Packet): (q: Peer)
    requires Progresses(V1(max)) && PeerOk(max, p) && Proper(packet)
    ensures PeerOk(max, q)
  {
    if p.Joined? then Checked(Feed(V1(max), p.dec, packet.payload))
    else if packet.offset == NO_START then NotJoined
    else Checked(Feed(V1(max), Between(false, []), packet.payload[packet.offset..]))
  }

  /** What a joined peer has decoded. */
  function Out(p: Peer): seq<Frame> {
    if p.Joined? then p.dec.out else []
  }

  datatype Outcome = Done | Stalled | Broken

  class ReceiverT {
    const max: int
    var decoder: DecoderT?<State, Frame>
    /** A message could not be handed to the session; the input waits. */
    var active: bool
    /** The bytes of the packet that are not decoded yet. */
    var rest: seq<Byte>
    /** The frames handed to the session since the stream was joined. */
    var pushed: seq<Frame>
    /** The frames handed to it before that. */
    ghost var before: seq<Frame>

    constructor (max: int)
      ensures Valid() && !active && Logical() == NotJoined && this.max == max && before == []
    {
      this.max, decoder, active, rest, pushed, before := max, null, false, [], [], [];
      new;
      V1Progresses(max);
    }

    /** The decoder stands between calls: on a message, or short of data. */
    ghost predicate DecoderOk(d: DecoderT<State, Frame>)
      reads d
    {
      d.m == V1(max) && d.Valid() && !d.failed && (d.paused || d.toRead > 0)
    }

    ghost predicate Valid()
      reads this, decoder
    {
      && Progresses(V1(max))
      && (decoder == null ==> !active && rest == [] && pushed == [])
      && (decoder != null ==>
            && DecoderOk(decoder)
            && (active ==> decoder.msg.Some? && pushed + [decoder.msg.value] == decoder.out)
            && (!active ==> rest == [] && pushed == decoder.out))
    }

    /** The peer once the bytes that wait are decoded too. */
    ghost function Logical(): Peer
      requires Valid()
      reads this, decoder
    {
      if decoder == null then NotJoined else Checked(Feed(V1(max), decoder.Value(), rest))
    }

    /** Decode the rest of the packet while the session, which has room for so
        many frames, takes what comes out. */
    method ProcessInput(dec: DecoderT<State, Frame>, room: nat) returns (r: Outcome)
      requires decoder == dec && Progresses(V1(max)) && DecoderOk(dec) && pushed == dec.out
      modifies this`rest, this`pushed, dec
      ensures dec.m == V1(max) && dec.Valid()
      ensures Feed(V1(max), old(dec.Value()), old(rest)) == Feed(V1(max), dec.Value(), rest)
      ensures r.Done? ==> DecoderOk(dec) && rest == [] && pushed == dec.out
      ensures r.Stalled? ==> DecoderOk(dec) && dec.msg.Some? && pushed + [dec.msg.value] == dec.out
      ensures r.Broken? ==> dec.failed
      ensures !r.Broken? ==> old(pushed) <= pushed
      ensures r.Stalled? ==> |pushed| == |old(pushed)| + room
    {
      var m := V1(max);
      ghost var goal := Feed(m, dec.Value(), rest);
      var left := room;
      while rest != []
        invariant dec.m == m && DecoderOk(dec) && pushed == dec.out && old(pushed) <= pushed
        invariant goal == Feed(m, dec.Value(), rest) && |pushed| + left == |old(pushed)| + room
        decreases |rest|, Fuel(m, dec.state)
      {
        var rc, n := dec.Decode(rest, false);
        rest := rest[n..];
        if rc == -1 { return Broken; }
        if rc == 0 { return Done; }
        if left == 0 { return Stalled; }
        left, pushed := left - 1, pushed + [dec.msg.value];
      }
      return Done;
    }

    /** A packet has come. */
    method InEvent(p: Packet, room: nat)
      requires Valid() && !active && Proper(p)
      modifies this, decoder
      ensures Valid() && Logical() == Receive(max, old(Logical()), p)
      ensures decoder != null && decoder != old(decoder) ==> fresh(decoder)
      ensures Logical().Joined? || (old(decoder) == null && p.offset == NO_START) ==> before == old(before)
      ensures old(decoder) == null && p.offset == NO_START ==> decoder == null
    {
      if decoder == null {
        if p.offset == NO_START { return; }
        decoder := new DecoderT(V1(max), Size);
        rest := p.payload[p.offset..];
      } else {
        rest := p.payload;
      }
      var dec: DecoderT<State, Frame> := decoder;
      var r := ProcessInput(dec, room);
      match r {
        case Done =>
        case Stalled => active := true;
        case Broken => Leave();
      }
    }

    /** The session has room again: hand it the message that waits and go on. */
    method RestartInput(room: nat)
      requires Valid() && active
      modifies this, decoder
      ensures Valid() && Logical() == old(Logical())
      ensures decoder != null ==> decoder == old(decoder) && old(pushed + [decoder.msg.value]) <= pushed
      ensures decoder != null ==> Feed(V1(max), decoder.Value(), rest) == old(Feed(V1(max), decoder.Value(), rest))
      ensures Logical().Joined? ==> before == old(before)
    {
      var dec: DecoderT<State, Frame> := decoder;
      pushed, active := pushed + [dec.msg.value], false;
      var r := ProcessInput(dec, room);
      match r {
        case Done =>
        case Stalled => active := true;
        case Broken => Leave();
      }
    }

    /** The stream has to be joined again. */
    method Leave()
      requires Progresses(V1(max))
      modifies this
      ensures Valid() && !active && Logical() == NotJoined && decoder == null
      ensures before == old(before) + old(pushed)
    {
      decoder, active, rest, pushed, before := null, false, [], [], before + pushed;
    }

    /** Data was lost. */
    method Loss()
      requires Valid() && !active
      modifies this
      ensures Valid() && !active && Logical() == NotJoined && decoder == null
      ensures before == old(before) + old(pushed)
    {
      Leave();
    }

    /** When nothing waits, the session has every frame that was decoded. */
    lemma NothingWaits()
      requires Valid() && !active
      ensures (decoder != null <==> Logical().Joined?) && pushed == Out(Logical())
    {
    }

    /** How many frames the session has still to be given. */
    ghost function Waiting(): int
      requires Valid()
      reads this, decoder
    {
      if decoder == null then 0 else |Feed(V1(max), decoder.Value(), rest).out| - |pushed|
    }

    /** Restart the input until nothing waits. */
    method Finish(room: nat -> nat, calls: nat) returns (calls': nat)
      requires Valid()
      modifies this, decoder
      ensures Valid() && !active && Logical() == old(Logical()) && (decoder == null || decoder == old(decoder))
      ensures Logical().Joined? || !old(active) ==> before == old(before)
    {
      calls' := calls;
      while active
        invariant Valid() && Logical() == old(Logical()) && (decoder == null || decoder == old(decoder))
        invariant Logical().Joined? || !old(active) ==> before == old(before) && (!old(active) ==> !active)
        decreases Waiting()
      {
        FeedGrows(V1(max), decoder.Value(), rest);
        RestartInput(room(calls'));
        calls' := calls' + 1;
      }
    }

    /** Receive a packet and restart the input as often as it stalls.  room
        says how many frames the session takes at each call. */
    method Serve(p: Packet, room: nat -> nat, calls: nat) returns (calls': nat)
      requires Valid() && !active && Proper(p)
      modifies this, decoder
      ensures Valid() && !active && Logical() == Receive(max, old(Logical()), p)
      ensures decoder != null && decoder != old(decoder) ==> fresh(decoder)
      ensures Logical().Joined? || (old(decoder) == null && p.offset == NO_START) ==> before == old(before)
    {
      InEvent(p, room(calls));
      calls' := Finish(room, calls + 1);
    }
  }
}
