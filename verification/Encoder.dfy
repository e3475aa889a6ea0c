/**
 encoder_base_t (src/encoder.hpp): the steps of the derived class produce pieces
 of bytes that are copied into buffers of arbitrary size.
 */
module Encoder {
  import opened Basics

  class EncoderT {
    const bufSize: nat
    /** The bytes of the current step that are not written yet. */
    var pending: seq<Byte>
    /** The pieces of the steps to come; when there is none, the current step
        carries the new-message flag. */
    var steps: seq<seq<Byte>>
    var inProgress: bool

    constructor (bufSize: nat)
      ensures this.bufSize == bufSize && !inProgress && Remaining() == []
    {
      this.bufSize, pending, steps, inProgress := bufSize, [], [], false;
    }

    /** The bytes of the loaded message that were not returned yet. */
    ghost function Remaining(): seq<Byte>
      reads this
    {
      if inProgress then pending + Flatten(steps) else []
    }

    /** Load a message whose encoding consists of these pieces. */
    method LoadMsg(pieces: seq<seq<Byte>>)
      requires !inProgress && pieces != []
      modifies this
      ensures inProgress && Remaining() == Flatten(pieces)
    {
      inProgress := true;
      pending, steps := pieces[0], pieces[1..];
    }

    /** Run the state machine when there is no more data of the current step.
        done says that the message is finished. */
    method RunStep(ghost out: seq<Byte>) returns (done: bool)
      requires inProgress
      modifies this
      ensures inProgress == !done
      ensures !done ==> Laid(out, pending, steps) == old(Laid(out, pending, steps))
      ensures !done ==> |steps| < |old(steps)| || (pending != [] && pending == old(pending) && steps == old(steps))
      ensures done ==> old(Laid(out, pending, steps)) == out
    {
      if pending != [] { return false; }
      if steps == [] {
        LaidDone(out);
        inProgress := false;
        return true;
      }
      pending, steps := steps[0], steps[1..];
      return false;
    }

    /** Copy the next n bytes to the buffer. */
    method CopyOut(out: seq<Byte>, n: nat) returns (longer: seq<Byte>)
      requires n <= |pending|
      modifies this`pending
      ensures |longer| == |out| + n && |pending| == |old(pending)| - n
      ensures Laid(longer, pending, steps) == old(Laid(out, pending, steps))
    {
      LaidCopy(out, pending, steps, n);
      longer, pending := out + pending[..n], pending[n..];
    }

    /** Returns a batch of data.  With no buffer supplied (own) the encoder
        uses its own, and may hand out the message's memory instead. */
    method Encode(own: bool, size: nat) returns (out: seq<Byte>)
      modifies this
      ensures out + Remaining() == old(Remaining())
      ensures !own ==> |out| <= size
      ensures |out| < (if own then bufSize else size) ==> !inProgress
      ensures old(!inProgress) ==> !inProgress
    {
      out := [];
      var buffersize := if own then bufSize else size;
      if !inProgress { return; }
      ghost var all := Remaining();
      LaidFirst(pending, steps);
      while |out| < buffersize
        invariant inProgress && all == Laid(out, pending, steps) && |out| <= buffersize
        decreases |steps|, buffersize - |out|, |pending|
      {
        var done := RunStep(out);
        if done {
          LaidDone(out);
          break;
        }
        if out == [] && own && |pending| >= buffersize {
          out := CopyOut(out, |pending|);
          return;
        }
        var toCopy := if |pending| < buffersize - |out| then |pending| else buffersize - |out|;
        out := CopyOut(out, toCopy);
      }
    }
  }

  /** What was written, then the rest of the current piece, then the later pieces. */
  ghost function Laid(out: seq<Byte>, pending: seq<Byte>, steps: seq<seq<Byte>>): seq<Byte> {
    out + (pending + Flatten(steps))
  }

  lemma LaidFirst(pending: seq<Byte>, steps: seq<seq<Byte>>)
    ensures Laid([], pending, steps) == pending + Flatten(steps)
  {
  }

  lemma LaidDone(out: seq<Byte>)
    ensures Laid(out, [], []) == out == out + []
  {
  }

  lemma LaidCopy(out: seq<Byte>, pending: seq<Byte>, steps: seq<seq<Byte>>, n: nat)
    requires n <= |pending|
    ensures Laid(out + pending[..n], pending[n..], steps) == Laid(out, pending, steps)
  {
    assert pending == pending[..n] + pending[n..];
  }

  /** A call of encode: with the encoder's own buffer, or with one of this size. */
  datatype Call = Own | Supplied(size: nat)

  /** A supplied buffer is not overrun, and a batch that does not fill its buffer
      is the last one. */
  ghost predicate Filled(e: EncoderT, length: nat, call: Call)
    reads e
  {
    && (call.Supplied? ==> length <= call.size)
    && (length < (if call.Own? then e.bufSize else call.size) ==> !e.inProgress)
  }

  /** Repeated calls, with the encoder's own buffer and with supplied ones of any
      sizes, return exactly the message. */
  method Drain(e: EncoderT, calls: seq<Call>) returns (outs: seq<seq<Byte>>)
    modifies e
    ensures |outs| == |calls|
    ensures Flatten(outs) + e.Remaining() == old(e.Remaining())
    ensures forall i :: 0 <= i < |outs| ==> Filled(e, |outs[i]|, calls[i])
  {
    outs := [];
    ghost var sent, left := [], e.Remaining();
    ghost var all := left;
    for i := 0 to |calls|
      invariant |outs| == i && sent == Flatten(outs) && left == e.Remaining() && sent + left == all
      invariant forall j :: 0 <= j < i ==> Filled(e, |outs[j]|, calls[j])
    {
      var out := e.Encode(calls[i].Own?, if calls[i].Own? then 0 else calls[i].size);
      FlattenOne(outs, out);
      Regroup(sent, out, e.Remaining());
      outs, sent, left := outs + [out], sent + out, e.Remaining();
    }
  }
}
