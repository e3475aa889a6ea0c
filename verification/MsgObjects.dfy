/** msg_t and the receive-buffer allocator as objects updated in place. */
module MsgObjects {
  import opened Basics
  import opened MsgRefs
  import opened MsgSystem

  /** The counters behind all messages. */
  class Memory {
    var h: Heap

    constructor ()
      ensures h == MsgSystem.START.h
    {
      h := MsgSystem.START.h;
    }
  }

  class MsgT {
    var kind: Kind
    var shared: bool

    constructor ()
      ensures Value() == INIT
    {
      kind, shared := Vsm, false;
    }

    function Value(): Msg
      reads this
    {
      Msg(kind, shared)
    }

    method Init()
      modifies this
      ensures Value() == INIT
    {
      kind, shared := Vsm, false;
    }

    /** Returns -1 (EFAULT) on a message that was closed already. */
    method Close(mem: Memory) returns (rc: int)
      modifies this, mem
      ensures rc == if old(kind).Invalid? then -1 else 0
      ensures mem.h == CloseHeap(old(mem.h), old(Value()))
      ensures kind.Invalid?
      ensures old(kind).Invalid? ==> Value() == old(Value())
    {
      if kind.Invalid? { return -1; }
      var m := Value();
      if m.Content().Some? {
        var c := m.Content().value;
        if !shared {
          mem.h := FreeContent(mem.h, c);
        } else {
          mem.h := SubRefs(mem.h, c, 1);
        }
      }
      kind := Kind.Invalid;
      return 0;
    }

    /** Nothing changes if either message is invalid. */
    method Move(mem: Memory, src: MsgT) returns (rc: int)
      requires src != this
      modifies this, src, mem
      ensures rc == if old(kind).Invalid? || old(src.kind).Invalid? then -1 else 0
      ensures rc == 0 ==> mem.h == CloseHeap(old(mem.h), old(Value()))
                          && Value() == old(src.Value()) && src.Value() == INIT
      ensures rc != 0 ==> mem.h == old(mem.h) && Value() == old(Value()) && src.Value() == old(src.Value())
    {
      if src.kind.Invalid? { return -1; }
      rc := Close(mem);
      if rc < 0 { return rc; }
      kind, shared := src.kind, src.shared;
      src.Init();
    }

    method Copy(mem: Memory, src: MsgT) returns (rc: int)
      requires src != this
      modifies this, src, mem
      ensures rc == if old(kind).Invalid? || old(src.kind).Invalid? then -1 else 0
      ensures rc == 0 ==>
                (mem.h, src.Value()) == Share(CloseHeap(old(mem.h), old(Value())), old(src.Value()), 1)
                && Value() == src.Value()
      ensures rc != 0 ==> mem.h == old(mem.h) && Value() == old(Value()) && src.Value() == old(src.Value())
    {
      if src.kind.Invalid? { return -1; }
      rc := Close(mem);
      if rc < 0 { return rc; }
      src.ShareWith(mem, 1);
      kind, shared := src.kind, src.shared;
    }

    /** Turn the message into a shared one with `more` further references. */
    method ShareWith(mem: Memory, more: nat)
      modifies this, mem
      ensures (mem.h, Value()) == Share(old(mem.h), old(Value()), more)
    {
      var m := Value();
      if m.Content().Some? {
        var c := m.Content().value;
        if c !in mem.h.refcnt {
          mem.h := mem.h.(fault := true);
        } else if shared {
          mem.h := mem.h.(refcnt := mem.h.refcnt[c := mem.h.refcnt[c] + more]);
        } else {
          mem.h := mem.h.(refcnt := mem.h.refcnt[c := more + 1]);
          shared := true;
        }
      }
    }

    method AddRefs(mem: Memory, refs: nat)
      modifies this, mem
      ensures (mem.h, Value()) == MsgRefs.AddRefs(old(mem.h), old(Value()), refs)
    {
      if refs == 0 { return; }
      ShareWith(mem, refs);
    }

    /** True when the message still has its content: nothing was taken away, or
        references are left.  An unshared message is closed as a whole, a
        shared one keeps its value even when its content is gone. */
    method RmRefs(mem: Memory, refs: nat) returns (left: bool)
      requires !kind.Invalid?
      modifies this, mem
      ensures mem.h == MsgRefs.RmRefs(old(mem.h), old(Value()), refs)
      ensures left <==> refs == 0 || (Value().Content().Some? && Value().Content().value in mem.h.refcnt)
      ensures if refs > 0 && !(old(shared) && old(Value()).Content().Some?) then kind.Invalid?
              else Value() == old(Value())
    {
      if refs == 0 { return true; }
      var m := Value();
      if m.Content().None? || !shared {
        var rc := Close(mem);
        return false;
      }
      mem.h := SubRefs(mem.h, m.Content().value, refs);
      return m.Content().value in mem.h.refcnt;
    }
  }

  /** shared_message_memory_allocator. */
  class Allocator {
    var buf: Option<BufferId>
    var bufSize: nat
    /** The content slots that are used, and where the last body in the buffer ends. */
    var content: nat
    ghost var filled: nat
    const maxSize: nat
    /** max_vsm_size: shorter messages are copied. */
    const vsm: nat

    constructor (size: nat, vsm: nat)
      requires vsm > 0
      ensures Valid() && buf.None? && bufSize == 0 && maxSize == size && this.vsm == vsm
    {
      this.vsm := vsm;
      buf, bufSize, content, maxSize, filled := None, 0, 0, size, 0;
    }

    /** The slots that are used belong to bodies of at least vsm bytes each. */
    ghost predicate Valid()
      reads this
    {
      vsm > 0 && bufSize <= maxSize && content * vsm <= filled <= maxSize
    }

    method Clear()
      modifies this
      ensures Valid() <== vsm > 0
      ensures buf.None? && bufSize == 0
    {
      buf, bufSize, content, filled := None, 0, 0, 0;
    }

    /** A message with its body in the buffer, behind those before it.  A body
        that is not copied takes the next content slot, and there is one. */
    method Place(readPos: nat, size: nat) returns (slot: Option<nat>)
      requires Valid() && buf.Some? && filled <= readPos && readPos + size <= bufSize
      modifies this`content, this`filled
      ensures Valid() && filled == readPos + size
      ensures slot == if size < vsm then None else Some(old(content))
      ensures slot.Some? ==> slot.value < MaxCounters(maxSize, vsm) && content == slot.value + 1
    {
      filled := readPos + size;
      if size < vsm { return None; }
      OneMore(content, vsm, maxSize);
      slot := Some(content);
      content := content + 1;
    }

    /** obtained is the memory malloc returns, should it be called. */
    method Allocate(mem: Memory, obtained: BufferId) returns (b: BufferId)
      modifies this, mem
      ensures (mem.h, b) == AllocateHeap(old(mem.h), old(buf), obtained)
      ensures buf == Some(b) && bufSize == maxSize && content == 0 && filled == 0 && (vsm > 0 ==> Valid())
    {
      if buf.Some? {
        var c := buf.value;
        if c !in mem.h.bufs || mem.h.bufs[c] == 0 {
          mem.h := mem.h.(fault := true);
        } else if mem.h.bufs[c] > 1 {
          mem.h := mem.h.(bufs := mem.h.bufs[c := mem.h.bufs[c] - 1]);
          Clear();
        }
      }
      if buf.None? {
        mem.h := NewBuffer(mem.h, obtained);
        buf := Some(obtained);
      } else if buf.value in mem.h.bufs && mem.h.bufs[buf.value] > 0 {
        mem.h := mem.h.(bufs := mem.h.bufs[buf.value := 1]);
      }
      bufSize, content, filled := maxSize, 0, 0;
      b := buf.value;
    }

    method Deallocate(mem: Memory)
      modifies this, mem
      ensures mem.h == if old(buf).Some? then DecBuffer(old(mem.h), old(buf).value) else old(mem.h)
      ensures buf.None? && bufSize == 0
    {
      if buf.Some? {
        mem.h := DecBuffer(mem.h, buf.value);
      }
      Clear();
    }
  }

  /** There is room for one more slot behind those of bodies that fit. */
  lemma OneMore(n: nat, vsm: nat, size: nat)
    requires vsm > 0 && n * vsm + vsm <= size
    ensures n < MaxCounters(size, vsm) && (n + 1) * vsm == n * vsm + vsm
  {
    var q := MaxCounters(size, vsm);
    assert q * vsm + vsm > size + vsm - 1;
    if q <= n { Mul(q, n, vsm); }
  }
}
