/** Runs over messages and receive buffers keep every reference count exact. */
module MsgSystem {
  import opened Basics
  import opened MsgRefs

  /** Counters, message variables, and the buffers held by allocators. */
  datatype Sys = Sys(h: Heap, hs: Handles, held: set<BufferId>)

  const START: Sys := Sys(Heap(map[], map[], map[], {}, multiset{}, {}, multiset{}, false), map[], {})

  ghost predicate Ok(s: Sys) {
    Inv(s.h, s.hs, s.held)
  }

  datatype Step =
    | InitPlain(i: Slot, kind: Kind)
    | InitLmsg(i: Slot, c: ContentId)
    | InitZclmsg(i: Slot, c: ContentId, b: BufferId)
    | Close(i: Slot)
    | Move(dst: Slot, src: Slot)
    | Copy(dst: Slot, src: Slot)
    | Spread(i: Slot, K: set<Slot>)
    | Drop(i: Slot, R: set<Slot>)
    | Allocate(cur: Option<BufferId>, nb: BufferId)
    | Deallocate(b: BufferId)

  /** The slot holds no content, so overwriting it loses nothing. */
  predicate Vacant(s: Sys, i: Slot) {
    i in s.hs ==> s.hs[i].Content().None?
  }

  predicate Checked(s: Sys, i: Slot) {
    i in s.hs && !s.hs[i].kind.Invalid?
  }

  /** A fresh buffer with its counter at one. */
  function NewBuffer(h: Heap, nb: BufferId): Heap {
    h.(bufs := h.bufs[nb := 1], knownBufs := h.knownBufs + {nb})
  }

  /** allocate: keep the buffer if nobody uses it, otherwise leave it to its messages. */
  function AllocateHeap(h: Heap, cur: Option<BufferId>, nb: BufferId): (Heap, BufferId) {
    if cur.None? then (NewBuffer(h, nb), nb)
    else if cur.value !in h.bufs || h.bufs[cur.value] == 0 then (h.(fault := true), cur.value)
    else if h.bufs[cur.value] > 1 then
      (NewBuffer(h.(bufs := h.bufs[cur.value := h.bufs[cur.value] - 1]), nb), nb)
    else (h.(bufs := h.bufs[cur.value := 1]), cur.value)
  }

  predicate Enabled(s: Sys, t: Step) {
    match t
    case InitPlain(i, kind) => Vacant(s, i) && (kind.Vsm? || kind.Other?)
    case InitLmsg(i, c) => Vacant(s, i) && c !in s.h.known && c !in s.h.home
    case InitZclmsg(i, c, b) => Vacant(s, i) && c !in s.h.known && c !in s.h.home && b in s.held
    case Close(i) => Checked(s, i)
    case Move(dst, src) => Checked(s, dst) && Checked(s, src) && dst != src
    case Copy(dst, src) => Checked(s, dst) && Checked(s, src) && dst != src
    case Spread(i, K) => Checked(s, i) && i !in K && forall k :: k in K ==> k !in s.hs
    case Drop(i, R) =>
      Checked(s, i) && i in R && R <= s.hs.Keys && s.hs[i].Content().Some?
      && R <= Users(s.hs, s.hs[i].Content().value) && (s.hs[i].shared || R == {i})
    case Allocate(cur, nb) => nb !in s.h.knownBufs && (cur.Some? ==> cur.value in s.held)
    case Deallocate(b) => b in s.held
  }

  const INVALID: Msg := Msg(Kind.Invalid, false)

  function CloseSlot(s: Sys, i: Slot): Sys
    requires i in s.hs
  {
    Sys(CloseHeap(s.h, s.hs[i]), s.hs[i := INVALID], s.held)
  }

  function NewContent(h: Heap, c: ContentId): Heap {
    h.(refcnt := h.refcnt[c := 0], known := h.known + {c})
  }

  function Next(s: Sys, t: Step): Sys
    requires Enabled(s, t)
  {
    match t
    case InitPlain(i, kind) => s.(hs := s.hs[i := Msg(kind, false)])
    case InitLmsg(i, c) => s.(h := NewContent(s.h, c), hs := s.hs[i := Msg(Lmsg(c), false)])
    case InitZclmsg(i, c, b) =>
      var h1 := NewContent(s.h, c);
      if b !in h1.bufs then s.(h := h1.(fault := true))
      else s.(h := h1.(home := h1.home[c := b], bufs := h1.bufs[b := h1.bufs[b] + 1]),
              hs := s.hs[i := Msg(Zclmsg(c), false)])
    case Close(i) => CloseSlot(s, i)
    case Move(dst, src) => var s1 := CloseSlot(s, dst); s1.(hs := s1.hs[dst := s1.hs[src]][src := INIT])
    case Copy(dst, src) =>
      var s1 := CloseSlot(s, dst);
      var (h2, m) := Share(s1.h, s1.hs[src], 1);
      s1.(h := h2, hs := s1.hs[src := m][dst := m])
    case Spread(i, K) =>
      var (h1, m) := AddRefs(s.h, s.hs[i], |K|);
      s.(h := h1, hs := s.hs[i := m] + map k | k in K :: m)
    case Drop(i, R) => s.(h := RmRefs(s.h, s.hs[i], |R|), hs := s.hs - R)
    case Allocate(cur, nb) =>
      var (h1, b) := AllocateHeap(s.h, cur, nb);
      Sys(h1, s.hs, (if cur.Some? then s.held - {cur.value} else s.held) + {b})
    case Deallocate(b) => Sys(DecBuffer(s.h, b), s.hs, s.held - {b})
  }

  // ---------------------------------------------------------------- one step

  lemma SameUsers(h: Heap, hs: Handles, held: set<BufferId>, hs': Handles)
    requires Inv(h, hs, held)
    requires forall i :: i in hs && hs[i].Content().Some? ==> i in hs' && hs'[i] == hs[i]
    requires forall i :: i in hs' && hs'[i].Content().Some? ==> i in hs && hs[i] == hs'[i]
    ensures Inv(h, hs', held)
  {
    forall c: ContentId ensures ContentOk(h, hs', c) {
      assert ContentOk(h, hs, c);
      assert Users(hs', c) == Users(hs, c);
    }
  }

  lemma KeepClose(s: Sys, i: Slot)
    requires Ok(s) && i in s.hs
    ensures Ok(CloseSlot(s, i))
  {
    var hs' := s.hs[i := INVALID];
    if s.hs[i].Content().Some? {
      assert CloseHeap(s.h, s.hs[i]) == RmRefs(s.h, s.hs[i], |{i}|);
      DropHandles(s.h, s.hs, s.held, i, {i}, hs');
    } else {
      SameUsers(s.h, s.hs, s.held, hs');
    }
  }

  lemma InitContent(h: Heap, hs: Handles, h': Heap, i: Slot, m: Msg, x: ContentId)
    requires ContentOk(h, hs, x) && m.Content().Some? && !m.shared && (i in hs ==> hs[i].Content().None?)
    requires var c := m.Content().value;
             && c !in h.known && h'.refcnt == h.refcnt[c := 0] && h'.known == h.known + {c} && h'.freed == h.freed
             && (forall y: ContentId :: y != c ==> (y in h'.home <==> y in h.home))
             && (c in h'.home <==> m.kind.Zclmsg?)
    ensures ContentOk(h', hs[i := m], x)
  {
    var U, U' := Users(hs, x), Users(hs[i := m], x);
    if m.Content() == Some(x) {
      assert U == {};
      assert U' == {i};
    } else {
      assert U' == U;
    }
  }

  lemma KeepInitLmsg(s: Sys, i: Slot, c: ContentId)
    requires Ok(s) && Enabled(s, InitLmsg(i, c))
    ensures Ok(Next(s, InitLmsg(i, c)))
  {
    var s' := Next(s, InitLmsg(i, c));
    forall x: ContentId ensures ContentOk(s'.h, s'.hs, x) {
      assert ContentOk(s.h, s.hs, x);
      InitContent(s.h, s.hs, s'.h, i, Msg(Lmsg(c), false), x);
    }
    forall b: BufferId ensures BufferOk(s'.h, s'.held, b) {
      assert BufferOk(s.h, s.held, b);
      assert Tenants(s'.h, b) == Tenants(s.h, b);
    }
  }

  lemma KeepInitZclmsg(s: Sys, i: Slot, c: ContentId, b: BufferId)
    requires Ok(s) && Enabled(s, InitZclmsg(i, c, b))
    ensures Ok(Next(s, InitZclmsg(i, c, b)))
  {
    assert BufferOk(s.h, s.held, b);
    var s' := Next(s, InitZclmsg(i, c, b));
    forall x: ContentId ensures ContentOk(s'.h, s'.hs, x) {
      assert ContentOk(s.h, s.hs, x);
      InitContent(s.h, s.hs, s'.h, i, Msg(Zclmsg(c), false), x);
    }
    assert ContentOk(s.h, s.hs, c);
    forall y: BufferId ensures BufferOk(s'.h, s'.held, y) {
      assert BufferOk(s.h, s.held, y);
      NewTenant(s.h, s'.h, s.held, c, b, y);
    }
  }

  lemma NewTenant(h: Heap, h': Heap, held: set<BufferId>, c: ContentId, b: BufferId, y: BufferId)
    requires BufferOk(h, held, y) && c !in h.refcnt && b in h.bufs
    requires h'.refcnt == h.refcnt[c := 0] && h'.home == h.home[c := b] && h'.bufs == h.bufs[b := h.bufs[b] + 1]
    requires h'.knownBufs == h.knownBufs && h'.freedBufs == h.freedBufs
    ensures BufferOk(h', held, y)
  {
    assert Tenants(h', y) == if y == b then Tenants(h, y) + {c} else Tenants(h, y);
  }

  lemma MoveUsers(hs: Handles, hs': Handles, dst: Slot, src: Slot, c: ContentId)
    requires dst in hs && src in hs && dst != src && hs[dst].Content().None?
    requires hs' == hs[dst := hs[src]][src := INIT]
    ensures |Users(hs', c)| == |Users(hs, c)|
    ensures forall i :: i in Users(hs', c) ==> (if i == dst then src else i) in Users(hs, c)
  {
    var U := Users(hs, c);
    if src in U {
      assert Users(hs', c) == U - {src} + {dst};
      assert |U - {src} + {dst}| == |U|;
    } else {
      assert Users(hs', c) == U;
    }
  }

  lemma MoveContent(h: Heap, hs: Handles, hs': Handles, dst: Slot, src: Slot, c: ContentId)
    requires ContentOk(h, hs, c) && dst in hs && src in hs && dst != src && hs[dst].Content().None?
    requires hs' == hs[dst := hs[src]][src := INIT]
    ensures ContentOk(h, hs', c)
  {
    MoveUsers(hs, hs', dst, src, c);
    forall i | i in Users(hs', c) ensures hs'[i] == hs[if i == dst then src else i] { }
  }

  lemma KeepMove(s: Sys, dst: Slot, src: Slot)
    requires Ok(s) && Enabled(s, Move(dst, src))
    ensures Ok(Next(s, Move(dst, src)))
  {
    KeepClose(s, dst);
    var s1 := CloseSlot(s, dst);
    var hs' := s1.hs[dst := s1.hs[src]][src := INIT];
    forall c: ContentId ensures ContentOk(s1.h, hs', c) {
      assert ContentOk(s1.h, s1.hs, c);
      MoveContent(s1.h, s1.hs, hs', dst, src, c);
    }
  }

  lemma KeepCopy(s: Sys, dst: Slot, src: Slot)
    requires Ok(s) && Enabled(s, Copy(dst, src))
    ensures Ok(Next(s, Copy(dst, src)))
  {
    KeepClose(s, dst);
    var s1 := CloseSlot(s, dst);
    var s' := Next(s, Copy(dst, src));
    assert |{dst}| == 1;
    ShareHandles(s1.h, s1.hs, s1.held, src, {dst}, s'.hs);
  }

  lemma KeepSpread(s: Sys, i: Slot, K: set<Slot>)
    requires Ok(s) && Enabled(s, Spread(i, K))
    ensures Ok(Next(s, Spread(i, K)))
  {
    var s' := Next(s, Spread(i, K));
    if K == {} {
      assert s'.hs == s.hs;
    } else {
      ShareHandles(s.h, s.hs, s.held, i, K, s'.hs);
    }
  }

  lemma AllocateBuffer(h: Heap, held: set<BufferId>, cur: Option<BufferId>, nb: BufferId, b: BufferId)
    requires BufferOk(h, held, b) && (cur.Some? ==> cur.value in held && BufferOk(h, held, cur.value))
    requires nb !in h.knownBufs && BufferOk(h, held, nb)
    ensures var (h1, nb1) := AllocateHeap(h, cur, nb);
            h1.fault == h.fault && BufferOk(h1, (if cur.Some? then held - {cur.value} else held) + {nb1}, b)
  {
    var (h1, nb1) := AllocateHeap(h, cur, nb);
    assert Tenants(h1, b) == Tenants(h, b);
  }

  lemma KeepAllocate(s: Sys, cur: Option<BufferId>, nb: BufferId)
    requires Ok(s) && Enabled(s, Allocate(cur, nb))
    ensures Ok(Next(s, Allocate(cur, nb)))
  {
    var s' := Next(s, Allocate(cur, nb));
    forall b: BufferId ensures BufferOk(s'.h, s'.held, b) && s'.h.fault == s.h.fault {
      assert BufferOk(s.h, s.held, b) && BufferOk(s.h, s.held, nb);
      assert cur.Some? ==> BufferOk(s.h, s.held, cur.value);
      AllocateBuffer(s.h, s.held, cur, nb, b);
    }
    assert BufferOk(s'.h, s'.held, nb);
    SameContents(s, s');
  }

  lemma SameContents(s: Sys, s': Sys)
    requires Ok(s) && s'.hs == s.hs && s'.h.refcnt == s.h.refcnt && s'.h.home == s.h.home
    requires s'.h.known == s.h.known && s'.h.freed == s.h.freed
    ensures forall c: ContentId :: ContentOk(s'.h, s'.hs, c)
  {
    forall c: ContentId ensures ContentOk(s'.h, s'.hs, c) { assert ContentOk(s.h, s.hs, c); }
  }

  lemma KeepDeallocate(s: Sys, b: BufferId)
    requires Ok(s) && Enabled(s, Deallocate(b))
    ensures Ok(Next(s, Deallocate(b)))
  {
    var s' := Next(s, Deallocate(b));
    assert BufferOk(s.h, s.held, b);
    forall x: BufferId ensures BufferOk(s'.h, s'.held, x) {
      assert BufferOk(s.h, s.held, x);
      assert Tenants(s'.h, x) == Tenants(s.h, x);
    }
    SameContents(s, s');
  }

  lemma StepKeepsOk(s: Sys, t: Step)
    requires Ok(s) && Enabled(s, t)
    ensures Ok(Next(s, t))
  {
    match t
    case InitPlain(i, kind) => SameUsers(s.h, s.hs, s.held, Next(s, t).hs);
    case InitLmsg(i, c) => KeepInitLmsg(s, i, c);
    case InitZclmsg(i, c, b) => KeepInitZclmsg(s, i, c, b);
    case Close(i) => KeepClose(s, i);
    case Move(dst, src) => KeepMove(s, dst, src);
    case Copy(dst, src) => KeepCopy(s, dst, src);
    case Spread(i, K) => KeepSpread(s, i, K);
    case Drop(i, R) => DropHandles(s.h, s.hs, s.held, i, R, s.hs - R);
    case Allocate(cur, nb) => KeepAllocate(s, cur, nb);
    case Deallocate(b) => KeepDeallocate(s, b);
  }

  // ---------------------------------------------------------------- runs

  ghost predicate IsStep(s: Sys, s': Sys) {
    exists t :: Enabled(s, t) && s' == Next(s, t)
  }

  ghost predicate Run(ss: seq<Sys>) {
    |ss| > 0 && ss[0] == START && forall i :: 0 <= i < |ss| - 1 ==> IsStep(ss[i], ss[i + 1])
  }

  lemma {:induction false} RunKeepsOk(ss: seq<Sys>)
    requires Run(ss)
    ensures Ok(ss[|ss| - 1])
  {
    if |ss| == 1 {
      forall c: ContentId ensures ContentOk(START.h, START.hs, c) { assert Users(START.hs, c) == {}; }
      forall b: BufferId ensures BufferOk(START.h, START.held, b) { assert Tenants(START.h, b) == {}; }
    } else {
      var n := |ss| - 1;
      RunKeepsOk(ss[..n]);
      assert IsStep(ss[n - 1], ss[n]);
      var t :| Enabled(ss[n - 1], t) && ss[n] == Next(ss[n - 1], t);
      StepKeepsOk(ss[n - 1], t);
    }
  }

  /** In every run no freed memory is touched; a content exists exactly while
      it has handles and is freed once; a buffer exists exactly while an
      allocator or a message needs it and is freed once. */
  lemma ExactLifetimes(ss: seq<Sys>, c: ContentId, b: BufferId)
    requires Run(ss)
    ensures var s := ss[|ss| - 1];
            && !s.h.fault
            && (c in s.h.refcnt <==> Users(s.hs, c) != {})
            && s.h.freed[c] == Bit(c in s.h.known && Users(s.hs, c) == {})
            && (b in s.h.bufs <==> b in s.held || Tenants(s.h, b) != {})
            && (b in s.h.bufs ==> s.h.bufs[b] == Bit(b in s.held) + |Tenants(s.h, b)|)
            && s.h.freedBufs[b] == Bit(b in s.h.knownBufs && b !in s.held && Tenants(s.h, b) == {})
  {
    RunKeepsOk(ss);
    var s := ss[|ss| - 1];
    assert ContentOk(s.h, s.hs, c) && BufferOk(s.h, s.held, b);
  }

  /** allocate hands out the old buffer again exactly when no message lives in it. */
  lemma ReuseOnlyWhenUnused(s: Sys, cur: BufferId, nb: BufferId)
    requires Ok(s) && Enabled(s, Allocate(Some(cur), nb))
    ensures AllocateHeap(s.h, Some(cur), nb).1 == cur <==> Tenants(s.h, cur) == {}
    ensures Tenants(s.h, cur) != {} ==> cur in Next(s, Allocate(Some(cur), nb)).h.bufs
  {
    assert BufferOk(s.h, s.held, cur) && BufferOk(s.h, s.held, nb);
  }

  // ---------------------------------------------------------------- content slots

  /** The bodies of zero-copy messages in one buffer: disjoint, in order, each
      at least vsm bytes long, within size bytes. */
  predicate Bodies(offset: seq<nat>, length: seq<nat>, vsm: nat, size: nat) {
    && |offset| == |length|
    && (forall k :: 0 <= k < |offset| ==> length[k] >= vsm && offset[k] + length[k] <= size)
    && (forall j, k :: 0 <= j < k < |offset| ==> offset[j] + length[j] <= offset[k])
  }

  /** The number of content slots behind a buffer, as the constructor computes it. */
  function MaxCounters(size: nat, vsm: nat): nat
    requires vsm > 0
  {
    (size + vsm - 1) / vsm
  }

  lemma {:induction false} BodiesFill(offset: seq<nat>, length: seq<nat>, vsm: nat, size: nat)
    requires Bodies(offset, length, vsm, size) && offset != []
    ensures |offset| * vsm <= offset[|offset| - 1] + length[|offset| - 1]
  {
    var n := |offset| - 1;
    if n > 0 {
      BodiesFill(offset[..n], length[..n], vsm, size);
      assert (n + 1) * vsm == n * vsm + vsm;
    }
  }

  /** The slots never run out. */
  lemma SlotsSuffice(offset: seq<nat>, length: seq<nat>, vsm: nat, size: nat)
    requires vsm > 0 && Bodies(offset, length, vsm, size)
    ensures |offset| <= MaxCounters(size, vsm)
  {
    var n := |offset|;
    if n > 0 {
      BodiesFill(offset, length, vsm, size);
      var q := MaxCounters(size, vsm);
      assert q * vsm + vsm > size + vsm - 1;
      if n > q { Mul(q + 1, n, vsm); }
    }
  }

  lemma Mul(a: nat, b: nat, c: nat)
    requires a <= b
    ensures a * c <= b * c
  {
  }
}
