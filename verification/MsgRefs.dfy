/**
 Two-level reference counting: message contents (src/msg.cpp) that may live in
 receive buffers (src/decoder_allocators.cpp).  Contents and buffers are named;
 a name is never used again after the memory is freed.
 */
module MsgRefs {
  import opened Basics

  type ContentId = nat
  type BufferId = nat
  type Slot = nat

  /** The storage class of a message; Other stands for constant messages,
      delimiters, joins and leaves, Invalid for a closed message. */
  datatype Kind = Vsm | Other | Lmsg(c: ContentId) | Zclmsg(c: ContentId) | Invalid

  datatype Msg = Msg(kind: Kind, shared: bool) {
    function Content(): Option<ContentId> {
      if kind.Lmsg? then Some(kind.c) else if kind.Zclmsg? then Some(kind.c) else None
    }
  }

  const INIT: Msg := Msg(Vsm, false)

  /** The counters that exist, where zero-copy contents live, what was ever
      allocated, and what was freed how often.  `fault` records an access to
      freed memory. */
  datatype Heap = Heap(
    refcnt: map<ContentId, nat>,
    home: map<ContentId, BufferId>,
    bufs: map<BufferId, nat>,
    known: set<ContentId>,
    freed: multiset<ContentId>,
    knownBufs: set<BufferId>,
    freedBufs: multiset<BufferId>,
    fault: bool)

  // ---------------------------------------------------------------- counters

  /** call_dec_ref: drop one reference to a buffer. */
  function DecBuffer(h: Heap, b: BufferId): Heap {
    if b !in h.bufs || h.bufs[b] == 0 then h.(fault := true)
    else if h.bufs[b] == 1 then h.(bufs := h.bufs - {b}, freedBufs := h.freedBufs + multiset{b})
    else h.(bufs := h.bufs[b := h.bufs[b] - 1])
  }

  /** Destroy a content; a zero-copy content gives up its buffer. */
  function FreeContent(h: Heap, c: ContentId): Heap {
    if c !in h.refcnt then h.(fault := true)
    else
      var h1 := h.(refcnt := h.refcnt - {c}, freed := h.freed + multiset{c});
      if c in h.home then DecBuffer(h1, h.home[c]) else h1
  }

  /** Drop k references of a shared content and destroy it with the last one. */
  function SubRefs(h: Heap, c: ContentId, k: nat): Heap {
    if c !in h.refcnt || h.refcnt[c] < k then h.(fault := true)
    else if h.refcnt[c] == k then FreeContent(h, c)
    else h.(refcnt := h.refcnt[c := h.refcnt[c] - k])
  }

  // ---------------------------------------------------------------- msg_t

  function CloseHeap(h: Heap, m: Msg): Heap {
    if m.Content().None? then h
    else if m.shared then SubRefs(h, m.Content().value, 1)
    else FreeContent(h, m.Content().value)
  }

  /** The source of a copy: it is shared from now on. */
  function Share(h: Heap, m: Msg, more: nat): (Heap, Msg) {
    if m.Content().None? then (h, m)
    else
      var c := m.Content().value;
      if c !in h.refcnt then (h.(fault := true), m)
      else if m.shared then (h.(refcnt := h.refcnt[c := h.refcnt[c] + more]), m)
      else (h.(refcnt := h.refcnt[c := more + 1]), m.(shared := true))
  }

  function AddRefs(h: Heap, m: Msg, refs: nat): (Heap, Msg) {
    if refs == 0 then (h, m) else Share(h, m, refs)
  }

  /** rm_refs: a message without shared content is closed as a whole. */
  function RmRefs(h: Heap, m: Msg, refs: nat): Heap {
    if refs == 0 then h
    else if m.Content().None? || !m.shared then CloseHeap(h, m)
    else SubRefs(h, m.Content().value, refs)
  }

  /** References that are added and removed again leave the counter as it was,
      and a message that was not shared with a counter of one; adding or removing
      none changes nothing at all. */
  lemma RefsCancel(h: Heap, m: Msg, n: nat)
    requires m.Content().Some? && m.Content().value in h.refcnt && (m.shared ==> h.refcnt[m.Content().value] > 0)
    ensures var c := m.Content().value;
            var (h1, m1) := AddRefs(h, m, n);
            && m1.Content() == m.Content()
            && RmRefs(h1, m1, n) == (if n == 0 || m.shared then h else h.(refcnt := h.refcnt[c := 1]))
            && (n == 0 ==> m1 == m)
  {
    var c := m.Content().value;
    var (h1, m1) := AddRefs(h, m, n);
    if n > 0 {
      assert h1.refcnt[c := h1.refcnt[c] - n] == if m.shared then h.refcnt else h.refcnt[c := 1];
    }
  }

  // ---------------------------------------------------------------- the invariant

  type Handles = map<Slot, Msg>

  function Users(hs: Handles, c: ContentId): set<Slot> {
    set i | i in hs && hs[i].Content() == Some(c)
  }

  /** Either one unshared handle, or shared handles counted exactly; the
      content exists exactly as long as it has a handle, and was freed exactly
      once when the last one went. */
  predicate ContentOk(h: Heap, hs: Handles, c: ContentId) {
    && (c in h.refcnt <==> Users(hs, c) != {})
    && (c in h.refcnt ==>
          forall i :: i in Users(hs, c) ==>
                        (c in h.home <==> hs[i].kind.Zclmsg?)
                        && if hs[i].shared then h.refcnt[c] == |Users(hs, c)| else |Users(hs, c)| == 1)
    && (c in h.refcnt ==> c in h.known) && h.freed[c] == Bit(c in h.known && c !in h.refcnt)
  }

  function Tenants(h: Heap, b: BufferId): set<ContentId> {
    set c | c in h.refcnt && c in h.home && h.home[c] == b
  }

  /** A buffer's counter is one if an allocator holds it, plus its contents. */
  predicate BufferOk(h: Heap, held: set<BufferId>, b: BufferId) {
    && (b in h.bufs <==> b in held || Tenants(h, b) != {})
    && (b in h.bufs ==> b in h.knownBufs && h.bufs[b] == Bit(b in held) + |Tenants(h, b)|)
    && h.freedBufs[b] == Bit(b in h.knownBufs && b !in h.bufs)
  }

  ghost predicate Inv(h: Heap, hs: Handles, held: set<BufferId>) {
    && !h.fault
    && (forall c: ContentId :: ContentOk(h, hs, c))
    && (forall b: BufferId :: BufferOk(h, held, b))
  }

  // ---------------------------------------------------------------- freeing

  lemma FreeKeepsBuffers(h: Heap, held: set<BufferId>, c: ContentId)
    requires !h.fault && c in h.refcnt && forall b: BufferId :: BufferOk(h, held, b)
    ensures var h' := FreeContent(h, c);
            && !h'.fault && h'.refcnt == h.refcnt - {c} && h'.home == h.home && h'.known == h.known
            && h'.freed == h.freed + multiset{c}
            && forall b: BufferId :: BufferOk(h', held, b)
  {
    var h1 := h.(refcnt := h.refcnt - {c}, freed := h.freed + multiset{c});
    var h' := FreeContent(h, c);
    if c in h.home {
      assert BufferOk(h, held, h.home[c]);
      assert c in Tenants(h, h.home[c]);
    }
    forall b: BufferId ensures BufferOk(h', held, b) {
      assert BufferOk(h, held, b);
      if c in h.home && h.home[c] == b {
        assert Tenants(h', b) == Tenants(h, b) - {c};
      } else {
        assert Tenants(h', b) == Tenants(h, b);
      }
    }
  }

  /** hs' is hs without the handles in R. */
  predicate Dropped(hs: Handles, hs': Handles, R: set<Slot>) {
    && (forall i :: i in hs' && hs'[i].Content().Some? ==> i in hs && i !in R && hs[i] == hs'[i])
    && (forall i :: i in hs && i !in R && hs[i].Content().Some? ==> i in hs' && hs'[i] == hs[i])
  }

  lemma DropUsers(hs: Handles, hs': Handles, R: set<Slot>, c: ContentId)
    requires Dropped(hs, hs', R)
    ensures Users(hs', c) == Users(hs, c) - R
  {
  }

  /** The counter of c, and nothing else about contents, went down by k. */
  ghost predicate Lowered(h: Heap, h': Heap, c: ContentId, k: nat) {
    && c in h.refcnt && h'.home == h.home && h'.known == h.known
    && (forall x: ContentId :: x != c ==> (x in h'.refcnt <==> x in h.refcnt) && h'.freed[x] == h.freed[x])
    && (forall x: ContentId :: x != c && x in h.refcnt ==> h'.refcnt[x] == h.refcnt[x])
    && if c in h'.refcnt then h'.refcnt[c] + k == h.refcnt[c] && h'.freed[c] == h.freed[c]
       else h'.freed[c] == h.freed[c] + 1
  }

  lemma DropContent(h: Heap, hs: Handles, h': Heap, hs': Handles, c: ContentId, R: set<Slot>, x: ContentId)
    requires ContentOk(h, hs, x) && Lowered(h, h', c, |R|) && Dropped(hs, hs', R)
    requires R <= Users(hs, c) && (c in h'.refcnt <==> R != Users(hs, c))
    ensures ContentOk(h', hs', x)
  {
    DropUsers(hs, hs', R, x);
    if x == c {
      assert |Users(hs, c) - R| == |Users(hs, c)| - |R|;
    } else {
      assert Users(hs, x) - R == Users(hs, x);
    }
  }

  lemma SameTenants(h: Heap, h': Heap, held: set<BufferId>)
    requires forall b: BufferId :: BufferOk(h, held, b)
    requires h'.home == h.home && h'.refcnt.Keys == h.refcnt.Keys
    requires h'.bufs == h.bufs && h'.knownBufs == h.knownBufs && h'.freedBufs == h.freedBufs
    ensures forall b: BufferId :: BufferOk(h', held, b)
  {
    forall b: BufferId ensures BufferOk(h', held, b) {
      assert BufferOk(h, held, b);
      assert Tenants(h', b) == Tenants(h, b);
    }
  }

  /** Give up the handles in R, all of the same content. */
  lemma DropHandles(h: Heap, hs: Handles, held: set<BufferId>, i: Slot, R: set<Slot>, hs': Handles)
    requires Inv(h, hs, held) && i in R && R <= hs.Keys && Dropped(hs, hs', R)
    requires hs[i].Content().Some? && R <= Users(hs, hs[i].Content().value)
    requires !hs[i].shared ==> R == {i}
    ensures Inv(RmRefs(h, hs[i], |R|), hs', held)
  {
    var c := hs[i].Content().value;
    var h' := RmRefs(h, hs[i], |R|);
    var U := Users(hs, c);
    assert ContentOk(h, hs, c);
    assert |U| == |U - R| + |R|;
    if U == R {
      FreeKeepsBuffers(h, held, c);
      assert h' == FreeContent(h, c);
    } else {
      assert U - R != {};
      SameTenants(h, h', held);
    }
    forall x: ContentId ensures ContentOk(h', hs', x) {
      assert ContentOk(h, hs, x);
      DropContent(h, hs, h', hs', c, R, x);
    }
  }

  // ---------------------------------------------------------------- sharing

  /** hs' is hs with m at slot i and at the new slots K; other handles are kept. */
  predicate Spread(hs: Handles, hs': Handles, i: Slot, K: set<Slot>, m: Msg) {
    && i in hs && i !in K
    && (forall k :: k in K ==> k in hs' && hs'[k] == m && (k in hs ==> hs[k].Content().None?))
    && i in hs' && hs'[i] == m
    && (forall j :: j in hs && j != i && j !in K ==> j in hs' && hs'[j] == hs[j])
    && (forall j :: j in hs' && j != i && j !in K ==> j in hs && hs[j] == hs'[j])
  }

  lemma SpreadUsers(hs: Handles, hs': Handles, i: Slot, K: set<Slot>, m: Msg, c: ContentId)
    requires Spread(hs, hs', i, K, m) && m.Content() == hs[i].Content()
    ensures Users(hs', c) == Users(hs, c) + if m.Content() == Some(c) then K else {}
    ensures Users(hs, c) !! K
  {
  }

  lemma AllAlike(h: Heap, hs: Handles, c: ContentId, i: Slot, j: Slot)
    requires ContentOk(h, hs, c) && i in Users(hs, c) && j in Users(hs, c)
    ensures hs[i].shared == hs[j].shared && (hs[i].shared || i == j)
  {
    if !hs[i].shared { OnlyMember(Users(hs, c), i); }
    if !hs[j].shared { OnlyMember(Users(hs, c), j); }
  }

  lemma SpreadContent(h: Heap, hs: Handles, i: Slot, K: set<Slot>, hs': Handles, x: ContentId)
    requires i in hs && ContentOk(h, hs, x) && Spread(hs, hs', i, K, Share(h, hs[i], |K|).1)
    requires hs[i].Content().Some? && hs[i].Content().value in h.refcnt
    ensures ContentOk(Share(h, hs[i], |K|).0, hs', x)
  {
    var (h', m) := Share(h, hs[i], |K|);
    SpreadUsers(hs, hs', i, K, m, x);
    if hs[i].Content() == Some(x) {
      var U, U' := Users(hs, x), Users(hs', x);
      assert i in U && |U'| == |U| + |K|;
      forall j | j in U' ensures (x in h'.home <==> hs'[j].kind.Zclmsg?) && hs'[j].shared && h'.refcnt[x] == |U'| {
        if j in U { AllAlike(h, hs, x, i, j); }
      }
    }
  }

  lemma OnlyMember(s: set<Slot>, i: Slot)
    requires i in s && |s| == 1
    ensures s == {i}
  {
    assert |s - {i}| == 0;
  }

  /** Copying a message into the slots K keeps the counts exact. */
  lemma ShareHandles(h: Heap, hs: Handles, held: set<BufferId>, i: Slot, K: set<Slot>, hs': Handles)
    requires Inv(h, hs, held) && i in hs && Spread(hs, hs', i, K, Share(h, hs[i], |K|).1)
    ensures Inv(Share(h, hs[i], |K|).0, hs', held)
  {
    var (h', m) := Share(h, hs[i], |K|);
    if hs[i].Content().None? {
      forall x: ContentId ensures ContentOk(h', hs', x) {
        assert ContentOk(h, hs, x);
        SpreadUsers(hs, hs', i, K, m, x);
        assert Users(hs', x) == Users(hs, x);
      }
    } else {
      var c := hs[i].Content().value;
      assert ContentOk(h, hs, c);
      assert i in Users(hs, c);
      SameTenants(h, h', held);
      forall x: ContentId ensures ContentOk(h', hs', x) {
        assert ContentOk(h, hs, x);
        SpreadContent(h, hs, i, K, hs', x);
      }
    }
  }
}
