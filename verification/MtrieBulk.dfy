/** Removal of one subscriber from every prefix, with callbacks (generic_mtrie_t::rm over a value). */
module MtrieBulk {
  import opened Basics
  import opened Mtrie

  // ---------------------------------------------------------------- the callbacks, by specification

  /** Removing pipe from these subscribers is reported. */
  predicate Reported(subscribers: set<Pipe>, pipe: Pipe, uniq: bool) {
    pipe in subscribers && (!uniq || subscribers == {pipe})
  }

  function Prefixed(p: Key, ks: seq<Key>): (r: seq<Key>)
    ensures |r| == |ks| && forall i :: 0 <= i < |r| ==> r[i] == p + ks[i]
  {
    seq(|ks|, i requires 0 <= i < |ks| => p + ks[i])
  }

  /** The reported keys below n, relative to n, in visiting order. */
  function Hits(n: Node, pipe: Pipe, uniq: bool): seq<Key>
    decreases n, |n.next| + 1
  {
    (if Reported(Pipes(n), pipe, uniq) then [[]] else []) + HitsIn(n, |n.next|, pipe, uniq)
  }

  /** The byte that leads to entry i of n's table. */
  function ByteAt(n: Node, i: nat): Byte {
    (n.min + i) % 256
  }

  function HitsIn(n: Node, m: nat, pipe: Pipe, uniq: bool): seq<Key>
    requires m <= |n.next|
    decreases n, m
  {
    if m == 0 then []
    else HitsIn(n, m - 1, pipe, uniq) + HitsAt(n, m - 1, pipe, uniq)
  }

  function HitsAt(n: Node, i: nat, pipe: Pipe, uniq: bool): seq<Key>
    requires i < |n.next|
    decreases n, i
  {
    if n.next[i].None? then [] else Prefixed([ByteAt(n, i)], Hits(n.next[i].value, pipe, uniq))
  }

  lemma PrefixedConcat(p: Key, s: seq<Key>, t: seq<Key>)
    ensures Prefixed(p, s + t) == Prefixed(p, s) + Prefixed(p, t)
  {
  }

  lemma PrefixedTwice(p: Key, q: Key, s: seq<Key>)
    ensures Prefixed(p, Prefixed(q, s)) == Prefixed(p + q, s)
  {
    forall i | 0 <= i < |s| ensures p + (q + s[i]) == (p + q) + s[i] { }
  }

  // ---------------------------------------------------------------- the sweep

  ghost predicate RemovedAll(n: Node, m: Node, pipe: Pipe) {
    forall k: Key :: Get(m, k) == Get(n, k) - {pipe}
  }

  ghost predicate SweptKid(o: Option<Node>, o': Option<Node>, pipe: Pipe) {
    && KidOk(o') && (o.None? ==> o'.None?)
    && (forall k: Key :: GetIn(o', k) == GetIn(o, k) - {pipe})
  }

  ghost predicate Swept(t: seq<Option<Node>>, t': seq<Option<Node>>, c: nat, pipe: Pipe) {
    && |t'| == |t| && c <= |t|
    && (forall j :: 0 <= j < c ==> SweptKid(t[j], t'[j], pipe))
    && (forall j :: c <= j < |t| ==> t'[j] == t[j])
  }

  /** realloc: the common part is kept, new bytes are unspecified. */
  method Realloc(buf: seq<Byte>, size: nat) returns (r: seq<Byte>)
    ensures |r| == size && forall i :: 0 <= i < size && i < |buf| ==> r[i] == buf[i]
  {
    r := seq(size, i requires 0 <= i < size => if i < |buf| then buf[i] else 0);
  }

  /** What a frame takes the buffer size to be after its own adjustment. */
  function Adjusted(size: nat, max: nat): nat {
    if size >= max then size + 256 else max
  }

  /** The swept node before its children are visited. */
  function Strip(n: Node, pipe: Pipe): Node {
    if n.pipes.Some? && pipe in n.pipes.value then
      var left := n.pipes.value - {pipe};
      n.(pipes := if left == {} then None else Some(left))
    else n
  }

  method RmHelper(n: Node, pipe: Pipe, buf: seq<Byte>, size: nat, max: nat, uniq: bool)
    returns (m: Node, buff: seq<Byte>, calls: seq<Key>)
    requires Valid(n) && size <= |buf| && max <= |buf|
    ensures Valid(m) && RemovedAll(n, m, pipe)
    ensures size < Adjusted(size, max) <= |buff| && buff[..size] == buf[..size]
    ensures calls == Prefixed(buf[..size], Hits(n, pipe, uniq))
    decreases n.next, 3
  {
    m, buff, calls := n, buf, [];
    if m.pipes.Some? && pipe in m.pipes.value {
      var left := m.pipes.value - {pipe};
      if !uniq || left == {} {
        calls := [buff[..size]];
      }
      m := m.(pipes := if left == {} then None else Some(left));
    }
    assert m == Strip(n, pipe);
    ghost var own := calls;

    var maxsize := max;
    if size >= maxsize {
      maxsize := size + 256;
      buff := Realloc(buff, maxsize);
    }
    assert buff[..size] == buf[..size];

    var more: seq<Key> := [];
    if |m.next| == 1 {
      m, buff, more := RmSingle(m, pipe, buff, size, maxsize, uniq);
    } else if |m.next| > 1 {
      m, buff, more := RmMultiple(m, pipe, buff, size, maxsize, uniq);
    }
    calls := calls + more;
    SweepOk(n, m, pipe, uniq, buf[..size], own, more);
  }

  /** The children were swept and their callbacks collected. */
  ghost predicate KidsSwept(n: Node, m: Node, pipe: Pipe, uniq: bool, path: Key, more: seq<Key>) {
    && Valid(m) && m.pipes == n.pipes
    && (forall x: Byte, k: Key :: GetIn(Child(m, x), k) == GetIn(Child(n, x), k) - {pipe})
    && more == Prefixed(path, HitsIn(n, |n.next|, pipe, uniq))
  }

  lemma SweepOk(n: Node, m: Node, pipe: Pipe, uniq: bool, path: Key, own: seq<Key>, more: seq<Key>)
    requires KidsSwept(Strip(n, pipe), m, pipe, uniq, path, more)
    requires own == if Reported(Pipes(n), pipe, uniq) then [path] else []
    ensures RemovedAll(n, m, pipe)
    ensures own + more == Prefixed(path, Hits(n, pipe, uniq))
  {
    StripHits(n, |n.next|, pipe, uniq);
    var first: seq<Key> := if Reported(Pipes(n), pipe, uniq) then [[]] else [];
    PrefixedConcat(path, first, HitsIn(n, |n.next|, pipe, uniq));
    assert path + [] == path;
    assert own == Prefixed(path, first);
    forall k: Key ensures Get(m, k) == Get(n, k) - {pipe} {
      if k != [] {
        assert Child(Strip(n, pipe), k[0]) == Child(n, k[0]);
      }
    }
  }

  lemma {:induction false} StripHits(n: Node, m: nat, pipe: Pipe, uniq: bool)
    requires m <= |n.next|
    ensures HitsIn(Strip(n, pipe), m, pipe, uniq) == HitsIn(n, m, pipe, uniq)
  {
    if m > 0 { StripHits(n, m - 1, pipe, uniq); }
  }

  /** Visit the child at entry c: its byte goes into the buffer, and the entry
      is null afterwards if the child became redundant. */
  method SweepEntry(n: Node, c: nat, pipe: Pipe, buf: seq<Byte>, size: nat, max: nat, uniq: bool)
    returns (o: Option<Node>, buff: seq<Byte>, part: seq<Key>)
    requires Valid(n) && c < |n.next| && size < max <= |buf|
    ensures SweptKid(n.next[c], o, pipe)
    ensures part == Prefixed(buf[..size], HitsAt(n, c, pipe, uniq))
    ensures max <= |buff| && buff[..size] == buf[..size]
    decreases n.next, 0
  {
    o, part := None, [];
    buff := buf[size := ByteAt(n, c)];
    assert KidOk(n.next[c]);
    if n.next[c].Some? {
      assert buff[..size + 1] == buf[..size] + [ByteAt(n, c)];
      var kid;
      kid, buff, part := RmHelper(n.next[c].value, pipe, buff, size + 1, max, uniq);
      assert buff[..size] == buff[..size + 1][..size] == buf[..size];
      PrefixedTwice(buf[..size], [ByteAt(n, c)], Hits(n.next[c].value, pipe, uniq));
      if IsRedundant(kid) {
        RedundantIsEmpty(kid);
      } else {
        o := Some(kid);
      }
    }
  }

  method RmSingle(n: Node, pipe: Pipe, buf: seq<Byte>, size: nat, max: nat, uniq: bool)
    returns (m: Node, buff: seq<Byte>, more: seq<Key>)
    requires Valid(n) && |n.next| == 1 && size < max <= |buf|
    ensures KidsSwept(n, m, pipe, uniq, buf[..size], more)
    ensures max <= |buff| && buff[..size] == buf[..size]
    decreases n.next, 1
  {
    var o;
    o, buff, more := SweepEntry(n, 0, pipe, buf, size, max, uniq);
    CountUpdate(n.next, 0, o);
    assert HitsIn(n, 1, pipe, uniq) == HitsAt(n, 0, pipe, uniq);
    if o.None? {
      m := n.(next := [], live := n.live - 1);
      assert m.live == 0;
    } else {
      m := n.(next := n.next[0 := o]);
    }
    SweptChildren(n, m, n.next[0 := o], pipe);
  }

  method RmMultiple(n: Node, pipe: Pipe, buf: seq<Byte>, size: nat, max: nat, uniq: bool)
    returns (m: Node, buff: seq<Byte>, more: seq<Key>)
    requires Valid(n) && |n.next| > 1 && size < max <= |buf|
    ensures KidsSwept(n, m, pipe, uniq, buf[..size], more)
    ensures max <= |buff| && buff[..size] == buf[..size]
    decreases n.next, 2
  {
    var table, live, newMin, newMax;
    table, live, newMin, newMax, buff, more := SweepTable(n, pipe, buf, size, max, uniq);
    SweptKidsOk(n.next, table, pipe);
    m := Shrink(n, table, live, newMin, newMax);
    SweptChildren(n, m, table, pipe);
  }

  /** The loop over the entries of a table. */
  method SweepTable(n: Node, pipe: Pipe, buf: seq<Byte>, size: nat, max: nat, uniq: bool)
    returns (table: seq<Option<Node>>, live: nat, newMin: nat, newMax: nat, buff: seq<Byte>, more: seq<Key>)
    requires Valid(n) && |n.next| > 1 && size < max <= |buf|
    ensures Swept(n.next, table, |n.next|, pipe) && live == CountSome(table)
    ensures Bounds(n.min, table, |table|, newMin, newMax)
    ensures more == Prefixed(buf[..size], HitsIn(n, |n.next|, pipe, uniq))
    ensures max <= |buff| && buff[..size] == buf[..size]
    decreases n.next, 1
  {
    buff, more := buf, [];
    ghost var path := buf[..size];
    table, live := n.next, n.live;
    newMin, newMax := n.min + |n.next| - 1, n.min;
    for c := 0 to |n.next|
      invariant Entered(n, c, pipe, table, live, newMin, newMax)
      invariant max <= |buff| && buff[..size] == path
      invariant more == Prefixed(path, HitsIn(n, c, pipe, uniq))
    {
      var o, part;
      o, buff, part := SweepEntry(n, c, pipe, buff, size, max, uniq);
      HitsStep(n, c, pipe, uniq, path);
      more := more + part;
      table, live, newMin, newMax := Enter(n, c, o, pipe, table, live, newMin, newMax);
    }
  }

  /** The entries before c are swept, with the count and the bounds of the table. */
  ghost predicate Entered(n: Node, c: nat, pipe: Pipe, table: seq<Option<Node>>, live: nat, newMin: nat, newMax: nat) {
    && c <= |n.next| && Swept(n.next, table, c, pipe)
    && live == CountSome(table) && Bounds(n.min, table, c, newMin, newMax)
  }

  /** The entry that was swept goes back into the table, and the bounds and the
      count of the table follow. */
  method Enter(n: Node, c: nat, o: Option<Node>, ghost pipe: Pipe,
               table: seq<Option<Node>>, live: nat, newMin: nat, newMax: nat)
    returns (table': seq<Option<Node>>, live': nat, newMin': nat, newMax': nat)
    requires c < |n.next| && Entered(n, c, pipe, table, live, newMin, newMax) && SweptKid(n.next[c], o, pipe)
    ensures table' == table[c := o] && Entered(n, c + 1, pipe, table', live', newMin', newMax')
  {
    live', newMin', newMax' := live, newMin, newMax;
    CountUpdate(table, c, o);
    BoundsStep(n.min, table, c, o, newMin, newMax);
    SweptStep(n.next, table, c, o, pipe);
    if o.Some? {
      if c + n.min < newMin { newMin' := c + n.min; }
      if c + n.min > newMax { newMax' := c + n.min; }
    } else if table[c].Some? {
      assert live > 0;
      live' := live - 1;
    }
    table' := table[c := o];
  }

  lemma HitsStep(n: Node, c: nat, pipe: Pipe, uniq: bool, path: Key)
    requires c < |n.next|
    ensures Prefixed(path, HitsIn(n, c + 1, pipe, uniq))
            == Prefixed(path, HitsIn(n, c, pipe, uniq)) + Prefixed(path, HitsAt(n, c, pipe, uniq))
  {
    PrefixedConcat(path, HitsIn(n, c, pipe, uniq), HitsAt(n, c, pipe, uniq));
  }

  lemma SweptStep(t: seq<Option<Node>>, table: seq<Option<Node>>, c: nat, o: Option<Node>, pipe: Pipe)
    requires c < |t| && Swept(t, table, c, pipe) && SweptKid(t[c], o, pipe)
    ensures Swept(t, table[c := o], c + 1, pipe)
    ensures o.Some? ==> table[c].Some?
  {
  }

  lemma SweptKidsOk(t: seq<Option<Node>>, table: seq<Option<Node>>, pipe: Pipe)
    requires Swept(t, table, |t|, pipe)
    ensures KidsOk(table)
  {
    forall j | 0 <= j < |table| ensures KidOk(table[j]) { assert SweptKid(t[j], table[j], pipe); }
  }

  lemma BoundsStep(min: nat, t: seq<Option<Node>>, c: nat, o: Option<Node>, newMin: nat, newMax: nat)
    requires c < |t| && Bounds(min, t, c, newMin, newMax)
    ensures Bounds(min, t[c := o], c + 1,
                   if o.Some? && c + min < newMin then c + min else newMin,
                   if o.Some? && c + min > newMax then c + min else newMax)
  {
  }

  /** newMin and newMax bound the children among the first c entries. */
  predicate Bounds(min: nat, t: seq<Option<Node>>, c: nat, newMin: nat, newMax: nat)
    requires c <= |t|
  {
    && min <= newMin <= min + |t| - 1 && min <= newMax <= min + |t| - 1
    && (forall j :: 0 <= j < c && t[j].Some? ==> newMin <= min + j <= newMax)
    && ((newMin == min + |t| - 1 && newMax == min && forall j :: 0 <= j < c ==> t[j].None?)
        || (newMin - min < c && t[newMin - min].Some? && newMax - min < c && t[newMax - min].Some?))
  }

  /** The child that byte x leads to in a table that starts at min. */
  function Entry(min: nat, table: seq<Option<Node>>, x: Byte): Option<Node> {
    if min <= x < min + |table| then table[x - min] else None
  }

  lemma SweptChildren(n: Node, m: Node, table: seq<Option<Node>>, pipe: Pipe)
    requires n.min + |n.next| <= 256 && Swept(n.next, table, |n.next|, pipe)
    requires forall x: Byte :: Child(m, x) == Entry(n.min, table, x)
    ensures forall x: Byte, k: Key :: GetIn(Child(m, x), k) == GetIn(Child(n, x), k) - {pipe}
  {
    forall x: Byte, k: Key ensures GetIn(Child(m, x), k) == GetIn(Child(n, x), k) - {pipe} {
      if n.min <= x < n.min + |n.next| {
        assert SweptKid(n.next[x - n.min], table[x - n.min], pipe);
      }
    }
  }

  /** Switch to the tightest representation of the swept table. */
  method Shrink(n: Node, table: seq<Option<Node>>, live: nat, newMin: nat, newMax: nat) returns (m: Node)
    requires Valid(n) && |table| == |n.next| > 1 && live == CountSome(table) && KidsOk(table)
    requires Bounds(n.min, table, |table|, newMin, newMax)
    ensures Valid(m) && m.pipes == n.pipes
    ensures forall x: Byte :: Child(m, x) == Entry(n.min, table, x)
  {
    var count := |table|;
    var e := n.(next := table, live := live);
    CountZero(table);
    if live == 0 {
      m := e.(next := []);
    } else {
      var lo, hi := newMin - n.min, newMax - n.min;
      if live == 1 {
        OnlyOne(table, lo);
        assert newMin == newMax;
        m := e.(min := newMin, next := [table[lo]]);
      } else {
        assert newMax - newMin + 1 > 1 by { TwoApart(table, lo, hi); }
        m := e;
        if newMin > n.min || newMax < n.min + count - 1 {
          assert newMax - newMin + 1 < count;
          m := e.(min := newMin, next := table[lo..hi + 1]);
        }
      }
      ShrunkOk(e, m, lo, hi);
    }
  }

  lemma ShrunkOk(e: Node, m: Node, lo: nat, hi: nat)
    requires Framed(e) && KidsOk(e.next) && lo <= hi && Cropped(e, m, lo, hi + 1)
    requires e.next[lo].Some? && e.next[hi].Some?
    ensures Valid(m) && forall x: Byte :: Child(m, x) == Child(e, x)
  {
    CroppedIsSame(e, m, lo, hi + 1);
  }

  lemma TwoApart(t: seq<Option<Node>>, lo: nat, hi: nat)
    requires lo < |t| && hi < |t| && t[lo].Some? && t[hi].Some? && CountSome(t) > 1
    requires forall j :: 0 <= j < |t| && t[j].Some? ==> lo <= j <= hi
    ensures lo < hi
  {
    if lo == hi {
      assert Cropping(t, lo);
      CroppedCount(t, lo, lo + 1);
    }
  }

  ghost predicate Cropping(t: seq<Option<Node>>, i: nat) {
    forall j :: 0 <= j < |t| && j != i ==> t[j].None?
  }
}
