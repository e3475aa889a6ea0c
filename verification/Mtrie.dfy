/**
 The multi-trie of src/generic_mtrie_impl.hpp: a byte trie whose nodes hold a
 set of subscribers and an offset table of children.
 */
module Mtrie {
  import opened Basics

  type Key = seq<Byte>
  type Pipe = nat

  /** A node.  `pipes` is None for a null pointer.  `next` is the child table:
      |next| is `_count`, next[i] is the child for byte min + i.  A table of one
      entry is the single-node representation. */
  datatype Node = Node(pipes: Option<set<Pipe>>, min: nat, live: nat, next: seq<Option<Node>>)

  const EMPTY: Node := Node(None, 0, 0, [])

  datatype RmResult = NotFound | LastValueRemoved | ValuesRemain

  predicate IsRedundant(n: Node) {
    n.pipes.None? && n.live == 0
  }

  // ---------------------------------------------------------------- contents

  function Child(n: Node, c: Byte): (r: Option<Node>)
    ensures r.Some? ==> r.value < n
  {
    if n.min <= c < n.min + |n.next| then n.next[c - n.min] else None
  }

  function Pipes(n: Node): set<Pipe> {
    if n.pipes.Some? then n.pipes.value else {}
  }

  /** The subscribers stored under exactly this key. */
  function Get(n: Node, k: Key): set<Pipe>
    decreases |k|, 0
  {
    if k == [] then Pipes(n) else GetIn(Child(n, k[0]), k[1..])
  }

  function GetIn(o: Option<Node>, k: Key): set<Pipe>
    decreases |k|, 1
  {
    if o.None? then {} else Get(o.value, k)
  }

  lemma EmptyGet(k: Key)
    ensures Get(EMPTY, k) == {}
  {
  }

  // ---------------------------------------------------------------- shape

  function CountSome(t: seq<Option<Node>>): nat {
    if t == [] then 0 else CountSome(t[..|t| - 1]) + Bit(t[|t| - 1].Some?)
  }

  /** The table has no slack: its first and last entries are children. */
  predicate Tight(t: seq<Option<Node>>) {
    t == [] || (t[0].Some? && t[|t| - 1].Some?)
  }

  /** The invariant of every node between operations. */
  ghost predicate Valid(n: Node)
    decreases n, 1
  {
    Framed(n) && Tight(n.next) && KidsOk(n.next)
  }

  ghost predicate KidsOk(t: seq<Option<Node>>)
    decreases t, 0
  {
    forall i :: 0 <= i < |t| ==> KidOk(t[i])
  }

  ghost predicate KidOk(o: Option<Node>)
    decreases o, 2
  {
    o.Some? ==> Valid(o.value) && !IsRedundant(o.value)
  }

  predicate Framed(n: Node) {
    && n.min + |n.next| <= 256
    && n.live == CountSome(n.next)
    && (n.pipes.Some? ==> n.pipes.value != {})
  }

  // ---------------------------------------------------------------- counting children

  lemma {:induction false} CountUpdate(t: seq<Option<Node>>, i: nat, o: Option<Node>)
    requires i < |t|
    ensures CountSome(t[i := o]) + Bit(t[i].Some?) == CountSome(t) + Bit(o.Some?)
  {
    var n := |t| - 1;
    if i == n {
      assert t[i := o][..n] == t[..n];
    } else {
      assert t[i := o][..n] == t[..n][i := o];
      CountUpdate(t[..n], i, o);
    }
  }

  lemma {:induction false} CountConcat(s: seq<Option<Node>>, t: seq<Option<Node>>)
    ensures CountSome(s + t) == CountSome(s) + CountSome(t)
  {
    if t == [] {
      assert s + t == s;
    } else {
      var n := |t| - 1;
      assert (s + t)[..|s + t| - 1] == s + t[..n];
      CountConcat(s, t[..n]);
    }
  }

  lemma {:induction false} CountZero(t: seq<Option<Node>>)
    ensures CountSome(t) == 0 <==> forall i :: 0 <= i < |t| ==> t[i].None?
  {
    if t != [] { CountZero(t[..|t| - 1]); }
  }

  lemma {:induction false} CountOne(t: seq<Option<Node>>, i: nat, j: nat)
    requires i < j < |t| && t[i].Some? && t[j].Some?
    ensures CountSome(t) >= 2
  {
    var n := |t| - 1;
    if j < n {
      CountOne(t[..n], i, j);
    } else {
      CountZero(t[..n]);
      assert t[..n][i].Some?;
    }
  }

  function Nulls(n: nat): (t: seq<Option<Node>>)
    ensures |t| == n && forall i :: 0 <= i < n ==> t[i].None?
  {
    seq(n, _ => None)
  }

  // ---------------------------------------------------------------- redundancy

  lemma RedundantIsEmpty(n: Node)
    requires Valid(n) && IsRedundant(n)
    ensures n.next == [] && forall k: Key :: Get(n, k) == {}
  {
    CountZero(n.next);
  }

  // ---------------------------------------------------------------- changing one child

  /** m is n, except that byte c now leads to o. */
  ghost predicate Regraft(n: Node, m: Node, c: Byte, o: Option<Node>) {
    && m.pipes == n.pipes
    && (forall x: Byte :: x != c ==> Child(m, x) == Child(n, x))
    && Child(m, c) == o
  }

  lemma RegraftGet(n: Node, m: Node, c: Byte, o: Option<Node>, k: Key)
    requires Regraft(n, m, c, o)
    ensures Get(m, k) == if k != [] && k[0] == c then GetIn(o, k[1..]) else Get(n, k)
  {
  }

  lemma SplitKey(k: Key, key: Key)
    requires k != [] && key != []
    ensures k == key <==> k[0] == key[0] && k[1..] == key[1..]
  {
    assert k == [k[0]] + k[1..] && key == [key[0]] + key[1..];
  }

  // ---------------------------------------------------------------- add

  /** m's table is n's table with a null entries before it and b after it. */
  ghost predicate Padded(n: Node, m: Node, a: nat, b: nat) {
    && m.pipes == n.pipes && m.live == n.live
    && a <= n.min && m.min == n.min - a
    && m.next == Nulls(a) + n.next + Nulls(b)
  }

  lemma PaddedIsSame(n: Node, m: Node, a: nat, b: nat)
    requires Padded(n, m, a, b) && KidsOk(n.next)
    ensures forall x: Byte :: Child(m, x) == Child(n, x)
    ensures CountSome(m.next) == CountSome(n.next) && KidsOk(m.next)
  {
    CountConcat(Nulls(a) + n.next, Nulls(b));
    CountConcat(Nulls(a), n.next);
    CountZero(Nulls(a));
    CountZero(Nulls(b));
  }

  /** m holds what n holds and has an entry for byte c, possibly a null one;
      only that entry may be null at an end of the table. */
  ghost predicate Roomy(n: Node, m: Node, c: Byte) {
    && m.pipes == n.pipes && m.live == n.live
    && m.min <= c < m.min + |m.next| && m.min + |m.next| <= 256
    && (forall x: Byte :: Child(m, x) == Child(n, x))
    && CountSome(m.next) == CountSome(n.next) && KidsOk(m.next)
    && (m.next[0].Some? || c == m.min)
    && (m.next[|m.next| - 1].Some? || c == m.min + |m.next| - 1)
  }

  /** Make room for byte c in the table. */
  method Extend(n: Node, c: Byte) returns (m: Node)
    requires Valid(n)
    ensures Roomy(n, m, c)
  {
    m := n;
    if c < m.min || c >= m.min + |m.next| {
      if |m.next| == 0 {
        m := m.(min := c, next := [None]);
      } else if |m.next| == 1 {
        var oldc, oldp := m.min, m.next[0];
        var count := (if m.min < c then c - m.min else m.min - c) + 1;
        var min := if m.min < c then m.min else c;
        m := m.(min := min, next := Nulls(count)[oldc - min := oldp]);
        PaddedIsRoomy(n, m, oldc - min, count - 1 - (oldc - min), c);
      } else if m.min < c {
        m := m.(next := m.next + Nulls(c - m.min + 1 - |m.next|));
        PaddedIsRoomy(n, m, 0, c - n.min + 1 - |n.next|, c);
      } else {
        m := m.(min := c, next := Nulls(m.min - c) + m.next);
        PaddedIsRoomy(n, m, n.min - c, 0, c);
      }
    }
  }

  lemma PaddedIsRoomy(n: Node, m: Node, a: nat, b: nat, c: Byte)
    requires Valid(n) && n.next != [] && Padded(n, m, a, b)
    requires (a == 0 && c == n.min + |n.next| - 1 + b) || (b == 0 && c == n.min - a)
    ensures Roomy(n, m, c)
  {
    PaddedIsSame(n, m, a, b);
  }

  /** m is n with pipe added under key. */
  ghost predicate Added(n: Node, m: Node, key: Key, pipe: Pipe) {
    forall k: Key :: Get(m, k) == if k == key then Get(n, k) + {pipe} else Get(n, k)
  }

  method Add(n: Node, key: Key, pipe: Pipe) returns (m: Node, result: bool)
    requires Valid(n)
    ensures Valid(m) && Added(n, m, key, pipe)
    ensures result <==> Get(n, key) == {}
    decreases |key|
  {
    if |key| == 0 {
      result := n.pipes.None?;
      m := n.(pipes := Some(Pipes(n) + {pipe}));
      return;
    }
    var c := key[0];
    var e := Extend(n, c);
    var i := c - e.min;
    var live := e.live;
    var node := EMPTY;
    if e.next[i].None? {
      live := live + 1;
    } else {
      node := e.next[i].value;
    }
    assert Valid(node) by { assert KidOk(e.next[i]); }
    var kid;
    kid, result := Add(node, key[1..], pipe);
    m := e.(next := e.next[i := Some(kid)], live := live);
    EmptyGet(key[1..]);
    GraftKid(n, e, m, key, pipe, node, kid);
  }

  lemma GraftKid(n: Node, e: Node, m: Node, key: Key, pipe: Pipe, node: Node, kid: Node)
    requires Valid(n) && key != [] && Roomy(n, e, key[0])
    requires node == if Child(n, key[0]).Some? then Child(n, key[0]).value else EMPTY
    requires Valid(kid) && Added(node, kid, key[1..], pipe)
    requires m == e.(next := e.next[key[0] - e.min := Some(kid)], live := e.live + Bit(Child(n, key[0]).None?))
    ensures Valid(m) && Added(n, m, key, pipe)
  {
    assert Get(kid, key[1..]) == Get(node, key[1..]) + {pipe};
    GraftValid(n, e, m, key[0], kid, key[1..]);
    GraftRegrafts(n, e, m, key[0], kid);
    AddedGet(n, m, key, pipe, node, kid);
  }

  lemma GraftValid(n: Node, e: Node, m: Node, c: Byte, kid: Node, k: Key)
    requires Valid(n) && Roomy(n, e, c) && Valid(kid) && Get(kid, k) != {}
    requires m == e.(next := e.next[c - e.min := Some(kid)], live := e.live + Bit(Child(n, c).None?))
    ensures Valid(m)
  {
    assert Child(e, c) == Child(n, c);
    AddedValid(e, c - e.min, kid, m, k);
  }

  lemma GraftRegrafts(n: Node, e: Node, m: Node, c: Byte, kid: Node)
    requires Roomy(n, e, c)
    requires m.pipes == e.pipes && m.min == e.min && m.next == e.next[c - e.min := Some(kid)]
    ensures Regraft(n, m, c, Some(kid))
  {
    TableUpdate(e, m, c - e.min, Some(kid));
  }

  lemma TableUpdate(e: Node, m: Node, i: nat, o: Option<Node>)
    requires i < |e.next| && e.min + i < 256 && m.pipes == e.pipes && m.min == e.min && m.next == e.next[i := o]
    ensures Regraft(e, m, e.min + i, o)
  {
  }

  lemma AddedValid(e: Node, i: nat, kid: Node, m: Node, k: Key)
    requires i < |e.next| && e.min + |e.next| <= 256 && KidsOk(e.next) && e.live == CountSome(e.next)
    requires e.pipes.Some? ==> e.pipes.value != {}
    requires e.next[0].Some? || i == 0
    requires e.next[|e.next| - 1].Some? || i == |e.next| - 1
    requires Valid(kid) && Get(kid, k) != {}
    requires m == e.(next := e.next[i := Some(kid)], live := e.live + Bit(e.next[i].None?))
    ensures Valid(m)
  {
    if IsRedundant(kid) { RedundantIsEmpty(kid); }
    CountUpdate(e.next, i, Some(kid));
  }

  lemma AddedGet(n: Node, m: Node, key: Key, pipe: Pipe, node: Node, kid: Node)
    requires key != [] && Regraft(n, m, key[0], Some(kid))
    requires node == if Child(n, key[0]).Some? then Child(n, key[0]).value else EMPTY
    requires Added(node, kid, key[1..], pipe)
    ensures Added(n, m, key, pipe)
  {
    forall k: Key ensures Get(m, k) == if k == key then Get(n, k) + {pipe} else Get(n, k) {
      RegraftGet(n, m, key[0], Some(kid), k);
      EmptyGet(if k == [] then [] else k[1..]);
      if k != [] { SplitKey(k, key); }
    }
  }

  // ---------------------------------------------------------------- remove one entry

  /** m's table is the part a..b of e's table, and the rest of e's table is null. */
  ghost predicate Cropped(e: Node, m: Node, a: nat, b: nat) {
    && a <= b <= |e.next| && m.pipes == e.pipes && m.live == e.live
    && m.min == e.min + a && m.next == e.next[a..b]
    && forall j :: 0 <= j < |e.next| && !(a <= j < b) ==> e.next[j].None?
  }

  lemma CroppedIsSame(e: Node, m: Node, a: nat, b: nat)
    requires Cropped(e, m, a, b) && KidsOk(e.next)
    ensures forall x: Byte :: Child(m, x) == Child(e, x)
    ensures CountSome(m.next) == CountSome(e.next) && KidsOk(m.next)
  {
    CroppedCount(e.next, a, b);
  }

  lemma CroppedCount(t: seq<Option<Node>>, a: nat, b: nat)
    requires a <= b <= |t| && forall j :: 0 <= j < |t| && !(a <= j < b) ==> t[j].None?
    ensures CountSome(t[a..b]) == CountSome(t)
  {
    assert t == t[..a] + t[a..b] + t[b..];
    CountConcat(t[..a] + t[a..b], t[b..]);
    CountConcat(t[..a], t[a..b]);
    CountZero(t[..a]);
    CountZero(t[b..]);
  }

  /** The table of e may have a null entry at one end, the one for byte c. */
  ghost predicate Loose(e: Node, c: Byte) {
    && |e.next| > 1 && e.min <= c < e.min + |e.next| <= 256
    && e.live == CountSome(e.next) && e.live > 0
    && (e.pipes.Some? ==> e.pipes.value != {})
    && KidsOk(e.next) && e.next[c - e.min].None?
    && (e.next[0].Some? || c == e.min)
    && (e.next[|e.next| - 1].Some? || c == e.min + |e.next| - 1)
  }

  lemma CroppedIsValid(e: Node, m: Node, a: nat, b: nat, c: Byte)
    requires Loose(e, c) && Cropped(e, m, a, b) && a < b && e.next[a].Some? && e.next[b - 1].Some?
    ensures Valid(m) && forall x: Byte :: Child(m, x) == Child(e, x)
  {
    CroppedIsSame(e, m, a, b);
  }

  /** Index of the first child at or after i. */
  method FirstFrom(t: seq<Option<Node>>, start: nat) returns (i: nat)
    requires start <= |t| && exists j :: start <= j < |t| && t[j].Some?
    ensures start <= i < |t| && t[i].Some? && forall j :: start <= j < i ==> t[j].None?
  {
    i := start;
    while i < |t|
      invariant start <= i <= |t| && forall j :: start <= j < i ==> t[j].None?
    {
      if t[i].Some? { break; }
      i := i + 1;
    }
  }

  lemma OnlyOne(t: seq<Option<Node>>, i: nat)
    requires i < |t| && t[i].Some? && CountSome(t) == 1
    ensures forall j :: 0 <= j < |t| && j != i ==> t[j].None?
  {
    forall j | 0 <= j < |t| && j != i ensures t[j].None? {
      if t[j].Some? { CountOne(t, if i < j then i else j, if i < j then j else i); }
    }
  }

  method Compact(e: Node, c: Byte) returns (m: Node)
    requires Loose(e, c)
    ensures Valid(m) && m.pipes == e.pipes && forall x: Byte :: Child(m, x) == Child(e, x)
  {
    CountZero(e.next);
    var count := |e.next|;
    if e.live == 1 {
      var i := FirstFrom(e.next, 0);
      m := e.(min := e.min + i, next := [e.next[i]]);
      OnlyOne(e.next, i);
      CroppedIsValid(e, m, i, i + 1, c);
    } else if c == e.min {
      var i := FirstFrom(e.next, 1);
      m := e.(min := e.min + i, next := e.next[i..]);
      CroppedIsValid(e, m, i, count, c);
    } else if c == e.min + count - 1 {
      var i := 1;
      while i < count
        invariant 1 <= i <= count && forall j :: count - i <= j < count ==> e.next[j].None?
      {
        if e.next[count - 1 - i].Some? { break; }
        i := i + 1;
      }
      m := e.(next := e.next[..count - i]);
      CroppedIsValid(e, m, 0, count - i, c);
    } else {
      m := e;
      CroppedIsValid(e, m, 0, count, c);
    }
  }

  /** m is n with pipe removed from key. */
  ghost predicate Removed(n: Node, m: Node, key: Key, pipe: Pipe) {
    forall k: Key :: Get(m, k) == if k == key then Get(n, k) - {pipe} else Get(n, k)
  }

  /** Drop the child for byte c. */
  method Prune(n: Node, c: Byte) returns (m: Node)
    requires Valid(n) && Child(n, c).Some?
    ensures Valid(m) && Regraft(n, m, c, None)
  {
    var i := c - n.min;
    CountUpdate(n.next, i, None);
    if |n.next| == 1 {
      m := n.(next := [], live := n.live - 1);
      assert m.live == 0 by { CountZero(n.next[i := None]); }
    } else {
      assert n.live > 1 by { CountOne(n.next, 0, |n.next| - 1); }
      var e := n.(next := n.next[i := None], live := n.live - 1);
      m := Compact(e, c);
      TableUpdate(n, e, i, None);
    }
  }

  method Rm(n: Node, key: Key, pipe: Pipe) returns (m: Node, ret: RmResult)
    requires Valid(n)
    ensures Valid(m) && Removed(n, m, key, pipe)
    ensures ret == NotFound <==> pipe !in Get(n, key)
    ensures ret == LastValueRemoved <==> pipe in Get(n, key) && Get(m, key) == {}
    decreases |key|
  {
    m := n;
    if |key| == 0 {
      if n.pipes.None? { return m, NotFound; }
      var erased := pipe in n.pipes.value;
      var left := n.pipes.value - {pipe};
      if left == {} {
        assert erased;
        m := n.(pipes := None);
        return m, LastValueRemoved;
      }
      m := n.(pipes := Some(left));
      return m, if erased then ValuesRemain else NotFound;
    }
    var c := key[0];
    if |n.next| == 0 || c < n.min || c >= n.min + |n.next| || n.next[c - n.min].None? {
      return m, NotFound;
    }
    var i := c - n.min;
    assert KidOk(n.next[i]);
    var kid;
    kid, ret := Rm(n.next[i].value, key[1..], pipe);
    if IsRedundant(kid) {
      m := Prune(n, c);
      RemovedGet(n, m, key, pipe, kid, None);
    } else {
      m := n.(next := n.next[i := Some(kid)]);
      KeptValid(n, m, i, kid);
      RemovedGet(n, m, key, pipe, kid, Some(kid));
    }
  }

  /** The child for the first byte of the key was replaced by kid, or dropped
      because kid is empty. */
  lemma RemovedGet(n: Node, m: Node, key: Key, pipe: Pipe, kid: Node, o: Option<Node>)
    requires key != [] && Child(n, key[0]).Some? && Valid(kid)
    requires o == if IsRedundant(kid) then None else Some(kid)
    requires Removed(Child(n, key[0]).value, kid, key[1..], pipe)
    requires Regraft(n, m, key[0], o)
    ensures Removed(n, m, key, pipe)
  {
    if IsRedundant(kid) { RedundantIsEmpty(kid); }
    forall k: Key ensures Get(m, k) == if k == key then Get(n, k) - {pipe} else Get(n, k) {
      RegraftGet(n, m, key[0], o, k);
      if k != [] {
        SplitKey(k, key);
        assert GetIn(o, k[1..]) == Get(kid, k[1..]);
      }
    }
  }

  lemma KeptValid(n: Node, m: Node, i: nat, kid: Node)
    requires Valid(n) && i < |n.next| && n.next[i].Some? && Valid(kid) && !IsRedundant(kid)
    requires m == n.(next := n.next[i := Some(kid)])
    ensures Valid(m) && Regraft(n, m, n.min + i, Some(kid))
  {
    CountUpdate(n.next, i, Some(kid));
    TableUpdate(n, m, i, Some(kid));
  }
}
