/** The multi-trie refines a map from keys to nonempty sets of subscribers, whatever the history. */
module MtrieTheorems {
  import opened Basics
  import opened Mtrie
  import opened MtrieBulk

  // ---------------------------------------------------------------- which keys are reported

  lemma {:induction false} HitsInExact(n: Node, m: nat, pipe: Pipe, uniq: bool, k: Key)
    requires m <= |n.next| && n.min + |n.next| <= 256
    ensures k in HitsIn(n, m, pipe, uniq) <==>
            && k != [] && n.min <= k[0] < n.min + m && Child(n, k[0]).Some?
            && k[1..] in Hits(Child(n, k[0]).value, pipe, uniq)
  {
    if m > 0 {
      HitsInExact(n, m - 1, pipe, uniq, k);
      HitsAtExact(n, m - 1, pipe, uniq, k);
    }
  }

  lemma HitsAtExact(n: Node, i: nat, pipe: Pipe, uniq: bool, k: Key)
    requires i < |n.next| && n.min + |n.next| <= 256
    ensures k in HitsAt(n, i, pipe, uniq) <==>
            k != [] && k[0] == n.min + i && n.next[i].Some? && k[1..] in Hits(n.next[i].value, pipe, uniq)
  {
    if n.next[i].Some? {
      var hs := Hits(n.next[i].value, pipe, uniq);
      var b: Byte := ByteAt(n, i);
      if k in HitsAt(n, i, pipe, uniq) {
        var j :| 0 <= j < |hs| && k == [b] + hs[j];
        assert k[1..] == hs[j];
      }
      if k != [] && k[0] == b && k[1..] in hs {
        var j :| 0 <= j < |hs| && hs[j] == k[1..];
        assert Prefixed([b], hs)[j] == k;
      }
    }
  }

  lemma {:induction false} HitsExact(n: Node, pipe: Pipe, uniq: bool, k: Key)
    requires Valid(n)
    ensures k in Hits(n, pipe, uniq) <==> pipe in Get(n, k) && (uniq ==> Get(n, k) == {pipe})
    decreases |k|
  {
    HitsInExact(n, |n.next|, pipe, uniq, k);
    if k != [] && Child(n, k[0]).Some? {
      assert KidOk(n.next[k[0] - n.min]);
      HitsExact(Child(n, k[0]).value, pipe, uniq, k[1..]);
    }
  }

  // ---------------------------------------------------------------- in which order

  predicate LexLess(a: Key, b: Key) {
    b != [] && (a == [] || a[0] < b[0] || (a[0] == b[0] && LexLess(a[1..], b[1..])))
  }

  predicate Ordered(ks: seq<Key>) {
    forall i, j :: 0 <= i < j < |ks| ==> LexLess(ks[i], ks[j])
  }

  lemma OrderedConcat(s: seq<Key>, t: seq<Key>)
    requires Ordered(s) && Ordered(t)
    requires forall x, y :: x in s && y in t ==> LexLess(x, y)
    ensures Ordered(s + t)
  {
    var u := s + t;
    forall i, j | 0 <= i < j < |u| ensures LexLess(u[i], u[j]) {
      if i < |s| <= j {
        assert u[i] in s && u[j] in t;
      }
    }
  }

  lemma OrderedPrefixed(b: Byte, ks: seq<Key>)
    requires Ordered(ks)
    ensures Ordered(Prefixed([b], ks))
  {
    var u := Prefixed([b], ks);
    forall i, j | 0 <= i < j < |u| ensures LexLess(u[i], u[j]) {
      assert u[i][1..] == ks[i] && u[j][1..] == ks[j];
    }
  }

  lemma {:induction false} HitsOrdered(n: Node, pipe: Pipe, uniq: bool)
    requires Valid(n)
    ensures Ordered(Hits(n, pipe, uniq))
    decreases n, |n.next| + 1
  {
    HitsInOrdered(n, |n.next|, pipe, uniq);
    var rest := HitsIn(n, |n.next|, pipe, uniq);
    var first: seq<Key> := if Reported(Pipes(n), pipe, uniq) then [[]] else [];
    forall y | y in rest ensures LexLess([], y) { HitsInExact(n, |n.next|, pipe, uniq, y); }
    OrderedConcat(first, rest);
  }

  lemma {:induction false} HitsInOrdered(n: Node, m: nat, pipe: Pipe, uniq: bool)
    requires Valid(n) && m <= |n.next|
    ensures Ordered(HitsIn(n, m, pipe, uniq))
    decreases n, m
  {
    if m > 0 {
      HitsInOrdered(n, m - 1, pipe, uniq);
      var s, t := HitsIn(n, m - 1, pipe, uniq), HitsAt(n, m - 1, pipe, uniq);
      if n.next[m - 1].Some? {
        assert KidOk(n.next[m - 1]);
        HitsOrdered(n.next[m - 1].value, pipe, uniq);
        OrderedPrefixed(ByteAt(n, m - 1), Hits(n.next[m - 1].value, pipe, uniq));
      }
      forall x, y | x in s && y in t ensures LexLess(x, y) {
        HitsInExact(n, m - 1, pipe, uniq, x);
        HitsAtExact(n, m - 1, pipe, uniq, y);
      }
      OrderedConcat(s, t);
    }
  }

  lemma PrefixedEmpty(ks: seq<Key>)
    ensures Prefixed([], ks) == ks
  {
    forall i | 0 <= i < |ks| ensures [] + ks[i] == ks[i] { }
  }

  /** Remove pipe from every prefix; calls are the keys passed to the callback. */
  method RmValue(n: Node, pipe: Pipe, uniq: bool) returns (m: Node, calls: seq<Key>)
    requires Valid(n)
    ensures Valid(m) && forall k: Key :: Get(m, k) == Get(n, k) - {pipe}
    ensures forall k: Key :: k in calls <==> pipe in Get(n, k) && (uniq ==> Get(n, k) == {pipe})
    ensures Ordered(calls)
  {
    var buff: seq<Byte> := [];
    assert buff[..0] == [];
    m, buff, calls := RmHelper(n, pipe, buff, 0, 0, uniq);
    PrefixedEmpty(Hits(n, pipe, uniq));
    HitsOrdered(n, pipe, uniq);
    forall k: Key ensures k in calls <==> pipe in Get(n, k) && (uniq ==> Get(n, k) == {pipe}) {
      HitsExact(n, pipe, uniq, k);
    }
  }

  // ---------------------------------------------------------------- match

  /** The number of prefixes of data, shorter than m, under which v is stored. */
  function PrefixCount(n: Node, data: Key, v: Pipe, m: nat): nat
    requires m <= |data| + 1
  {
    if m == 0 then 0 else PrefixCount(n, data, v, m - 1) + Bit(v in Get(n, data[..m - 1]))
  }

  lemma {:induction false} GetAppend(n: Node, p: Key, k: Key)
    ensures Get(n, p + k) == if Walk(n, p).None? then {} else Get(Walk(n, p).value, k)
  {
    if p == [] {
      assert p + k == k;
    } else {
      assert (p + k)[1..] == p[1..] + k;
      if Child(n, p[0]).Some? { GetAppend(Child(n, p[0]).value, p[1..], k); }
    }
  }

  /** The node that p leads to. */
  function Walk(n: Node, p: Key): Option<Node> {
    if p == [] then Some(n)
    else if Child(n, p[0]).None? then None
    else Walk(Child(n, p[0]).value, p[1..])
  }

  lemma {:induction false} WalkStep(n: Node, p: Key, c: Byte)
    ensures Walk(n, p + [c]) == if Walk(n, p).None? then None else Child(Walk(n, p).value, c)
  {
    if p == [] {
      assert p + [c] == [c];
    } else {
      assert (p + [c])[1..] == p[1..] + [c];
      if Child(n, p[0]).Some? { WalkStep(Child(n, p[0]).value, p[1..], c); }
    }
  }

  lemma {:induction false} NothingBeyond(n: Node, data: Key, v: Pipe, pos: nat, m: nat)
    requires pos < m <= |data| + 1 && pos <= |data|
    requires pos < |data| ==> Walk(n, data[..pos + 1]).None?
    ensures PrefixCount(n, data, v, m) == PrefixCount(n, data, v, pos + 1)
  {
    if m > pos + 1 {
      NothingBeyond(n, data, v, pos, m - 1);
      assert data[..m - 1] == data[..pos + 1] + data[pos + 1..m - 1];
      GetAppend(n, data[..pos + 1], data[pos + 1..m - 1]);
    }
  }

  method Signal(pipes: set<Pipe>) returns (calls: seq<Pipe>)
    ensures multiset(calls) == multiset(pipes)
  {
    calls := [];
    var todo := pipes;
    while todo != {}
      invariant todo <= pipes && multiset(calls) == multiset(pipes - todo)
      decreases |todo|
    {
      var v :| v in todo;
      calls := calls + [v];
      assert pipes - (todo - {v}) == (pipes - todo) + {v};
      todo := todo - {v};
    }
    assert pipes - {} == pipes;
  }

  /** The callback runs once per pair of a prefix of data and a subscriber of it. */
  method Match(n: Node, data: Key) returns (calls: seq<Pipe>)
    ensures forall v: Pipe :: multiset(calls)[v] == PrefixCount(n, data, v, |data| + 1)
  {
    calls := [];
    var current, pos := Some(n), 0;
    while current.Some?
      invariant pos <= |data| && (current.Some? ==> current == Walk(n, data[..pos]))
      invariant forall v: Pipe ::
                  multiset(calls)[v] == PrefixCount(n, data, v, if current.Some? then pos else |data| + 1)
      decreases |data| + 1 - pos
    {
      var cur := current.value;
      if cur.pipes.Some? {
        var part := Signal(cur.pipes.value);
        calls := calls + part;
      }
      GetHere(n, data, pos);
      if pos == |data| { return; }
      var c := data[pos];
      assert data[..pos + 1] == data[..pos] + [c];
      WalkStep(n, data[..pos], c);
      if Child(cur, c).None? {
        var here, all := pos + 1, |data| + 1;
        forall v: Pipe ensures PrefixCount(n, data, v, all) == PrefixCount(n, data, v, here) {
          NothingBeyond(n, data, v, pos, all);
        }
      }
      if |cur.next| == 0 { return; }
      if |cur.next| == 1 {
        if c != cur.min { return; }
        current := cur.next[0];
      } else {
        if c < cur.min || c >= cur.min + |cur.next| { return; }
        current := cur.next[c - cur.min];
      }
      pos := pos + 1;
    }
  }

  lemma GetHere(n: Node, data: Key, pos: nat)
    requires pos <= |data| && Walk(n, data[..pos]).Some?
    ensures Get(n, data[..pos]) == Pipes(Walk(n, data[..pos]).value)
  {
    assert data[..pos] + [] == data[..pos];
    GetAppend(n, data[..pos], []);
  }

  // ---------------------------------------------------------------- canonical shape

  /** Equal, except for the stale `_min` of nodes without children. */
  predicate Same(a: Node, b: Node) {
    && a.pipes == b.pipes && a.live == b.live
    && |a.next| == |b.next| && (a.next != [] ==> a.min == b.min)
    && forall i :: 0 <= i < |a.next| ==> SameEntry(a.next[i], b.next[i])
  }

  predicate SameEntry(o: Option<Node>, p: Option<Node>) {
    if o.None? then p.None? else p.Some? && Same(o.value, p.value)
  }

  /** A node that is not redundant stores something. */
  lemma {:induction false} Stored(n: Node) returns (k: Key)
    requires Valid(n) && !IsRedundant(n)
    ensures Get(n, k) != {}
    decreases n
  {
    if n.pipes.Some? {
      k := [];
    } else {
      CountZero(n.next);
      var i :| 0 <= i < |n.next| && n.next[i].Some?;
      assert KidOk(n.next[i]);
      var rest := Stored(n.next[i].value);
      var c: Byte := n.min + i;
      k := [c] + rest;
      assert k[1..] == rest && Child(n, c) == n.next[i];
    }
  }

  ghost predicate SameContents(a: Node, b: Node) {
    forall k: Key :: Get(a, k) == Get(b, k)
  }

  lemma ChildContents(a: Node, b: Node, c: Byte)
    requires SameContents(a, b)
    ensures forall k: Key :: GetIn(Child(a, c), k) == GetIn(Child(b, c), k)
  {
    forall k: Key ensures GetIn(Child(a, c), k) == GetIn(Child(b, c), k) {
      var key := [c] + k;
      assert key[1..] == k;
      assert Get(a, key) == Get(b, key);
    }
  }

  lemma ChildOk(n: Node, c: Byte)
    requires Valid(n)
    ensures KidOk(Child(n, c))
  {
    if Child(n, c).Some? { assert KidOk(n.next[c - n.min]); }
  }

  lemma SameBytes(a: Node, b: Node, c: Byte)
    requires Valid(a) && Valid(b) && SameContents(a, b) && Child(a, c).Some?
    ensures Child(b, c).Some? && SameContents(Child(a, c).value, Child(b, c).value)
  {
    ChildOk(a, c);
    var k := Stored(Child(a, c).value);
    ChildContents(a, b, c);
    assert GetIn(Child(a, c), k) == GetIn(Child(b, c), k);
    forall k: Key ensures Get(Child(a, c).value, k) == Get(Child(b, c).value, k) {
      assert GetIn(Child(a, c), k) == GetIn(Child(b, c), k);
    }
  }

  lemma SameSymmetric(a: Node, b: Node)
    requires SameContents(a, b)
    ensures SameContents(b, a)
  {
    forall k: Key ensures Get(b, k) == Get(a, k) { assert Get(a, k) == Get(b, k); }
  }

  /** The table of a lies within the table of b. */
  lemma SameRange(a: Node, b: Node)
    requires Valid(a) && Valid(b) && SameContents(a, b) && a.next != []
    ensures b.min <= a.min && a.min + |a.next| <= b.min + |b.next|
  {
    var last := |a.next| - 1;
    assert Child(a, a.min) == a.next[0] && Child(a, a.min + last) == a.next[last];
    SameBytes(a, b, a.min);
    SameBytes(a, b, a.min + last);
  }

  lemma {:induction false} SameCount(s: seq<Option<Node>>, t: seq<Option<Node>>)
    requires |s| == |t| && forall i :: 0 <= i < |s| ==> s[i].Some? == t[i].Some?
    ensures CountSome(s) == CountSome(t)
  {
    if s != [] { SameCount(s[..|s| - 1], t[..|t| - 1]); }
  }

  lemma SameTables(a: Node, b: Node)
    requires Valid(a) && Valid(b) && SameContents(a, b)
    ensures |a.next| == |b.next| && (a.next != [] ==> a.min == b.min)
  {
    SameSymmetric(a, b);
    if a.next != [] {
      SameRange(a, b);
      SameRange(b, a);
    } else if b.next != [] {
      SameRange(b, a);
    }
  }

  /** Equal contents give equal tries. */
  lemma {:induction false} Canonical(a: Node, b: Node)
    requires Valid(a) && Valid(b) && SameContents(a, b)
    ensures Same(a, b)
    decreases a
  {
    assert Get(a, []) == Get(b, []);
    SameTables(a, b);
    SameSymmetric(a, b);
    forall i | 0 <= i < |a.next| ensures SameEntry(a.next[i], b.next[i]) {
      var c: Byte := a.min + i;
      assert Child(a, c) == a.next[i] && Child(b, c) == b.next[i];
      if a.next[i].Some? {
        SameBytes(a, b, c);
        ChildOk(a, c);
        ChildOk(b, c);
        Canonical(a.next[i].value, b.next[i].value);
      } else if b.next[i].Some? {
        SameBytes(b, a, c);
      }
    }
    SameCount(a.next, b.next);
  }

  // ---------------------------------------------------------------- whole runs

  type Subscriptions = map<Key, set<Pipe>>

  datatype Op =
    | DoAdd(key: Key, pipe: Pipe)
    | DoRm(key: Key, pipe: Pipe)
    | DoRmValue(pipe: Pipe, uniq: bool)
    | DoMatch(key: Key)

  datatype Out =
    | AddOut(first: bool)
    | RmOut(ret: RmResult)
    | RmValueOut(calls: seq<Key>)
    | MatchOut(signals: seq<Pipe>)

  function Lookup(s: Subscriptions, k: Key): set<Pipe> {
    if k in s then s[k] else {}
  }

  function Put(s: Subscriptions, k: Key, ps: set<Pipe>): Subscriptions {
    if ps == {} then s - {k} else s[k := ps]
  }

  /** The effect of an operation on the plain map. */
  function Effect(s: Subscriptions, op: Op): Subscriptions {
    match op
    case DoAdd(k, p) => Put(s, k, Lookup(s, k) + {p})
    case DoRm(k, p) => Put(s, k, Lookup(s, k) - {p})
    case DoRmValue(p, _) => map k | k in s && s[k] != {p} :: s[k] - {p}
    case DoMatch(_) => s
  }

  function LookupCount(s: Subscriptions, data: Key, v: Pipe, m: nat): nat
    requires m <= |data| + 1
  {
    if m == 0 then 0 else LookupCount(s, data, v, m - 1) + Bit(v in Lookup(s, data[..m - 1]))
  }

  /** The answer the plain map gives. */
  ghost predicate Answers(s: Subscriptions, op: Op, out: Out) {
    match op
    case DoAdd(k, _) => out == AddOut(k !in s)
    case DoRm(k, p) =>
      && out.RmOut? && (out.ret == NotFound <==> p !in Lookup(s, k))
      && (out.ret == LastValueRemoved <==> Lookup(s, k) == {p})
    case DoRmValue(p, uniq) =>
      && out.RmValueOut? && Ordered(out.calls)
      && forall k: Key :: k in out.calls <==> p in Lookup(s, k) && (uniq ==> Lookup(s, k) == {p})
    case DoMatch(data) =>
      out.MatchOut? && forall v: Pipe :: multiset(out.signals)[v] == LookupCount(s, data, v, |data| + 1)
  }

  function After(ops: seq<Op>): Subscriptions {
    if ops == [] then map[] else Effect(After(ops[..|ops| - 1]), ops[|ops| - 1])
  }

  ghost predicate Represents(n: Node, s: Subscriptions) {
    && Valid(n)
    && (forall k: Key :: k in s ==> s[k] != {})
    && (forall k: Key :: Get(n, k) == Lookup(s, k))
  }

  lemma {:induction false} CountsAgree(n: Node, s: Subscriptions, data: Key, v: Pipe, m: nat)
    requires Represents(n, s) && m <= |data| + 1
    ensures PrefixCount(n, data, v, m) == LookupCount(s, data, v, m)
  {
    if m > 0 {
      CountsAgree(n, s, data, v, m - 1);
      assert Get(n, data[..m - 1]) == Lookup(s, data[..m - 1]);
    }
  }

  method Perform(n: Node, op: Op, ghost s: Subscriptions) returns (m: Node, out: Out)
    requires Represents(n, s)
    ensures Represents(m, Effect(s, op)) && Answers(s, op, out)
  {
    m := n;
    match op {
      case DoAdd(k, p) =>
        var first;
        m, first := Add(n, k, p);
        out := AddOut(first);
      case DoRm(k, p) =>
        var ret;
        m, ret := Rm(n, k, p);
        out := RmOut(ret);
      case DoRmValue(p, uniq) =>
        var calls;
        m, calls := RmValue(n, p, uniq);
        out := RmValueOut(calls);
      case DoMatch(data) =>
        var signals := Match(n, data);
        out := MatchOut(signals);
        var all := |data| + 1;
        forall v: Pipe ensures PrefixCount(n, data, v, all) == LookupCount(s, data, v, all) {
          CountsAgree(n, s, data, v, all);
        }
    }
  }

  /** Every answer so far is the map's answer. */
  ghost predicate Answered(ops: seq<Op>, outs: seq<Out>) {
    |outs| <= |ops| && forall i :: 0 <= i < |outs| ==> Answers(After(ops[..i]), ops[i], outs[i])
  }

  lemma AnsweredOne(ops: seq<Op>, outs: seq<Out>, out: Out)
    requires Answered(ops, outs) && |outs| < |ops| && Answers(After(ops[..|outs|]), ops[|outs|], out)
    ensures Answered(ops, outs + [out])
  {
    var longer := outs + [out];
    forall i | 0 <= i < |longer| ensures Answers(After(ops[..i]), ops[i], longer[i]) {
      if i < |outs| {
        assert longer[i] == outs[i];
      } else {
        assert longer[i] == out;
      }
    }
  }

  /** Any sequence of operations on an empty trie behaves like the map, and the
      resulting trie is the only one with those contents. */
  method RunAll(ops: seq<Op>) returns (n: Node, outs: seq<Out>)
    ensures Represents(n, After(ops)) && |outs| == |ops| && Answered(ops, outs)
    ensures forall a: Node :: Represents(a, After(ops)) ==> Same(a, n)
  {
    n, outs := EMPTY, [];
    forall k: Key ensures Get(n, k) == {} { EmptyGet(k); }
    for i := 0 to |ops|
      invariant Represents(n, After(ops[..i])) && |outs| == i && Answered(ops, outs)
    {
      var out;
      assert ops[..i + 1][..i] == ops[..i];
      n, out := Perform(n, ops[i], After(ops[..i]));
      AnsweredOne(ops, outs, out);
      outs := outs + [out];
    }
    assert ops[..|ops|] == ops;
    forall a: Node | Represents(a, After(ops)) ensures Same(a, n) {
      Canonical(a, n);
    }
  }
}
