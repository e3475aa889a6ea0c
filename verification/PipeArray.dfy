/** The self-indexing array of src/array.hpp: every item remembers its position. */
module PipeArray {

  type Pipe = nat

  // ---------------------------------------------------------------- sequences

  predicate Distinct(s: seq<Pipe>) {
    forall i, j :: 0 <= i < j < |s| ==> s[i] != s[j]
  }

  function Swapped(s: seq<Pipe>, i: nat, j: nat): seq<Pipe>
    requires i < |s| && j < |s|
  {
    s[i := s[j]][j := s[i]]
  }

  /** The pipes among the first n items. */
  function First(s: seq<Pipe>, n: nat): set<Pipe>
    requires n <= |s|
  {
    set x | x in s[..n]
  }

  function All(s: seq<Pipe>): set<Pipe> {
    First(s, |s|)
  }

  lemma SwapDistinct(s: seq<Pipe>, i: nat, j: nat)
    requires i < |s| && j < |s| && Distinct(s)
    ensures Distinct(Swapped(s, i, j))
  {
  }

  lemma SwapFirst(s: seq<Pipe>, i: nat, j: nat, n: nat)
    requires i < |s| && j < |s| && Distinct(s) && n <= |s|
    ensures First(Swapped(s, i, j), n) ==
            if (i < n) == (j < n) then First(s, n)
            else if i < n then First(s, n) - {s[i]} + {s[j]}
            else First(s, n) - {s[j]} + {s[i]}
  {
    var t := Swapped(s, i, j);
    var E := if (i < n) == (j < n) then First(s, n)
             else if i < n then First(s, n) - {s[i]} + {s[j]}
             else First(s, n) - {s[j]} + {s[i]};
    forall x | x in First(t, n) ensures x in E {
      var k :| 0 <= k < n && t[..n][k] == x;
      assert x == s[if k == i then j else if k == j then i else k];
    }
    forall x | x in E ensures x in First(t, n) {
      if x == s[j] && i < n { assert t[..n][i] == x; }
      else if x == s[i] && j < n { assert t[..n][j] == x; }
      else {
        var k :| 0 <= k < n && s[..n][k] == x;
        assert t[..n][k] == x;
      }
    }
  }

  lemma SwapAll(s: seq<Pipe>, i: nat, j: nat)
    requires i < |s| && j < |s| && Distinct(s)
    ensures Distinct(Swapped(s, i, j)) && All(Swapped(s, i, j)) == All(s)
  {
    SwapFirst(s, i, j, |s|);
  }

  /** First grows with its bound, one item at a time. */
  lemma FirstStep(s: seq<Pipe>, n: nat)
    requires n < |s| && Distinct(s)
    ensures First(s, n + 1) == First(s, n) + {s[n]} && s[n] !in First(s, n)
  {
  }

  /** An item lies among the first n exactly when its position does. */
  lemma FirstIndex(s: seq<Pipe>, i: nat, n: nat)
    requires i < |s| && n <= |s| && Distinct(s)
    ensures s[i] in First(s, n) <==> i < n
  {
  }

  lemma FirstMonotone(s: seq<Pipe>, m: nat, n: nat)
    requires m <= n <= |s|
    ensures First(s, m) <= First(s, n)
  {
  }

  /** Swapping an item of the first n to their end takes it out of the first n - 1. */
  lemma SwapOut(s: seq<Pipe>, i: nat, n: nat)
    requires Distinct(s) && i < n <= |s|
    ensures var t := Swapped(s, i, n - 1);
            Distinct(t) && All(t) == All(s) && t[n - 1] == s[i]
            && First(t, n - 1) == First(s, n) - {s[i]}
            && (forall k :: n <= k <= |s| ==> First(t, k) == First(s, k))
            && (forall k :: 0 <= k <= i ==> First(t, k) == First(s, k))
  {
    var t := Swapped(s, i, n - 1);
    SwapAll(s, i, n - 1);
    FirstStep(s, n - 1);
    SwapFirst(s, i, n - 1, n - 1);
    forall k | n <= k <= |s| ensures First(t, k) == First(s, k) { SwapFirst(s, i, n - 1, k); }
    forall k | 0 <= k <= i ensures First(t, k) == First(s, k) { SwapFirst(s, i, n - 1, k); }
  }

  /** Swapping a later item to position n puts it among the first n + 1. */
  lemma SwapIn(s: seq<Pipe>, i: nat, n: nat)
    requires Distinct(s) && n <= i < |s|
    ensures var t := Swapped(s, i, n);
            Distinct(t) && All(t) == All(s)
            && First(t, n + 1) == First(s, n) + {s[i]}
            && (forall k :: 0 <= k <= n ==> First(t, k) == First(s, k))
            && (forall k :: i < k <= |s| ==> First(t, k) == First(s, k))
  {
    var t := Swapped(s, i, n);
    SwapAll(s, i, n);
    forall k | 0 <= k <= n ensures First(t, k) == First(s, k) { SwapFirst(s, i, n, k); }
    forall k | i < k <= |s| ensures First(t, k) == First(s, k) { SwapFirst(s, i, n, k); }
    FirstStep(t, n);
  }

  /** Erasing moves the last item into the gap. */
  lemma EraseFirst(s: seq<Pipe>, i: nat)
    requires Distinct(s) && i < |s|
    ensures var t := Erased(s, i);
            Distinct(t) && All(t) == All(s) - {s[i]} && forall k :: 0 <= k <= i ==> First(t, k) == First(s, k)
  {
    var t := Erased(s, i);
    SwapOut(s, i, |s|);
    var u := Swapped(s, i, |s| - 1);
    assert t == u[..|s| - 1];
    assert t[..|t|] == u[..|s| - 1];
    forall k | 0 <= k <= i ensures First(t, k) == First(s, k) { assert t[..k] == s[..k]; }
  }

  function Erased(s: seq<Pipe>, i: nat): seq<Pipe>
    requires i < |s|
  {
    s[i := s[|s| - 1]][..|s| - 1]
  }

  /** The items after the pipe at position i is removed; the first a are active. */
  function Without(s: seq<Pipe>, i: nat, a: nat): seq<Pipe>
    requires i < |s| && a <= |s|
  {
    if i < a then Erased(Swapped(s, i, a - 1), a - 1) else Erased(s, i)
  }

  lemma RemovedItems(s: seq<Pipe>, i: nat, a: nat)
    requires Distinct(s) && i < |s| && a <= |s|
    ensures var w := Without(s, i, a);
            var b := if i < a then a - 1 else a;
            && |w| == |s| - 1 && Distinct(w) && All(w) == All(s) - {s[i]}
            && First(w, b) == First(s, a) - {s[i]}
            && (forall k :: 0 <= k < b ==> w[k] == s[if k == i then a - 1 else k])
  {
    FirstIndex(s, i, a);
    if i < a {
      var t := Swapped(s, i, a - 1);
      SwapOut(s, i, a);
      EraseFirst(t, a - 1);
    } else {
      EraseFirst(s, i);
    }
  }

  lemma AppendFirst(s: seq<Pipe>, p: Pipe)
    requires Distinct(s) && p !in s
    ensures Distinct(s + [p]) && All(s + [p]) == All(s) + {p}
    ensures forall k :: 0 <= k <= |s| ==> First(s + [p], k) == First(s, k)
  {
    var t := s + [p];
    forall k | 0 <= k <= |s| ensures First(t, k) == First(s, k) { assert t[..k] == s[..k]; }
    FirstStep(t, |s|);
  }

  function Position(s: seq<Pipe>, q: Pipe): (i: nat)
    requires q in s
    ensures i < |s| && s[i] == q
  {
    if s[0] == q then 0 else 1 + Position(s[1..], q)
  }

  lemma PositionIs(s: seq<Pipe>, q: Pipe, i: nat)
    requires Distinct(s) && i < |s| && s[i] == q
    ensures Position(s, q) == i
  {
  }

  // ---------------------------------------------------------------- the array

  class ArrayT {
    var items: seq<Pipe>
    /** The `_array_index` of every pipe that was ever stored. */
    var slot: map<Pipe, nat>

    predicate Valid()
      reads this
    {
      forall i :: 0 <= i < |items| ==> items[i] in slot && slot[items[i]] == i
    }

    lemma ValidDistinct()
      requires Valid()
      ensures Distinct(items)
    {
    }

    constructor ()
      ensures Valid() && items == []
    {
      items, slot := [], map[];
    }

    method Index(p: Pipe) returns (i: nat)
      requires Valid() && p in items
      ensures i < |items| && items[i] == p
    {
      i := slot[p];
    }

    method PushBack(p: Pipe)
      requires Valid() && p !in items
      modifies this
      ensures Valid() && items == old(items) + [p]
    {
      slot := slot[p := |items|];
      items := items + [p];
    }

    method Swap(i: nat, j: nat)
      requires Valid() && i < |items| && j < |items|
      modifies this
      ensures Valid() && items == Swapped(old(items), i, j)
    {
      ValidDistinct();
      slot := slot[items[i] := j];
      slot := slot[items[j] := i];
      items := items[i := items[j]][j := items[i]];
    }

    /** Erase an item; i is its position. */
    method Erase(p: Pipe, ghost i: nat)
      requires Valid() && i < |items| && items[i] == p
      modifies this
      ensures Valid() && items == Erased(old(items), i)
    {
      ValidDistinct();
      var k := slot[p];
      var last := items[|items| - 1];
      slot := slot[last := k];
      ghost var was := items;
      items := items[k := last];
      items := items[..|items| - 1];
      assert items == Erased(was, i);
    }
  }
}
