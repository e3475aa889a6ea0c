/** Small datatypes shared by the models. */
module Basics {

  datatype Option<+T> = None | Some(value: T)

  /** 1 when the condition holds; used to count alternatives. */
  function Bit(b: bool): nat {
    if b then 1 else 0
  }

  type Byte = x: nat | x < 256

  /** The pieces laid end to end. */
  function Flatten<T>(pieces: seq<seq<T>>): seq<T> {
    if pieces == [] then [] else pieces[0] + Flatten(pieces[1..])
  }

  lemma {:induction false} FlattenAppend<T>(front: seq<seq<T>>, back: seq<seq<T>>)
    ensures Flatten(front + back) == Flatten(front) + Flatten(back)
  {
    if front == [] {
      assert front + back == back;
    } else {
      assert (front + back)[1..] == front[1..] + back;
      FlattenAppend(front[1..], back);
      assert front[0] + (Flatten(front[1..]) + Flatten(back)) == front[0] + Flatten(front[1..]) + Flatten(back);
    }
  }

  lemma FlattenOne<T>(front: seq<seq<T>>, piece: seq<T>)
    ensures Flatten(front + [piece]) == Flatten(front) + piece
  {
    FlattenAppend(front, [piece]);
    assert [piece][1..] == [] && piece + [] == piece;
  }

  lemma FlattenUpTo<T>(pieces: seq<seq<T>>, i: nat)
    requires i < |pieces|
    ensures Flatten(pieces[..i + 1]) == Flatten(pieces[..i]) + pieces[i]
  {
    assert pieces[..i + 1] == pieces[..i] + [pieces[i]];
    FlattenOne(pieces[..i], pieces[i]);
  }

  lemma SliceJoin<T>(w: seq<T>, a: nat, b: nat, c: nat)
    requires a <= b <= c <= |w|
    ensures w[a..b] + w[b..c] == w[a..c]
  {
  }

  lemma PrefixJoin<T>(w: seq<T>, a: nat, b: nat)
    requires a <= b <= |w|
    ensures w[..a] + w[a..b] == w[..b]
  {
  }

  lemma SliceOfSlice<T>(w: seq<T>, a: nat, b: nat, n: nat)
    requires a <= b <= |w| && n <= b - a
    ensures w[a..b][n..] == w[a + n..b]
  {
  }

  lemma Regroup<T>(a: seq<T>, b: seq<T>, c: seq<T>)
    ensures a + b + c == a + (b + c)
  {
  }

  /** w is a followed by b, item by item. */
  predicate Joins<T(==)>(a: seq<T>, b: seq<T>, w: seq<T>) {
    && |w| == |a| + |b|
    && (forall i :: 0 <= i < |a| ==> w[i] == a[i])
    && (forall i :: 0 <= i < |b| ==> w[|a| + i] == b[i])
  }

  lemma JoinsIsAppend<T>(a: seq<T>, b: seq<T>, w: seq<T>)
    ensures Joins(a, b, w) <==> a + b == w
  {
    if Joins(a, b, w) {
      forall i | 0 <= i < |w| ensures (a + b)[i] == w[i] {
        if i >= |a| { assert w[|a| + (i - |a|)] == b[i - |a|]; }
      }
    }
  }

  lemma SlicePart<T>(w: seq<T>, front: seq<T>, x: seq<T>, y: seq<T>)
    requires front == x + y && front <= w
    ensures |x| <= |front| <= |w| && w[|x|..|front|] == y
  {
  }
}
