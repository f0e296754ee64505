/** The two array combinators the hooks are built from: `Array.prototype.filter`
    and `Array.prototype.map`, as functions on sequences, with the facts about
    them that the store operations and the derived views rely on. */
module Seqs {

  /** `s.filter(p)`: the elements of `s` that satisfy `p`, in their original order. */
  function Filter<T>(s: seq<T>, p: T -> bool): (r: seq<T>)
    ensures |r| <= |s|
    ensures forall x :: x in r ==> x in s && p(x)
  {
    if s == [] then [] else (if p(s[0]) then [s[0]] else []) + Filter(s[1..], p)
  }

  /** `s.map(f)`. */
  function Map<T, U>(s: seq<T>, f: T -> U): (r: seq<U>)
    ensures |r| == |s|
  {
    if s == [] then [] else [f(s[0])] + Map(s[1..], f)
  }

  /** The positions of `s` whose element satisfies `p`, in increasing order. */
  function Positions<T>(s: seq<T>, p: T -> bool): seq<nat>
  {
    if s == [] then []
    else Positions(s[..|s| - 1], p) + (if p(s[|s| - 1]) then [|s| - 1] else [])
  }

  lemma {:induction false} MapAt<T, U>(s: seq<T>, f: T -> U, i: nat)
    requires i < |s|
    ensures Map(s, f)[i] == f(s[i])
  {
    if i > 0 {
      MapAt(s[1..], f, i - 1);
    }
  }

  /** Mapping with a function that fixes every element changes nothing. */
  lemma MapFixed<T>(s: seq<T>, f: T -> T)
    requires forall i :: 0 <= i < |s| ==> f(s[i]) == s[i]
    ensures Map(s, f) == s
  {
    forall i | 0 <= i < |s|
      ensures Map(s, f)[i] == s[i]
    {
      MapAt(s, f, i);
    }
  }

  /** Every element of a mapped sequence is the image of an element of the input. */
  lemma MapMembership<T, U>(s: seq<T>, f: T -> U, y: U)
    ensures y in Map(s, f) <==> exists x :: x in s && f(x) == y
  {
    if y in Map(s, f) {
      var i :| 0 <= i < |s| && Map(s, f)[i] == y;
      MapAt(s, f, i);
      assert s[i] in s;
    }
    if x :| x in s && f(x) == y {
      var i :| 0 <= i < |s| && s[i] == x;
      MapAt(s, f, i);
    }
  }

  lemma {:induction false} FilterMembership<T>(s: seq<T>, p: T -> bool, x: T)
    ensures x in Filter(s, p) <==> x in s && p(x)
  {
    if s != [] {
      FilterMembership(s[1..], p, x);
      assert s == [s[0]] + s[1..];
    }
  }

  /** Filtering distributes over concatenation. */
  lemma {:induction false} FilterConcat<T>(a: seq<T>, b: seq<T>, p: T -> bool)
    ensures Filter(a + b, p) == Filter(a, p) + Filter(b, p)
  {
    if a == [] {
      assert a + b == b;
    } else {
      assert (a + b)[0] == a[0];
      assert (a + b)[1..] == a[1..] + b;
      FilterConcat(a[1..], b, p);
    }
  }

  /** Filtering one more element at the end appends it exactly when it passes. */
  lemma FilterSnoc<T>(s: seq<T>, x: T, p: T -> bool)
    ensures Filter(s + [x], p) == Filter(s, p) + (if p(x) then [x] else [])
  {
    FilterConcat(s, [x], p);
    assert [x][1..] == [];
  }

  /** A filter that every element passes returns the sequence unchanged. */
  lemma {:induction false} FilterAll<T>(s: seq<T>, p: T -> bool)
    requires forall x :: x in s ==> p(x)
    ensures Filter(s, p) == s
  {
    if s != [] {
      FilterAll(s[1..], p);
      assert s == [s[0]] + s[1..];
    }
  }

  /** Filtering twice with the same predicate is filtering once. */
  lemma FilterIdempotent<T>(s: seq<T>, p: T -> bool)
    ensures Filter(Filter(s, p), p) == Filter(s, p)
  {
    FilterAll(Filter(s, p), p);
  }

  /** When every element passes `a` exactly when it passes one of the
      exclusive predicates `b` and `c`, the counts add up. */
  lemma {:induction false} FilterSplit<T>(s: seq<T>, a: T -> bool, b: T -> bool, c: T -> bool)
    requires forall x :: x in s ==> (a(x) <==> b(x) || c(x))
    requires forall x :: x in s ==> !(b(x) && c(x))
    ensures |Filter(s, a)| == |Filter(s, b)| + |Filter(s, c)|
  {
    if s != [] {
      assert s[0] in s;
      assert forall x :: x in s[1..] ==> x in s;
      FilterSplit(s[1..], a, b, c);
    }
  }

  /** The kept elements are the elements at the kept positions, in order. */
  lemma {:induction false} PositionsPick<T>(s: seq<T>, p: T -> bool)
    ensures |Positions(s, p)| == |Filter(s, p)|
    ensures forall k :: 0 <= k < |Positions(s, p)| ==>
      Positions(s, p)[k] < |s| && Filter(s, p)[k] == s[Positions(s, p)[k]]
  {
    if s != [] {
      var n := |s| - 1;
      var front := s[..n];
      PositionsPick(front, p);
      assert s == front + [s[n]];
      FilterSnoc(front, s[n], p);
    }
  }

  /** The kept positions are strictly increasing. */
  lemma {:induction false} PositionsIncrease<T>(s: seq<T>, p: T -> bool)
    ensures forall k :: 0 <= k < |Positions(s, p)| ==> Positions(s, p)[k] < |s|
    ensures forall k, l :: 0 <= k < l < |Positions(s, p)| ==> Positions(s, p)[k] < Positions(s, p)[l]
  {
    if s != [] {
      PositionsIncrease(s[..|s| - 1], p);
    }
  }

  /** A position is kept exactly when its element passes. */
  lemma {:induction false} PositionsExact<T>(s: seq<T>, p: T -> bool)
    ensures forall i :: 0 <= i < |s| ==> (i in Positions(s, p) <==> p(s[i]))
  {
    if s != [] {
      var n := |s| - 1;
      PositionsIncrease(s[..n], p);
      PositionsExact(s[..n], p);
    }
  }

  /** `Filter(s, p)` is exactly the elements of `s` at the positions where `p`
      holds, taken in increasing order of position: nothing else is kept and
      the relative order of the kept elements is the original one. */
  lemma FilterKeepsOrder<T>(s: seq<T>, p: T -> bool)
    ensures |Positions(s, p)| == |Filter(s, p)|
    ensures forall k :: 0 <= k < |Positions(s, p)| ==>
      Positions(s, p)[k] < |s| && Filter(s, p)[k] == s[Positions(s, p)[k]]
    ensures forall k, l :: 0 <= k < l < |Positions(s, p)| ==> Positions(s, p)[k] < Positions(s, p)[l]
    ensures forall i :: 0 <= i < |s| ==> (i in Positions(s, p) <==> p(s[i]))
  {
    PositionsPick(s, p);
    PositionsIncrease(s, p);
    PositionsExact(s, p);
  }
}
