/**
 * The JavaScript array built-ins the aggregation code relies on, over Dafny sequences:
 * `filter`, one level of `flat`, `reduce((res, x) => res + x, 0)` and `filter(Boolean)`
 * applied to an array of numbers.
 */
module JsArray {

  /** `s.filter(p)`: the elements satisfying `p`, in their original order. */
  function Filter<T>(s: seq<T>, p: T -> bool): (r: seq<T>)
    ensures |r| <= |s|
  {
    if s == [] then []
    else (if p(s[0]) then [s[0]] else []) + Filter(s[1..], p)
  }

  lemma {:induction false} FilterAppend<T>(a: seq<T>, b: seq<T>, p: T -> bool)
    ensures Filter(a + b, p) == Filter(a, p) + Filter(b, p)
  {
    if a == [] {
      assert a + b == b;
    } else {
      var head := if p(a[0]) then [a[0]] else [];
      assert (a + b)[0] == a[0];
      assert (a + b)[1..] == a[1..] + b;
      FilterAppend(a[1..], b, p);
      calc {
        Filter(a + b, p);
        head + Filter(a[1..] + b, p);
        head + (Filter(a[1..], p) + Filter(b, p));
        (head + Filter(a[1..], p)) + Filter(b, p);
      }
    }
  }

  /** A filter whose predicate holds of every element keeps the array unchanged. */
  lemma {:induction false} FilterAll<T>(s: seq<T>, p: T -> bool)
    requires forall x :: x in s ==> p(x)
    ensures Filter(s, p) == s
  {
    if s != [] {
      FilterAll(s[1..], p);
    }
  }

  /** `xs.flat()`: the concatenation of the inner arrays, in order. */
  function Flatten<T>(xs: seq<seq<T>>): (r: seq<T>)
  {
    if xs == [] then [] else xs[0] + Flatten(xs[1..])
  }

  lemma {:induction false} FlattenSnoc<T>(xs: seq<seq<T>>, x: seq<T>)
    ensures Flatten(xs + [x]) == Flatten(xs) + x
  {
    if xs == [] {
      assert xs + [x] == [x];
      assert Flatten([x]) == x + Flatten([]);
    } else {
      assert (xs + [x])[1..] == xs[1..] + [x];
      FlattenSnoc(xs[1..], x);
    }
  }

  /** `numbers.reduce((res, size) => res + size, 0)`. */
  function Sum(s: seq<nat>): nat
  {
    if s == [] then 0 else s[0] + Sum(s[1..])
  }

  /** The total is zero exactly when every number is. */
  lemma {:induction false} SumZero(s: seq<nat>)
    ensures Sum(s) == 0 <==> forall x :: x in s ==> x == 0
  {
    if s != [] {
      SumZero(s[1..]);
      assert s[0] in s;
      assert forall x :: x in s <==> x == s[0] || x in s[1..];
    }
  }

  lemma {:induction false} SumAppend(a: seq<nat>, b: seq<nat>)
    ensures Sum(a + b) == Sum(a) + Sum(b)
  {
    if a == [] {
      assert a + b == b;
    } else {
      assert (a + b)[1..] == a[1..] + b;
      SumAppend(a[1..], b);
    }
  }

  /** `numbers.filter(Boolean)`: a number is falsy exactly when it is 0. */
  function NonZero(s: seq<nat>): seq<nat>
  {
    if s == [] then []
    else (if s[0] != 0 then [s[0]] else []) + NonZero(s[1..])
  }

  /** `filter(Boolean)` keeps exactly the nonzero numbers, and never lengthens the array. */
  lemma {:induction false} NonZeroKeeps(s: seq<nat>)
    ensures |NonZero(s)| <= |s|
    ensures forall x :: x in NonZero(s) <==> x in s && x != 0
  {
    if s != [] {
      NonZeroKeeps(s[1..]);
      assert forall x :: x in s <==> x == s[0] || x in s[1..];
    }
  }

  lemma {:induction false} NonZeroAppend(a: seq<nat>, b: seq<nat>)
    ensures NonZero(a + b) == NonZero(a) + NonZero(b)
  {
    if a == [] {
      assert a + b == b;
    } else {
      assert (a + b)[1..] == a[1..] + b;
      NonZeroAppend(a[1..], b);
    }
  }

  /** Filtering twice is filtering once. */
  lemma {:induction false} NonZeroIdempotent(s: seq<nat>)
    ensures NonZero(NonZero(s)) == NonZero(s)
  {
    if s != [] {
      NonZeroIdempotent(s[1..]);
      NonZeroAppend(if s[0] != 0 then [s[0]] else [], NonZero(s[1..]));
    }
  }

  /** Dropping the zeros leaves the total unchanged. */
  lemma {:induction false} SumNonZero(s: seq<nat>)
    ensures Sum(NonZero(s)) == Sum(s)
  {
    if s != [] {
      SumNonZero(s[1..]);
      SumAppend(if s[0] != 0 then [s[0]] else [], NonZero(s[1..]));
    }
  }
}
