/** The order of sequences by their first difference, then by length. */
module Lexicographic {

  ghost predicate StrictTotal<T(!new)>(smaller: (T, T) -> bool) {
    && (forall x :: !smaller(x, x))
    && (forall x, y :: smaller(x, y) || smaller(y, x) || x == y)
    && (forall x, y, z :: smaller(x, y) && smaller(y, z) ==> smaller(x, z))
  }

  predicate Less<T(==)>(smaller: (T, T) -> bool, a: seq<T>, b: seq<T>) {
    if b == [] then false
    else if a == [] then true
    else smaller(a[0], b[0]) || (a[0] == b[0] && Less(smaller, a[1..], b[1..]))
  }

  lemma {:induction false} LessIsStrict<T(!new)>(smaller: (T, T) -> bool, a: seq<T>, b: seq<T>, c: seq<T>)
    requires StrictTotal(smaller)
    ensures !Less(smaller, a, a)
    ensures Less(smaller, a, b) || Less(smaller, b, a) || a == b
    ensures Less(smaller, a, b) && Less(smaller, b, c) ==> Less(smaller, a, c)
    decreases |a| + |b| + |c|
  {
    if a != [] {
      LessIsStrict(smaller, a[1..], if b == [] then [] else b[1..], if c == [] then [] else c[1..]);
      if b != [] && a[0] == b[0] && a[1..] == b[1..] {
        assert a == [a[0]] + a[1..] && b == [b[0]] + b[1..];
      }
    }
  }

  /** Sequences that differ before either ends compare the same however they go on. */
  lemma {:induction false} DifferenceDecides<T>(smaller: (T, T) -> bool, a: seq<T>, b: seq<T>, x: seq<T>, y: seq<T>)
    requires Less(smaller, a, b) && !(a <= b)
    ensures Less(smaller, a + x, b + y)
    decreases |a|
  {
    assert a != [] && b != [];
    assert (a + x)[1..] == a[1..] + x && (b + y)[1..] == b[1..] + y;
    if a[0] == b[0] {
      assert a == [a[0]] + a[1..] && b == [b[0]] + b[1..];
      if !smaller(a[0], b[0]) {
        assert !(a[1..] <= b[1..]);
        DifferenceDecides(smaller, a[1..], b[1..], x, y);
      }
    }
  }

  lemma {:induction false} LongerIsMore<T>(smaller: (T, T) -> bool, a: seq<T>, x: seq<T>)
    requires x != []
    ensures Less(smaller, a, a + x)
    decreases |a|
  {
    if a == [] {
      assert a + x == x;
    } else {
      assert (a + x)[1..] == a[1..] + x;
      LongerIsMore(smaller, a[1..], x);
    }
  }

  lemma {:induction false} CommonStart<T(!new)>(smaller: (T, T) -> bool, start: seq<T>, a: seq<T>, b: seq<T>)
    requires forall x :: !smaller(x, x)
    ensures Less(smaller, start + a, start + b) <==> Less(smaller, a, b)
    decreases |start|
  {
    if start == [] {
      assert start + a == a && start + b == b;
    } else {
      assert (start + a)[1..] == start[1..] + a && (start + b)[1..] == start[1..] + b;
      CommonStart(smaller, start[1..], a, b);
    }
  }
}
