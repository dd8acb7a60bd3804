/** Sorted and limited queries: what `ORDER BY ... LIMIT n` returns of a set of rows that the order tells apart. */
module Listings {
  import Sequences

  type Order<!T> = (T, T) -> bool

  /** Transitivity at one chain of rows. */
  predicate Chains<T>(less: Order<T>, a: T, b: T, c: T) {
    less(a, b) && less(b, c) ==> less(a, c)
  }

  /** `less` is a strict order that tells the elements of `rows` apart. */
  ghost predicate Sorts<T(!new)>(less: Order<T>, rows: set<T>) {
    && (forall a :: !less(a, a))
    && (forall a, b, c :: Chains(less, a, b, c))
    && (forall a, b {:trigger less(a, b)} :: a in rows && b in rows ==> a == b || less(a, b) || less(b, a))
  }

  ghost predicate IsFirst<T(!new)>(less: Order<T>, rows: set<T>, m: T) {
    m in rows && forall y :: y in rows && y != m ==> less(m, y)
  }

  /** The first row, or any row where the order has no first. */
  ghost function First<T(!new)>(less: Order<T>, rows: set<T>): (m: T)
    requires rows != {}
    ensures m in rows
  {
    if exists m :: IsFirst(less, rows, m) then
      var m :| IsFirst(less, rows, m);
      m
    else
      var m :| m in rows;
      m
  }

  ghost function Top<T(!new)>(less: Order<T>, rows: set<T>, n: nat): seq<T> {
    if n == 0 || rows == {} then [] else [First(less, rows)] + Top(less, rows - {First(less, rows)}, n - 1)
  }

  ghost function Listing<T(!new)>(less: Order<T>, rows: set<T>): seq<T> {
    Top(less, rows, |rows|)
  }

  function Rows<T>(s: seq<T>): set<T> {
    set x | x in s
  }

  /** The rows listed after `last`. */
  ghost function After<T(!new)>(less: Order<T>, rows: set<T>, last: T): set<T> {
    set r | r in rows && less(last, r)
  }

  /** The rows listed before `x`. */
  ghost function Preceding<T(!new)>(less: Order<T>, rows: set<T>, x: T): set<T> {
    set r | r in rows && less(r, x)
  }

  ghost predicate Ascending<T(!new)>(less: Order<T>, s: seq<T>) {
    forall i, j :: 0 <= i < j < |s| ==> less(s[i], s[j])
  }

  // ---------------------------------------------------------------- first rows

  lemma SortsLess<T(!new)>(less: Order<T>, rows: set<T>, fewer: set<T>)
    requires Sorts(less, rows) && fewer <= rows
    ensures Sorts(less, fewer)
  {
  }

  lemma {:induction false} FirstExists<T(!new)>(less: Order<T>, rows: set<T>)
    requires rows != {} && Sorts(less, rows)
    ensures exists m :: IsFirst(less, rows, m)
    decreases |rows|
  {
    var x :| x in rows;
    if rows == {x} {
      assert IsFirst(less, rows, x);
    } else {
      assert rows - {x} != {};
      FirstExists(less, rows - {x});
      var m :| IsFirst(less, rows - {x}, m);
      if less(x, m) {
        forall y | y in rows && y != x ensures less(x, y) {
          assert Chains(less, x, m, y);
        }
        assert IsFirst(less, rows, x);
      } else {
        assert IsFirst(less, rows, m);
      }
    }
  }

  lemma FirstIsFirst<T(!new)>(less: Order<T>, rows: set<T>)
    requires rows != {} && Sorts(less, rows)
    ensures IsFirst(less, rows, First(less, rows))
  {
    FirstExists(less, rows);
  }

  lemma FirstIs<T(!new)>(less: Order<T>, rows: set<T>, m: T)
    requires Sorts(less, rows) && IsFirst(less, rows, m)
    ensures First(less, rows) == m
  {
    FirstIsFirst(less, rows);
    assert Chains(less, m, First(less, rows), m);
  }

  // ---------------------------------------------------------------- what a limited query returns

  lemma TopUncons<T(!new)>(less: Order<T>, rows: set<T>, n: nat, m: T)
    requires n > 0 && rows != {} && First(less, rows) == m
    ensures Top(less, rows, n) == [m] + Top(less, rows - {m}, n - 1)
    ensures |rows - {m}| == |rows| - 1
  {
  }

  lemma {:induction false} TopLength<T(!new)>(less: Order<T>, rows: set<T>, n: nat)
    ensures |Top(less, rows, n)| == if n < |rows| then n else |rows|
    decreases n
  {
    if n > 0 && rows != {} {
      TopUncons(less, rows, n, First(less, rows));
      TopLength(less, rows - {First(less, rows)}, n - 1);
    }
  }

  lemma {:induction false} TopWithin<T(!new)>(less: Order<T>, rows: set<T>, n: nat)
    ensures forall x :: x in Top(less, rows, n) ==> x in rows
    decreases n
  {
    if n > 0 && rows != {} {
      TopUncons(less, rows, n, First(less, rows));
      TopWithin(less, rows - {First(less, rows)}, n - 1);
    }
  }

  lemma {:induction false} TopAscending<T(!new)>(less: Order<T>, rows: set<T>, n: nat)
    requires Sorts(less, rows)
    ensures Ascending(less, Top(less, rows, n))
    decreases n
  {
    if n > 0 && rows != {} {
      var m := First(less, rows);
      FirstIsFirst(less, rows);
      TopUncons(less, rows, n, m);
      SortsLess(less, rows, rows - {m});
      TopAscending(less, rows - {m}, n - 1);
      TopWithin(less, rows - {m}, n - 1);
      var rest := Top(less, rows - {m}, n - 1);
      forall j | 0 <= j < |rest| ensures less(m, rest[j]) {
        assert rest[j] in rest;
      }
    }
  }

  /** A row is returned exactly when fewer than `n` rows precede it. */
  lemma {:induction false} TopMember<T(!new)>(less: Order<T>, rows: set<T>, n: nat, x: T)
    requires Sorts(less, rows) && x in rows
    ensures x in Top(less, rows, n) <==> |Preceding(less, rows, x)| < n
    decreases n
  {
    if n > 0 {
      var m := First(less, rows);
      FirstIsFirst(less, rows);
      TopUncons(less, rows, n, m);
      if x == m {
        PrecedingFirst(less, rows, m);
      } else {
        SortsLess(less, rows, rows - {m});
        TopMember(less, rows - {m}, n - 1, x);
        assert Preceding(less, rows, x) == {m} + Preceding(less, rows - {m}, x);
      }
    }
  }

  lemma PrecedingFirst<T(!new)>(less: Order<T>, rows: set<T>, m: T)
    requires Sorts(less, rows) && IsFirst(less, rows, m)
    ensures Preceding(less, rows, m) == {}
  {
    forall r | r in rows ensures !less(r, m) {
      assert Chains(less, m, r, m);
    }
  }

  /** The listing holds every row once, in order. */
  lemma ListingIsComplete<T(!new)>(less: Order<T>, rows: set<T>)
    requires Sorts(less, rows)
    ensures Rows(Listing(less, rows)) == rows && |Listing(less, rows)| == |rows| && Ascending(less, Listing(less, rows))
  {
    TopLength(less, rows, |rows|);
    TopWithin(less, rows, |rows|);
    TopAscending(less, rows, |rows|);
    forall x | x in rows ensures x in Listing(less, rows) {
      TopMember(less, rows, |rows|, x);
      Smaller(Preceding(less, rows, x), rows, x);
    }
  }

  lemma Smaller<T>(a: set<T>, b: set<T>, x: T)
    requires a <= b && x in b && x !in a
    ensures |a| < |b|
  {
    assert b == a + (b - a);
  }

  lemma SmallerOrEqual<T>(a: set<T>, b: set<T>)
    requires a <= b
    ensures |a| <= |b|
  {
    assert b == a + (b - a);
  }

  // ---------------------------------------------------------------- limits and unions

  /** Rows that are not returned can be left out of the table. */
  lemma {:induction false} TopSuffices<T(!new)>(less: Order<T>, rows: set<T>, fewer: set<T>, n: nat)
    requires Sorts(less, rows) && fewer <= rows && forall x :: x in Top(less, rows, n) ==> x in fewer
    ensures Top(less, fewer, n) == Top(less, rows, n)
    decreases n
  {
    if n > 0 && rows != {} {
      var m := First(less, rows);
      FirstIsFirst(less, rows);
      TopUncons(less, rows, n, m);
      assert m in Top(less, rows, n);
      SortsLess(less, rows, fewer);
      FirstIs(less, fewer, m);
      TopUncons(less, fewer, n, m);
      TopWithin(less, rows - {m}, n - 1);
      SortsLess(less, rows, rows - {m});
      TopSuffices(less, rows - {m}, fewer - {m}, n - 1);
    }
  }

  /** Limiting each branch before a union gives the same top rows as limiting after it. */
  lemma LimitPushdown<T(!new)>(less: Order<T>, a: set<T>, b: set<T>, n: nat)
    requires Sorts(less, a + b)
    ensures Top(less, Rows(Top(less, a, n)) + Rows(Top(less, b, n)), n) == Top(less, a + b, n)
  {
    TopWithin(less, a, n);
    TopWithin(less, b, n);
    TopWithin(less, a + b, n);
    forall x | x in Top(less, a + b, n) ensures x in Rows(Top(less, a, n)) + Rows(Top(less, b, n)) {
      if x in a {
        TopOfPart(less, a + b, a, n, x);
      } else {
        TopOfPart(less, a + b, b, n, x);
      }
    }
    TopSuffices(less, a + b, Rows(Top(less, a, n)) + Rows(Top(less, b, n)), n);
  }

  /** A top row of a table is a top row of each part that has it. */
  lemma TopOfPart<T(!new)>(less: Order<T>, rows: set<T>, part: set<T>, n: nat, x: T)
    requires Sorts(less, rows) && part <= rows && x in part && x in Top(less, rows, n)
    ensures x in Top(less, part, n)
  {
    SortsLess(less, rows, part);
    TopMember(less, rows, n, x);
    TopMember(less, part, n, x);
    SmallerOrEqual(Preceding(less, part, x), Preceding(less, rows, x));
  }

  ghost predicate AllBefore<T(!new)>(less: Order<T>, a: set<T>, b: set<T>) {
    forall x, y :: x in a && y in b ==> less(x, y) && x != y
  }

  lemma FirstOfUnion<T(!new)>(less: Order<T>, a: set<T>, b: set<T>)
    requires Sorts(less, a + b) && AllBefore(less, a, b) && a != {}
    ensures a + b != {} && First(less, a + b) == First(less, a)
    ensures var m := First(less, a);
      (a + b) - {m} == (a - {m}) + b && Sorts(less, (a - {m}) + b) && AllBefore(less, a - {m}, b)
  {
    SortsLess(less, a + b, a);
    FirstIsFirst(less, a);
    var m := First(less, a);
    assert IsFirst(less, a + b, m);
    FirstIs(less, a + b, m);
    SortsLess(less, a + b, (a - {m}) + b);
  }

  lemma ConcatStep<T(!new)>(less: Order<T>, a: set<T>, b: set<T>, u: set<T>, n: nat, m: T)
    requires a != {} && u != {} && First(less, a) == m && First(less, u) == m && n >= |a|
    requires Top(less, u - {m}, n - 1) == Listing(less, a - {m}) + Top(less, b, n - |a|)
    ensures Top(less, u, n) == Listing(less, a) + Top(less, b, n - |a|)
  {
    TopUncons(less, u, n, m);
    TopUncons(less, a, |a|, m);
    Sequences.Regroup([m], Listing(less, a - {m}), Top(less, b, n - |a|));
  }

  lemma NoneFirst<T(!new)>(less: Order<T>, a: set<T>, b: set<T>, n: nat)
    requires a == {}
    ensures Top(less, a + b, n) == Listing(less, a) + Top(less, b, n)
  {
    assert a + b == b;
    assert Listing(less, a) == [];
  }

  /** When every row of `a` is listed before every row of `b`, their union lists `a` and then `b`. */
  lemma {:induction false} TopConcat<T(!new)>(less: Order<T>, a: set<T>, b: set<T>, n: nat)
    requires Sorts(less, a + b) && AllBefore(less, a, b) && n >= |a|
    ensures Top(less, a + b, n) == Listing(less, a) + Top(less, b, n - |a|)
    decreases n
  {
    if a == {} {
      NoneFirst(less, a, b, n);
    } else {
      FirstOfUnion(less, a, b);
      var m := First(less, a);
      assert |a - {m}| == |a| - 1;
      TopConcat(less, a - {m}, b, n - 1);
      ConcatStep(less, a, b, a + b, n, m);
    }
  }

  /** A smaller limit returns the head of what a larger one returns. */
  lemma {:induction false} TopTake<T(!new)>(less: Order<T>, rows: set<T>, n: nat, k: nat)
    requires k <= n
    ensures Top(less, rows, k) <= Top(less, rows, n)
    decreases k
  {
    if k > 0 && rows != {} {
      TopUncons(less, rows, n, First(less, rows));
      TopUncons(less, rows, k, First(less, rows));
      TopTake(less, rows - {First(less, rows)}, n - 1, k - 1);
    }
  }

  function Cut<T>(s: seq<T>, n: nat): seq<T> {
    if |s| > n then s[..n] else s
  }

  /** Cutting a limited query to a smaller limit. */
  lemma CutTop<T(!new)>(less: Order<T>, rows: set<T>, n: nat, k: nat)
    requires k <= n
    ensures Cut(Top(less, rows, n), k) == Top(less, rows, k)
  {
    TopTake(less, rows, n, k);
    TopLength(less, rows, n);
    TopLength(less, rows, k);
  }

  /** A limited query is the whole listing exactly when the limit allows. */
  lemma TopIsListing<T(!new)>(less: Order<T>, rows: set<T>, n: nat)
    ensures Top(less, rows, n) == Listing(less, rows) <==> n >= |rows|
    ensures |Top(less, rows, n)| == if n < |rows| then n else |rows|
  {
    TopLength(less, rows, n);
    TopLength(less, rows, |rows|);
    if n >= |rows| {
      TopTake(less, rows, n, |rows|);
    }
  }

  // ---------------------------------------------------------------- two tables in turn

  /** Two tables queried one after the other, the second only if the first leaves the page short. */
  ghost function InTurn<T(!new)>(less: Order<T>, a: set<T>, b: set<T>, n: nat): seq<T> {
    if |a| < n then Listing(less, a) + Top(less, b, n + 1) else Top(less, a, n + 1)
  }

  lemma CutConcat<T>(s: seq<T>, t: seq<T>, n: nat)
    requires |s| <= n
    ensures Cut(s + t, n) == s + Cut(t, n - |s|)
  {
  }

  /** The first table alone fills the page. */
  lemma FirstTableFills<T(!new)>(less: Order<T>, a: set<T>, b: set<T>, n: nat)
    requires Sorts(less, a + b) && AllBefore(less, a, b) && n <= |a|
    ensures Top(less, a + b, n) == Top(less, a, n)
  {
    TopConcat(less, a, b, |a|);
    CutTop(less, a + b, |a|, n);
    CutTop(less, a, |a|, n);
  }

  /** The second table fills up the page. */
  lemma SecondTableFills<T(!new)>(less: Order<T>, a: set<T>, b: set<T>, n: nat)
    requires |a| <= n
    ensures Cut(Listing(less, a) + Top(less, b, n + 1), n) == Listing(less, a) + Top(less, b, n - |a|)
  {
    TopLength(less, a, |a|);
    CutTop(less, b, n + 1, n - |a|);
    CutConcat(Listing(less, a), Top(less, b, n + 1), n);
  }

  /** Querying in turn gives the page of the union. */
  lemma InTurnIsTop<T(!new)>(less: Order<T>, a: set<T>, b: set<T>, n: nat)
    requires Sorts(less, a + b) && AllBefore(less, a, b)
    ensures Cut(InTurn(less, a, b, n), n) == Top(less, a + b, n)
  {
    if |a| < n {
      TopConcat(less, a, b, n);
      SecondTableFills(less, a, b, n);
    } else {
      FirstTableFills(less, a, b, n);
      CutTop(less, a, n + 1, n);
    }
  }

  /**
   Querying in turn finds more than the page exactly when there is more and the first table does not end with the
   page.
   */
  lemma InTurnFindsMore<T(!new)>(less: Order<T>, a: set<T>, b: set<T>, n: nat)
    requires a !! b
    ensures |InTurn(less, a, b, n)| > n <==> |a + b| > n && |a| != n
  {
    assert |a + b| == |a| + |b|;
    TopLength(less, a, |a|);
    TopLength(less, b, n + 1);
    TopLength(less, a, n + 1);
  }

  // ---------------------------------------------------------------- pages

  lemma LastIn<T(!new)>(less: Order<T>, rows: set<T>, n: nat)
    requires Top(less, rows, n) != []
    ensures var page := Top(less, rows, n); page[|page| - 1] in rows
  {
    TopWithin(less, rows, n);
  }

  /** Without its first row, what is listed after a later row stays the same. */
  lemma AfterWithout<T(!new)>(less: Order<T>, rows: set<T>, m: T, last: T)
    requires Sorts(less, rows) && IsFirst(less, rows, m) && last in rows
    ensures After(less, rows, last) == if last == m then rows - {m} else After(less, rows - {m}, last)
  {
    if last != m {
      assert Chains(less, m, last, m);
    }
  }

  /** The rows after the last one of a limited query are the rest of the listing. */
  lemma {:induction false} ListingSplits<T(!new)>(less: Order<T>, rows: set<T>, n: nat)
    requires Sorts(less, rows) && 0 < n <= |rows|
    ensures |Top(less, rows, n)| == n
    ensures var rest := After(less, rows, Top(less, rows, n)[n - 1]);
      |rest| + n == |rows| && Listing(less, rows) == Top(less, rows, n) + Listing(less, rest)
    decreases n
  {
    var m := First(less, rows);
    FirstIsFirst(less, rows);
    TopLength(less, rows, n);
    TopUncons(less, rows, |rows|, m);
    TopUncons(less, rows, n, m);
    if n == 1 {
      AfterWithout(less, rows, m, m);
    } else {
      SortsLess(less, rows, rows - {m});
      ListingSplits(less, rows - {m}, n - 1);
      var head := Top(less, rows - {m}, n - 1);
      LastIn(less, rows - {m}, n - 1);
      AfterWithout(less, rows, m, head[n - 2]);
    }
  }

  /** A page and what is listed after its last row make up the listing; an empty page means nothing was left. */
  lemma PageSplits<T(!new)>(less: Order<T>, rows: set<T>, pageSize: nat)
    requires Sorts(less, rows) && pageSize > 0
    ensures Top(less, rows, pageSize) == [] ==> rows == {}
    ensures var page := Top(less, rows, pageSize);
      page != [] ==>
        var rest := After(less, rows, page[|page| - 1]);
        |rest| < |rows| && Listing(less, rows) == page + Listing(less, rest)
  {
    TopLength(less, rows, pageSize);
    var page := Top(less, rows, pageSize);
    if page != [] {
      CutTop(less, rows, pageSize, |page|);
      ListingSplits(less, rows, |page|);
    }
  }

  /** A limit of one more row tells whether anything is left after the first `n`. */
  lemma OneMore<T(!new)>(less: Order<T>, rows: set<T>, n: nat)
    ensures |Top(less, rows, n + 1)| > n <==> |rows| > n
    ensures Cut(Top(less, rows, n + 1), n) == Top(less, rows, n)
  {
    CutTop(less, rows, n + 1, n);
    TopLength(less, rows, n + 1);
  }
}
