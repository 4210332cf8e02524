/** Sums and selections over the rows of a query, and the algebra the accounting proofs need. */
module Sums {
  import opened Schema

  function Sum<T>(s: seq<T>, f: T -> Money): Money {
    if s == [] then 0.0 else f(s[0]) + Sum(s[1..], f)
  }

  /** The rows a WHERE clause keeps, in table order. */
  function Select<T>(s: seq<T>, p: T -> bool): seq<T> {
    if s == [] then []
    else if p(s[0]) then [s[0]] + Select(s[1..], p)
    else Select(s[1..], p)
  }

  lemma {:induction false} SelectMembers<T>(s: seq<T>, p: T -> bool, x: T)
    ensures x in Select(s, p) <==> x in s && p(x)
  {
    if s != [] {
      SelectMembers(s[1..], p, x);
      assert x in s <==> x == s[0] || x in s[1..];
    }
  }

  lemma {:induction false} SelectNone<T>(s: seq<T>, p: T -> bool)
    requires forall x | x in s :: !p(x)
    ensures Select(s, p) == []
  {
    if s != [] { SelectNone(s[1..], p); }
  }

  lemma {:induction false} SelectAppend<T>(a: seq<T>, b: seq<T>, p: T -> bool)
    ensures Select(a + b, p) == Select(a, p) + Select(b, p)
  {
    if a == [] {
      assert a + b == b;
    } else {
      assert (a + b)[1..] == a[1..] + b;
      SelectAppend(a[1..], b, p);
    }
  }

  lemma {:induction false} SumAppend<T>(a: seq<T>, b: seq<T>, f: T -> Money)
    ensures Sum(a + b, f) == Sum(a, f) + Sum(b, f)
  {
    if a == [] {
      assert a + b == b;
    } else {
      assert (a + b)[1..] == a[1..] + b;
      SumAppend(a[1..], b, f);
    }
  }

  lemma {:induction false} SumCongruent<T>(s: seq<T>, f: T -> Money, g: T -> Money)
    requires forall x | x in s :: f(x) == g(x)
    ensures Sum(s, f) == Sum(s, g)
  {
    if s != [] { SumCongruent(s[1..], f, g); }
  }

  lemma {:induction false} SumOfSums<T>(s: seq<T>, f: T -> Money, g: T -> Money, h: T -> Money)
    requires forall x | x in s :: h(x) == f(x) + g(x)
    ensures Sum(s, h) == Sum(s, f) + Sum(s, g)
  {
    if s != [] { SumOfSums(s[1..], f, g, h); }
  }

  lemma {:induction false} SumZero<T>(s: seq<T>, f: T -> Money)
    requires forall x | x in s :: f(x) == 0.0
    ensures Sum(s, f) == 0.0
  {
    if s != [] { SumZero(s[1..], f); }
  }

  /** When p holds of at most one row, summing x over the rows where it holds gives x or nothing. */
  lemma {:induction false} SumAtMostOnce<T>(s: seq<T>, p: T -> bool, x: Money, f: T -> Money)
    requires forall i, j :: 0 <= i < j < |s| ==> !(p(s[i]) && p(s[j]))
    requires forall t | t in s :: f(t) == if p(t) then x else 0.0
    ensures Sum(s, f) == if exists t :: t in s && p(t) then x else 0.0
  {
    if s != [] {
      var tail := s[1..];
      SumAtMostOnce(tail, p, x, f);
      if p(s[0]) {
        forall t | t in tail ensures !p(t) {
          var k :| 0 <= k < |tail| && tail[k] == t;
          assert s[k + 1] == t;
        }
      }
      assert forall t :: t in s <==> t == s[0] || t in tail;
    }
  }

  /** n copies of x. */
  ghost function Repeat(n: nat, x: Money): Money {
    if n == 0 then 0.0 else x + Repeat(n - 1, x)
  }

  lemma {:induction false} RepeatZeroIff(n: nat, x: Money)
    ensures Repeat(n, x) == 0.0 <==> n == 0 || x == 0.0
    ensures n > 0 ==> (x > 0.0 ==> Repeat(n, x) > 0.0) && (x < 0.0 ==> Repeat(n, x) < 0.0)
  {
    if n > 0 { RepeatZeroIff(n - 1, x); }
  }

  lemma {:induction false} SumRepeated<T>(s: seq<T>, n: nat, f: T -> Money, h: T -> Money)
    requires forall x | x in s :: h(x) == Repeat(n, f(x))
    ensures Sum(s, h) == Repeat(n, Sum(s, f))
  {
    if n == 0 {
      SumZero(s, h);
    } else {
      var rest := (x: T) => Repeat(n - 1, f(x));
      SumRepeated(s, n - 1, f, rest);
      SumOfSums(s, f, rest, h);
    }
  }

  /** Summing the selected rows is summing all rows with the others counted as 0. */
  lemma {:induction false} SumSelected<T>(s: seq<T>, p: T -> bool, f: T -> Money, g: T -> Money)
    requires forall x | x in s :: g(x) == if p(x) then f(x) else 0.0
    ensures Sum(Select(s, p), f) == Sum(s, g)
  {
    if s != [] {
      SumSelected(s[1..], p, f, g);
      if p(s[0]) {
        assert Select(s, p)[1..] == Select(s[1..], p);
      }
    }
  }

  ghost function Row<A, B>(b: B, f: (A, B) -> Money): A -> Money {
    (a: A) => f(a, b)
  }

  ghost function Column<A, B>(a: A, f: (A, B) -> Money): B -> Money {
    (b: B) => f(a, b)
  }

  ghost function RowTotals<A, B>(as_: seq<A>, f: (A, B) -> Money): B -> Money {
    (b: B) => Sum(as_, Row(b, f))
  }

  ghost function ColumnTotals<A, B>(bs: seq<B>, f: (A, B) -> Money): A -> Money {
    (a: A) => Sum(bs, Column(a, f))
  }

  /** Rows of two exclusive conditions are counted together by their disjunction. */
  lemma {:induction false} SelectSplits<T>(s: seq<T>, p: T -> bool, q: T -> bool, pq: T -> bool)
    requires forall x | x in s :: (pq(x) <==> p(x) || q(x)) && !(p(x) && q(x))
    ensures |Select(s, pq)| == |Select(s, p)| + |Select(s, q)|
  {
    if s != [] { SelectSplits(s[1..], p, q, pq); }
  }

  lemma {:induction false} SelectCongruent<T>(s: seq<T>, p: T -> bool, q: T -> bool)
    requires forall x | x in s :: p(x) == q(x)
    ensures Select(s, p) == Select(s, q)
  {
    if s != [] { SelectCongruent(s[1..], p, q); }
  }

  /** Selecting in two steps is selecting by both conditions. */
  lemma {:induction false} SelectTwice<T>(s: seq<T>, p: T -> bool, q: T -> bool, both: T -> bool)
    requires forall x | x in s :: both(x) <==> p(x) && q(x)
    ensures Select(Select(s, p), q) == Select(s, both)
  {
    if s != [] { SelectTwice(s[1..], p, q, both); }
  }

  /** A sum of amounts that are not negative vanishes only with all of them. */
  lemma {:induction false} SumNotNegative<T>(s: seq<T>, f: T -> Money)
    requires forall x | x in s :: f(x) >= 0.0
    ensures Sum(s, f) >= 0.0
    ensures Sum(s, f) == 0.0 <==> forall x | x in s :: f(x) == 0.0
  {
    if s != [] {
      SumNotNegative(s[1..], f);
      assert forall x :: x in s <==> x == s[0] || x in s[1..];
    }
  }

  /** Every two rows are related, the earlier to the later one. */
  ghost predicate Pairwise<T(!new)>(s: seq<T>, r: (T, T) -> bool) {
    forall i, j | 0 <= i < j < |s| :: r(s[i], s[j])
  }

  ghost predicate Distinct<T(!new)>(s: seq<T>) {
    forall i, j | 0 <= i < j < |s| :: s[i] != s[j]
  }

  lemma {:induction false} SelectPairwise<T(!new)>(s: seq<T>, p: T -> bool, r: (T, T) -> bool)
    requires Pairwise(s, r)
    ensures Pairwise(Select(s, p), r)
  {
    if s != [] {
      var rest := Select(s[1..], p);
      SelectPairwise(s[1..], p, r);
      if p(s[0]) {
        forall j | 0 <= j < |rest| ensures r(s[0], rest[j]) {
          SelectMembers(s[1..], p, rest[j]);
          var k :| 0 <= k < |s| - 1 && s[1..][k] == rest[j];
          assert s[k + 1] == rest[j];
        }
        assert Select(s, p) == [s[0]] + rest;
      }
    }
  }

  /** A count of rows is a sum of ones. */
  lemma {:induction false} CountIsSum<T>(s: seq<T>, p: T -> bool)
    ensures |Select(s, p)| as real == Sum(s, Ones(p))
  {
    if s != [] { CountIsSum(s[1..], p); }
  }

  ghost function Ones<T>(p: T -> bool): T -> Money {
    (x: T) => if p(x) then 1.0 else 0.0
  }

  /** `reverse`, and what `ORDER BY id DESC` makes of rows kept in id order. */
  function Reversed<T>(s: seq<T>): seq<T> {
    if s == [] then [] else Reversed(s[1..]) + [s[0]]
  }

  lemma {:induction false} ReversedMembers<T>(s: seq<T>)
    ensures |Reversed(s)| == |s|
    ensures forall i | 0 <= i < |s| :: Reversed(s)[i] == s[|s| - 1 - i]
  {
    if s != [] { ReversedMembers(s[1..]); }
  }

  /** `skip` and `take` of a query. */
  function Slice<T>(s: seq<T>, skip: nat, take: nat): seq<T> {
    if skip >= |s| then [] else if skip + take >= |s| then s[skip..] else s[skip..skip + take]
  }

  lemma {:induction false} ReversedAppend<T>(a: seq<T>, b: seq<T>)
    ensures Reversed(a + b) == Reversed(b) + Reversed(a)
  {
    if a == [] {
      assert a + b == b;
    } else {
      assert (a + b)[1..] == a[1..] + b;
      ReversedAppend(a[1..], b);
    }
  }

  lemma ReversedAround<T>(x: seq<T>, c: seq<T>, y: seq<T>)
    requires |c| <= 1
    ensures Reversed(x + c + y) == Reversed(y) + c + Reversed(x)
  {
    ReversedAppend(x + c, y);
    ReversedAppend(x, c);
    assert c != [] ==> c == [c[0]] && c[1..] == [];
  }

  /** Leaving one row out of a list leaves a slice alone exactly when the slice is empty or ends before the row. */
  lemma SliceWithoutIff<T(!new)>(u: seq<T>, c: T, v: seq<T>, skip: nat, take: nat)
    requires Distinct(u + [c] + v)
    ensures Slice(u + [c] + v, skip, take) == Slice(u + v, skip, take)
            <==> take == 0 || skip >= |u| + 1 + |v| || skip + take <= |u|
  {
    var s, t := u + [c] + v, u + v;
    assert s[|u|] == c;
    forall i | 0 <= i < |t| ensures t[i] == s[if i < |u| then i else i + 1] {
    }
    if take > 0 && skip < |s| && skip + take > |u| {
      var left, right := Slice(s, skip, take), Slice(t, skip, take);
      if skip <= |u| {
        var i := |u| - skip;
        assert left[i] == c;
        assert i < |right| ==> right[i] == t[|u|] == s[|u| + 1] != c;
      } else {
        assert left[0] == s[skip];
        assert right != [] ==> right[0] == t[skip] == s[skip + 1] != s[skip];
      }
    }
  }

  /** Replacing one row changes exactly the slices that show it. */
  lemma SliceReplacedIff<T>(u: seq<T>, c: T, d: T, v: seq<T>, skip: nat, take: nat)
    requires c != d
    ensures Slice(u + [c] + v, skip, take) == Slice(u + [d] + v, skip, take) <==> !(skip <= |u| < skip + take)
  {
    var s, t := u + [c] + v, u + [d] + v;
    assert s[|u|] == c && t[|u|] == d;
    if skip <= |u| < skip + take {
      assert Slice(s, skip, take)[|u| - skip] == c && Slice(t, skip, take)[|u| - skip] == d;
    }
  }

  /** A double sum may be taken in either order. */
  lemma {:induction false} SumSwap<A, B>(as_: seq<A>, bs: seq<B>, f: (A, B) -> Money)
    ensures Sum(as_, ColumnTotals(bs, f)) == Sum(bs, RowTotals(as_, f))
  {
    if as_ == [] {
      SumZero(bs, RowTotals(as_, f));
    } else {
      var tail := as_[1..];
      SumSwap(tail, bs, f);
      SumOfSums(bs, Column(as_[0], f), RowTotals(tail, f), RowTotals(as_, f));
    }
  }

  /** SQL `SUM` is null on no rows, and `n()` reads null as 0. */
  function SqlSum<T>(rows: seq<T>, f: T -> Money): Option<Money> {
    if rows == [] then None else Some(Sum(rows, f))
  }

  function N(v: Option<Money>): Money {
    match v
    case None => 0.0
    case Some(x) => x
  }
}
