/** Sums and counts over sequences: LINQ's `Sum` and `Count` over C# lists. */
module Seqs {

  /** `s.Sum(f)`, exact. */
  function Sum<T>(s: seq<T>, f: T -> real): real
    decreases |s|
  {
    if |s| == 0 then 0.0 else f(s[0]) + Sum(s[1..], f)
  }

  lemma {:induction false} SumAppend<T>(s: seq<T>, t: seq<T>, f: T -> real)
    ensures Sum(s + t, f) == Sum(s, f) + Sum(t, f)
    decreases |s|
  {
    if |s| == 0 {
      assert s + t == t;
    } else {
      assert (s + t)[1..] == s[1..] + t;
      SumAppend(s[1..], t, f);
    }
  }

  lemma SumSingle<T>(x: T, f: T -> real)
    ensures Sum([x], f) == f(x)
  {
    assert [x][1..] == [];
  }

  /** Sums of pointwise-equal selectors agree. */
  lemma {:induction false} SumPointwise<T>(s: seq<T>, f: T -> real, g: T -> real)
    requires forall i | 0 <= i < |s| :: f(s[i]) == g(s[i])
    ensures Sum(s, f) == Sum(s, g)
    decreases |s|
  {
    if |s| > 0 {
      SumPointwise(s[1..], f, g);
    }
  }

  /** Summation is linear: if `h = f - g + k` pointwise, so are the sums. */
  lemma {:induction false} SumLinear<T>(s: seq<T>, f: T -> real, g: T -> real, k: T -> real, h: T -> real)
    requires forall i | 0 <= i < |s| :: h(s[i]) == f(s[i]) - g(s[i]) + k(s[i])
    ensures Sum(s, h) == Sum(s, f) - Sum(s, g) + Sum(s, k)
    decreases |s|
  {
    if |s| > 0 {
      SumLinear(s[1..], f, g, k, h);
    }
  }

  /** A sum of zero terms is zero. */
  lemma {:induction false} SumZero<T>(s: seq<T>, f: T -> real)
    requires forall i | 0 <= i < |s| :: f(s[i]) == 0.0
    ensures Sum(s, f) == 0.0
    decreases |s|
  {
    if |s| > 0 {
      SumZero(s[1..], f);
    }
  }

  /** A sum of non-negative terms is non-negative. */
  lemma {:induction false} SumNonNegative<T>(s: seq<T>, f: T -> real)
    requires forall i | 0 <= i < |s| :: f(s[i]) >= 0.0
    ensures Sum(s, f) >= 0.0
    decreases |s|
  {
    if |s| > 0 {
      SumNonNegative(s[1..], f);
    }
  }

  /** Replacing one element changes the sum by the difference of its terms. */
  lemma {:induction false} SumUpdate<T>(s: seq<T>, k: nat, x: T, f: T -> real)
    requires k < |s|
    ensures Sum(s[k := x], f) == Sum(s, f) - f(s[k]) + f(x)
    decreases |s|
  {
    if k > 0 {
      assert s[k := x][1..] == s[1..][k - 1 := x];
      SumUpdate(s[1..], k - 1, x, f);
    } else {
      assert s[k := x][1..] == s[1..];
    }
  }

  /** Number of elements satisfying `p`. */
  function Count<T>(s: seq<T>, p: T -> bool): nat
    decreases |s|
  {
    if |s| == 0 then 0 else (if p(s[0]) then 1 else 0) + Count(s[1..], p)
  }

  lemma {:induction false} CountAppend<T>(s: seq<T>, t: seq<T>, p: T -> bool)
    ensures Count(s + t, p) == Count(s, p) + Count(t, p)
    decreases |s|
  {
    if |s| == 0 {
      assert s + t == t;
    } else {
      assert (s + t)[1..] == s[1..] + t;
      CountAppend(s[1..], t, p);
    }
  }
}
