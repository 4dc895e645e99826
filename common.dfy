/** Shared value types and folds over sequences used by every component. */
module Common {

  datatype Option<+T> = None | Some(value: T)

  datatype Result<+T, +E> = Ok(value: T) | Err(error: E)

  /** Sum of `f` over `s`, folded from the right end so that appending is one step. */
  function SumOf<T>(s: seq<T>, f: T -> real): real
  {
    if |s| == 0 then 0.0 else SumOf(s[..|s| - 1], f) + f(s[|s| - 1])
  }

  /** Number of elements of `s` satisfying `p`, folded the same way. */
  function CountOf<T>(s: seq<T>, p: T -> bool): nat
  {
    if |s| == 0 then 0 else CountOf(s[..|s| - 1], p) + (if p(s[|s| - 1]) then 1 else 0)
  }

  /** The elements of `s` satisfying `p`, in order. */
  function Filter<T>(s: seq<T>, p: T -> bool): seq<T>
  {
    if |s| == 0 then [] else Filter(s[..|s| - 1], p) + (if p(s[|s| - 1]) then [s[|s| - 1]] else [])
  }

  lemma SumOfAppend<T>(s: seq<T>, x: T, f: T -> real)
    ensures SumOf(s + [x], f) == SumOf(s, f) + f(x)
  {
    assert (s + [x])[..|s|] == s;
  }

  lemma CountOfAppend<T>(s: seq<T>, x: T, p: T -> bool)
    ensures CountOf(s + [x], p) == CountOf(s, p) + (if p(x) then 1 else 0)
  {
    assert (s + [x])[..|s|] == s;
  }

  lemma FilterAppend<T>(s: seq<T>, x: T, p: T -> bool)
    ensures Filter(s + [x], p) == Filter(s, p) + (if p(x) then [x] else [])
  {
    assert (s + [x])[..|s|] == s;
  }

  lemma {:induction false} SumOfConcat<T>(s: seq<T>, t: seq<T>, f: T -> real)
    ensures SumOf(s + t, f) == SumOf(s, f) + SumOf(t, f)
    decreases |t|
  {
    if |t| == 0 {
      assert s + t == s;
    } else {
      var t' := t[..|t| - 1];
      assert s + t == (s + t') + [t[|t| - 1]];
      assert t == t' + [t[|t| - 1]];
      SumOfConcat(s, t', f);
      SumOfAppend(s + t', t[|t| - 1], f);
      SumOfAppend(t', t[|t| - 1], f);
    }
  }

  lemma {:induction false} CountOfConcat<T>(s: seq<T>, t: seq<T>, p: T -> bool)
    ensures CountOf(s + t, p) == CountOf(s, p) + CountOf(t, p)
    decreases |t|
  {
    if |t| == 0 {
      assert s + t == s;
    } else {
      var t' := t[..|t| - 1];
      assert s + t == (s + t') + [t[|t| - 1]];
      assert t == t' + [t[|t| - 1]];
      CountOfConcat(s, t', p);
      CountOfAppend(s + t', t[|t| - 1], p);
      CountOfAppend(t', t[|t| - 1], p);
    }
  }

  /** A count never exceeds the length of the sequence. */
  lemma {:induction false} CountOfBound<T>(s: seq<T>, p: T -> bool)
    ensures CountOf(s, p) <= |s|
  {
    if |s| > 0 {
      CountOfBound(s[..|s| - 1], p);
    }
  }

  /** Filtering keeps exactly the counted elements. */
  lemma {:induction false} FilterLength<T>(s: seq<T>, p: T -> bool)
    ensures |Filter(s, p)| == CountOf(s, p)
  {
    if |s| > 0 {
      FilterLength(s[..|s| - 1], p);
    }
  }

  lemma {:induction false} FilterMembers<T>(s: seq<T>, p: T -> bool)
    ensures forall x :: x in Filter(s, p) <==> x in s && p(x)
  {
    if |s| > 0 {
      FilterMembers(s[..|s| - 1], p);
      assert s == s[..|s| - 1] + [s[|s| - 1]];
    }
  }

  /** A pointwise upper bound on `f` bounds the sum. */
  lemma {:induction false} SumOfUpper<T>(s: seq<T>, f: T -> real, hi: real)
    requires forall x :: x in s ==> f(x) <= hi
    ensures SumOf(s, f) <= |s| as real * hi
  {
    if |s| > 0 {
      assert forall x :: x in s[..|s| - 1] ==> x in s;
      SumOfUpper(s[..|s| - 1], f, hi);
      assert s[|s| - 1] in s;
    }
  }

  /** A pointwise lower bound on `f` bounds the sum. */
  lemma {:induction false} SumOfLower<T>(s: seq<T>, f: T -> real, lo: real)
    requires forall x :: x in s ==> lo <= f(x)
    ensures |s| as real * lo <= SumOf(s, f)
  {
    if |s| > 0 {
      assert forall x :: x in s[..|s| - 1] ==> x in s;
      SumOfLower(s[..|s| - 1], f, lo);
      assert s[|s| - 1] in s;
    }
  }

  /** When every term is `hi`, the sum is `|s| * hi`. */
  lemma {:induction false} SumOfConstant<T>(s: seq<T>, f: T -> real, c: real)
    requires forall x :: x in s ==> f(x) == c
    ensures SumOf(s, f) == |s| as real * c
  {
    if |s| > 0 {
      var s' := s[..|s| - 1];
      assert forall y :: y in s' ==> y in s;
      assert s[|s| - 1] in s;
      SumOfConstant(s', f, c);
      assert |s| as real * c == |s'| as real * c + c;
    }
  }

  /** Under an upper bound `hi`, the sum reaches `|s| * hi` only when every term is `hi`. */
  lemma {:induction false} SumOfTop<T>(s: seq<T>, f: T -> real, hi: real)
    requires forall x :: x in s ==> f(x) <= hi
    requires SumOf(s, f) == |s| as real * hi
    ensures forall x :: x in s ==> f(x) == hi
  {
    if |s| > 0 {
      var s', x := s[..|s| - 1], s[|s| - 1];
      assert forall y :: y in s' ==> y in s;
      assert x in s;
      SumOfUpper(s', f, hi);
      assert |s| as real * hi == |s'| as real * hi + hi;
      assert SumOf(s, f) == SumOf(s', f) + f(x);
      assert SumOf(s', f) == |s'| as real * hi;
      SumOfTop(s', f, hi);
      forall y | y in s
        ensures f(y) == hi
      {
        var i :| 0 <= i < |s| && s[i] == y;
        if i < |s'| {
          assert s'[i] == y;
        }
      }
    }
  }

  /** Under a lower bound `lo`, the sum is down at `|s| * lo` only when every term is `lo`. */
  lemma {:induction false} SumOfBottom<T>(s: seq<T>, f: T -> real, lo: real)
    requires forall x :: x in s ==> lo <= f(x)
    requires SumOf(s, f) == |s| as real * lo
    ensures forall x :: x in s ==> f(x) == lo
  {
    if |s| > 0 {
      var s', x := s[..|s| - 1], s[|s| - 1];
      assert forall y :: y in s' ==> y in s;
      assert x in s;
      SumOfLower(s', f, lo);
      assert |s| as real * lo == |s'| as real * lo + lo;
      assert SumOf(s, f) == SumOf(s', f) + f(x);
      assert SumOf(s', f) == |s'| as real * lo;
      SumOfBottom(s', f, lo);
      forall y | y in s
        ensures f(y) == lo
      {
        var i :| 0 <= i < |s| && s[i] == y;
        if i < |s'| {
          assert s'[i] == y;
        }
      }
    }
  }

  /** Every element is counted exactly when the count reaches the length. */
  lemma {:induction false} CountOfAll<T>(s: seq<T>, p: T -> bool)
    ensures CountOf(s, p) == |s| <==> forall x :: x in s ==> p(x)
  {
    if |s| > 0 {
      var s', x := s[..|s| - 1], s[|s| - 1];
      assert s == s' + [x];
      CountOfAll(s', p);
      CountOfBound(s', p);
      assert forall y :: y in s' ==> y in s;
      assert x in s;
      if CountOf(s, p) == |s| {
        forall y | y in s ensures p(y) {
          if y != x {
            assert y in s';
          }
        }
      }
    }
  }

  /** Sums add pointwise. */
  lemma {:induction false} SumOfAdd<T>(s: seq<T>, f: T -> real, g: T -> real, h: T -> real)
    requires forall x :: h(x) == f(x) + g(x)
    ensures SumOf(s, h) == SumOf(s, f) + SumOf(s, g)
  {
    if |s| > 0 {
      SumOfAdd(s[..|s| - 1], f, g, h);
    }
  }

  /** A constant factor moves out of a sum. */
  lemma {:induction false} SumOfScale<T>(s: seq<T>, f: T -> real, c: real, g: T -> real)
    requires forall x :: g(x) == c * f(x)
    ensures SumOf(s, g) == c * SumOf(s, f)
  {
    if |s| > 0 {
      SumOfScale(s[..|s| - 1], f, c, g);
    }
  }

  /** A pointwise smaller function has a smaller sum. */
  lemma {:induction false} SumOfMonotone<T>(s: seq<T>, f: T -> real, g: T -> real)
    requires forall x :: x in s ==> f(x) <= g(x)
    ensures SumOf(s, f) <= SumOf(s, g)
  {
    if |s| > 0 {
      assert forall y :: y in s[..|s| - 1] ==> y in s;
      assert s[|s| - 1] in s;
      SumOfMonotone(s[..|s| - 1], f, g);
    }
  }

  /** Sums of pointwise-equal functions agree. */
  lemma {:induction false} SumOfCongruent<T>(s: seq<T>, f: T -> real, g: T -> real)
    requires forall x :: x in s ==> f(x) == g(x)
    ensures SumOf(s, f) == SumOf(s, g)
  {
    if |s| > 0 {
      assert forall y :: y in s[..|s| - 1] ==> y in s;
      assert s[|s| - 1] in s;
      SumOfCongruent(s[..|s| - 1], f, g);
    }
  }

  /** Summing a function that is zero outside `p` equals summing over the filtered elements. */
  lemma {:induction false} SumOfFilter<T>(s: seq<T>, f: T -> real, p: T -> bool)
    requires forall x :: x in s && !p(x) ==> f(x) == 0.0
    ensures SumOf(Filter(s, p), f) == SumOf(s, f)
  {
    if |s| > 0 {
      var s' := s[..|s| - 1];
      var x := s[|s| - 1];
      assert forall y :: y in s' ==> y in s;
      SumOfFilter(s', f, p);
      assert x in s;
      if p(x) {
        SumOfAppend(Filter(s', p), x, f);
      } else {
        assert Filter(s, p) == Filter(s', p) + [];
        assert Filter(s', p) + [] == Filter(s', p);
      }
    }
  }

  function Max(a: int, b: int): int { if a >= b then a else b }
}
