/** Sequence arithmetic shared by the backtest: an Option type standing for
    pandas' "not a number" marker, sums and products over real sequences,
    and the facts about them that the pipeline's proofs use. */
module Series {

  /** A cell of a numeric column: `None` is the missing value (NaN) that
      pandas puts where a window or a previous row does not exist yet. */
  datatype Option<+T> = None | Some(value: T)

  /** Sum of a sequence, peeling off the last element. */
  function Sum(s: seq<real>): real
  {
    if |s| == 0 then 0.0 else Sum(s[..|s| - 1]) + s[|s| - 1]
  }

  /** Product of a sequence, peeling off the last element; 1 when empty. */
  function Product(s: seq<real>): real
  {
    if |s| == 0 then 1.0 else Product(s[..|s| - 1]) * s[|s| - 1]
  }

  lemma {:induction false} SumConcat(a: seq<real>, b: seq<real>)
    ensures Sum(a + b) == Sum(a) + Sum(b)
  {
    if |b| == 0 {
      assert a + b == a;
    } else {
      assert (a + b)[..|a + b| - 1] == a + b[..|b| - 1];
      SumConcat(a, b[..|b| - 1]);
    }
  }

  lemma {:induction false} SumDropFirst(s: seq<real>)
    requires |s| > 0
    ensures Sum(s) == s[0] + Sum(s[1..])
  {
    if |s| > 1 {
      SumDropFirst(s[..|s| - 1]);
      assert s[..|s| - 1][1..] == s[1..][..|s| - 2];
    }
  }

  /** A window of `n` copies of `c` sums to `n * c`. */
  lemma {:induction false} SumConstant(s: seq<real>, c: real)
    requires forall i :: 0 <= i < |s| ==> s[i] == c
    ensures Sum(s) == |s| as real * c
  {
    if |s| > 0 {
      SumConstant(s[..|s| - 1], c);
    }
  }

  /** Every element strictly below `m` puts the sum strictly below `|s| * m`. */
  lemma {:induction false} SumBelow(s: seq<real>, m: real)
    requires |s| > 0
    requires forall i :: 0 <= i < |s| ==> s[i] < m
    ensures Sum(s) < |s| as real * m
  {
    if |s| > 1 {
      SumBelow(s[..|s| - 1], m);
    }
  }

  /** Every element at least `m` puts the sum at least at `|s| * m`. */
  lemma {:induction false} SumAtLeast(s: seq<real>, m: real)
    requires forall i :: 0 <= i < |s| ==> s[i] >= m
    ensures Sum(s) >= |s| as real * m
  {
    if |s| > 0 {
      SumAtLeast(s[..|s| - 1], m);
    }
  }

  /** A product of factors that are all at least 1 is at least 1. */
  lemma {:induction false} ProductAtLeastOne(s: seq<real>)
    requires forall i :: 0 <= i < |s| ==> s[i] >= 1.0
    ensures Product(s) >= 1.0
  {
    if |s| > 0 {
      var p := Product(s[..|s| - 1]);
      var x := s[|s| - 1];
      ProductAtLeastOne(s[..|s| - 1]);
      assert p * x - x == (p - 1.0) * x;
    }
  }

  /** Factors all at least 1 with a last factor above 1 give a product above 1. */
  lemma ProductAboveOne(s: seq<real>)
    requires |s| > 0
    requires forall i :: 0 <= i < |s| ==> s[i] >= 1.0
    requires s[|s| - 1] > 1.0
    ensures Product(s) > 1.0
  {
    var p := Product(s[..|s| - 1]);
    var x := s[|s| - 1];
    ProductAtLeastOne(s[..|s| - 1]);
    assert p * x - x == (p - 1.0) * x;
  }

  /** A nonzero factor can be cancelled. */
  lemma MulCancel(x: real, y: real, a: real)
    requires a != 0.0 && x * a == y * a
    ensures x == y
  {
    assert (x - y) * a == 0.0;
  }

  /** Comparing two means is comparing the cross-multiplied sums, so a
      comparison of moving averages can be decided without dividing. */
  lemma MeanComparison(sumA: real, a: real, sumB: real, b: real)
    requires a > 0.0 && b > 0.0
    ensures sumA / a > sumB / b <==> sumA * b > sumB * a
    ensures sumA / a < sumB / b <==> sumA * b < sumB * a
  {
    var p, q := sumA / a, sumB / b;
    assert sumA == p * a;
    assert sumB == q * b;
    assert sumA * b - sumB * a == (p - q) * (a * b);
    assert a * b > 0.0;
  }
}
