/**
 * Similarity: comparing two kernel vectors.
 *
 * Kernels are vectors of counts indexed by word position. `dot` folds
 * `s + a[i] * b[i]` over `a`; reading past the end of `b` gives `undefined`,
 * which turns the sum into `NaN`. `jaccardSimilarity` adds up the smaller and
 * the sum of the two entries position by position and divides the shared
 * part by the rest. Cosine similarity is the quotient of one dot product by
 * the square root of the product of two others; only those integer terms are
 * modelled.
 */
module Similarity {
  import opened Wrappers

  /** The values a JavaScript division of two integers can produce. */
  datatype Number = Finite(value: real) | NaN | Infinity(positive: bool)

  /** `x / y` in JavaScript: `0 / 0` is `NaN`, any other `x / 0` an infinity
      of the sign of `x`. */
  function Divide(x: int, y: int): (r: Number)
    ensures r.Finite? <==> y != 0
    ensures r.Finite? ==> r.value * (y as real) == x as real
    ensures r == NaN <==> x == 0 && y == 0
    ensures r.Infinity? ==> r.positive == (x > 0)
  {
    if y != 0 then Finite(x as real / y as real)
    else if x == 0 then NaN
    else Infinity(x > 0)
  }

  predicate NonNegative(a: seq<int>)
  {
    forall i :: 0 <= i < |a| ==> a[i] >= 0
  }

  predicate AllZero(a: seq<int>)
  {
    forall i :: 0 <= i < |a| ==> a[i] == 0
  }

  // ---------------------------------------------------------------------
  // dot
  // ---------------------------------------------------------------------

  /** `s + a[i] * b[i]` folded over the first `n` positions, from the left. */
  function DotPrefix(a: seq<int>, b: seq<int>, n: nat): int
    requires n <= |a| && n <= |b|
    decreases n
  {
    if n == 0 then 0 else DotPrefix(a, b, n - 1) + a[n - 1] * b[n - 1]
  }

  /** `dot(a, b)`: `None` stands for `NaN`, which the fold produces as soon
      as it reads a position of `b` that does not exist. */
  function Dot(a: seq<int>, b: seq<int>): (r: Option<int>)
    ensures r.Some? <==> |a| <= |b|
  {
    if |a| <= |b| then Some(DotPrefix(a, b, |a|)) else None
  }

  lemma {:induction false} DotPrefixSymmetric(a: seq<int>, b: seq<int>, n: nat)
    requires n <= |a| && n <= |b|
    ensures DotPrefix(a, b, n) == DotPrefix(b, a, n)
    decreases n
  {
    if n > 0 {
      DotPrefixSymmetric(a, b, n - 1);
      assert a[n - 1] * b[n - 1] == b[n - 1] * a[n - 1];
    }
  }

  /** The dot product of two vectors of the same length does not depend on
      their order. */
  lemma DotSymmetric(a: seq<int>, b: seq<int>)
    requires |a| == |b|
    ensures Dot(a, b) == Dot(b, a)
  {
    DotPrefixSymmetric(a, b, |a|);
  }

  /** Positions of `b` beyond the length of `a` play no part. */
  lemma {:induction false} DotPrefixTail(a: seq<int>, b: seq<int>, c: seq<int>, n: nat)
    requires n <= |a| && n <= |b| && n <= |c|
    requires forall i :: 0 <= i < n ==> b[i] == c[i]
    ensures DotPrefix(a, b, n) == DotPrefix(a, c, n)
    decreases n
  {
    if n > 0 { DotPrefixTail(a, b, c, n - 1); }
  }

  /** `dot(a, b)` reads `b` only up to the length of `a`. */
  lemma DotIgnoresTail(a: seq<int>, b: seq<int>)
    requires |a| <= |b|
    ensures Dot(a, b) == Dot(a, b[..|a|])
  {
    DotPrefixTail(a, b, b[..|a|], |a|);
  }

  lemma {:induction false} DotPrefixSelf(a: seq<int>, n: nat)
    requires n <= |a|
    ensures DotPrefix(a, a, n) >= 0
    ensures DotPrefix(a, a, n) == 0 <==> forall i :: 0 <= i < n ==> a[i] == 0
    decreases n
  {
    if n > 0 {
      DotPrefixSelf(a, n - 1);
      var x := a[n - 1];
      assert x * x >= 0 by {
        if x < 0 { assert x * x == (-x) * (-x); }
      }
      assert x * x == 0 <==> x == 0 by {
        if x > 0 { assert x * x >= x; }
        if x < 0 { assert x * x == (-x) * (-x) >= -x; }
      }
    }
  }

  /** `dot(a, a)` is never negative, and is 0 exactly for the zero vector. */
  lemma DotSelf(a: seq<int>)
    ensures Dot(a, a).Some? && Dot(a, a).value >= 0
    ensures Dot(a, a).value == 0 <==> AllZero(a)
  {
    DotPrefixSelf(a, |a|);
  }

  /** The key inequality of the induction step, `2 s u v <= x v v + y u u`,
      from the identity of `CrossIdentity`. */
  lemma CrossTerm(s: int, x: int, y: int, u: int, v: int)
    requires x >= 0 && y >= 0 && s * s <= x * y
    ensures 2 * (s * (u * v)) <= x * (v * v) + y * (u * u)
  {
    var U := u * u;
    assert U >= 0 by { if u < 0 { assert U == (-u) * (-u); } }
    if x == 0 {
      assert s == 0;
      assert y * U >= 0;
    } else {
      var e := x * v - s * u;
      CrossIdentity(s, x, y, u, v);
      assert e * e >= 0 by { if e < 0 { assert e * e == (-e) * (-e); } }
      assert (x * y - s * s) * U >= 0;
    }
  }

  /** `x (x v v + y u u - 2 s u v) == (x v - s u)^2 + (x y - s s) u u`. */
  lemma CrossIdentity(s: int, x: int, y: int, u: int, v: int)
    ensures x * (x * (v * v) + y * (u * u) - 2 * (s * (u * v)))
      == (x * v - s * u) * (x * v - s * u) + (x * y - s * s) * (u * u)
  {
    var U, V, w := u * u, v * v, u * v;
    assert x * (x * V + y * U - 2 * (s * w)) == x * (x * V) + x * (y * U) - 2 * (x * (s * w));
    assert (x * v - s * u) * (x * v - s * u) == (x * v) * (x * v) - 2 * ((x * v) * (s * u)) + (s * u) * (s * u);
    assert (x * v) * (x * v) == (x * x) * V;
    assert (s * u) * (s * u) == (s * s) * U;
    assert (x * v) * (s * u) == (x * s) * w;
    assert x * (x * V) == (x * x) * V;
    assert x * (y * U) == (x * y) * U;
    assert x * (s * w) == (x * s) * w;
    assert (x * y - s * s) * U == (x * y) * U - (s * s) * U;
  }

  /** One step of the Cauchy-Schwarz induction: if `s * s <= x * y` with
      `x` and `y` not negative, the same holds after adding `u * v` to `s`,
      `u * u` to `x` and `v * v` to `y`. */
  lemma CauchySchwarzStep(s: int, x: int, y: int, u: int, v: int)
    requires x >= 0 && y >= 0 && s * s <= x * y
    ensures (s + u * v) * (s + u * v) <= (x + u * u) * (y + v * v)
  {
    var U, V, w := u * u, v * v, u * v;
    CrossTerm(s, x, y, u, v);
    assert w * w == U * V;
    assert (s + w) * (s + w) == s * s + 2 * (s * w) + w * w;
    assert (x + U) * (y + V) == x * y + x * V + y * U + U * V;
  }

  lemma {:induction false} CauchySchwarzPrefix(a: seq<int>, b: seq<int>, n: nat)
    requires n <= |a| && n <= |b|
    ensures DotPrefix(a, b, n) * DotPrefix(a, b, n) <= DotPrefix(a, a, n) * DotPrefix(b, b, n)
    decreases n
  {
    if n > 0 {
      CauchySchwarzPrefix(a, b, n - 1);
      DotPrefixSelf(a, n - 1);
      DotPrefixSelf(b, n - 1);
      CauchySchwarzStep(DotPrefix(a, b, n - 1), DotPrefix(a, a, n - 1), DotPrefix(b, b, n - 1), a[n - 1], b[n - 1]);
    }
  }

  // ---------------------------------------------------------------------
  // cosineSimilarity, up to its integer terms
  // ---------------------------------------------------------------------

  /** `dot(a, b)` and `dot(a, a) * dot(b, b)`: the quotient of the first by
      the square root of the second is `cosineSimilarity(a, b)`. `None` when
      `dot(a, b)` is `NaN`. */
  function CosineTerms(a: seq<int>, b: seq<int>): (r: Option<(int, int)>)
    ensures r.Some? <==> |a| <= |b|
  {
    match Dot(a, b)
    case None => None
    case Some(ab) =>
      DotSelf(a);
      DotSelf(b);
      Some((ab, Dot(a, a).value * Dot(b, b).value))
  }

  /** For vectors of the same length the cosine is defined exactly when
      neither is the zero vector (otherwise `0 / 0`), it lies between -1 and
      1 (the squared numerator is at most the radicand), and it does not
      depend on the order of the vectors. */
  lemma CosineBounded(a: seq<int>, b: seq<int>)
    requires |a| == |b|
    ensures CosineTerms(a, b).Some?
    ensures var (num, rad) := CosineTerms(a, b).value;
      && rad >= 0
      && num * num <= rad
      && (rad == 0 <==> AllZero(a) || AllZero(b))
    ensures CosineTerms(a, b) == CosineTerms(b, a)
  {
    DotSelf(a);
    DotSelf(b);
    CauchySchwarzPrefix(a, b, |a|);
    DotSymmetric(a, b);
    var x, y := Dot(a, a).value, Dot(b, b).value;
    assert x * y == y * x;
    assert x * y == 0 <==> x == 0 || y == 0 by {
      if x > 0 && y > 0 { assert x * y >= y; }
    }
  }

  /** A vector has cosine 1 with itself: the radicand is the square of the
      numerator. */
  lemma CosineSelf(a: seq<int>)
    ensures CosineTerms(a, a).Some?
    ensures var (num, rad) := CosineTerms(a, a).value; num >= 0 && rad == num * num
  {
    DotSelf(a);
  }

  // ---------------------------------------------------------------------
  // jaccardSimilarity
  // ---------------------------------------------------------------------

  /** `Math.min` */
  function Min(x: int, y: int): int
  {
    if x <= y then x else y
  }

  function Max(x: int, y: int): int
  {
    if x <= y then y else x
  }

  /** The shared part of the first `n` positions: the smaller entry at each. */
  function SumMin(a: seq<int>, b: seq<int>, n: nat): int
    requires n <= |a| && n <= |b|
    decreases n
  {
    if n == 0 then 0 else SumMin(a, b, n - 1) + Min(a[n - 1], b[n - 1])
  }

  /** The union of the first `n` positions: the larger entry at each. */
  function SumMax(a: seq<int>, b: seq<int>, n: nat): int
    requires n <= |a| && n <= |b|
    decreases n
  {
    if n == 0 then 0 else SumMax(a, b, n - 1) + Max(a[n - 1], b[n - 1])
  }

  /** The Jaccard similarity of two count vectors: the sum of the positionwise
      minima over the sum of the positionwise maxima. When `b` is shorter than
      `a` the source reads `undefined` and the result is `NaN`. */
  function Jaccard(a: seq<int>, b: seq<int>): (r: Number)
    ensures |b| < |a| ==> r == NaN
  {
    if |b| < |a| then NaN else Divide(SumMin(a, b, |a|), SumMax(a, b, |a|))
  }

  /** `jaccardSimilarity(a, b)`. The sums `sharedCount` and `totalCount` are
      built position by position; once `b[i]` is `undefined` both are `NaN`
      and stay so, and so is the quotient. */
  method JaccardSimilarity(a: seq<int>, b: seq<int>) returns (r: Number)
    ensures r == Jaccard(a, b)
  {
    var sharedCount := 0;
    var totalCount := 0;
    var i := 0;
    while i < |a|
      invariant 0 <= i <= |a|
      invariant i <= |b|
      invariant sharedCount == SumMin(a, b, i)
      invariant totalCount - sharedCount == SumMax(a, b, i)
    {
      if i >= |b| {
        return NaN;
      }
      sharedCount := sharedCount + Min(a[i], b[i]);
      totalCount := totalCount + a[i] + b[i];
      i := i + 1;
    }
    r := Divide(sharedCount, totalCount - sharedCount);
  }

  lemma {:induction false} SumMinMaxSymmetric(a: seq<int>, b: seq<int>, n: nat)
    requires n <= |a| && n <= |b|
    ensures SumMin(a, b, n) == SumMin(b, a, n) && SumMax(a, b, n) == SumMax(b, a, n)
    decreases n
  {
    if n > 0 { SumMinMaxSymmetric(a, b, n - 1); }
  }

  /** For vectors of the same length, Jaccard similarity does not depend on
      their order. */
  lemma JaccardSymmetric(a: seq<int>, b: seq<int>)
    requires |a| == |b|
    ensures Jaccard(a, b) == Jaccard(b, a)
  {
    SumMinMaxSymmetric(a, b, |a|);
  }

  lemma {:induction false} SumMinMaxBounds(a: seq<int>, b: seq<int>, n: nat)
    requires n <= |a| && n <= |b|
    requires NonNegative(a) && NonNegative(b)
    ensures 0 <= SumMin(a, b, n) <= SumMax(a, b, n)
    ensures SumMax(a, b, n) == 0 <==> forall i :: 0 <= i < n ==> a[i] == 0 && b[i] == 0
    ensures SumMin(a, b, n) == SumMax(a, b, n) <==> forall i :: 0 <= i < n ==> a[i] == b[i]
    decreases n
  {
    if n > 0 { SumMinMaxBounds(a, b, n - 1); }
  }

  lemma RatioBounds(x: int, y: int)
    requires 0 <= x <= y && y > 0
    ensures 0.0 <= x as real / y as real <= 1.0
    ensures x as real / y as real == 1.0 <==> x == y
  {
    var q := x as real / y as real;
    assert q * (y as real) == x as real;
  }

  /** For count vectors of the same length, Jaccard similarity is `NaN`
      exactly when both are zero vectors, never infinite, and otherwise a
      number between 0 and 1 that is 1 exactly when the vectors are equal. */
  lemma JaccardRange(a: seq<int>, b: seq<int>)
    requires |a| == |b| && NonNegative(a) && NonNegative(b)
    ensures Jaccard(a, b) == NaN <==> AllZero(a) && AllZero(b)
    ensures !Jaccard(a, b).Infinity?
    ensures Jaccard(a, b).Finite? ==> 0.0 <= Jaccard(a, b).value <= 1.0
    ensures Jaccard(a, b).Finite? ==> (Jaccard(a, b).value == 1.0 <==> a == b)
  {
    SumMinMaxBounds(a, b, |a|);
    var x, y := SumMin(a, b, |a|), SumMax(a, b, |a|);
    if y > 0 {
      RatioBounds(x, y);
    }
    if x == y {
      assert a == b;
    }
  }

  /** A non-zero count vector has Jaccard similarity 1 with itself. */
  lemma JaccardSelf(a: seq<int>)
    requires NonNegative(a) && !AllZero(a)
    ensures Jaccard(a, a) == Finite(1.0)
  {
    JaccardRange(a, a);
  }
}
