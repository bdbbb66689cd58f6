// Cosine similarity and weighted average of embedding vectors
// (app/recommender/vector_math.py). Square roots are supplied by the caller as a
// function that is a square root on the non-negative reals.
module VectorMath {
  type Vector = seq<real>

  ghost predicate IsSqrt(sqrt: real -> real)
  {
    forall x: real :: x >= 0.0 ==> sqrt(x) >= 0.0 && sqrt(x) * sqrt(x) == x
  }

  // Sum of a[i] * b[i] over the common indices, accumulated from the front.
  function Dot(a: Vector, b: Vector): real
    requires |a| == |b|
  {
    if |a| == 0 then 0.0 else Dot(a[..|a| - 1], b[..|b| - 1]) + a[|a| - 1] * b[|b| - 1]
  }

  function SumSq(a: Vector): real
  {
    Dot(a, a)
  }

  // cosine_similarity: 0.0 for an empty vector, vectors of different lengths or a
  // zero-norm vector; otherwise dot / (|a| * |b|).
  function Cosine(a: Vector, b: Vector, sqrt: real -> real): real
    requires IsSqrt(sqrt)
  {
    if |a| == 0 || |b| == 0 || |a| != |b| then 0.0
    else if SumSq(a) <= 0.0 || SumSq(b) <= 0.0 then 0.0
    else
      SqrtPositive(sqrt, SumSq(a));
      SqrtPositive(sqrt, SumSq(b));
      Dot(a, b) / (sqrt(SumSq(a)) * sqrt(SumSq(b)))
  }

  lemma SqrtPositive(sqrt: real -> real, x: real)
    requires IsSqrt(sqrt) && x > 0.0
    ensures sqrt(x) > 0.0
  {
    assert sqrt(x) * sqrt(x) == x;
  }

  // The loop of cosine_similarity: one pass accumulating dot, na and nb.
  method CosineSimilarity(a: Vector, b: Vector, sqrt: real -> real) returns (r: real)
    requires IsSqrt(sqrt)
    ensures r == Cosine(a, b, sqrt)
    ensures (|a| == 0 || |b| == 0 || |a| != |b|) ==> r == 0.0
  {
    if |a| == 0 || |b| == 0 || |a| != |b| {
      return 0.0;
    }
    var dot, na, nb := 0.0, 0.0, 0.0;
    var i := 0;
    while i < |a|
      invariant 0 <= i <= |a|
      invariant dot == Dot(a[..i], b[..i])
      invariant na == SumSq(a[..i]) && nb == SumSq(b[..i])
    {
      assert a[..i + 1][..i] == a[..i] && b[..i + 1][..i] == b[..i];
      dot := dot + a[i] * b[i];
      na := na + a[i] * a[i];
      nb := nb + b[i] * b[i];
      i := i + 1;
    }
    assert a[..i] == a && b[..i] == b;
    if na <= 0.0 || nb <= 0.0 {
      return 0.0;
    }
    SqrtPositive(sqrt, na);
    SqrtPositive(sqrt, nb);
    r := dot / (sqrt(na) * sqrt(nb));
  }

  lemma {:induction false} DotSymmetric(a: Vector, b: Vector)
    requires |a| == |b|
    ensures Dot(a, b) == Dot(b, a)
  {
    if |a| > 0 {
      DotSymmetric(a[..|a| - 1], b[..|b| - 1]);
    }
  }

  lemma {:induction false} SumSqNonNegative(a: Vector)
    ensures SumSq(a) >= 0.0
  {
    if |a| > 0 {
      SumSqNonNegative(a[..|a| - 1]);
    }
  }

  // The squared norm is positive exactly when some component is non-zero.
  lemma {:induction false} SumSqPositive(a: Vector)
    ensures SumSq(a) > 0.0 <==> exists i :: 0 <= i < |a| && a[i] != 0.0
  {
    if |a| > 0 {
      var p, x := a[..|a| - 1], a[|a| - 1];
      SumSqPositive(p);
      SumSqNonNegative(p);
      SquareNonNegative(x);
      assert SumSq(a) == SumSq(p) + x * x;
      assert forall i :: 0 <= i < |p| ==> p[i] == a[i];
      if x != 0.0 {
        SquarePositive(x);
        assert a[|a| - 1] != 0.0;
      } else {
        assert SumSq(a) == SumSq(p);
        assert (exists i :: 0 <= i < |a| && a[i] != 0.0) <==> (exists i :: 0 <= i < |p| && p[i] != 0.0);
      }
    }
  }

  lemma MulNonNegative(u: real, v: real)
    requires u >= 0.0 && v >= 0.0
    ensures u * v >= 0.0
  {
  }

  // Facts about squares are stated on Sq, whose body keeps the two factors
  // syntactically apart; callers then equate Sq(t) with t * t. The solver reasons
  // poorly about a bare comparison of `t * t` with zero.
  function Same(x: real): real
  {
    x
  }

  function Sq(x: real): real
  {
    x * Same(x)
  }

  lemma MulPositive(u: real, v: real)
    requires u > 0.0 && v > 0.0
    ensures u * v > 0.0
  {
  }

  lemma SquareNonNegative(t: real)
    ensures Sq(t) >= 0.0 && Sq(t) == t * t
  {
    if t < 0.0 {
      MulNonNegative(-t, -Same(t));
    } else {
      MulNonNegative(t, Same(t));
    }
  }

  lemma SquarePositive(t: real)
    requires t != 0.0
    ensures Sq(t) > 0.0 && Sq(t) == t * t
  {
    if t > 0.0 {
      MulPositive(t, Same(t));
    } else {
      MulPositive(-t, -Same(t));
      assert (-t) * (-Same(t)) == t * Same(t);
    }
  }

  lemma CancelPositive(A: real, E: real)
    requires A > 0.0 && A * E >= 0.0
    ensures E >= 0.0
  {
  }

  lemma CompletedSquare(A: real, B: real, D: real, x: real, y: real)
    ensures A * (A * y * y + B * x * x - 2.0 * D * x * y)
         == (A * y - D * x) * (A * y - D * x) + (A * B - D * D) * (x * x)
  {
  }

  // 2·D·x·y <= A·y² + B·x² whenever D² <= A·B (a step of Cauchy–Schwarz).
  lemma CrossTermBound(A: real, B: real, D: real, x: real, y: real)
    requires A >= 0.0 && B >= 0.0 && D * D <= A * B
    requires A == 0.0 ==> D == 0.0
    ensures 2.0 * D * x * y <= A * y * y + B * x * x
  {
    SquareNonNegative(x);
    SquareNonNegative(y);
    MulNonNegative(B, x * x);
    MulNonNegative(A, y * y);
    if A != 0.0 {
      CompletedSquare(A, B, D, x, y);
      SquareNonNegative(A * y - D * x);
      MulNonNegative(A * B - D * D, x * x);
      CancelPositive(A, A * y * y + B * x * x - 2.0 * D * x * y);
    }
  }

  lemma Expand(A: real, B: real, D: real, x: real, y: real)
    ensures (D + x * y) * (D + x * y) == D * D + 2.0 * D * x * y + (x * x) * (y * y)
    ensures (A + x * x) * (B + y * y) == A * B + A * y * y + B * x * x + (x * x) * (y * y)
  {
  }

  lemma StepBound(A: real, B: real, D: real, x: real, y: real)
    requires D * D <= A * B
    requires 2.0 * D * x * y <= A * y * y + B * x * x
    requires (D + x * y) * (D + x * y) == D * D + 2.0 * D * x * y + (x * x) * (y * y)
    requires (A + x * x) * (B + y * y) == A * B + A * y * y + B * x * x + (x * x) * (y * y)
    ensures (D + x * y) * (D + x * y) <= (A + x * x) * (B + y * y)
  {
  }

  lemma SameProducts(d: real, d': real, s: real, s': real, t: real, t': real)
    requires d == d' && s == s' && t == t' && d' * d' <= s' * t'
    ensures d * d <= s * t
  {
  }

  // A vector with a zero squared norm is orthogonal to everything.
  lemma ZeroNormDot(a: Vector, b: Vector)
    requires |a| == |b| && SumSq(a) == 0.0
    ensures Dot(a, b) == 0.0
  {
    SumSqPositive(a);
    ZeroDot(a, b);
  }

  lemma {:induction false} ZeroDot(a: Vector, b: Vector)
    requires |a| == |b| && forall i :: 0 <= i < |a| ==> a[i] == 0.0
    ensures Dot(a, b) == 0.0
  {
    if |a| > 0 {
      ZeroDot(a[..|a| - 1], b[..|b| - 1]);
    }
  }

  lemma {:induction false} CauchySchwarz(a: Vector, b: Vector)
    requires |a| == |b|
    ensures Dot(a, b) * Dot(a, b) <= SumSq(a) * SumSq(b)
  {
    if |a| > 0 {
      var a', b' := a[..|a| - 1], b[..|b| - 1];
      var x, y := a[|a| - 1], b[|b| - 1];
      CauchySchwarz(a', b');
      SumSqNonNegative(a');
      SumSqNonNegative(b');
      var D, A, B := Dot(a', b'), SumSq(a'), SumSq(b');
      if A == 0.0 {
        ZeroNormDot(a', b');
      }
      CrossTermBound(A, B, D, x, y);
      Expand(A, B, D, x, y);
      StepBound(A, B, D, x, y);
      assert Dot(a, b) == D + x * y;
      assert SumSq(a) == A + x * x && SumSq(b) == B + y * y;
      SameProducts(Dot(a, b), D + x * y, SumSq(a), A + x * x, SumSq(b), B + y * y);
    }
  }

  lemma NonNegFactor(x: real, y: real)
    requires y > 0.0 && x * y >= 0.0
    ensures x >= 0.0
  {
  }

  lemma QuotientBound(d: real, s: real)
    requires s > 0.0 && d * d <= s * s
    ensures -1.0 <= d / s <= 1.0
  {
    if d >= 0.0 {
      assert (s - d) * (s + d) == s * s - d * d;
      NonNegFactor(s - d, s + d);
    } else {
      assert (s + d) * (s - d) == s * s - d * d;
      NonNegFactor(s + d, s - d);
    }
    var q := d / s;
    assert q * s == d;
    assert (1.0 - q) * s == s - d;
    NonNegFactor(1.0 - q, s);
    assert (q + 1.0) * s == d + s;
    NonNegFactor(q + 1.0, s);
  }

  lemma ProductOfRoots(x: real, y: real, sx: real, sy: real)
    requires sx * sx == x && sy * sy == y
    ensures (sx * sy) * (sx * sy) == x * y
  {
  }

  lemma DivideBySelf(x: real, y: real)
    requires x == y && y != 0.0
    ensures x / y == 1.0
  {
  }

  // The similarity of two vectors always lies in [-1, 1].
  lemma CosineBounded(a: Vector, b: Vector, sqrt: real -> real)
    requires IsSqrt(sqrt)
    ensures -1.0 <= Cosine(a, b, sqrt) <= 1.0
  {
    if |a| > 0 && |a| == |b| && SumSq(a) > 0.0 && SumSq(b) > 0.0 {
      CauchySchwarz(a, b);
      var sa, sb := sqrt(SumSq(a)), sqrt(SumSq(b));
      SqrtPositive(sqrt, SumSq(a));
      SqrtPositive(sqrt, SumSq(b));
      ProductOfRoots(SumSq(a), SumSq(b), sa, sb);
      QuotientBound(Dot(a, b), sa * sb);
      assert Cosine(a, b, sqrt) == Dot(a, b) / (sa * sb);
    }
  }

  lemma CosineSymmetric(a: Vector, b: Vector, sqrt: real -> real)
    requires IsSqrt(sqrt)
    ensures Cosine(a, b, sqrt) == Cosine(b, a, sqrt)
  {
    if |a| == |b| {
      DotSymmetric(a, b);
    }
  }

  // A vector with a non-zero component is perfectly similar to itself.
  lemma CosineSelf(v: Vector, sqrt: real -> real)
    requires IsSqrt(sqrt)
    requires exists i :: 0 <= i < |v| && v[i] != 0.0
    ensures Cosine(v, v, sqrt) == 1.0
  {
    SumSqPositive(v);
    var s := sqrt(SumSq(v));
    assert s * s == SumSq(v);
    assert Cosine(v, v, sqrt) == SumSq(v) / (s * s);
    DivideBySelf(SumSq(v), s * s);
  }

  // A vector whose components are all zero is similar to nothing.
  lemma CosineZeroVector(a: Vector, b: Vector, sqrt: real -> real)
    requires IsSqrt(sqrt)
    requires forall i :: 0 <= i < |a| ==> a[i] == 0.0
    ensures Cosine(a, b, sqrt) == 0.0
  {
    SumSqPositive(a);
  }

  // ---- weighted_average ----

  datatype AverageResult = Averaged(v: Vector) | NoVectors | IndexOutOfRange

  // A (vector, weight) pair takes part when the vector is non-empty and the weight positive.
  predicate Contributes(p: (Vector, real))
  {
    |p.0| > 0 && p.1 > 0.0
  }

  function Contributors(ps: seq<(Vector, real)>): (cs: seq<(Vector, real)>)
    ensures forall k :: 0 <= k < |cs| ==> Contributes(cs[k])
    ensures |cs| <= |ps|
  {
    if ps == [] then []
    else Contributors(ps[..|ps| - 1]) + (if Contributes(ps[|ps| - 1]) then [ps[|ps| - 1]] else [])
  }

  // Sum over the pairs of v[i] * w, a vector shorter than i + 1 adding nothing.
  function WeightedSumAt(cs: seq<(Vector, real)>, i: nat): real
  {
    if cs == [] then 0.0
    else
      var p := cs[|cs| - 1];
      WeightedSumAt(cs[..|cs| - 1], i) + (if i < |p.0| then p.0[i] * p.1 else 0.0)
  }

  function TotalWeight(cs: seq<(Vector, real)>): (t: real)
    ensures (|cs| > 0 && forall k :: 0 <= k < |cs| ==> Contributes(cs[k])) ==> t > 0.0
  {
    if cs == [] then 0.0
    else
      assert forall k :: 0 <= k < |cs| - 1 ==> cs[..|cs| - 1][k] == cs[k];
      TotalWeight(cs[..|cs| - 1]) + cs[|cs| - 1].1
  }

  // Some contributing vector is longer than the first one, which fixes the length
  // of the accumulator: the element-wise update then indexes past its end.
  predicate Overlong(cs: seq<(Vector, real)>)
  {
    |cs| > 0 && exists k :: 0 <= k < |cs| && |cs[k].0| > |cs[0].0|
  }

  function WeightedAverageOf(ps: seq<(Vector, real)>): AverageResult
  {
    var cs := Contributors(ps);
    if cs == [] then NoVectors
    else if Overlong(cs) then IndexOutOfRange
    else
      var n, t := |cs[0].0|, TotalWeight(cs);
      Averaged(seq(n, i requires 0 <= i < n => WeightedSumAt(cs, i) / t))
  }

  lemma ContributorsStep(ps: seq<(Vector, real)>, k: nat)
    requires k < |ps|
    ensures Contributors(ps[..k + 1])
         == Contributors(ps[..k]) + (if Contributes(ps[k]) then [ps[k]] else [])
  {
    assert ps[..k + 1][..k] == ps[..k];
  }

  lemma WeightedSumStep(cs: seq<(Vector, real)>, p: (Vector, real), i: nat)
    ensures WeightedSumAt(cs + [p], i) == WeightedSumAt(cs, i) + (if i < |p.0| then p.0[i] * p.1 else 0.0)
    ensures TotalWeight(cs + [p]) == TotalWeight(cs) + p.1
  {
    assert (cs + [p])[..|cs|] == cs;
  }

  // Overlong is kept when more pairs follow.
  lemma OverlongExtends(ps: seq<(Vector, real)>, k: nat)
    requires k <= |ps| && Overlong(Contributors(ps[..k]))
    ensures Overlong(Contributors(ps))
  {
    ContributorsAppend(ps[..k], ps[k..]);
    assert ps[..k] + ps[k..] == ps;
    var c, d := Contributors(ps[..k]), Contributors(ps);
    var j :| 0 <= j < |c| && |c[j].0| > |c[0].0|;
    assert d[j] == c[j] && d[0] == c[0];
  }

  // acc with vec * w added element-wise on the indices vec covers.
  function AddScaled(acc: Vector, vec: Vector, w: real): (r: Vector)
    ensures |r| == |acc|
  {
    seq(|acc|, j requires 0 <= j < |acc| => acc[j] + (if j < |vec| then vec[j] * w else 0.0))
  }

  // The inner loop of weighted_average: acc[i] += x * w for every element x of vec;
  // it fails (an IndexError in the source) when vec is longer than acc.
  method Accumulate(acc: array<real>, vec: Vector, w: real) returns (ok: bool)
    modifies acc
    ensures ok <==> |vec| <= acc.Length
    ensures ok ==> acc[..] == AddScaled(old(acc[..]), vec, w)
  {
    var i := 0;
    while i < |vec|
      invariant 0 <= i <= |vec|
      invariant i <= acc.Length
      invariant forall j :: 0 <= j < acc.Length ==> acc[j] == old(acc[j]) + (if j < i then vec[j] * w else 0.0)
    {
      if i >= acc.Length {
        return false;
      }
      acc[i] := acc[i] + vec[i] * w;
      i := i + 1;
    }
    assert forall j :: 0 <= j < acc.Length ==> acc[..][j] == AddScaled(old(acc[..]), vec, w)[j];
    return true;
  }

  // The accumulator v holds the weighted sums of the contributors cs so far.
  ghost predicate AccumulatorFor(cs: seq<(Vector, real)>, v: Vector)
  {
    cs != [] && |v| == |cs[0].0| && !Overlong(cs)
    && forall i :: 0 <= i < |v| ==> v[i] == WeightedSumAt(cs, i)
  }

  lemma AccumulateStep(cs: seq<(Vector, real)>, v: Vector, vec: Vector, w: real)
    requires |vec| > 0 && w > 0.0 && |vec| <= |v|
    requires AccumulatorFor(cs, v) || (cs == [] && |v| == |vec| && forall i :: 0 <= i < |v| ==> v[i] == 0.0)
    ensures AccumulatorFor(cs + [(vec, w)], AddScaled(v, vec, w))
  {
    var cs' := cs + [(vec, w)];
    forall i | 0 <= i < |v| ensures AddScaled(v, vec, w)[i] == WeightedSumAt(cs', i) {
      WeightedSumStep(cs, (vec, w), i);
    }
    forall j | 0 <= j < |cs'| ensures |cs'[j].0| <= |cs'[0].0| {
      if j < |cs| { assert cs'[j] == cs[j]; }
    }
  }

  lemma AccumulateOverflow(ps: seq<(Vector, real)>, k: nat, v: Vector)
    requires k < |ps| && Contributes(ps[k]) && |ps[k].0| > |v|
    requires AccumulatorFor(Contributors(ps[..k]), v)
    ensures Overlong(Contributors(ps))
  {
    ContributorsStep(ps, k);
    var cs' := Contributors(ps[..k + 1]);
    assert |cs'[|cs'| - 1].0| > |cs'[0].0|;
    OverlongExtends(ps, k + 1);
  }

  function Divide(v: Vector, t: real): (r: Vector)
    requires t != 0.0
    ensures |r| == |v|
  {
    seq(|v|, i requires 0 <= i < |v| => v[i] / t)
  }

  lemma AverageFromAccumulator(ps: seq<(Vector, real)>, v: Vector)
    requires AccumulatorFor(Contributors(ps), v)
    ensures WeightedAverageOf(ps) == Averaged(Divide(v, TotalWeight(Contributors(ps))))
  {
  }

  // One contributing pair: the element-wise update of the accumulator.
  method AddContribution(acc: array<real>, vec: Vector, w: real, ghost cs: seq<(Vector, real)>) returns (ok: bool)
    requires |vec| > 0 && w > 0.0
    requires AccumulatorFor(cs, acc[..]) || (cs == [] && acc.Length == |vec| && forall i :: 0 <= i < acc.Length ==> acc[i] == 0.0)
    modifies acc
    ensures ok <==> |vec| <= acc.Length
    ensures ok ==> AccumulatorFor(cs + [(vec, w)], acc[..])
    ensures ok ==> TotalWeight(cs + [(vec, w)]) == TotalWeight(cs) + w
  {
    ghost var before := acc[..];
    ok := Accumulate(acc, vec, w);
    if ok {
      AccumulateStep(cs, before, vec, w);
      WeightedSumStep(cs, (vec, w), 0);
    }
  }

  // The loop of weighted_average: the accumulator is created from the first
  // contributing vector and updated in place.
  method WeightedAverage(ps: seq<(Vector, real)>) returns (r: AverageResult)
    ensures r == WeightedAverageOf(ps)
  {
    var acc: array<real> := new real[0];
    var started := false;
    var totalW := 0.0;
    var k := 0;
    while k < |ps|
      invariant 0 <= k <= |ps|
      invariant fresh(acc)
      invariant started <==> Contributors(ps[..k]) != []
      invariant started ==> AccumulatorFor(Contributors(ps[..k]), acc[..])
      invariant totalW == TotalWeight(Contributors(ps[..k]))
    {
      ContributorsStep(ps, k);
      var vec, w := ps[k].0, ps[k].1;
      if |vec| == 0 || w <= 0.0 {
        assert Contributors(ps[..k + 1]) == Contributors(ps[..k]);
        k := k + 1;
        continue;
      }
      ghost var cs := Contributors(ps[..k]);
      assert Contributors(ps[..k + 1]) == cs + [(vec, w)];
      if !started {
        acc := new real[|vec|](_ => 0.0);
        started := true;
        assert forall i :: 0 <= i < acc.Length ==> acc[i] == 0.0;
      }
      ghost var before := acc[..];
      var ok := AddContribution(acc, vec, w, cs);
      if !ok {
        AccumulateOverflow(ps, k, before);
        return IndexOutOfRange;
      }
      totalW := totalW + w;
      k := k + 1;
    }
    assert ps[..k] == ps;
    if !started || totalW <= 0.0 {
      return NoVectors;
    }
    AverageFromAccumulator(ps, acc[..]);
    r := Averaged(Divide(acc[..], totalW));
  }

  lemma ContributorsAppend(a: seq<(Vector, real)>, b: seq<(Vector, real)>)
    ensures Contributors(a + b) == Contributors(a) + Contributors(b)
    decreases |b|
  {
    if b == [] {
      assert a + b == a;
    } else {
      var b' := b[..|b| - 1];
      assert (a + b)[..|a + b| - 1] == a + b';
      ContributorsAppend(a, b');
    }
  }

  // A pair with an empty vector or a non-positive weight changes nothing,
  // wherever it stands.
  lemma IgnoredPairAnywhere(ps1: seq<(Vector, real)>, p: (Vector, real), ps2: seq<(Vector, real)>)
    requires !Contributes(p)
    ensures WeightedAverageOf(ps1 + [p] + ps2) == WeightedAverageOf(ps1 + ps2)
  {
    ContributorsAppend(ps1 + [p], ps2);
    ContributorsAppend(ps1, [p]);
    ContributorsAppend(ps1, ps2);
    assert Contributors([p]) == [] by {
      assert [p][..0] == [];
    }
    assert Contributors(ps1 + [p] + ps2) == Contributors(ps1 + ps2);
  }

  // The average of a single weighted vector is that vector.
  lemma AverageOfOne(v: Vector, w: real)
    requires |v| > 0 && w > 0.0
    ensures WeightedAverageOf([(v, w)]) == Averaged(v)
  {
    var cs := [(v, w)];
    SinglePair(v, w);
    assert !Overlong(cs);
    var avg := seq(|v|, i requires 0 <= i < |v| => WeightedSumAt(cs, i) / w);
    forall i | 0 <= i < |v| ensures avg[i] == v[i] {
      CancelWeight(v[i], w);
    }
    assert avg == v;
  }

  lemma SinglePair(v: Vector, w: real)
    requires |v| > 0 && w > 0.0
    ensures Contributors([(v, w)]) == [(v, w)]
    ensures TotalWeight([(v, w)]) == w
    ensures forall i: nat :: i < |v| ==> WeightedSumAt([(v, w)], i) == v[i] * w
  {
    assert [(v, w)][..0] == [];
  }

  lemma CancelWeight(x: real, w: real)
    requires w > 0.0
    ensures (x * w) / w == x
  {
  }
}
