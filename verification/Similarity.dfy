/** Cosine similarity and the local embedding, over exact reals; the square root is a parameter. */
module Similarity {

  ghost predicate IsSqrt(sqrt: real -> real) {
    forall x: real :: x >= 0.0 ==> sqrt(x) >= 0.0 && sqrt(x) * sqrt(x) == x
  }

  function Dot(a: seq<real>, b: seq<real>): real
    requires |a| == |b|
  {
    if a == [] then 0.0
    else Dot(a[..|a| - 1], b[..|b| - 1]) + a[|a| - 1] * b[|b| - 1]
  }

  lemma {:induction false} DotPrefix(a: seq<real>, b: seq<real>, n: nat)
    requires n < |a| == |b|
    ensures Dot(a[..n + 1], b[..n + 1]) == Dot(a[..n], b[..n]) + a[n] * b[n]
  {
    assert a[..n + 1][..n] == a[..n] && b[..n + 1][..n] == b[..n];
  }

  lemma {:induction false} DotSelfNonNegative(a: seq<real>)
    ensures Dot(a, a) >= 0.0
  {
    if a != [] {
      DotSelfNonNegative(a[..|a| - 1]);
      assert a[|a| - 1] * a[|a| - 1] >= 0.0;
    }
  }

  lemma {:induction false} DotSymmetric(a: seq<real>, b: seq<real>)
    requires |a| == |b|
    ensures Dot(a, b) == Dot(b, a)
  {
    if a != [] { DotSymmetric(a[..|a| - 1], b[..|b| - 1]); }
  }

  // Named product and quotient: proofs about nested ones stay in the terms they are stated in.
  function Product(x: real, y: real): real {
    x * y
  }

  function Quotient(d: real, n: real): real
    requires n > 0.0
  {
    d / n
  }

  lemma PositiveProduct(x: real, y: real)
    requires x > 0.0 && y > 0.0
    ensures Product(x, y) > 0.0 && x * y > 0.0
  {
  }

  lemma SquareZero(s: real)
    requires s * s <= 0.0
    ensures s == 0.0
  {
    assert Product(-s, -s) == Product(s, s);
    if s > 0.0 { PositiveProduct(s, s); }
    if s < 0.0 { PositiveProduct(-s, -s); }
  }

  /** The quotient is the only factor that gives the dividend back. */
  lemma QuotientUnique(d: real, n: real, r: real)
    requires n > 0.0 && d == r * n
    ensures Quotient(d, n) == r
  {
    var x := d / n;
    assert x * n == d;
    assert (x - r) * n == 0.0;
    assert (r - x) * n == 0.0;
    if x > r { PositiveProduct(x - r, n); }
    if x < r { PositiveProduct(r - x, n); }
  }

  lemma SquaresIncrease(x: real, y: real)
    requires 0.0 <= x < y
    ensures x * x < y * y
  {
    PositiveProduct(y - x, y + x);
    assert (y - x) * (y + x) == y * y - x * x;
  }

  // ---- Cauchy-Schwarz -----------------------------------------------------------------------

  /** From s*s <= p*q the mixed term is bounded: 2*s*x*y <= p*y*y + q*x*x. */
  lemma MixedTerm(s: real, p: real, q: real, x: real, y: real)
    requires p >= 0.0 && q >= 0.0 && s * s <= p * q
    ensures 2.0 * (s * (x * y)) <= p * (y * y) + q * (x * x)
  {
    if p == 0.0 {
      assert p * q == 0.0;
      SquareZero(s);
      assert q * (x * x) >= 0.0 by { assert x * x >= 0.0; }
    } else {
      var d := p * (y * y) + q * (x * x) - 2.0 * (s * (x * y));
      var square := (p * y - s * x) * (p * y - s * x);
      assert square >= 0.0;
      calc {
        p * d;
        p * (p * (y * y)) + (p * q) * (x * x) - 2.0 * (p * (s * (x * y)));
        >= { assert x * x >= 0.0; MulMono(s * s, p * q, x * x); }
        p * (p * (y * y)) + (s * s) * (x * x) - 2.0 * (p * (s * (x * y)));
        { Square(p, y, s, x); }
        square;
      }
      NonNegativeFactor(p, d);
    }
  }

  lemma MulMono(a: real, b: real, c: real)
    requires a <= b && c >= 0.0
    ensures a * c <= b * c
  {
  }

  lemma Square(p: real, y: real, s: real, x: real)
    ensures (p * y - s * x) * (p * y - s * x) == p * (p * (y * y)) + (s * s) * (x * x) - 2.0 * (p * (s * (x * y)))
  {
  }

  lemma NonNegativeFactor(p: real, d: real)
    requires p > 0.0 && p * d >= 0.0
    ensures d >= 0.0
  {
  }

  lemma {:induction false} CauchySchwarz(a: seq<real>, b: seq<real>)
    requires |a| == |b|
    ensures Dot(a, b) * Dot(a, b) <= Dot(a, a) * Dot(b, b)
  {
    if a != [] {
      var a', b' := a[..|a| - 1], b[..|b| - 1];
      var x, y := a[|a| - 1], b[|b| - 1];
      CauchySchwarz(a', b');
      DotSelfNonNegative(a');
      DotSelfNonNegative(b');
      CauchySchwarzStep(Dot(a', b'), Dot(a', a'), Dot(b', b'), x, y);
    }
  }

  lemma CauchySchwarzStep(s: real, p: real, q: real, x: real, y: real)
    requires p >= 0.0 && q >= 0.0 && s * s <= p * q
    ensures (s + x * y) * (s + x * y) <= (p + x * x) * (q + y * y)
  {
    MixedTerm(s, p, q, x, y);
    assert (s + x * y) * (s + x * y) == s * s + 2.0 * (s * (x * y)) + (x * y) * (x * y);
    assert (p + x * x) * (q + y * y) == p * q + (p * (y * y) + q * (x * x)) + (x * x) * (y * y);
    assert (x * y) * (x * y) == (x * x) * (y * y);
  }

  // ---- Cosine -------------------------------------------------------------------------------

  function Cosine(sqrt: real -> real, a: seq<real>, b: seq<real>): real
    requires IsSqrt(sqrt)
  {
    if |a| != |b| || a == [] || Dot(a, a) == 0.0 || Dot(b, b) == 0.0 then 0.0
    else
      DotSelfNonNegative(a); DotSelfNonNegative(b); RootsPositive(sqrt, Dot(a, a), Dot(b, b));
      Quotient(Dot(a, b), Product(sqrt(Dot(a, a)), sqrt(Dot(b, b))))
  }

  lemma RootsPositive(sqrt: real -> real, p: real, q: real)
    requires IsSqrt(sqrt) && p > 0.0 && q > 0.0
    ensures sqrt(p) > 0.0 && sqrt(q) > 0.0 && Product(sqrt(p), sqrt(q)) > 0.0
  {
    PositiveProduct(sqrt(p), sqrt(q));
  }

  /** One loop accumulates the three sums; the result lies in [-1, 1] for all vectors. */
  method CosineSimilarity(sqrt: real -> real, a: seq<real>, b: seq<real>) returns (score: real)
    requires IsSqrt(sqrt)
    ensures score == Cosine(sqrt, a, b)
    ensures -1.0 <= score <= 1.0
    ensures IsCosine(sqrt, a, b, score)
  {
    CosineBounded(sqrt, a, b);
    CosineIs(sqrt, a, b);
    if |a| != |b| || |a| == 0 {
      return 0.0;
    }
    var dotProduct, normA, normB := 0.0, 0.0, 0.0;
    for i := 0 to |a|
      invariant dotProduct == Dot(a[..i], b[..i]) && normA == Dot(a[..i], a[..i]) && normB == Dot(b[..i], b[..i])
    {
      DotPrefix(a, b, i);
      DotPrefix(a, a, i);
      DotPrefix(b, b, i);
      dotProduct := dotProduct + a[i] * b[i];
      normA := normA + a[i] * a[i];
      normB := normB + b[i] * b[i];
    }
    assert a[..|a|] == a && b[..|b|] == b;
    if normA == 0.0 || normB == 0.0 {
      return 0.0;
    }
    DotSelfNonNegative(a);
    DotSelfNonNegative(b);
    RootsPositive(sqrt, normA, normB);
    return dotProduct / (sqrt(normA) * sqrt(normB));
  }

  /**
   What a cosine is: the factor by which the product of the two lengths gives the inner product;
   0 where there is no such factor or the vectors do not compare.
   */
  ghost predicate IsCosine(sqrt: real -> real, a: seq<real>, b: seq<real>, score: real) {
    if |a| == |b| && Dot(a, a) != 0.0 && Dot(b, b) != 0.0
    then Product(score, Product(sqrt(Dot(a, a)), sqrt(Dot(b, b)))) == Dot(a, b)
    else score == 0.0
  }

  lemma CosineIs(sqrt: real -> real, a: seq<real>, b: seq<real>)
    requires IsSqrt(sqrt)
    ensures IsCosine(sqrt, a, b, Cosine(sqrt, a, b))
    ensures |a| == |b| && Dot(a, a) != 0.0 && Dot(b, b) != 0.0 ==>
              Cosine(sqrt, a, b) * (sqrt(Dot(a, a)) * sqrt(Dot(b, b))) == Dot(a, b)
  {
    if |a| == |b| && Dot(a, a) != 0.0 && Dot(b, b) != 0.0 {
      DotSelfNonNegative(a);
      DotSelfNonNegative(b);
      RootsPositive(sqrt, Dot(a, a), Dot(b, b));
      QuotientGivesBack(Dot(a, b), Product(sqrt(Dot(a, a)), sqrt(Dot(b, b))));
    }
  }

  lemma QuotientGivesBack(d: real, n: real)
    requires n > 0.0
    ensures Product(Quotient(d, n), n) == d
  {
  }

  // ---- What the accumulated sum is: the one bilinear form that is 1 or 0 on unit vectors --------

  function Plus(a: seq<real>, b: seq<real>): (r: seq<real>)
    requires |a| == |b|
    ensures |r| == |a| && forall i :: 0 <= i < |a| ==> r[i] == a[i] + b[i]
  {
    seq(|a|, i requires 0 <= i < |a| => a[i] + b[i])
  }

  lemma Distributes(x: real, y: real, z: real)
    ensures (x + y) * z == x * z + y * z
  {
  }

  lemma {:induction false} DotAdds(a: seq<real>, b: seq<real>, c: seq<real>)
    requires |a| == |b| == |c|
    ensures Dot(Plus(a, b), c) == Dot(a, c) + Dot(b, c)
  {
    if a != [] {
      var n := |a| - 1;
      DotAdds(a[..n], b[..n], c[..n]);
      assert Plus(a, b)[..n] == Plus(a[..n], b[..n]);
      Distributes(a[n], b[n], c[n]);
    }
  }

  function Unit(n: nat, i: nat): (r: seq<real>)
    ensures |r| == n && forall k :: 0 <= k < n ==> r[k] == if k == i then 1.0 else 0.0
  {
    seq(n, k => if k == i then 1.0 else 0.0)
  }

  /** Against a unit vector the sum picks out one component. */
  lemma {:induction false} DotPicks(a: seq<real>, i: nat)
    ensures Dot(a, Unit(|a|, i)) == if i < |a| then a[i] else 0.0
  {
    if a != [] {
      var n := |a| - 1;
      DotPicks(a[..n], i);
      assert Unit(|a|, i)[..n] == Unit(n, i);
    }
  }

  /** Symmetric, additive, and 1 or 0 on equal or different unit vectors; `DotScale` has the scaling. */
  lemma DotIsInnerProduct(a: seq<real>, b: seq<real>, c: seq<real>, i: nat, j: nat)
    requires |a| == |b| == |c| && i < |a| && j < |a|
    ensures Dot(a, b) == Dot(b, a) && Dot(Plus(a, b), c) == Dot(a, c) + Dot(b, c)
    ensures Dot(Unit(|a|, i), Unit(|a|, j)) == if i == j then 1.0 else 0.0
  {
    DotAdds(a, b, c);
    DotSymmetric(a, b);
    DotPicks(Unit(|a|, i), j);
  }

  lemma QuotientBounded(d: real, n: real)
    requires n > 0.0 && d * d <= n * n
    ensures -1.0 <= Quotient(d, n) <= 1.0
  {
    if d > n { SquaresIncrease(n, d); }
    if d < -n { SquaresIncrease(n, -d); }
    assert d / n * n == d;
  }

  lemma CosineBounded(sqrt: real -> real, a: seq<real>, b: seq<real>)
    requires IsSqrt(sqrt)
    ensures -1.0 <= Cosine(sqrt, a, b) <= 1.0
  {
    if |a| == |b| && a != [] && Dot(a, a) != 0.0 && Dot(b, b) != 0.0 {
      CauchySchwarz(a, b);
      DotSelfNonNegative(a);
      DotSelfNonNegative(b);
      var p, q := Dot(a, a), Dot(b, b);
      RootsPositive(sqrt, p, q);
      var n := Product(sqrt(p), sqrt(q));
      assert n * n == (sqrt(p) * sqrt(p)) * (sqrt(q) * sqrt(q));
      QuotientBounded(Dot(a, b), n);
    }
  }

  lemma CosineSymmetric(sqrt: real -> real, a: seq<real>, b: seq<real>)
    requires IsSqrt(sqrt)
    ensures Cosine(sqrt, a, b) == Cosine(sqrt, b, a)
  {
    if |a| == |b| { DotSymmetric(a, b); }
  }

  function Scale(c: real, a: seq<real>): (r: seq<real>)
    ensures |r| == |a| && forall i :: 0 <= i < |a| ==> r[i] == c * a[i]
  {
    seq(|a|, i requires 0 <= i < |a| => c * a[i])
  }

  lemma {:induction false} DotScale(c: real, a: seq<real>, b: seq<real>)
    requires |a| == |b|
    ensures Dot(Scale(c, a), b) == c * Dot(a, b)
  {
    if a != [] {
      var n := |a| - 1;
      DotScale(c, a[..n], b[..n]);
      var s, t := Scale(c, a)[..n], Scale(c, a[..n]);
      forall i | 0 <= i < n ensures s[i] == t[i] { assert a[..n][i] == a[i]; }
      assert s == t;
      assert Dot(Scale(c, a), b) == c * Dot(a[..n], b[..n]) + (c * a[n]) * b[n];
    }
  }

  lemma DotScaleSelf(c: real, a: seq<real>)
    ensures Dot(Scale(c, a), Scale(c, a)) == c * c * Dot(a, a)
  {
    DotScale(c, a, Scale(c, a));
    DotSymmetric(a, Scale(c, a));
    DotScale(c, a, a);
  }

  lemma RootUnique(x: real, y: real)
    requires x >= 0.0 && y >= 0.0 && x * x == y * y
    ensures x == y
  {
    if x < y { SquaresIncrease(x, y); }
    if y < x { SquaresIncrease(y, x); }
  }

  lemma CancelScale(c: real, d: real, n: real, scaledD: real, scaledN: real)
    requires c > 0.0 && n > 0.0 && scaledD == c * d && scaledN == c * n
    ensures scaledN > 0.0 && Quotient(scaledD, scaledN) == Quotient(d, n)
  {
    PositiveProduct(c, n);
    var r := Quotient(d, n);
    assert d == r * n;
    assert c * d == r * (c * n);
    QuotientUnique(scaledD, scaledN, r);
  }

  lemma Regroup(c: real, p: real, q: real, cp: real)
    requires cp == c * p
    ensures Product(cp, q) == c * Product(p, q)
  {
  }

  lemma ScaledRoot(sqrt: real -> real, c: real, p: real, scaled: real)
    requires IsSqrt(sqrt) && c > 0.0 && p > 0.0 && scaled == c * c * p
    ensures scaled > 0.0 && sqrt(scaled) == c * sqrt(p)
  {
    RootsPositive(sqrt, p, 1.0);
    PositiveProduct(c, p);
    PositiveProduct(c, c * p);
    assert c * (c * p) == c * c * p;
    PositiveProduct(c, sqrt(p));
    assert (c * sqrt(p)) * (c * sqrt(p)) == c * c * (sqrt(p) * sqrt(p));
    RootUnique(sqrt(scaled), c * sqrt(p));
  }

  /** A score depends only on directions: positive scaling changes nothing. */
  lemma CosineScaleInvariant(sqrt: real -> real, c: real, a: seq<real>, b: seq<real>)
    requires IsSqrt(sqrt) && c > 0.0
    ensures Cosine(sqrt, Scale(c, a), b) == Cosine(sqrt, a, b)
  {
    if |a| == |b| && a != [] {
      var s := Scale(c, a);
      var p, q, scaled := Dot(a, a), Dot(b, b), Dot(s, s);
      DotScaleSelf(c, a);
      DotSelfNonNegative(a);
      DotSelfNonNegative(b);
      if p > 0.0 && q > 0.0 {
        ScaledRoot(sqrt, c, p, scaled);
        RootsPositive(sqrt, p, q);
        DotScale(c, a, b);
        Regroup(c, sqrt(p), sqrt(q), sqrt(scaled));
        CancelScale(c, Dot(a, b), Product(sqrt(p), sqrt(q)), Dot(s, b), Product(sqrt(scaled), sqrt(q)));
      }
    }
  }

  lemma CosineSelf(sqrt: real -> real, a: seq<real>)
    requires IsSqrt(sqrt) && a != [] && Dot(a, a) > 0.0
    ensures Cosine(sqrt, a, a) == 1.0
  {
    var p := Dot(a, a);
    assert sqrt(p) * sqrt(p) == p;
    QuotientUnique(p, p, 1.0);
  }

  // ---- Local embedding ----------------------------------------------------------------------

  function Slot(c: char, i: nat, dimension: nat): (slot: nat)
    requires dimension > 0
    ensures slot < dimension
  {
    (c as int + i * 31) % dimension
  }

  /** The bucket counts of a text before normalisation. */
  function Counts(text: string, dimension: nat): (v: seq<real>)
    requires dimension > 0
    ensures |v| == dimension && forall i :: 0 <= i < dimension ==> v[i] >= 0.0
    ensures text != [] ==> exists i :: 0 <= i < dimension && v[i] >= 1.0
  {
    if text == [] then Zeros(dimension)
    else
      var n := |text| - 1;
      var v := Counts(text[..n], dimension);
      var slot := Slot(text[n], n, dimension);
      assert v[slot := v[slot] + 1.0][slot] >= 1.0;
      v[slot := v[slot] + 1.0]
  }

  function Zeros(dimension: nat): (v: seq<real>)
    ensures |v| == dimension && forall i :: 0 <= i < dimension ==> v[i] == 0.0
  {
    seq(dimension, _ => 0.0)
  }

  lemma {:induction false} DotSelfAtLeast(v: seq<real>, i: nat)
    requires i < |v|
    ensures Dot(v, v) >= v[i] * v[i]
  {
    var n := |v| - 1;
    assert v[n] * v[n] >= 0.0;
    if i < n {
      DotSelfAtLeast(v[..n], i);
    } else {
      DotSelfNonNegative(v[..n]);
    }
  }

  lemma CountsNormPositive(text: string, dimension: nat)
    requires dimension > 0 && text != []
    ensures Dot(Counts(text, dimension), Counts(text, dimension)) > 0.0
  {
    var v := Counts(text, dimension);
    var i :| 0 <= i < dimension && v[i] >= 1.0;
    DotSelfAtLeast(v, i);
    assert v[i] * v[i] >= 1.0;
  }

  /** The embedding: the zero vector for the empty text, else the counts divided by their norm. */
  function Embedding(sqrt: real -> real, text: string, dimension: nat): (v: seq<real>)
    requires IsSqrt(sqrt) && (text != [] ==> dimension > 0)
    ensures |v| == dimension
  {
    if text == [] then Zeros(dimension)
    else
      var counts := Counts(text, dimension);
      CountsNormPositive(text, dimension);
      RootsPositive(sqrt, Dot(counts, counts), 1.0);
      Scale(1.0 / sqrt(Dot(counts, counts)), counts)
  }

  /** Fills the vector in place: count characters into buckets, then divide by the norm. */
  method GetEmbedding(sqrt: real -> real, text: string, dimension: nat) returns (vector: array<real>)
    requires IsSqrt(sqrt) && (text != [] ==> dimension > 0)
    ensures fresh(vector) && vector[..] == Embedding(sqrt, text, dimension)
  {
    vector := new real[dimension](_ => 0.0);
    assert vector[..] == Zeros(dimension);
    if text == [] {
      return;
    }
    CountCharacters(text, vector);
    var squares := SumOfSquares(vector);
    CountsNormPositive(text, dimension);
    RootsPositive(sqrt, squares, 1.0);
    DivideAll(vector, sqrt(squares));
  }

  method CountCharacters(text: string, vector: array<real>)
    requires vector.Length > 0 && vector[..] == Zeros(vector.Length)
    modifies vector
    ensures vector[..] == Counts(text, vector.Length)
  {
    for i := 0 to |text|
      invariant vector[..] == Counts(text[..i], vector.Length)
    {
      assert text[..i + 1][..i] == text[..i];
      var idx := Slot(text[i], i, vector.Length);
      vector[idx] := vector[idx] + 1.0;
    }
    assert text[..|text|] == text;
  }

  method SumOfSquares(vector: array<real>) returns (squares: real)
    ensures squares == Dot(vector[..], vector[..])
  {
    squares := 0.0;
    for i := 0 to vector.Length
      invariant squares == Dot(vector[..][..i], vector[..][..i])
    {
      DotPrefix(vector[..], vector[..], i);
      squares := squares + vector[i] * vector[i];
    }
    assert vector[..][..vector.Length] == vector[..];
  }

  method DivideAll(vector: array<real>, norm: real)
    requires norm > 0.0
    modifies vector
    ensures vector[..] == Scale(1.0 / norm, old(vector[..]))
  {
    ghost var counts := vector[..];
    for i := 0 to vector.Length
      invariant forall j :: 0 <= j < i ==> vector[j] == Scale(1.0 / norm, counts)[j]
      invariant forall j :: i <= j < vector.Length ==> vector[j] == counts[j]
    {
      DivideIsScale(vector[i], norm);
      vector[i] := vector[i] / norm;
    }
  }

  lemma DivideIsScale(x: real, norm: real)
    requires norm > 0.0
    ensures x / norm == (1.0 / norm) * x
  {
    var inv := 1.0 / norm;
    assert inv * norm == 1.0;
    assert (inv * x) * norm == x;
  }

  /** The positions whose character falls into bucket `k`. */
  function PositionsIn(text: string, dimension: nat, k: nat): set<nat>
    requires dimension > 0
  {
    set p: nat | p < |text| && (text[p] as int + 31 * p) % dimension == k
  }

  /** Each bucket counts its characters. */
  lemma {:induction false} BucketCounts(text: string, dimension: nat, k: nat)
    requires dimension > 0 && k < dimension
    ensures Counts(text, dimension)[k] == |PositionsIn(text, dimension, k)| as real
  {
    if text != [] {
      var n := |text| - 1;
      BucketCounts(text[..n], dimension, k);
      var before, here := PositionsIn(text[..n], dimension, k), PositionsIn(text, dimension, k);
      if Slot(text[n], n, dimension) == k {
        assert here == before + {n};
      } else {
        assert here == before;
      }
    }
  }

  /** `v` is `counts` divided by their length. */
  ghost predicate IsNormalised(counts: seq<real>, length: real, v: seq<real>) {
    && length > 0.0 && Product(length, length) == Dot(counts, counts)
    && |v| == |counts| && forall k :: 0 <= k < |v| ==> Product(v[k], length) == counts[k]
  }

  lemma ScaledIsNormalised(counts: seq<real>, root: real)
    requires root > 0.0 && Product(root, root) == Dot(counts, counts)
    ensures IsNormalised(counts, root, Scale(1.0 / root, counts))
  {
    forall k | 0 <= k < |counts| ensures Product(Scale(1.0 / root, counts)[k], root) == counts[k] {
      TimesInverse(root, counts[k]);
    }
  }

  lemma TimesInverse(root: real, x: real)
    requires root > 0.0
    ensures Product((1.0 / root) * x, root) == x
  {
    var c := 1.0 / root;
    assert c * root == 1.0;
    assert (c * x) * root == (c * root) * x;
  }

  /** The embedding of a text is its bucket counts divided by their length. */
  lemma EmbeddingIsNormalised(sqrt: real -> real, text: string, dimension: nat)
    requires IsSqrt(sqrt) && text != [] && dimension > 0
    ensures IsNormalised(Counts(text, dimension), sqrt(Dot(Counts(text, dimension), Counts(text, dimension))),
                         Embedding(sqrt, text, dimension))
  {
    var counts := Counts(text, dimension);
    CountsNormPositive(text, dimension);
    RootsPositive(sqrt, Dot(counts, counts), 1.0);
    ScaledIsNormalised(counts, sqrt(Dot(counts, counts)));
  }

  /** Normalisation changes no score, and a non-empty text scores 1 against itself. */
  lemma EmbeddingScores(sqrt: real -> real, text: string, dimension: nat, b: seq<real>)
    requires IsSqrt(sqrt) && text != [] && dimension > 0
    ensures Cosine(sqrt, Embedding(sqrt, text, dimension), b) == Cosine(sqrt, Counts(text, dimension), b)
    ensures Cosine(sqrt, Embedding(sqrt, text, dimension), Embedding(sqrt, text, dimension)) == 1.0
  {
    var counts := Counts(text, dimension);
    CountsNormPositive(text, dimension);
    RootsPositive(sqrt, Dot(counts, counts), 1.0);
    var c := 1.0 / sqrt(Dot(counts, counts));
    assert c > 0.0 by { assert c * sqrt(Dot(counts, counts)) == 1.0; }
    CosineScaleInvariant(sqrt, c, counts, b);
    var e := Embedding(sqrt, text, dimension);
    CosineScaleInvariant(sqrt, c, counts, e);
    CosineSymmetric(sqrt, counts, e);
    CosineScaleInvariant(sqrt, c, counts, counts);
    CosineSelf(sqrt, counts);
  }
}
