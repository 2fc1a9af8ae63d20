/** The offline embedder: features hashed into 384 signed counters, scaled to length one, and compared by
    their inner product. Arithmetic is exact; the digest is any function, the square root an exact one. */
module Embeddings {
  import opened Prelude

  const BUCKETS := 384

  type Vector = seq<real>

  // What the digest of a feature says: the number in its first two bytes and whether the third is odd.
  datatype Digest = Digest(word: nat, odd: bool)

  // Words and the pairs of neighbouring words.
  function Features(tokens: seq<string>): seq<string> {
    tokens + Pairs(tokens)
  }

  function Pairs(tokens: seq<string>): (pairs: seq<string>)
    ensures |pairs| == Max(0, |tokens| - 1)
    ensures forall i :: 0 <= i < |pairs| ==> pairs[i] == tokens[i] + "::" + tokens[i + 1]
  {
    if |tokens| < 2 then [] else [tokens[0] + "::" + tokens[1]] + Pairs(tokens[1..])
  }

  // What bucket k holds once the features have been counted.
  function Tally(features: seq<string>, digest: string -> Digest, k: nat): int {
    if features == [] then 0
    else
      var d := digest(features[|features| - 1]);
      Tally(features[..|features| - 1], digest, k)
      + (if d.word % BUCKETS != k then 0 else if d.odd then 1 else -1)
  }

  // The features that fall into a bucket with a sign.
  function InBucket(features: seq<string>, digest: string -> Digest, k: nat, odd: bool): seq<string> {
    if features == [] then []
    else
      var last := features[|features| - 1];
      InBucket(features[..|features| - 1], digest, k, odd)
      + (if digest(last).word % 384 == k && digest(last).odd == odd then [last] else [])
  }

  // A bucket holds the features that count up less those that count down.
  lemma {:induction false} TallyIsADifference(features: seq<string>, digest: string -> Digest, k: nat)
    ensures Tally(features, digest, k) ==
            |InBucket(features, digest, k, true)| - |InBucket(features, digest, k, false)|
  {
    if features != [] {
      TallyIsADifference(features[..|features| - 1], digest, k);
    }
  }

  function SquareSum(counts: seq<int>): (sum: nat)
    ensures sum == 0 <==> forall i :: 0 <= i < |counts| ==> counts[i] == 0
  {
    if counts == [] then 0 else SquareIsNatural(counts[0]); counts[0] * counts[0] + SquareSum(counts[1..])
  }

  lemma SquareIsNatural(x: int)
    ensures x * x >= 0 && (x * x == 0 <==> x == 0)
  {
    if x < 0 {
      assert x * x == (-x) * (-x);
    }
  }

  ghost predicate IsSquareRoot(sqrt: nat -> real) {
    forall n: nat :: sqrt(n) >= 0.0 && Times(sqrt(n), sqrt(n)) == n as real
  }

  // --- Similarity ------------------------------------------------------------------------

  // A product by name, so that proofs by induction can treat it as a term.
  function Times(x: real, y: real): real {
    x * y
  }

  // Products of the common positions, added up.
  function Similarity(left: Vector, right: Vector): real {
    if left == [] || right == [] then 0.0 else Times(left[0], right[0]) + Similarity(left[1..], right[1..])
  }

  lemma {:induction false} SimilarityIsSymmetric(a: Vector, b: Vector)
    ensures Similarity(a, b) == Similarity(b, a)
  {
    if a != [] && b != [] {
      SimilarityIsSymmetric(a[1..], b[1..]);
    }
  }

  function Difference(a: Vector, b: Vector, t: real): (d: Vector)
    requires |a| == |b|
    ensures |d| == |a| && forall i :: 0 <= i < |a| ==> d[i] == a[i] - Times(t, b[i])
  {
    if a == [] then [] else [a[0] - Times(t, b[0])] + Difference(a[1..], b[1..], t)
  }

  // |a - tb|^2 in terms of the inner products of a and b.
  function Quadratic(aa: real, ab: real, bb: real, t: real): real {
    aa - 2.0 * Times(t, ab) + Times(Times(t, t), bb)
  }

  lemma {:induction false} DifferenceLength(a: Vector, b: Vector, t: real)
    requires |a| == |b|
    ensures var d := Difference(a, b, t);
            Similarity(d, d) == Quadratic(Similarity(a, a), Similarity(a, b), Similarity(b, b), t)
  {
    hide Times;
    if a == [] {
      TimesZero(t);
      TimesZero(Times(t, t));
    } else {
      var d := Difference(a, b, t);
      DifferenceLength(a[1..], b[1..], t);
      assert d[1..] == Difference(a[1..], b[1..], t);
      Expand(a[0], b[0], t);
      TimesSpreads(t, Times(a[0], b[0]), Similarity(a[1..], b[1..]));
      TimesSpreads(Times(t, t), Times(b[0], b[0]), Similarity(b[1..], b[1..]));
    }
  }

  lemma TimesZero(x: real)
    ensures Times(x, 0.0) == 0.0
  {
  }

  lemma TimesSpreads(x: real, y: real, z: real)
    ensures Times(x, y + z) == Times(x, y) + Times(x, z)
  {
  }

  lemma Expand(x: real, y: real, t: real)
    ensures Times(x - Times(t, y), x - Times(t, y)) == Quadratic(Times(x, x), Times(x, y), Times(y, y), t)
  {
    var z := t * y;
    assert (x - z) * (x - z) == x * x - 2.0 * (x * z) + z * z;
    assert x * z == t * (x * y);
    assert z * z == (t * t) * (y * y);
  }

  lemma {:induction false} LengthIsPositive(a: Vector)
    ensures Similarity(a, a) >= 0.0
    ensures if forall i :: 0 <= i < |a| ==> a[i] == 0.0 then Similarity(a, a) == 0.0 else Similarity(a, a) > 0.0
  {
    hide Times;
    if a != [] {
      LengthIsPositive(a[1..]);
      RealSquare(a[0]);
      assert forall i :: 0 < i < |a| ==> a[i] == a[1..][i - 1];
    }
  }

  lemma RealSquare(x: real)
    ensures if x == 0.0 then Times(x, x) == 0.0 else Times(x, x) > 0.0
  {
    hide Times;
    ZeroSquare();
    if x != 0.0 {
      NonzeroSquare(x);
    }
  }

  lemma ZeroSquare()
    ensures Times(0.0, 0.0) == 0.0
  {
  }

  lemma NonzeroSquare(x: real)
    requires x != 0.0
    ensures Times(x, x) > 0.0
  {
    hide Times;
    if x > 0.0 {
      Positive(x, x);
    } else {
      Positive(-x, -x);
      SignsCancel(x, x);
    }
  }

  lemma Positive(x: real, y: real)
    requires x > 0.0 && y > 0.0
    ensures Times(x, y) > 0.0
  {
  }

  lemma SignsCancel(x: real, y: real)
    ensures Times(-x, -y) == Times(x, y)
  {
  }

  // The Cauchy-Schwarz inequality.
  lemma CauchySchwarz(a: Vector, b: Vector)
    requires |a| == |b|
    ensures Similarity(a, b) * Similarity(a, b) <= Similarity(a, a) * Similarity(b, b)
  {
    hide Similarity, Times, Difference, Quadratic;
    LengthIsPositive(b);
    if Similarity(b, b) == 0.0 {
      ZeroIsUnlike(a, b);
    } else {
      var t := Ratio(Similarity(a, b), Similarity(b, b));
      DifferenceLength(a, b, t);
      LengthIsPositive(Difference(a, b, t));
      ScaleUp(Similarity(a, a), Similarity(a, b), Similarity(b, b), t);
    }
  }

  function Ratio(x: real, y: real): (q: real)
    requires y != 0.0
    ensures q * y == x
  {
    x / y
  }

  lemma ScaleUp(aa: real, ab: real, bb: real, t: real)
    requires bb > 0.0 && t * bb == ab && Quadratic(aa, ab, bb, t) >= 0.0
    ensures ab * ab <= aa * bb
  {
    assert (t * t) * bb == t * (t * bb);
    Monotone(t * ab, aa, bb);
    assert (t * ab) * bb == (t * bb) * ab;
  }

  lemma Monotone(x: real, y: real, z: real)
    requires x <= y && z >= 0.0
    ensures x * z <= y * z
  {
    assert (y - x) * z >= 0.0;
  }

  lemma {:induction false} ZeroIsUnlike(a: Vector, b: Vector)
    requires |a| == |b| && forall i :: 0 <= i < |b| ==> b[i] == 0.0
    ensures Similarity(a, b) == 0.0
  {
    if a != [] {
      ZeroIsUnlike(a[1..], b[1..]);
    }
  }

  lemma TimesUnits(x: real, y: real)
    ensures Times(1.0, x) == x && Times(-1.0, x) == -x
    ensures Times(Times(1.0, 1.0), y) == y && Times(Times(-1.0, -1.0), y) == y
  {
  }

  predicate UnitOrZero(v: Vector) {
    |v| == BUCKETS && (Similarity(v, v) == 1.0 || Similarity(v, v) == 0.0)
  }

  // Similarities lie between -1 and 1, and 1 is reached only by a vector and itself.
  lemma SimilarityIsBounded(a: Vector, b: Vector)
    requires UnitOrZero(a) && UnitOrZero(b)
    ensures -1.0 <= Similarity(a, b) <= 1.0
    ensures Similarity(a, b) == 1.0 <==> a == b && Similarity(a, a) == 1.0
  {
    hide Similarity, Times, Difference;
    DifferenceLength(a, b, 1.0);
    DifferenceLength(a, b, -1.0);
    TimesUnits(Similarity(a, b), Similarity(b, b));
    LengthIsPositive(Difference(a, b, 1.0));
    LengthIsPositive(Difference(a, b, -1.0));
    assert Similarity(a, b) == 1.0 ==> Similarity(a, a) == 1.0 && Similarity(b, b) == 1.0;
    if Similarity(a, b) == 1.0 {
      forall i | 0 <= i < |a| ensures a[i] == b[i] {
        TimesUnits(b[i], b[i]);
        assert Difference(a, b, 1.0)[i] == a[i] - Times(1.0, b[i]);
      }
    }
  }

  // --- Encoding --------------------------------------------------------------------------

  function Counts(features: seq<string>, digest: string -> Digest): (counts: seq<int>)
    ensures |counts| == BUCKETS
    ensures forall k: nat :: k < BUCKETS ==> counts[k] == Tally(features, digest, k)
  {
    seq(BUCKETS, (k: nat) => Tally(features, digest, k))
  }

  // Every feature that fell into some bucket was outweighed there.
  predicate AllCancel(features: seq<string>, digest: string -> Digest) {
    forall k: nat :: k < BUCKETS ==> Tally(features, digest, k) == 0
  }

  function Scaled(counts: seq<int>, norm: real): (v: Vector)
    requires norm > 0.0
    ensures |v| == |counts| && forall i :: 0 <= i < |v| ==> v[i] == counts[i] as real / norm
  {
    if counts == [] then [] else [counts[0] as real / norm] + Scaled(counts[1..], norm)
  }

  // The squares of a scaled vector are the squares of the counts, scaled.
  predicate ScaledSquares(counts: seq<int>, v: Vector, square: real) {
    && |v| == |counts|
    && forall i :: 0 <= i < |v| ==> Times(Times(v[i], v[i]), square) == (counts[i] * counts[i]) as real
  }

  lemma ScalingSquares(counts: seq<int>, norm: real)
    requires norm > 0.0
    ensures ScaledSquares(counts, Scaled(counts, norm), Times(norm, norm))
  {
    hide Times;
    var v := Scaled(counts, norm);
    forall i | 0 <= i < |v|
      ensures Times(Times(v[i], v[i]), Times(norm, norm)) == (counts[i] * counts[i]) as real
    {
      QuotientSquare(counts[i], norm);
    }
  }

  lemma {:induction false} ScaledLength(counts: seq<int>, v: Vector, square: real)
    requires ScaledSquares(counts, v, square)
    ensures Times(Similarity(v, v), square) == SquareSum(counts) as real
  {
    hide Times;
    if counts == [] {
      TimesDistributes(0.0, 0.0, square);
    } else {
      assert ScaledSquares(counts[1..], v[1..], square);
      ScaledLength(counts[1..], v[1..], square);
      TimesDistributes(Times(v[0], v[0]), Similarity(v[1..], v[1..]), square);
    }
  }

  lemma TimesDistributes(x: real, y: real, z: real)
    ensures Times(x + y, z) == Times(x, z) + Times(y, z)
  {
  }

  lemma QuotientSquare(x: int, norm: real)
    requires norm > 0.0
    ensures Times(Times(x as real / norm, x as real / norm), Times(norm, norm)) == (x * x) as real
  {
    var q := Ratio(x as real, norm);
    assert q * q * (norm * norm) == (q * norm) * (q * norm);
    IntegerSquare(x);
  }

  lemma IntegerSquare(x: int)
    ensures (x * x) as real == x as real * x as real
  {
  }

  // What encoding yields, whatever produced it.
  ghost predicate Encodes(features: seq<string>, digest: string -> Digest, v: Vector) {
    && UnitOrZero(v)
    && (Similarity(v, v) == 0.0 <==> AllCancel(features, digest))
    && exists norm: real :: norm > 0.0 && v == Scaled(Counts(features, digest), norm)
  }

  lemma ScalingEncodes(features: seq<string>, digest: string -> Digest, sqrt: nat -> real, norm: real)
    requires IsSquareRoot(sqrt)
    requires var root := sqrt(SquareSum(Counts(features, digest))); norm == if root == 0.0 then 1.0 else root
    ensures norm > 0.0 && Encodes(features, digest, Scaled(Counts(features, digest), norm))
  {
    hide Similarity, SquareSum;
    var counts := Counts(features, digest);
    var v, sum := Scaled(counts, norm), SquareSum(counts);
    ScalingSquares(counts, norm);
    ScaledLength(counts, v, Times(norm, norm));
    RootScales(Similarity(v, v), sum, sqrt(sum), norm);
    CountsCancel(features, digest);
  }

  lemma CountsCancel(features: seq<string>, digest: string -> Digest)
    ensures SquareSum(Counts(features, digest)) == 0 <==> AllCancel(features, digest)
  {
    var counts := Counts(features, digest);
    assert AllCancel(features, digest) <==> forall k :: 0 <= k < |counts| ==> counts[k] == 0;
  }

  lemma RootScales(length: real, sum: nat, root: real, norm: real)
    requires root >= 0.0 && Times(root, root) == sum as real
    requires norm == if root == 0.0 then 1.0 else root
    requires Times(length, Times(norm, norm)) == sum as real
    ensures length == if sum == 0 then 0.0 else 1.0
  {
    hide Times;
    RealSquare(root);
    TimesOne(length);
    if sum != 0 {
      TimesCancels(length, sum as real);
    }
  }

  lemma TimesOne(x: real)
    ensures Times(1.0, 1.0) == 1.0 && Times(x, 1.0) == x
  {
  }

  lemma TimesCancels(x: real, y: real)
    requires y != 0.0 && Times(x, y) == y
    ensures x == 1.0
  {
    assert (x - 1.0) * y == 0.0;
  }

  // The hashing branch of the embedder.
  method Encode(tokens: seq<string>, digest: string -> Digest, sqrt: nat -> real) returns (v: Vector)
    requires IsSquareRoot(sqrt)
    ensures |v| == 384 && Encodes(Features(tokens), digest, v)
  {
    var features := Features(tokens);
    var vector := new int[BUCKETS](_ => 0);
    for i := 0 to |features|
      invariant forall k: nat :: k < BUCKETS ==> vector[k] == Tally(features[..i], digest, k)
    {
      assert features[..i + 1][..i] == features[..i];
      var d := digest(features[i]);
      var index := d.word % BUCKETS;
      vector[index] := vector[index] + (if d.odd then 1 else -1);
    }
    assert features[..|features|] == features;
    assert vector[..] == Counts(features, digest);
    var root := sqrt(SquareSum(vector[..]));
    var norm := if root == 0.0 then 1.0 else root;
    ScalingEncodes(features, digest, sqrt, norm);
    v := Scaled(vector[..], norm);
  }

  // --- What embeddings say about features ------------------------------------------------

  // Any two encoded texts: similarity within bounds, one against itself unless all its buckets cancel.
  lemma EncodedTextsCompare(f: seq<string>, g: seq<string>, digest: string -> Digest, a: Vector, b: Vector)
    requires Encodes(f, digest, a) && Encodes(g, digest, b)
    ensures -1.0 <= Similarity(a, b) <= 1.0
    ensures Similarity(a, a) == 1.0 <==> !AllCancel(f, digest)
    ensures AllCancel(f, digest) ==> Similarity(a, b) == 0.0
  {
    SimilarityIsBounded(a, b);
    if AllCancel(f, digest) {
      LengthIsPositive(a);
      ZeroIsUnlike(b, a);
      SimilarityIsSymmetric(a, b);
    }
  }

  lemma {:induction false} TallyAppends(f: seq<string>, g: seq<string>, digest: string -> Digest, k: nat)
    ensures Tally(f + g, digest, k) == Tally(f, digest, k) + Tally(g, digest, k)
  {
    if g == [] {
      assert f + g == f;
    } else {
      assert (f + g)[..|f + g| - 1] == f + g[..|g| - 1];
      TallyAppends(f, g[..|g| - 1], digest, k);
    }
  }

  // Two features that fall into one bucket with opposite signs cancel: a text made of just them is
  // unlike every text, itself included.
  lemma CollisionsCanErase(x: string, y: string, digest: string -> Digest)
    requires digest(x).word % BUCKETS == digest(y).word % BUCKETS && digest(x).odd != digest(y).odd
    ensures AllCancel([x, y], digest)
  {
    assert [x, y] == [x] + [y];
    forall k: nat | k < BUCKETS ensures Tally([x, y], digest, k) == 0 {
      TallyAppends([x], [y], digest, k);
      assert [x][..0] == [] && [y][..0] == [];
    }
  }
}
