/**
 * The embedding scorer's default similarity (`core/scoring/strategies/embedding.py`): word counts and the cosine of
 * two sparse count vectors. `str.lower` is a parameter; `math.sqrt` enters as the two roots it returns.
 */
module Cosine {
  import opened Sums

  type Counts = map<string, nat>

  const PUNCTUATION := ".,!?;:'\"()[]{}"

  // ---------------------------------------------------------------- tokenizing

  /** `w.strip(chars)` */
  function Strip(w: string, chars: string): (r: string)
    decreases |w|
  {
    if w == [] then w
    else if w[0] in chars then Strip(w[1..], chars)
    else if w[|w| - 1] in chars then Strip(w[..|w| - 1], chars)
    else w
  }

  /** Strip removes the given characters at both ends, all of them, and nothing else. */
  lemma {:induction false} StripIsTrim(w: string, chars: string) returns (i: nat, j: nat)
    ensures i <= j <= |w| && Strip(w, chars) == w[i..j]
    ensures forall k :: 0 <= k < i || j <= k < |w| ==> w[k] in chars
    ensures i < j ==> w[i] !in chars && w[j - 1] !in chars
    decreases |w|
  {
    if w == [] {
      i, j := 0, 0;
    } else if w[0] in chars {
      var i', j' := StripIsTrim(w[1..], chars);
      assert w[1..][i'..j'] == w[i' + 1..j' + 1];
      i, j := i' + 1, j' + 1;
      forall k | 1 <= k < i || j <= k < |w| ensures w[k] in chars {
        assert w[k] == w[1..][k - 1];
      }
    } else if w[|w| - 1] in chars {
      i, j := StripIsTrim(w[..|w| - 1], chars);
    } else {
      i, j := 0, |w|;
    }
  }

  function Words(lower: string -> string, words: seq<string>): seq<string> {
    seq(|words|, i requires 0 <= i < |words| => lower(Strip(words[i], PUNCTUATION)))
  }

  /** Each word is counted without the punctuation at its ends, and with everything in between, in lower case. */
  lemma {:induction false} WordsAreTrimmed(lower: string -> string, words: seq<string>, k: nat)
    returns (i: nat, j: nat)
    requires k < |words|
    ensures |Words(lower, words)| == |words| && i <= j <= |words[k]|
    ensures Words(lower, words)[k] == lower(words[k][i..j])
    ensures forall l :: 0 <= l < i || j <= l < |words[k]| ==> words[k][l] in ".,!?;:'\"()[]{}"
    ensures i < j ==> words[k][i] !in ".,!?;:'\"()[]{}" && words[k][j - 1] !in ".,!?;:'\"()[]{}"
  {
    i, j := StripIsTrim(words[k], PUNCTUATION);
  }

  /** How often a word occurs. */
  function Get(v: Counts, w: string): nat {
    if w in v then v[w] else 0
  }

  /** The loop over `text.lower().split()`: every non-empty word with its number of occurrences, and no other key. */
  method SimpleTokenize(words: seq<string>, lower: string -> string) returns (freq: Counts)
    ensures forall w :: w in freq <==> w != "" && w in Words(lower, words)
    ensures forall w :: w in freq ==> freq[w] == multiset(Words(lower, words))[w] > 0
  {
    freq := map[];
    for i := 0 to |words|
      invariant forall w :: w in freq <==> w != "" && w in Words(lower, words[..i])
      invariant forall w :: w in freq ==> freq[w] == multiset(Words(lower, words[..i]))[w] > 0
    {
      var w := lower(Strip(words[i], PUNCTUATION));
      if w != "" {
        freq := freq[w := Get(freq, w) + 1];
      }
      assert Words(lower, words[..i + 1]) == Words(lower, words[..i]) + [w];
    }
    assert words[..|words|] == words;
  }

  // ---------------------------------------------------------------- the cosine

  ghost function Product(a: Counts, b: Counts): string -> real {
    w => Get(a, w) as real * Get(b, w) as real
  }

  /** `all_keys` */
  ghost function Union(a: Counts, b: Counts): set<string> {
    a.Keys + b.Keys
  }

  /** `sum(a.get(k, 0) * b.get(k, 0) for k in keys)` over the union of the keys. */
  ghost function Dot(a: Counts, b: Counts): real {
    Sum(Union(a, b), Product(a, b))
  }

  /** `sum(v ** 2 for v in a.values())` */
  ghost function SquareNorm(a: Counts): real {
    Sum(a.Keys, Product(a, a))
  }

  ghost predicate IsRoot(root: real, x: real) {
    root >= 0.0 && root * root == x
  }

  /** `_cosine_similarity`, given the two square roots. */
  ghost function Similarity(a: Counts, b: Counts, normA: real, normB: real): real
    requires IsRoot(normA, SquareNorm(a)) && IsRoot(normB, SquareNorm(b))
  {
    if Union(a, b) == {} then 0.0
    else if normA == 0.0 || normB == 0.0 then 0.0
    else Dot(a, b) / (normA * normB)
  }

  /** Every count is positive, as the tokenizer makes them. */
  ghost predicate Positive(a: Counts) {
    forall w :: w in a ==> a[w] > 0
  }

  // ---------------------------------------------------------------- Cauchy-Schwarz

  /** The square of aa * b - ab * a at one word; `aa`, `bb` and `ab` stand for |a|^2, |b|^2 and a . b. */
  ghost function Residual(a: Counts, b: Counts, aa: real, ab: real): string -> real {
    w => ResidualAt(Get(a, w) as real, Get(b, w) as real, aa, ab)
  }

  ghost function ResidualAt(x: real, y: real, aa: real, ab: real): real {
    Square(aa * y - ab * x)
  }

  ghost function Square(x: real): real {
    x * x
  }

  lemma {:induction false} ExpandSquare(aa: real, ab: real, x: real, y: real)
    ensures Square(aa * y - ab * x) == Times(aa * aa)(y * y) + (Times(-2.0 * aa * ab)(x * y) + Times(ab * ab)(x * x))
  {
    var p, q := aa * y, ab * x;
    assert Square(p - q) == p * p - 2.0 * (p * q) + q * q;
    assert p * p == aa * aa * (y * y);
    assert p * q == aa * ab * (x * y);
    assert q * q == ab * ab * (x * x);
  }

  lemma {:induction false} ResidualSplits(a: Counts, b: Counts, aa: real, ab: real, w: string)
    ensures Residual(a, b, aa, ab)(w) == Times(aa * aa)(Product(b, b)(w)) +
            (Times(-2.0 * aa * ab)(Product(a, b)(w)) + Times(ab * ab)(Product(a, a)(w)))
  {
    var x, y := Get(a, w) as real, Get(b, w) as real;
    assert Residual(a, b, aa, ab)(w) == Square(aa * y - ab * x);
    assert Product(b, b)(w) == y * y;
    assert Product(a, b)(w) == x * y;
    assert Product(a, a)(w) == x * x;
    ExpandSquare(aa, ab, x, y);
  }

  ghost function Scaled(c: real, f: string -> real): string -> real {
    w => Times(c)(f(w))
  }

  ghost function Plus(f: string -> real, g: string -> real): string -> real {
    w => f(w) + g(w)
  }

  /** The residuals of all words sum to aa^2 * |b|^2 - 2 * aa * ab * (a . b) + ab^2 * |a|^2. */
  lemma {:induction false} ResidualSum(s: set<string>, a: Counts, b: Counts, aa: real, ab: real)
    ensures Sum(s, Residual(a, b, aa, ab)) ==
            Times(aa * aa)(Sum(s, Product(b, b))) +
            (Times(-2.0 * aa * ab)(Sum(s, Product(a, b))) + Times(ab * ab)(Sum(s, Product(a, a))))
  {
    var u, v := Scaled(aa * aa, Product(b, b)), Scaled(-2.0 * aa * ab, Product(a, b));
    var w := Scaled(ab * ab, Product(a, a));
    forall k ensures Residual(a, b, aa, ab)(k) == u(k) + Plus(v, w)(k) {
      ResidualSplits(a, b, aa, ab, k);
    }
    Add(s, Residual(a, b, aa, ab), u, Plus(v, w));
    Add(s, Plus(v, w), v, w);
    Scale(s, u, aa * aa, Product(b, b));
    Scale(s, v, -2.0 * aa * ab, Product(a, b));
    Scale(s, w, ab * ab, Product(a, a));
  }

  /** The squared norm may be summed over any larger set of keys. */
  lemma {:induction false} NormOverUnion(a: Counts, b: Counts)
    ensures Sum(Union(a, b), Product(a, a)) == SquareNorm(a)
    ensures Sum(Union(a, b), Product(b, b)) == SquareNorm(b)
  {
    forall w | w in Union(a, b) - a.Keys ensures Product(a, a)(w) == 0.0 { assert Get(a, w) == 0; }
    forall w | w in Union(a, b) - b.Keys ensures Product(b, b)(w) == 0.0 { assert Get(b, w) == 0; }
    Extend(a.Keys, Union(a, b), Product(a, a));
    Extend(b.Keys, Union(a, b), Product(b, b));
  }

  /** Lagrange's identity: the residuals sum to |a|^2 * (|a|^2 * |b|^2 - (a . b)^2). */
  lemma {:induction false} LagrangeIdentity(a: Counts, b: Counts, aa: real, bb: real, ab: real)
    requires aa == SquareNorm(a) && bb == SquareNorm(b) && ab == Dot(a, b)
    ensures Sum(Union(a, b), Residual(a, b, aa, ab)) == aa * (aa * bb - ab * ab)
  {
    NormOverUnion(a, b);
    var r := ResidualTotal(a, b, aa, bb, ab);
    Collect(aa, bb, ab);
  }

  lemma {:induction false} ResidualTotal(a: Counts, b: Counts, aa: real, bb: real, ab: real) returns (r: real)
    requires aa == Sum(Union(a, b), Product(a, a)) && bb == Sum(Union(a, b), Product(b, b)) && ab == Dot(a, b)
    ensures r == Sum(Union(a, b), Residual(a, b, aa, ab))
    ensures r == Times(aa * aa)(bb) + (Times(-2.0 * aa * ab)(ab) + Times(ab * ab)(aa))
  {
    ResidualSum(Union(a, b), a, b, aa, ab);
    r := Sum(Union(a, b), Residual(a, b, aa, ab));
  }

  lemma {:induction false} Collect(aa: real, bb: real, ab: real)
    ensures Times(aa * aa)(bb) + (Times(-2.0 * aa * ab)(ab) + Times(ab * ab)(aa)) == aa * (aa * bb - ab * ab)
  {
    assert aa * aa * bb == aa * (aa * bb);
    assert -2.0 * aa * ab * ab == -2.0 * (aa * (ab * ab));
    assert ab * ab * aa == aa * (ab * ab);
  }

  lemma {:induction false} DotNonNegative(a: Counts, b: Counts)
    ensures Dot(a, b) >= 0.0
    ensures Dot(a, b) == 0.0 <==> forall w :: w in Union(a, b) ==> Product(a, b)(w) == 0.0
  {
    NonNegative(Union(a, b), Product(a, b));
  }

  lemma {:induction false} NormNonNegative(a: Counts)
    ensures SquareNorm(a) >= 0.0
    ensures Positive(a) ==> (SquareNorm(a) == 0.0 <==> a == map[])
  {
    NonNegative(a.Keys, Product(a, a));
    if Positive(a) && a != map[] {
      var w :| w in a;
      assert Product(a, a)(w) >= 1.0;
    }
  }

  lemma {:induction false} ResidualNonNegative(a: Counts, b: Counts, aa: real, ab: real)
    ensures Sum(Union(a, b), Residual(a, b, aa, ab)) >= 0.0
    ensures Sum(Union(a, b), Residual(a, b, aa, ab)) == 0.0 ==>
              forall w :: w in Union(a, b) ==> aa * Get(b, w) as real == ab * Get(a, w) as real
  {
    var r := Residual(a, b, aa, ab);
    forall w ensures r(w) >= 0.0 && (r(w) == 0.0 ==> aa * Get(b, w) as real == ab * Get(a, w) as real) {
      SquareNonNegative(aa * Get(b, w) as real - ab * Get(a, w) as real);
    }
    NonNegative(Union(a, b), r);
  }

  lemma {:induction false} SquareNonNegative(x: real)
    ensures Square(x) >= 0.0 && (Square(x) == 0.0 ==> x == 0.0)
  {
    if x > 0.0 {
      Positives(x, x, Square(x));
    } else if x < 0.0 {
      Positives(-x, -x, Square(x));
    }
  }

  lemma {:induction false} Positives(x: real, y: real, z: real)
    requires x > 0.0 && y > 0.0 && z == x * y
    ensures z > 0.0
  {}

  /** Cauchy-Schwarz, with the case of equality. */
  lemma {:induction false} CauchySchwarz(a: Counts, b: Counts, aa: real, bb: real, ab: real)
    requires aa == SquareNorm(a) && bb == SquareNorm(b) && ab == Dot(a, b)
    ensures ab * ab <= aa * bb
    ensures ab * ab == aa * bb ==> forall w :: aa * Get(b, w) as real == ab * Get(a, w) as real
  {
    NormNonNegative(a);
    if aa == 0.0 {
      NormZero(a, b);
    } else {
      CauchySchwarzNonZero(a, b, aa, bb, ab);
    }
  }

  /** A vector of norm zero has no part in any product. */
  lemma {:induction false} NormZero(a: Counts, b: Counts)
    requires SquareNorm(a) == 0.0
    ensures Dot(a, b) == 0.0
  {
    NonNegative(a.Keys, Product(a, a));
    DotNonNegative(a, b);
    forall w | w in Union(a, b) ensures Product(a, b)(w) == 0.0 {
      if w in a {
        assert Product(a, a)(w) == 0.0;
      }
    }
  }

  lemma {:induction false} CauchySchwarzNonZero(a: Counts, b: Counts, aa: real, bb: real, ab: real)
    requires aa == SquareNorm(a) && bb == SquareNorm(b) && ab == Dot(a, b) && aa > 0.0
    ensures ab * ab <= aa * bb
    ensures ab * ab == aa * bb ==> forall w :: aa * Get(b, w) as real == ab * Get(a, w) as real
  {
    LagrangeIdentity(a, b, aa, bb, ab);
    ResidualNonNegative(a, b, aa, ab);
    if ab * ab == aa * bb {
      forall w ensures aa * Get(b, w) as real == ab * Get(a, w) as real {
        if w !in Union(a, b) { assert Get(a, w) == 0 && Get(b, w) == 0; }
      }
    }
  }

  lemma {:induction false} RootOrder(d: real, r: real, s: real, aa: real, bb: real)
    requires d >= 0.0 && IsRoot(r, aa) && IsRoot(s, bb) && aa > 0.0 && bb > 0.0
    ensures r > 0.0 && s > 0.0 && r * s > 0.0
    ensures d * d <= aa * bb <==> d <= r * s
    ensures d * d == aa * bb <==> d == r * s
  {
    assert (r * s) * (r * s) == aa * bb by { assert (r * s) * (r * s) == (r * r) * (s * s); }
    SquareOrder(d, r * s);
  }

  lemma {:induction false} SquareOrder(x: real, y: real)
    requires x >= 0.0 && y >= 0.0
    ensures x * x <= y * y <==> x <= y
    ensures x * x == y * y <==> x == y
  {
    assert x * x - y * y == (x - y) * (x + y);
    if x < y {
      Positives(y - x, x + y, y * y - x * x);
    } else if y < x {
      Positives(x - y, x + y, x * x - y * y);
    }
  }

  /** The similarity always lies between 0 and 1. */
  lemma {:induction false} SimilarityInUnitRange(a: Counts, b: Counts, normA: real, normB: real)
    requires IsRoot(normA, SquareNorm(a)) && IsRoot(normB, SquareNorm(b))
    ensures 0.0 <= Similarity(a, b, normA, normB) <= 1.0
  {
    if normA != 0.0 && normB != 0.0 {
      SimilarityOfNonZero(a, b, normA, normB);
    }
  }

  lemma {:induction false} SimilarityOfNonZero(a: Counts, b: Counts, normA: real, normB: real)
    requires IsRoot(normA, SquareNorm(a)) && IsRoot(normB, SquareNorm(b)) && normA != 0.0 && normB != 0.0
    ensures Union(a, b) != {} && normA * normB > 0.0
    ensures 0.0 <= Dot(a, b) <= normA * normB
    ensures Similarity(a, b, normA, normB) == Dot(a, b) / (normA * normB)
    ensures 0.0 <= Similarity(a, b, normA, normB) <= 1.0
    ensures Similarity(a, b, normA, normB) == 1.0 <==> Dot(a, b) * Dot(a, b) == SquareNorm(a) * SquareNorm(b)
    ensures Similarity(a, b, normA, normB) == 0.0 <==> Dot(a, b) == 0.0
  {
    var aa, bb, ab := SquareNorm(a), SquareNorm(b), Dot(a, b);
    DotNonNegative(a, b);
    PositiveRoot(normA, aa);
    PositiveRoot(normB, bb);
    CauchySchwarz(a, b, aa, bb, ab);
    RootOrder(ab, normA, normB, aa, bb);
    assert a.Keys != {};
  }

  /**
   * The law of cosines: the squared distance between the two vectors, each stretched by the other's norm, is twice the
   * squared product `n` of the norms `r` and `s`, times one minus the similarity `x`.
   */
  lemma {:induction false} LawOfCosines(a: Counts, b: Counts, r: real, s: real, n: real, x: real)
    requires IsRoot(r, SquareNorm(a)) && IsRoot(s, SquareNorm(b)) && r != 0.0 && s != 0.0
    requires n == r * s && x == Similarity(a, b, r, s)
    ensures Sum(Union(a, b), Residual(a, b, r, s)) == 2.0 * Square(n) * (1.0 - x)
  {
    var t, d := StretchedDistance(a, b, r, s);
    CollectRoots(r, s, d, n, x, t);
  }

  lemma {:induction false} StretchedDistance(a: Counts, b: Counts, r: real, s: real)
    returns (t: real, d: real)
    requires IsRoot(r, SquareNorm(a)) && IsRoot(s, SquareNorm(b))
    ensures t == Sum(Union(a, b), Residual(a, b, r, s)) && d == Dot(a, b)
    ensures Collected(r, s, d, t)
  {
    NormOverUnion(a, b);
    ResidualSum(Union(a, b), a, b, r, s);
    t := Sum(Union(a, b), Residual(a, b, r, s));
    d := Dot(a, b);
  }

  ghost predicate Collected(r: real, s: real, d: real, t: real) {
    t == Times(r * r)(s * s) + (Times(-2.0 * r * s)(d) + Times(s * s)(r * r))
  }

  lemma {:induction false} Quotient(d: real, n: real, s: real)
    requires n > 0.0 && s == d / n
    ensures d == s * n
  {}

  lemma {:induction false} CollectRoots(r: real, s: real, d: real, n: real, x: real, t: real)
    requires n == r * s && d == x * n && Collected(r, s, d, t)
    ensures t == 2.0 * Square(n) * (1.0 - x)
  {
    assert r * r * (s * s) == n * n;
    assert s * s * (r * r) == n * n;
    assert -2.0 * r * s * d == -2.0 * (n * (x * n));
    assert n * (x * n) == x * (n * n);
  }

  lemma {:induction false} PositiveRoot(r: real, x: real)
    requires IsRoot(r, x)
    ensures r != 0.0 <==> x > 0.0
  {
    if r > 0.0 {
      Positives(r, r, x);
    }
  }

  lemma {:induction false} SimilaritySymmetric(a: Counts, b: Counts, normA: real, normB: real)
    requires IsRoot(normA, SquareNorm(a)) && IsRoot(normB, SquareNorm(b))
    ensures Similarity(a, b, normA, normB) == Similarity(b, a, normB, normA)
  {
    assert Union(a, b) == Union(b, a);
    Congruent(Union(a, b), Product(a, b), Product(b, a));
    assert Dot(a, b) == Dot(b, a);
  }

  ghost predicate IsMultiple(b: Counts, a: Counts, c: real) {
    forall w :: Get(b, w) as real == c * Get(a, w) as real
  }

  /** One count vector is a positive multiple of the other. */
  ghost predicate Proportional(a: Counts, b: Counts) {
    exists c :: c > 0.0 && IsMultiple(b, a, c)
  }

  lemma {:induction false} DotOfMultiple(a: Counts, b: Counts, c: real)
    requires IsMultiple(b, a, c)
    ensures Dot(a, b) == Times(c)(SquareNorm(a)) && SquareNorm(b) == Times(c)(Dot(a, b))
  {
    var keys := Union(a, b);
    NormOverUnion(a, b);
    forall w ensures Product(a, b)(w) == Times(c)(Product(a, a)(w)) && Product(b, b)(w) == Times(c)(Product(a, b)(w)) {
      MultipleInProducts(a, b, c, w);
    }
    Scale(keys, Product(a, b), c, Product(a, a));
    Scale(keys, Product(b, b), c, Product(a, b));
  }

  lemma {:induction false} MultipleInProducts(a: Counts, b: Counts, c: real, w: string)
    requires Get(b, w) as real == c * Get(a, w) as real
    ensures Product(a, b)(w) == Times(c)(Product(a, a)(w)) && Product(b, b)(w) == Times(c)(Product(a, b)(w))
  {
    var x, y := Get(a, w) as real, Get(b, w) as real;
    assert Product(a, b)(w) == x * y && Product(a, a)(w) == x * x && Product(b, b)(w) == y * y;
  }

  /** The similarity is 1 exactly for non-empty proportional count vectors. */
  lemma {:induction false} SimilarityOne(a: Counts, b: Counts, normA: real, normB: real)
    requires IsRoot(normA, SquareNorm(a)) && IsRoot(normB, SquareNorm(b)) && Positive(a) && Positive(b)
    ensures Similarity(a, b, normA, normB) == 1.0 <==> a != map[] && b != map[] && Proportional(a, b)
  {
    NormNonNegative(a);
    NormNonNegative(b);
    PositiveRoot(normA, SquareNorm(a));
    PositiveRoot(normB, SquareNorm(b));
    if a != map[] && b != map[] {
      SimilarityOfNonZero(a, b, normA, normB);
      if Proportional(a, b) {
        var c :| c > 0.0 && IsMultiple(b, a, c);
        DotOfMultiple(a, b, c);
      }
      if Similarity(a, b, normA, normB) == 1.0 {
        BoundMeansProportional(a, b, SquareNorm(a), SquareNorm(b), Dot(a, b));
      }
    }
  }

  lemma {:induction false} BoundMeansProportional(a: Counts, b: Counts, aa: real, bb: real, ab: real)
    requires aa == SquareNorm(a) && bb == SquareNorm(b) && ab == Dot(a, b) && aa > 0.0 && bb > 0.0
    requires ab * ab == aa * bb
    ensures Proportional(a, b)
  {
    DotNonNegative(a, b);
    CauchySchwarz(a, b, aa, bb, ab);
    assert ab != 0.0 by { if ab == 0.0 { assert aa * bb > 0.0; } }
    var c := ab / aa;
    forall w ensures Get(b, w) as real == c * Get(a, w) as real {
      Solve(aa, Get(b, w) as real, ab, Get(a, w) as real);
    }
    assert IsMultiple(b, a, c) && c > 0.0;
  }

  lemma {:induction false} Solve(aa: real, y: real, ab: real, x: real)
    requires aa > 0.0 && aa * y == ab * x
    ensures y == (ab / aa) * x
  {
    assert aa * ((ab / aa) * x) == ab * x;
  }

  /** The similarity is 0 exactly when the two texts share no word. */
  lemma {:induction false} SimilarityZero(a: Counts, b: Counts, normA: real, normB: real)
    requires IsRoot(normA, SquareNorm(a)) && IsRoot(normB, SquareNorm(b)) && Positive(a) && Positive(b)
    ensures Similarity(a, b, normA, normB) == 0.0 <==> a.Keys !! b.Keys
  {
    NormNonNegative(a);
    NormNonNegative(b);
    PositiveRoot(normA, SquareNorm(a));
    PositiveRoot(normB, SquareNorm(b));
    if a != map[] && b != map[] {
      SimilarityOfNonZero(a, b, normA, normB);
      DotNonNegative(a, b);
      forall w | w in Union(a, b) ensures Product(a, b)(w) == 0.0 <==> !(w in a && w in b) {}
    }
  }
}
