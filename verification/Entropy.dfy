/** Shannon entropy and the high-entropy string scanner.
    Logarithms enter as a function `lg` with the laws of the base-2 logarithm; numbers are reals. */
module Entropy {
  import opened Text

  // ---------------------------------------------------------------- logarithms

  ghost predicate Multiplies(lg: real -> real, x: real, y: real) {
    x > 0.0 && y > 0.0 ==> lg(x * y) == lg(x) + lg(y)
  }

  ghost predicate BelowTangent(lg: real -> real, slope: real, x: real) {
    x > 0.0 ==> lg(x) <= slope * (x - 1.0)
  }

  /** `lg` turns products into sums, is 1 at 2, and stays below its tangent at 1, of the given slope
      (1 / ln 2 for the base-2 logarithm). */
  ghost predicate IsLog2(lg: real -> real, slope: real) {
    && lg(2.0) == 1.0
    && (forall x, y :: Multiplies(lg, x, y))
    && (forall x :: BelowTangent(lg, slope, x))
  }

  lemma LogOfOne(lg: real -> real, slope: real)
    requires IsLog2(lg, slope)
    ensures lg(1.0) == 0.0 && slope >= 1.0
  {
    assert Multiplies(lg, 1.0, 1.0);
    assert BelowTangent(lg, slope, 2.0);
  }

  lemma LogBelowOne(lg: real -> real, slope: real, x: real)
    requires IsLog2(lg, slope) && 0.0 < x <= 1.0
    ensures lg(x) <= 0.0
    ensures x < 1.0 ==> lg(x) < 0.0
  {
    LogOfOne(lg, slope);
    assert BelowTangent(lg, slope, x);
    assert slope * (x - 1.0) <= x - 1.0;
  }

  lemma ProductAgainst(q: real, y: real)
    requires y > 0.0
    ensures q <= 0.0 ==> q * y <= 0.0
    ensures q <= 1.0 ==> q * y <= y
    ensures q >= 1.0 ==> q * y >= y
    ensures q < 1.0 ==> q * y < y
  {
  }

  lemma Quotient(x: real, y: real) returns (q: real)
    requires x > 0.0 && y > 0.0
    ensures q == x / y > 0.0 && q * y == x
    ensures x <= y <==> q <= 1.0
    ensures x < y <==> q < 1.0
  {
    q := x / y;
    assert q * y == x;
    ProductAgainst(q, y);
  }

  lemma LogOfProduct(lg: real -> real, slope: real, x: real, y: real, z: real)
    requires IsLog2(lg, slope) && x > 0.0 && y > 0.0 && z == x * y
    ensures lg(z) == lg(x) + lg(y)
  {
    assert Multiplies(lg, x, y);
  }

  lemma LogOfQuotient(lg: real -> real, slope: real, x: real, y: real) returns (q: real)
    requires IsLog2(lg, slope) && x > 0.0 && y > 0.0
    ensures q == x / y > 0.0 && q * y == x
    ensures lg(q) == lg(x) - lg(y)
    ensures x <= y <==> q <= 1.0
    ensures x < y <==> q < 1.0
  {
    q := Quotient(x, y);
    LogOfProduct(lg, slope, q, y, x);
  }

  lemma LogMonotone(lg: real -> real, slope: real, x: real, y: real)
    requires IsLog2(lg, slope) && 0.0 < x <= y
    ensures lg(x) <= lg(y)
    ensures x < y ==> lg(x) < lg(y)
  {
    var q := LogOfQuotient(lg, slope, x, y);
    LogBelowOne(lg, slope, q);
  }

  lemma LogOfDouble(lg: real -> real, slope: real, x: real)
    requires IsLog2(lg, slope) && x > 0.0
    ensures lg(2.0 * x) == 1.0 + lg(x)
    ensures lg(x * x) == 2.0 * lg(x)
  {
    assert Multiplies(lg, 2.0, x);
    assert Multiplies(lg, x, x);
  }

  /** 22 symbols carry less than 4.5 bits, 23 symbols more. */
  lemma BitsAroundTheThreshold(lg: real -> real, slope: real)
    requires IsLog2(lg, slope)
    ensures lg(22.0) < 4.5 < lg(23.0)
  {
    LogOfDouble(lg, slope, 2.0);
    LogOfDouble(lg, slope, 4.0);
    LogOfDouble(lg, slope, 8.0);
    LogOfDouble(lg, slope, 16.0);
    LogOfDouble(lg, slope, 32.0);
    LogOfDouble(lg, slope, 64.0);
    LogOfDouble(lg, slope, 128.0);
    LogOfDouble(lg, slope, 256.0);
    assert lg(512.0) == 9.0;
    LogOfDouble(lg, slope, 22.0);
    LogOfDouble(lg, slope, 23.0);
    LogMonotone(lg, slope, 484.0, 512.0);
    LogMonotone(lg, slope, 512.0, 529.0);
  }

  // ---------------------------------------------------------------- finite sums

  ghost function Sum(f: char -> real, cs: set<char>): real {
    if cs == {} then 0.0
    else
      var c :| c in cs;
      f(c) + Sum(f, cs - {c})
  }

  /** The order in which the terms are taken does not matter. */
  lemma {:induction false} SumPick(f: char -> real, cs: set<char>, c: char)
    requires c in cs
    ensures Sum(f, cs) == f(c) + Sum(f, cs - {c})
    decreases cs
  {
    var d :| d in cs && Sum(f, cs) == f(d) + Sum(f, cs - {d});
    if c != d {
      SumPick(f, cs - {d}, c);
      SumPick(f, cs - {c}, d);
      assert cs - {d} - {c} == cs - {c} - {d};
    }
  }

  function Repeated(b: real, n: nat): real {
    if n == 0 then 0.0 else b + Repeated(b, n - 1)
  }

  lemma {:induction false} RepeatedIsProduct(b: real, n: nat)
    ensures Repeated(b, n) == b * n as real
  {
    if n > 0 {
      RepeatedIsProduct(b, n - 1);
    }
  }

  lemma {:induction false} SumConstant(f: char -> real, b: real, cs: set<char>)
    requires forall c :: c in cs ==> f(c) == b
    ensures Sum(f, cs) == Repeated(b, |cs|)
    decreases cs
  {
    if cs != {} {
      var c :| c in cs;
      SumPick(f, cs, c);
      SumConstant(f, b, cs - {c});
    }
  }

  /** Terms bounded by other terms plus a constant. */
  lemma {:induction false} SumBound(t: char -> real, u: char -> real, b: real, cs: set<char>)
    requires forall c :: c in cs ==> -t(c) <= u(c) + b
    ensures -Sum(t, cs) <= Sum(u, cs) + Repeated(b, |cs|)
    decreases cs
  {
    if cs != {} {
      var c :| c in cs;
      SumPick(t, cs, c);
      SumPick(u, cs, c);
      SumBound(t, u, b, cs - {c});
    }
  }

  ghost function Scaled(a: real, f: char -> real): char -> real {
    c => a * f(c)
  }

  lemma SumScaled(a: real, f: char -> real, cs: set<char>)
    ensures Sum(Scaled(a, f), cs) == a * Sum(f, cs)
  {
  }

  lemma {:induction false} SumSame(f: char -> real, g: char -> real, cs: set<char>)
    requires forall c :: c in cs ==> f(c) == g(c)
    ensures Sum(f, cs) == Sum(g, cs)
    decreases cs
  {
    if cs != {} {
      var c :| c in cs;
      SumPick(f, cs, c);
      SumPick(g, cs, c);
      SumSame(f, g, cs - {c});
    }
  }

  // ---------------------------------------------------------------- entropy

  /** p * lg(p), the entropy term of a character with weight p. */
  ghost function Term(lg: real -> real, p: char -> real): char -> real {
    c => p(c) * lg(p(c))
  }

  /** Positive weights over `cs` that add up to one. */
  ghost predicate Distribution(p: char -> real, cs: set<char>) {
    && cs != {}
    && (forall c :: c in cs ==> p(c) > 0.0)
    && Sum(p, cs) == 1.0
  }

  function Chars(s: string): set<char> {
    set c | c in s
  }

  /** Relative frequency of each character of s. */
  function Frequency(s: string): char -> real
    requires s != []
  {
    c => multiset(s)[c] as real / |s| as real
  }

  /** Shannon entropy, the negated sum of p * lg(p) over the distinct characters. */
  ghost function Bits(lg: real -> real, s: string): real {
    if s == [] then 0.0 else -Sum(Term(lg, Frequency(s)), Chars(s))
  }

  method CountCharacters(s: string) returns (freq: map<char, real>)
    ensures freq.Keys == Chars(s)
    ensures forall c :: c in freq ==> freq[c] == multiset(s)[c] as real
  {
    freq := map[];
    for i := 0 to |s|
      invariant freq.Keys == Chars(s[..i])
      invariant forall c :: c in freq ==> freq[c] == multiset(s[..i])[c] as real
    {
      assert s[..i + 1] == s[..i] + [s[i]];
      freq := freq[s[i] := (if s[i] in freq then freq[s[i]] else 0.0) + 1.0];
    }
    assert s[..|s|] == s;
  }

  method Shannon(lg: real -> real, s: string) returns (h: real)
    ensures h == Bits(lg, s)
  {
    if |s| == 0 {
      return 0.0;
    }
    var freq := CountCharacters(s);
    TermsFromCounts(lg, s, freq);
    h := AddTerms(lg, freq, |s| as real, Term(lg, Frequency(s)));
  }

  lemma TermsFromCounts(lg: real -> real, s: string, freq: map<char, real>)
    requires s != [] && forall c :: c in freq ==> freq[c] == multiset(s)[c] as real
    ensures forall c :: c in freq ==> Term(lg, Frequency(s))(c) == PlogP(lg, freq[c], |s| as real)
  {
    forall c | c in freq
      ensures Term(lg, Frequency(s))(c) == PlogP(lg, freq[c], |s| as real)
    {
      TermFromCount(lg, s, c);
    }
  }

  lemma TermFromCount(lg: real -> real, s: string, c: char)
    requires s != []
    ensures Term(lg, Frequency(s))(c) == PlogP(lg, multiset(s)[c] as real, |s| as real)
  {
  }

  /** The accumulation loop, over the keys of the frequency map in any order. */
  method AddTerms(lg: real -> real, freq: map<char, real>, total: real, ghost t: char -> real) returns (h: real)
    requires total > 0.0
    requires forall c :: c in freq ==> t(c) == PlogP(lg, freq[c], total)
    ensures h == -Sum(t, freq.Keys)
  {
    h := 0.0;
    var todo := freq.Keys;
    while todo != {}
      invariant todo <= freq.Keys
      invariant h == Sum(t, todo) - Sum(t, freq.Keys)
      decreases |todo|
    {
      var c :| c in todo;
      SumPick(t, todo, c);
      h := h - PlogP(lg, freq[c], total);
      todo := todo - {c};
    }
  }

  function PlogP(lg: real -> real, f: real, total: real): real
    requires total > 0.0
  {
    var p := f / total;
    p * lg(p)
  }

  lemma {:induction false} CountsAddUp(m: multiset<char>, f: char -> real, cs: set<char>)
    requires forall c :: c in m ==> c in cs
    requires forall c :: c in cs ==> f(c) == m[c] as real
    ensures Sum(f, cs) == |m| as real
    decreases cs
  {
    if cs == {} {
      assert m == multiset{};
    } else {
      var c :| c in cs;
      SumPick(f, cs, c);
      CountsAddUp(m[c := 0], f, cs - {c});
    }
  }

  lemma FrequencyPositive(s: string, c: char)
    requires c in s
    ensures Frequency(s)(c) > 0.0
  {
  }

  lemma Reciprocal(x: real, n: real, w: real)
    requires n > 0.0 && w == 1.0 / n
    ensures x / n == w * x
  {
  }

  lemma CountsTotal(s: string, counts: char -> real)
    requires forall c :: counts(c) == multiset(s)[c] as real
    ensures Sum(counts, Chars(s)) == |s| as real
  {
    assert forall c :: c in multiset(s) ==> c in s;
    CountsAddUp(multiset(s), counts, Chars(s));
    assert |multiset(s)| == |s|;
  }

  lemma Normalise(f: real, w: real, total: real, n: real)
    requires n > 0.0 && w == 1.0 / n && total == n && f == w * total
    ensures f == 1.0
  {
  }

  lemma FrequencySum(s: string, counts: char -> real, w: real)
    requires s != [] && w == 1.0 / |s| as real
    requires forall c :: counts(c) == multiset(s)[c] as real
    ensures Sum(Frequency(s), Chars(s)) == 1.0
  {
    var cs := Chars(s);
    assert Sum(Frequency(s), cs) == w * Sum(counts, cs) by {
      FrequencyScales(s, counts, w);
      SumOfScaled(Frequency(s), w, counts, cs);
    }
    CountsTotal(s, counts);
    Normalise(Sum(Frequency(s), cs), w, Sum(counts, cs), |s| as real);
  }

  lemma SumOfScaled(f: char -> real, w: real, g: char -> real, cs: set<char>)
    requires forall c :: c in cs ==> f(c) == Scaled(w, g)(c)
    ensures Sum(f, cs) == w * Sum(g, cs)
  {
    SumSame(f, Scaled(w, g), cs);
    SumScaled(w, g, cs);
  }

  /** A relative frequency is a count over the length. */
  lemma FrequencyScales(s: string, counts: char -> real, w: real)
    requires s != [] && w == 1.0 / |s| as real
    requires forall c :: counts(c) == multiset(s)[c] as real
    ensures forall c :: c in Chars(s) ==> Frequency(s)(c) == Scaled(w, counts)(c)
  {
    forall c | c in Chars(s)
      ensures Frequency(s)(c) == Scaled(w, counts)(c)
    {
      FrequencyScalesAt(s, counts, w, c, multiset(s)[c] as real);
    }
  }

  lemma FrequencyScalesAt(s: string, counts: char -> real, w: real, c: char, f: real)
    requires s != [] && w == 1.0 / |s| as real && counts(c) == f == multiset(s)[c] as real
    ensures Frequency(s)(c) == Scaled(w, counts)(c)
  {
    Reciprocal(f, |s| as real, w);
  }

  /** The relative frequencies of a non-empty string form a distribution. */
  lemma FrequencyIsDistribution(s: string)
    requires s != []
    ensures Distribution(Frequency(s), Chars(s))
  {
    assert s[0] in Chars(s);
    forall c | c in Chars(s)
      ensures Frequency(s)(c) > 0.0
    {
      FrequencyPositive(s, c);
    }
    var counts := (c: char) => multiset(s)[c] as real;
    FrequencySum(s, counts, 1.0 / |s| as real);
  }

  /** Gibbs' inequality for one term: -p lg(p) - p lg(k) <= slope * (1/k - p). */
  lemma GibbsTerm(lg: real -> real, slope: real, p: real, k: real)
    requires IsLog2(lg, slope) && p > 0.0 && k > 0.0
    ensures -(p * lg(p)) <= (lg(k) - slope) * p + slope / k
  {
    var kp := k * p;
    assert kp > 0.0;
    LogOfOne(lg, slope);
    var x := LogOfQuotient(lg, slope, 1.0, kp);
    assert Multiplies(lg, k, p);
    assert lg(x) == -(lg(k) + lg(p));
    assert BelowTangent(lg, slope, x);
    var bound := slope * (x - 1.0);
    ScaleUp(p, lg(x), bound);
    assert p * x == 1.0 / k by {
      Cancel(k, p);
    }
    GibbsAlgebra(lg(p), lg(k), slope, p, x, k);
  }

  lemma ScaleUp(p: real, a: real, b: real)
    requires p > 0.0 && a <= b
    ensures p * a <= p * b
  {
  }

  lemma Cancel(k: real, p: real)
    requires k > 0.0 && p > 0.0
    ensures k * p > 0.0 && p * (1.0 / (k * p)) == 1.0 / k
  {
  }

  lemma GibbsAlgebra(lp: real, lk: real, slope: real, p: real, x: real, k: real)
    requires k > 0.0 && p * x == 1.0 / k
    requires p * -(lk + lp) <= p * (slope * (x - 1.0))
    ensures -(p * lp) <= (lk - slope) * p + slope / k
  {
  }

  /** Gibbs' inequality over a distribution. */
  lemma Gibbs(lg: real -> real, slope: real, p: char -> real, cs: set<char>)
    requires IsLog2(lg, slope) && Distribution(p, cs)
    ensures -Sum(Term(lg, p), cs) <= lg(|cs| as real)
  {
    var k := |cs| as real;
    var a, b := lg(k) - slope, slope / k;
    var u := Scaled(a, p);
    GibbsTerms(lg, slope, p, cs, a, b);
    SumBound(Term(lg, p), u, b, cs);
    SumScaled(a, p, cs);
    RepeatedIsProduct(b, |cs|);
    GibbsFinish(a, b, k, slope, lg(k));
  }

  lemma GibbsTerms(lg: real -> real, slope: real, p: char -> real, cs: set<char>, a: real, b: real)
    requires IsLog2(lg, slope) && Distribution(p, cs)
    requires a == lg(|cs| as real) - slope && b == slope / |cs| as real
    ensures forall c :: c in cs ==> -Term(lg, p)(c) <= Scaled(a, p)(c) + b
  {
    forall c | c in cs
      ensures -Term(lg, p)(c) <= Scaled(a, p)(c) + b
    {
      GibbsTerm(lg, slope, p(c), |cs| as real);
    }
  }

  lemma GibbsFinish(a: real, b: real, k: real, slope: real, lk: real)
    requires k > 0.0 && a == lk - slope && b == slope / k
    ensures a * 1.0 + b * k == lk
  {
  }

  lemma {:induction false} WeightAtMostOne(p: char -> real, cs: set<char>, c: char)
    requires Distribution(p, cs) && c in cs
    ensures p(c) <= 1.0
    ensures p(c) == 1.0 <==> cs == {c}
  {
    SumPick(p, cs, c);
    if cs != {c} {
      var d :| d in cs - {c};
      SumPick(p, cs - {c}, d);
      SumNonNegative(p, cs - {c} - {d});
    } else {
      assert cs - {c} == {};
    }
  }

  lemma {:induction false} SumNonNegative(f: char -> real, cs: set<char>)
    requires forall c :: c in cs ==> f(c) >= 0.0
    ensures Sum(f, cs) >= 0.0
    decreases cs
  {
    if cs != {} {
      var c :| c in cs;
      SumPick(f, cs, c);
      SumNonNegative(f, cs - {c});
    }
  }

  lemma TermSign(lg: real -> real, slope: real, p: char -> real, cs: set<char>, c: char)
    requires IsLog2(lg, slope) && Distribution(p, cs) && c in cs
    ensures Term(lg, p)(c) <= 0.0
    ensures Term(lg, p)(c) == 0.0 <==> cs == {c}
  {
    WeightAtMostOne(p, cs, c);
    LogOfOne(lg, slope);
    LogBelowOne(lg, slope, p(c));
    ProductSign(p(c), lg(p(c)));
  }

  lemma ProductSign(p: real, l: real)
    requires p > 0.0 && l <= 0.0
    ensures p * l <= 0.0 && (p * l == 0.0 <==> l == 0.0)
  {
  }

  lemma EntropySign(lg: real -> real, slope: real, p: char -> real, cs: set<char>)
    requires IsLog2(lg, slope) && Distribution(p, cs)
    ensures Sum(Term(lg, p), cs) <= 0.0
    ensures Sum(Term(lg, p), cs) == 0.0 <==> |cs| == 1
  {
    forall c | c in cs
      ensures Term(lg, p)(c) <= 0.0
    {
      TermSign(lg, slope, p, cs, c);
    }
    var c :| c in cs;
    TermSign(lg, slope, p, cs, c);
    SumBelowTerm(Term(lg, p), cs, c);
    assert |cs| == 1 <==> cs == {c} by {
      SingletonIff(cs, c);
    }
  }

  lemma SingletonIff(cs: set<char>, c: char)
    requires c in cs
    ensures |cs| == 1 <==> cs == {c}
  {
    assert |cs - {c}| == |cs| - 1;
    if |cs| == 1 {
      assert cs - {c} == {};
    }
  }

  lemma {:induction false} SumBelowTerm(f: char -> real, cs: set<char>, c: char)
    requires c in cs && forall d :: d in cs ==> f(d) <= 0.0
    ensures Sum(f, cs) <= f(c) && (cs == {c} ==> Sum(f, cs) == f(c))
    decreases cs
  {
    SumPick(f, cs, c);
    if cs - {c} != {} {
      var d :| d in cs - {c};
      SumBelowTerm(f, cs - {c}, d);
    }
  }

  lemma UniformSum(lg: real -> real, slope: real, p: char -> real, cs: set<char>, w: real)
    requires IsLog2(lg, slope) && Distribution(p, cs)
    requires forall c :: c in cs ==> p(c) == w
    ensures -Sum(Term(lg, p), cs) == lg(|cs| as real)
  {
    UniformWeight(p, cs, w);
    LogOfOne(lg, slope);
    LogOfProduct(lg, slope, w, |cs| as real, 1.0);
    UniformTerms(lg, p, cs, w, lg(w));
  }

  lemma UniformWeight(p: char -> real, cs: set<char>, w: real)
    requires Distribution(p, cs) && forall c :: c in cs ==> p(c) == w
    ensures w > 0.0 && w * |cs| as real == 1.0
  {
    SumConstant(p, w, cs);
    RepeatedIsProduct(w, |cs|);
    var c :| c in cs;
    assert p(c) == w;
  }

  lemma UniformTerms(lg: real -> real, p: char -> real, cs: set<char>, w: real, l: real)
    requires l == lg(w) && Sum(p, cs) == 1.0 && forall c :: c in cs ==> p(c) == w
    ensures Sum(Term(lg, p), cs) == l
  {
    SumSame(Term(lg, p), Scaled(l, p), cs);
    SumScaled(l, p, cs);
  }

  /** Entropy is at most the logarithm of the number of distinct characters. */
  lemma EntropyUpperBound(lg: real -> real, slope: real, s: string)
    requires IsLog2(lg, slope) && s != []
    ensures Chars(s) != {} && Bits(lg, s) <= lg(|Chars(s)| as real)
  {
    FrequencyIsDistribution(s);
    Gibbs(lg, slope, Frequency(s), Chars(s));
  }

  /** Entropy is never negative, and zero exactly when there is at most one distinct character. */
  lemma EntropyLowerBound(lg: real -> real, slope: real, s: string)
    requires IsLog2(lg, slope)
    ensures Bits(lg, s) >= 0.0
    ensures Bits(lg, s) == 0.0 <==> |Chars(s)| <= 1
  {
    if s == [] {
      assert Chars(s) == {};
    } else {
      FrequencyIsDistribution(s);
      EntropySign(lg, slope, Frequency(s), Chars(s));
    }
  }

  /** When all frequencies are equal the upper bound is met. */
  lemma UniformEntropy(lg: real -> real, slope: real, s: string)
    requires IsLog2(lg, slope) && s != []
    requires forall c :: c in s ==> multiset(s)[c] == multiset(s)[s[0]]
    ensures Bits(lg, s) == lg(|Chars(s)| as real)
  {
    FrequencyIsDistribution(s);
    UniformSum(lg, slope, Frequency(s), Chars(s), Frequency(s)(s[0]));
  }

  /** f * lg(f) for the number f of times a character occurs. */
  ghost function CountTerm(lg: real -> real, s: string): char -> real {
    c => multiset(s)[c] as real * lg(multiset(s)[c] as real)
  }

  ghost function Counts(s: string): char -> real {
    c => multiset(s)[c] as real
  }

  /** One term, with the length of the string taken out of the logarithm. */
  lemma TermByCount(lg: real -> real, slope: real, f: real, n: real)
    requires IsLog2(lg, slope) && f > 0.0 && n > 0.0
    ensures n * (f / n * lg(f / n)) == f * lg(f) + -lg(n) * f
  {
    var q := LogOfQuotient(lg, slope, f, n);
    TermAlgebra(q, f, n, lg(f), lg(n));
  }

  lemma TermAlgebra(q: real, f: real, n: real, x: real, y: real)
    requires q * n == f
    ensures n * (q * (x - y)) == f * x + -y * f
  {
    assert n * (q * (x - y)) == (q * n) * (x - y);
  }

  lemma TermAtCount(lg: real -> real, slope: real, s: string, c: char, n: real)
    requires IsLog2(lg, slope) && c in s && n == |s| as real
    ensures Scaled(n, Term(lg, Frequency(s)))(c) == CountTerm(lg, s)(c) + Scaled(-lg(n), Counts(s))(c)
  {
    var f := multiset(s)[c] as real;
    assert Frequency(s)(c) == f / n;
    TermByCount(lg, slope, f, n);
  }

  lemma TermsAtCounts(lg: real -> real, slope: real, s: string, n: real)
    requires IsLog2(lg, slope) && s != [] && n == |s| as real
    ensures forall c :: c in Chars(s) ==>
        Scaled(n, Term(lg, Frequency(s)))(c) == CountTerm(lg, s)(c) + Scaled(-lg(n), Counts(s))(c)
  {
    forall c | c in Chars(s)
      ensures Scaled(n, Term(lg, Frequency(s)))(c) == CountTerm(lg, s)(c) + Scaled(-lg(n), Counts(s))(c)
    {
      TermAtCount(lg, slope, s, c, n);
    }
  }

  /** Multiplication under a name, so that equal factors give equal terms. */
  function Times(x: real, y: real): real {
    x * y
  }

  lemma SumTimes(a: real, f: char -> real, cs: set<char>)
    ensures Sum(Scaled(a, f), cs) == Times(a, Sum(f, cs))
  {
    SumScaled(a, f, cs);
  }

  lemma SumOfParts(t: char -> real, g: char -> real, f: char -> real, cs: set<char>, n: real, l: real)
    requires forall c :: c in cs ==> Scaled(n, t)(c) == g(c) + Scaled(l, f)(c)
    ensures Times(n, Sum(t, cs)) == Sum(g, cs) + Times(l, Sum(f, cs))
  {
    SumAdds(Scaled(n, t), g, Scaled(l, f), cs);
    SumTimes(n, t, cs);
    SumTimes(l, f, cs);
  }

  lemma Rearranged(n: real, t: real, g: real, l: real, m: real)
    requires Times(n, t) == g + Times(-l, m) && m == n
    ensures Times(n, -t) == Times(n, l) - g
  {
    assert n * -t == -(n * t) && -l * n == -(n * l);
  }

  /** Entropy from the counts alone: a string of length n holds n * lg(n) bits less f * lg(f) for every character
      that occurs f times. */
  lemma EntropyByCounts(lg: real -> real, slope: real, s: string, n: real)
    requires IsLog2(lg, slope) && s != [] && n == |s| as real
    ensures Times(n, Bits(lg, s)) == Times(n, lg(n)) - Sum(CountTerm(lg, s), Chars(s))
  {
    var cs := Chars(s);
    assert Times(n, Sum(Term(lg, Frequency(s)), cs)) == Sum(CountTerm(lg, s), cs) + Times(-lg(n), Sum(Counts(s), cs)) by {
      TermsAtCounts(lg, slope, s, n);
      SumOfParts(Term(lg, Frequency(s)), CountTerm(lg, s), Counts(s), cs, n, -lg(n));
    }
    assert Sum(Counts(s), cs) == n by {
      CountsTotal(s, Counts(s));
    }
    Rearranged(n, Sum(Term(lg, Frequency(s)), cs), Sum(CountTerm(lg, s), cs), lg(n), Sum(Counts(s), cs));
  }

  lemma {:induction false} SumAdds(t: char -> real, f: char -> real, g: char -> real, cs: set<char>)
    requires forall c :: c in cs ==> t(c) == f(c) + g(c)
    ensures Sum(t, cs) == Sum(f, cs) + Sum(g, cs)
    decreases cs
  {
    if cs != {} {
      var c :| c in cs;
      SumPick(t, cs, c);
      SumPick(f, cs, c);
      SumPick(g, cs, c);
      SumAdds(t, f, g, cs - {c});
    }
  }

  // ---------------------------------------------------------------- the scanner

  const DEFAULT_THRESHOLD := 4.5
  const MIN_LENGTH := 12

  predicate Base64Char(c: char) {
    'A' <= c <= 'Z' || 'a' <= c <= 'z' || '0' <= c <= '9' || c in {'+', '/', '=', '_', '-'}
  }

  predicate HexChar(c: char) {
    '0' <= c <= '9' || 'a' <= c <= 'f' || 'A' <= c <= 'F'
  }

  predicate Base64Alphabet(s: string) {
    |s| >= 12 && forall i :: 0 <= i < |s| ==> Base64Char(s[i])
  }

  predicate HexAlphabet(s: string) {
    |s| >= 16 && forall i :: 0 <= i < |s| ==> HexChar(s[i])
  }

  predicate IsCandidate(s: string) {
    |s| >= MIN_LENGTH && (Base64Alphabet(s) || HexAlphabet(s))
  }

  function Redact(s: string): string {
    if |s| <= 8 then "***" else s[..4] + "***" + s[|s| - 4..]
  }

  /** What is left of a value of more than eight characters: its first four and its last four. */
  predicate RedactionOf(v: string, shown: string) {
    |v| > 8 && |shown| == 11 && shown[..4] == v[..4] && shown[4..7] == "***" && shown[7..] == v[|v| - 4..]
  }

  lemma RedactShows(v: string)
    ensures if |v| <= 8 then Redact(v) == "***" else RedactionOf(v, Redact(v))
  {
  }

  /** Nothing else of the value can be told from its redaction. */
  lemma RedactHides(v: string, w: string)
    requires |v| > 8 && |w| > 8
    ensures Redact(v) == Redact(w) <==> v[..4] == w[..4] && v[|v| - 4..] == w[|w| - 4..]
  {
    RedactShows(v);
    RedactShows(w);
  }

  /** The candidates: at least twelve characters, all of them letters, digits or one of the five signs. */
  lemma CandidateIff(v: string)
    ensures IsCandidate(v) <==> |v| >= 12 && forall i :: 0 <= i < |v| ==> Allowed(v[i])
  {
    forall i | 0 <= i < |v|
      ensures (Base64Char(v[i]) <==> Allowed(v[i])) && (HexChar(v[i]) ==> Base64Char(v[i]))
    {
      AllowedIff(v[i]);
    }
  }

  predicate Allowed(c: char) {
    c in {'A', 'B', 'C', 'D', 'E', 'F', 'G', 'H', 'I', 'J', 'K', 'L', 'M', 'N', 'O', 'P', 'Q', 'R', 'S', 'T', 'U', 'V', 'W', 'X', 'Y', 'Z'}
    || c in {'a', 'b', 'c', 'd', 'e', 'f', 'g', 'h', 'i', 'j', 'k', 'l', 'm', 'n', 'o', 'p', 'q', 'r', 's', 't', 'u', 'v', 'w', 'x', 'y', 'z'}
    || c in {'0', '1', '2', '3', '4', '5', '6', '7', '8', '9', '+', '/', '=', '_', '-'}
  }

  lemma AllowedIff(c: char)
    ensures Base64Char(c) <==> Allowed(c)
    ensures HexChar(c) <==> c in {'0', '1', '2', '3', '4', '5', '6', '7', '8', '9', 'a', 'b', 'c', 'd', 'e', 'f', 'A', 'B', 'C', 'D', 'E', 'F'}
  {
  }

  datatype Finding = Finding(file: string, line: nat, value: string, entropy: real, context: string)

  predicate IsComment(line: string) {
    var t := TrimSpace(line);
    "//" <= t || "#" <= t || "*" <= t
  }

  /** A line is a comment exactly when, after white space, it goes on with '#', '*' or two slashes. */
  lemma CommentIff(pad: string, rest: string)
    requires AllSpace(pad) && (rest == "" || !IsSpace(rest[0]))
    ensures IsComment(pad + rest) <==>
        rest != "" && (rest[0] == '#' || rest[0] == '*' || (rest[0] == '/' && |rest| > 1 && rest[1] == '/'))
  {
    TrimLeftOf(pad, rest);
    var right := TrimRightIs(rest);
    var t := TrimRight(rest);
    assert TrimSpace(pad + rest) == t && rest == t + right;
    assert rest != "" ==> t != "";
    assert |t| > 1 ==> rest[1] == t[1];
    assert |t| == 1 && |rest| > 1 ==> IsSpace(rest[1]);
  }

  function Effective(threshold: real): real {
    if threshold <= 0.0 then DEFAULT_THRESHOLD else threshold
  }

  /** Candidate j of line i is reported; `extract` gives the quoted values assigned on a line. */
  ghost predicate Reported(lg: real -> real, extract: string -> seq<string>, lines: seq<string>, threshold: real, i: int, j: int) {
    && 0 <= i < |lines| && !IsComment(lines[i])
    && 0 <= j < |extract(lines[i])|
    && IsCandidate(extract(lines[i])[j])
    && Bits(lg, extract(lines[i])[j]) >= (if threshold <= 0.0 then 4.5 else threshold)
  }

  ghost function FindingAt(lg: real -> real, extract: string -> seq<string>, path: string, lines: seq<string>, i: int, j: int): Finding
    requires 0 <= i < |lines| && 0 <= j < |extract(lines[i])|
  {
    var v := extract(lines[i])[j];
    Finding(path, i + 1, Redact(v), Bits(lg, v), TrimSpace(lines[i]))
  }

  /** Positions (line, candidate) in reading order. */
  ghost predicate Before(a: (int, int), b: (int, int)) {
    a.0 < b.0 || (a.0 == b.0 && a.1 < b.1)
  }

  /** `at` lists, in reading order and once each, the positions below (i, j) where `hit` holds. */
  ghost predicate Lists(hit: (int, int) -> bool, at: seq<(int, int)>, i: int, j: int) {
    && (forall k :: 0 <= k < |at| ==> Before(at[k], (i, j)) && hit(at[k].0, at[k].1))
    && (forall a, b :: Before((a, b), (i, j)) && hit(a, b) ==> (a, b) in at)
    && (forall k, l :: 0 <= k < l < |at| ==> Before(at[k], at[l]))
  }

  lemma PassOver(hit: (int, int) -> bool, at: seq<(int, int)>, i: int, j: int)
    requires Lists(hit, at, i, j) && !hit(i, j)
    ensures Lists(hit, at, i, j + 1)
  {
  }

  lemma Record(hit: (int, int) -> bool, at: seq<(int, int)>, i: int, j: int)
    requires Lists(hit, at, i, j) && hit(i, j)
    ensures Lists(hit, at + [(i, j)], i, j + 1)
  {
  }

  lemma RowDone(hit: (int, int) -> bool, at: seq<(int, int)>, i: int, j: int)
    requires Lists(hit, at, i, j)
    requires forall a, b :: hit(a, b) ==> 0 <= b && (a == i ==> b < j)
    ensures Lists(hit, at, i + 1, 0)
  {
  }

  ghost function ReportedAt(lg: real -> real, extract: string -> seq<string>, lines: seq<string>, threshold: real): (int, int) -> bool {
    (i, j) => Reported(lg, extract, lines, threshold, i, j)
  }

  /** `findings` are the findings at the positions `at`, in order. */
  ghost predicate FindingsFor(lg: real -> real, extract: string -> seq<string>, path: string, lines: seq<string>,
                              findings: seq<Finding>, at: seq<(int, int)>) {
    && |findings| == |at|
    && forall k :: 0 <= k < |at| ==>
         && 0 <= at[k].0 < |lines| && 0 <= at[k].1 < |extract(lines[at[k].0])|
         && Describes(lg, path, lines[at[k].0], at[k].0, extract(lines[at[k].0])[at[k].1], findings[k])
  }

  /** The finding for a value on a line: the file, the line's number counted from one, the redacted value, its entropy
      and the trimmed line. */
  ghost predicate Describes(lg: real -> real, path: string, line: string, i: int, v: string, f: Finding) {
    && f.file == path && f.line == i + 1 && RedactionOf(v, f.value) && f.entropy == Bits(lg, v)
    && f.context == TrimSpace(line)
  }

  /** One candidate: the body of the scanner's inner loop. */
  method ScanCandidate(lg: real -> real, extract: string -> seq<string>, path: string, lines: seq<string>, threshold: real,
                       i: nat, j: nat) returns (found: seq<Finding>)
    requires i < |lines| && !IsComment(lines[i]) && j < |extract(lines[i])|
    ensures Reported(lg, extract, lines, threshold, i, j) ==> found == [FindingAt(lg, extract, path, lines, i, j)]
    ensures !Reported(lg, extract, lines, threshold, i, j) ==> found == []
  {
    var cut := if threshold <= 0.0 then DEFAULT_THRESHOLD else threshold;
    var candidate := extract(lines[i])[j];
    if !IsCandidate(candidate) {
      return [];
    }
    var e := Shannon(lg, candidate);
    if e >= cut {
      return [Finding(path, i + 1, Redact(candidate), e, TrimSpace(lines[i]))];
    }
    return [];
  }

  lemma FindingsSnoc(lg: real -> real, extract: string -> seq<string>, path: string, lines: seq<string>,
                     findings: seq<Finding>, at: seq<(int, int)>, i: int, j: int)
    requires FindingsFor(lg, extract, path, lines, findings, at)
    requires 0 <= i < |lines| && 0 <= j < |extract(lines[i])| && |extract(lines[i])[j]| >= 12
    ensures FindingsFor(lg, extract, path, lines, findings + [FindingAt(lg, extract, path, lines, i, j)], at + [(i, j)])
  {
    RedactShows(extract(lines[i])[j]);
  }

  /** One line: the scanner's inner loop, appending to what the earlier lines gave. */
  method ScanLine(lg: real -> real, extract: string -> seq<string>, path: string, lines: seq<string>, threshold: real,
                  i: nat, before: seq<Finding>, ghost atBefore: seq<(int, int)>)
    returns (findings: seq<Finding>, ghost at: seq<(int, int)>)
    requires i < |lines| && !IsComment(lines[i])
    requires Lists(ReportedAt(lg, extract, lines, threshold), atBefore, i, 0)
    requires FindingsFor(lg, extract, path, lines, before, atBefore)
    ensures Lists(ReportedAt(lg, extract, lines, threshold), at, i, |extract(lines[i])|)
    ensures FindingsFor(lg, extract, path, lines, findings, at)
  {
    ghost var hit := ReportedAt(lg, extract, lines, threshold);
    findings, at := before, atBefore;
    for j := 0 to |extract(lines[i])|
      invariant Lists(hit, at, i, j)
      invariant FindingsFor(lg, extract, path, lines, findings, at)
    {
      var found := ScanCandidate(lg, extract, path, lines, threshold, i, j);
      if hit(i, j) {
        Record(hit, at, i, j);
        FindingsSnoc(lg, extract, path, lines, findings, at, i, j);
        at := at + [(i, j)];
      } else {
        PassOver(hit, at, i, j);
      }
      findings := findings + found;
    }
  }

  /** The scanner reports exactly the reportable candidates, each once, in reading order. */
  method Scan(lg: real -> real, extract: string -> seq<string>, path: string, content: string, threshold: real)
    returns (findings: seq<Finding>, ghost at: seq<(int, int)>)
    ensures Lists(ReportedAt(lg, extract, Lines(content), threshold), at, |Lines(content)|, 0)
    ensures FindingsFor(lg, extract, path, Lines(content), findings, at)
  {
    var lines := Lines(content);
    ghost var hit := ReportedAt(lg, extract, lines, threshold);
    findings, at := [], [];
    for i := 0 to |lines|
      invariant Lists(hit, at, i, 0)
      invariant FindingsFor(lg, extract, path, lines, findings, at)
    {
      ghost var n := 0;
      if !IsComment(lines[i]) {
        findings, at := ScanLine(lg, extract, path, lines, threshold, i, findings, at);
        n := |extract(lines[i])|;
      }
      RowDone(hit, at, i, n);
    }
  }

  /** The n characters from lo on. */
  ghost function CharRange(lo: nat, n: nat): (cs: set<char>)
    requires lo + n <= 128
    ensures |cs| <= n && forall c: char :: lo <= c as int < lo + n ==> c in cs
  {
    if n == 0 then {} else CharRange(lo, n - 1) + {(lo + n - 1) as char}
  }

  lemma SubsetSize(a: set<char>, b: set<char>)
    requires a <= b
    ensures |a| <= |b|
  {
    assert b == a + (b - a);
  }

  lemma UnionSize(a: set<char>, b: set<char>)
    ensures |a + b| <= |a| + |b|
  {
  }

  lemma HexUsesAtMost22(v: string)
    requires HexAlphabet(v)
    ensures |Chars(v)| <= 22
  {
    var digits, lower, upper := CharRange('0' as int, 10), CharRange('a' as int, 6), CharRange('A' as int, 6);
    UnionSize(digits, lower);
    UnionSize(digits + lower, upper);
    forall c | c in Chars(v)
      ensures c in digits + lower + upper
    {
      assert HexChar(c);
    }
    SubsetSize(Chars(v), digits + lower + upper);
  }

  lemma DiverseEnough(lg: real -> real, slope: real, v: string)
    requires IsLog2(lg, slope) && v != [] && Bits(lg, v) >= DEFAULT_THRESHOLD
    ensures |Chars(v)| >= 23
  {
    EntropyUpperBound(lg, slope, v);
    BitsAroundTheThreshold(lg, slope);
    if |Chars(v)| <= 22 {
      LogMonotone(lg, slope, |Chars(v)| as real, 22.0);
    }
  }

  /** Whatever is reported uses enough distinct characters: at least 2 to the threshold, so at
      least 23 at the default threshold; in particular no hexadecimal value of any length. */
  lemma ReportedValuesAreDiverse(lg: real -> real, slope: real, extract: string -> seq<string>,
                                 lines: seq<string>, threshold: real, i: int, j: int)
    requires IsLog2(lg, slope)
    ensures Reported(lg, extract, lines, threshold, i, j) ==>
        var v := extract(lines[i])[j];
        && Chars(v) != {} && lg(|Chars(v)| as real) >= Effective(threshold)
        && (Effective(threshold) >= DEFAULT_THRESHOLD ==> |Chars(v)| >= 23 && !HexAlphabet(v))
  {
    if Reported(lg, extract, lines, threshold, i, j) {
      var v := extract(lines[i])[j];
      EntropyUpperBound(lg, slope, v);
      if Effective(threshold) >= DEFAULT_THRESHOLD {
        DiverseEnough(lg, slope, v);
        if HexAlphabet(v) {
          HexUsesAtMost22(v);
        }
      }
    }
  }

  /** The bound of 23 is exact: a candidate of 23 or more equally frequent characters is reported. */
  lemma TwentyThreeIsEnough(lg: real -> real, slope: real, extract: string -> seq<string>,
                            lines: seq<string>, threshold: real, i: int, j: int)
    requires IsLog2(lg, slope) && Effective(threshold) <= DEFAULT_THRESHOLD
    requires 0 <= i < |lines| && !IsComment(lines[i]) && 0 <= j < |extract(lines[i])|
    requires var v := extract(lines[i])[j];
             && IsCandidate(v) && |Chars(v)| >= 23
             && forall c :: c in v ==> multiset(v)[c] == multiset(v)[v[0]]
    ensures Reported(lg, extract, lines, threshold, i, j)
  {
    var v := extract(lines[i])[j];
    UniformEntropy(lg, slope, v);
    BitsAroundTheThreshold(lg, slope);
    LogMonotone(lg, slope, 23.0, |Chars(v)| as real);
  }

  // ---------------------------------------------------------------- what over-long lines hide

  /** 23 different characters of the base64 alphabet. */
  function Diverse(): string {
    seq(23, i requires 0 <= i < 23 => ('A' as int + i) as char)
  }

  lemma {:induction false} DistinctCharacters(s: string)
    requires forall i, j :: 0 <= i < j < |s| ==> s[i] != s[j]
    ensures |Chars(s)| == |s| && forall c :: c in s ==> multiset(s)[c] == 1
  {
    if s != [] {
      var n := |s| - 1;
      DistinctCharacters(s[..n]);
      assert s == s[..n] + [s[n]] && s[n] !in s[..n];
      assert Chars(s) == Chars(s[..n]) + {s[n]};
    }
  }

  /** The scanner's lines give the same report, candidate by candidate, as all the lines of the text. */
  ghost predicate SameReport(lg: real -> real, content: string, threshold: real, extract: string -> seq<string>, i: int, j: int) {
    Reported(lg, extract, Lines(content), threshold, i, j) <==> Reported(lg, extract, AllLines(content), threshold, i, j)
  }

  /** Some line that is not a comment stands behind an over-long one. */
  ghost predicate HidesCode(content: string) {
    exists l :: |Lines(content)| <= l < |AllLines(content)| && !IsComment(AllLines(content)[l])
  }

  lemma HiddenSecret(lg: real -> real, slope: real, content: string, threshold: real, l: nat)
    requires IsLog2(lg, slope) && Effective(threshold) <= DEFAULT_THRESHOLD
    requires |Lines(content)| <= l < |AllLines(content)| && !IsComment(AllLines(content)[l])
    ensures !SameReport(lg, content, threshold, _ => [Diverse()], l, 0)
  {
    DistinctCharacters(Diverse());
    TwentyThreeIsEnough(lg, slope, _ => [Diverse()], AllLines(content), threshold, l, 0);
  }

  lemma NothingHiddenSame(lg: real -> real, content: string, threshold: real, extract: string -> seq<string>, i: int, j: int)
    requires !HidesCode(content)
    ensures SameReport(lg, content, threshold, extract, i, j)
  {
    EverythingIsScannedIff(content);
    assert 0 <= i < |Lines(content)| ==> Lines(content)[i] == AllLines(content)[i];
  }

  /** At the default threshold or below, whatever the candidates are, the scanner reports all that the text holds
      exactly when nothing but comments stands behind its first over-long line. */
  lemma ScanMissesNothingIff(lg: real -> real, slope: real, content: string, threshold: real)
    requires IsLog2(lg, slope) && Effective(threshold) <= DEFAULT_THRESHOLD
    ensures (forall extract: string -> seq<string>, i: int, j: int :: SameReport(lg, content, threshold, extract, i, j))
       <==> !HidesCode(content)
  {
    if HidesCode(content) {
      var l :| |Lines(content)| <= l < |AllLines(content)| && !IsComment(AllLines(content)[l]);
      HiddenSecret(lg, slope, content, threshold, l);
    } else {
      forall extract: string -> seq<string>, i: int, j: int
        ensures SameReport(lg, content, threshold, extract, i, j)
      {
        NothingHiddenSame(lg, content, threshold, extract, i, j);
      }
    }
  }
}
