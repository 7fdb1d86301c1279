/** What the planner's score says about a candidate (benchmarks/matmul/config.py). */
module Scores {
  import opened Arith
  import opened Search
  import opened Planner

  // ----- The score in a candidate's own terms -----

  /** A candidate's block volume, cores, padding, K parts and blocks per core. */
  datatype Terms = Terms(vol: nat, cores: nat, pad: real, kp: nat, iters: nat) {
    predicate Valid() { vol >= 1 && cores >= 1 && pad >= 1.0 && kp >= 1 }

    /** Kp - 1 gathers for each block. */
    function Gathers(): nat
      requires Valid()
    {
      (kp - 1) * iters
    }
  }

  function Product(a: nat, b: nat, c: nat): nat { a * b * c }

  function TermsOf(t: Triple, lim: Limits, c: Cand): Terms
    requires InRange(t, lim, c)
  {
    Terms(Product(c.b.m, c.b.n, c.b.k), Product(c.mp, c.np, KParts(t, lim, c)), Pad(t, c), KParts(t, lim, c),
          Product(CeilDiv(t.m / c.b.m, c.mp), CeilDiv(t.n / c.b.n, c.np), 1))
  }

  lemma Quotient(x: real, d: real)
    requires d > 0.0
    ensures x / d * d == x
  {
  }

  lemma RatioOfProducts(x: real, m: real, y: real, n: real)
    requires m > 0.0 && n > 0.0
    ensures x / m * y / n * (m * n) == x * y
  {
    var p := x / m;
    Quotient(x, m);
    var q := p * y / n;
    Quotient(p * y, n);
    assert q * (m * n) == (q * n) * m;
    assert (p * y) * m == (p * m) * y;
  }

  /** The padding ratio, multiplied out: partitions times blocks per partition over blocks, in both dimensions. */
  lemma PadIs(t: Triple, lim: Limits, c: Cand)
    requires InRange(t, lim, c)
    ensures Pad(t, c) * ((t.m / c.b.m) as real * (t.n / c.b.n) as real)
            == (c.mp * CeilDiv(t.m / c.b.m, c.mp)) as real * (c.np * CeilDiv(t.n / c.b.n, c.np)) as real
  {
    hide CeilDiv;
    RatioOfProducts((c.mp * CeilDiv(t.m / c.b.m, c.mp)) as real, (t.m / c.b.m) as real,
                    (c.np * CeilDiv(t.n / c.b.n, c.np)) as real, (t.n / c.b.n) as real);
  }

  /** The divisor of the throughput: padding, block overhead and gather penalty. */
  function Divisor(lim: Limits, vol: nat, pad: real, g: nat): real
  {
    pad * (vol as real + lim.alpha) * (1.0 + lim.beta * g as real)
  }

  /** The throughput of these terms is the one over the other. */
  function Num(q: Terms): real { (q.cores * q.vol) as real }

  function Den(lim: Limits, q: Terms): real
    requires q.Valid()
  {
    Divisor(lim, q.vol, q.pad, q.Gathers())
  }

  /** Throughput times its divisor is cores times block volume, and the other entries of the score are volume,
      negated padding, cores and negated Kp. */
  predicate Rates(s: Score, lim: Limits, q: Terms)
    requires q.Valid()
  {
    && s.throughput * Den(lim, q) == Num(q)
    && s.vol == q.vol && s.negPad == -q.pad && s.cores == q.cores && s.negKp == -(q.kp as int)
  }

  lemma ScoreFromRates(lim: Limits, q: Terms)
    requires ValidLimits(lim) && q.Valid()
    ensures Rates(ScoreFrom(lim, q.vol, q.cores, q.pad, q.kp, q.iters), lim, q)
  {
    Quotient((q.cores * q.vol) as real, Cost(q.pad, q.vol, lim.alpha, lim.beta, (q.kp - 1) * q.iters));
  }

  lemma ScoreIsFrom(t: Triple, lim: Limits, c: Cand, q: Terms)
    requires ValidLimits(lim) && InRange(t, lim, c) && q == TermsOf(t, lim, c) && q.Valid()
    ensures ScoreFn(t, lim)(c) == ScoreFrom(lim, q.vol, q.cores, q.pad, q.kp, q.iters)
  {
    hide Pad, CeilDiv, ScoreFrom, KParts;
  }

  lemma TermsAreValid(t: Triple, lim: Limits, c: Cand)
    requires InRange(t, lim, c)
    ensures TermsOf(t, lim, c).Valid()
  {
    PadAtLeastPadM(t, c);
    VolumePositive(c.b.m, c.b.n, c.b.k);
    VolumePositive(c.mp, c.np, KParts(t, lim, c));
    hide Pad, CeilDiv, KParts;
  }

  /** The score of a candidate is the rating of its own terms. */
  lemma ScoreIs(t: Triple, lim: Limits, c: Cand)
    requires ValidLimits(lim) && InRange(t, lim, c)
    ensures TermsOf(t, lim, c).Valid() && Rates(ScoreFn(t, lim)(c), lim, TermsOf(t, lim, c))
  {
    TermsAreValid(t, lim, c);
    hide *;
    ScoreIsFrom(t, lim, c, TermsOf(t, lim, c));
    ScoreFromRates(lim, TermsOf(t, lim, c));
  }

  // ----- Comparing two ratings -----

  lemma DivisorPositive(lim: Limits, vol: nat, pad: real, g: nat)
    requires ValidLimits(lim) && vol >= 1 && pad >= 1.0
    ensures Divisor(lim, vol, pad, g) > 0.0
  {
    assert Cost(pad, vol, lim.alpha, lim.beta, g) == Divisor(lim, vol, pad, g);
  }

  /** x and x' compare as n / d and n' / d' do. */
  predicate Ranked(x: real, d: real, n: real, x': real, d': real, n': real)
  {
    (n * d' > n' * d ==> x > x') && (n * d' == n' * d ==> x == x')
  }

  /** Fractions compare as their cross products. */
  lemma FractionOrder(x: real, d: real, n: real, x': real, d': real, n': real)
    requires d > 0.0 && d' > 0.0 && x * d == n && x' * d' == n' && n' > 0.0 && n > 0.0
    ensures Ranked(x, d, n, x', d', n')
  {
    assert (x - x') * (d * d') == n * d' - n' * d by {
      assert x * (d * d') == x * d * d';
      assert x' * (d * d') == x' * d' * d;
    }
    assert d * d' > 0.0;
    if x <= x' {
      assert (x - x') * (d * d') <= 0.0;
    }
    if x < x' {
      assert (x' - x) * (d * d') > 0.0;
    }
  }

  /** Two ratings compare as the fractions of their terms. */
  ghost predicate Ordered(lim: Limits, s: Score, q: Terms, s': Score, q': Terms)
    requires q.Valid() && q'.Valid()
  {
    && Den(lim, q) > 0.0 && Den(lim, q') > 0.0 && Num(q) > 0.0 && Num(q') > 0.0
    && Ranked(s.throughput, Den(lim, q), Num(q), s'.throughput, Den(lim, q'), Num(q'))
  }

  predicate AtLeastAsFast(lim: Limits, q: Terms, q': Terms)
    requires q.Valid() && q'.Valid()
  {
    Num(q) * Den(lim, q') >= Num(q') * Den(lim, q)
  }

  lemma BothPositive(lim: Limits, q: Terms)
    requires ValidLimits(lim) && q.Valid()
    ensures Num(q) > 0.0 && Den(lim, q) > 0.0
  {
    DivisorPositive(lim, q.vol, q.pad, q.Gathers());
    VolumePositive(q.cores, q.vol, 1);
  }

  lemma RatesOrder(lim: Limits, s: Score, q: Terms, s': Score, q': Terms)
    requires ValidLimits(lim) && q.Valid() && q'.Valid() && Rates(s, lim, q) && Rates(s', lim, q')
    ensures Ordered(lim, s, q, s', q')
  {
    BothPositive(lim, q);
    BothPositive(lim, q');
    hide Num, Den, Ranked, Divisor;
    FractionOrder(s.throughput, Den(lim, q), Num(q), s'.throughput, Den(lim, q'), Num(q'));
  }

  lemma Scaled(a: real, b: real, k: real)
    requires k > 0.0
    ensures a > b ==> a * k > b * k
    ensures a >= b ==> a * k >= b * k
  {
  }

  /** The divisor grows with the padding, and with the gathers. */
  lemma DivisorGrows(lim: Limits, vol: nat, pad: real, g: nat, pad': real, g': nat)
    requires ValidLimits(lim) && vol >= 1 && pad >= pad' >= 1.0 && g >= g'
    ensures Divisor(lim, vol, pad, g) >= Divisor(lim, vol, pad', g')
    ensures pad > pad' || (g > g' && lim.beta > 0.0) ==> Divisor(lim, vol, pad, g) > Divisor(lim, vol, pad', g')
  {
    var over := vol as real + lim.alpha;
    var (pen, pen') := (1.0 + lim.beta * g as real, 1.0 + lim.beta * g' as real);
    ProductPositive(lim.beta, g' as real);
    ProductPositive(lim.beta, (g - g') as real);
    assert pen == pen' + lim.beta * (g - g') as real >= pen' >= 1.0;
    if g > g' && lim.beta > 0.0 {
      Scaled((g - g') as real, 0.0, lim.beta);
    }
    Scaled(pad, pad', over);
    assert pad' * over >= 1.0 * over by { Scaled(pad', 1.0, over); }
    Scaled(pad * over, pad' * over, pen);
    Scaled(pen, pen', pad' * over);
  }

  lemma VolumeShare(vol: nat, vol': nat, alpha: real, x: real)
    requires vol >= vol' && alpha >= 0.0 && x > 0.0
    ensures vol as real * (x * (vol' as real + alpha)) >= vol' as real * (x * (vol as real + alpha))
  {
    var (v, v') := (vol as real, vol' as real);
    assert v * (v' + alpha) - v' * (v + alpha) == alpha * (v - v');
    ProductPositive(alpha, v - v');
    Scaled(v * (v' + alpha), v' * (v + alpha), x);
    assert v * (x * (v' + alpha)) == v * (v' + alpha) * x;
    assert v' * (x * (v + alpha)) == v' * (v + alpha) * x;
  }

  lemma MoreTimes(a: nat, b: nat, v: nat)
    requires v >= 1
    ensures a > b ==> (a * v) as real > (b * v) as real
    ensures a >= b ==> (a * v) as real >= (b * v) as real
  {
  }

  lemma MoreCores(lim: Limits, s: Score, q: Terms, s': Score, q': Terms)
    requires ValidLimits(lim) && q.Valid() && q'.Valid() && Rates(s, lim, q) && Rates(s', lim, q')
    requires q.vol == q'.vol && q.pad == q'.pad && q.Gathers() == q'.Gathers() && q.cores > q'.cores
    ensures s.throughput > s'.throughput
  {
    RatesOrder(lim, s, q, s', q');
    MoreTimes(q.cores, q'.cores, q.vol);
    assert Den(lim, q) == Den(lim, q') && Num(q) > Num(q');
    hide Divisor, Rates, Num, Den;
    Scaled(Num(q), Num(q'), Den(lim, q));
  }

  lemma LargerDivisor(lim: Limits, q: Terms, q': Terms)
    requires ValidLimits(lim) && q.Valid() && q'.Valid()
    requires q.vol == q'.vol && q.cores <= q'.cores && q.pad >= q'.pad && q.Gathers() >= q'.Gathers()
    requires q.pad > q'.pad || (q.Gathers() > q'.Gathers() && lim.beta > 0.0)
    ensures Den(lim, q) > Den(lim, q') && Num(q') >= Num(q)
  {
    hide Divisor;
    DivisorGrows(lim, q.vol, q.pad, q.Gathers(), q'.pad, q'.Gathers());
    MoreTimes(q'.cores, q.cores, q.vol);
  }

  lemma MorePadding(lim: Limits, s: Score, q: Terms, s': Score, q': Terms)
    requires ValidLimits(lim) && q.Valid() && q'.Valid() && Rates(s, lim, q) && Rates(s', lim, q')
    requires q.vol == q'.vol && q.cores <= q'.cores && q.pad >= q'.pad && q.Gathers() >= q'.Gathers()
    requires q.pad > q'.pad || (q.Gathers() > q'.Gathers() && lim.beta > 0.0)
    ensures s'.throughput > s.throughput
  {
    hide Divisor, Rates, Num, Den;
    RatesOrder(lim, s', q', s, q);
    LargerDivisor(lim, q, q');
    CrossGrows(Num(q), Den(lim, q), Num(q'), Den(lim, q'));
  }

  lemma CrossGrows(n: real, d: real, n': real, d': real)
    requires d > d' > 0.0 && n' >= n > 0.0
    ensures n' * d > n * d'
  {
    Scaled(d, d', n');
    Scaled(n', n, d');
  }

  lemma NotBeaten(lim: Limits, s: Score, q: Terms, s': Score, q': Terms)
    requires ValidLimits(lim) && q.Valid() && q'.Valid() && Rates(s, lim, q) && Rates(s', lim, q') && !Greater(s', s)
    ensures AtLeastAsFast(lim, q, q')
  {
    RatesOrder(lim, s', q', s, q);
    hide Num, Den, Rates;
  }

  lemma Regroup(k: real, v: real, x: real, pen: real)
    ensures v * x * pen * k == k * v * (x * pen)
  {
  }

  lemma LargerShare(lim: Limits, vol: nat, vol': nat, cores: nat, pad: real, g: nat)
    requires ValidLimits(lim) && vol > vol' >= 1 && cores >= 1 && pad >= 1.0
    ensures (cores * vol) as real * Divisor(lim, vol', pad, g) >= (cores * vol') as real * Divisor(lim, vol, pad, g)
  {
    var (pen, k) := (1.0 + lim.beta * g as real, cores as real);
    ProductPositive(lim.beta, g as real);
    VolumeShare(vol, vol', lim.alpha, pad);
    var (x, y) := (vol as real * (pad * (vol' as real + lim.alpha)), vol' as real * (pad * (vol as real + lim.alpha)));
    Scaled(x, y, pen);
    Scaled(x * pen, y * pen, k);
    assert (cores * vol) as real == k * vol as real && (cores * vol') as real == k * vol' as real;
    Regroup(k, vol as real, pad * (vol' as real + lim.alpha), pen);
    Regroup(k, vol' as real, pad * (vol as real + lim.alpha), pen);
  }

  lemma LargerBlocks(lim: Limits, s: Score, q: Terms, s': Score, q': Terms)
    requires ValidLimits(lim) && q.Valid() && q'.Valid() && Rates(s, lim, q) && Rates(s', lim, q')
    requires q.vol > q'.vol && q.cores == q'.cores && q.pad == q'.pad && q.Gathers() == q'.Gathers()
    ensures Greater(s, s')
  {
    RatesOrder(lim, s, q, s', q');
    LargerShare(lim, q.vol, q'.vol, q.cores, q.pad, q.Gathers());
    assert Num(q) * Den(lim, q') >= Num(q') * Den(lim, q);
    hide Num, Den, Divisor;
  }

  // ----- Which candidate wins -----

  /** With the same block volume, padding and gathers, more cores win. */
  lemma MoreCoresWin(t: Triple, lim: Limits, c: Cand, d: Cand)
    requires ValidLimits(lim) && InRange(t, lim, c) && InRange(t, lim, d)
    requires var (q, q') := (TermsOf(t, lim, c), TermsOf(t, lim, d));
             && q.Valid() && q'.Valid() && q.vol == q'.vol && q.pad == q'.pad && q.Gathers() == q'.Gathers()
             && q.cores > q'.cores
    ensures Greater(ScoreFn(t, lim)(c), ScoreFn(t, lim)(d))
  {
    ScoreIs(t, lim, c);
    ScoreIs(t, lim, d);
    hide TermsOf, ScoreFn, Rates;
    MoreCores(lim, ScoreFn(t, lim)(c), TermsOf(t, lim, c), ScoreFn(t, lim)(d), TermsOf(t, lim, d));
  }

  /** With the same block volume and no more cores, more padding loses, and so do more gathers unless they are
      free. */
  lemma MorePaddingOrGathersLose(t: Triple, lim: Limits, c: Cand, d: Cand)
    requires ValidLimits(lim) && InRange(t, lim, c) && InRange(t, lim, d)
    requires var (q, q') := (TermsOf(t, lim, c), TermsOf(t, lim, d));
             && q.Valid() && q'.Valid() && q.vol == q'.vol && q.cores <= q'.cores
             && q.pad >= q'.pad && q.Gathers() >= q'.Gathers()
             && (q.pad > q'.pad || (q.Gathers() > q'.Gathers() && lim.beta > 0.0))
    ensures Greater(ScoreFn(t, lim)(d), ScoreFn(t, lim)(c))
  {
    ScoreIs(t, lim, c);
    ScoreIs(t, lim, d);
    hide TermsOf, ScoreFn, Rates;
    MorePadding(lim, ScoreFn(t, lim)(c), TermsOf(t, lim, c), ScoreFn(t, lim)(d), TermsOf(t, lim, d));
  }

  /** With the same cores, padding and gathers, larger blocks win. */
  lemma LargerBlocksWin(t: Triple, lim: Limits, c: Cand, d: Cand)
    requires ValidLimits(lim) && InRange(t, lim, c) && InRange(t, lim, d)
    requires var (q, q') := (TermsOf(t, lim, c), TermsOf(t, lim, d));
             && q.Valid() && q'.Valid() && q.vol > q'.vol && q.cores == q'.cores && q.pad == q'.pad
             && q.Gathers() == q'.Gathers()
    ensures Greater(ScoreFn(t, lim)(c), ScoreFn(t, lim)(d))
  {
    ScoreIs(t, lim, c);
    ScoreIs(t, lim, d);
    hide TermsOf, ScoreFn, Rates;
    LargerBlocks(lim, ScoreFn(t, lim)(c), TermsOf(t, lim, c), ScoreFn(t, lim)(d), TermsOf(t, lim, d));
  }

  /** Candidates of equal throughput are ranked by block volume, then by less padding, then by more cores, then by
      a smaller Kp. */
  lemma TiesBreak(t: Triple, lim: Limits, c: Cand, d: Cand)
    requires ValidLimits(lim) && InRange(t, lim, c) && InRange(t, lim, d)
    requires ScoreFn(t, lim)(c).throughput == ScoreFn(t, lim)(d).throughput
    ensures var (q, q') := (TermsOf(t, lim, c), TermsOf(t, lim, d));
            Greater(ScoreFn(t, lim)(c), ScoreFn(t, lim)(d)) <==>
              || q.vol > q'.vol
              || (q.vol == q'.vol && q.pad < q'.pad)
              || (q.vol == q'.vol && q.pad == q'.pad && q.cores > q'.cores)
              || (q.vol == q'.vol && q.pad == q'.pad && q.cores == q'.cores && q.kp < q'.kp)
  {
    ScoreIs(t, lim, c);
    ScoreIs(t, lim, d);
    hide TermsOf, ScoreFn, Divisor;
  }

  /** A candidate that no other beats is at least as fast as each of them: cores times volume over the divisor. */
  lemma NotBeatenIsFastest(t: Triple, lim: Limits, c: Cand, d: Cand)
    requires ValidLimits(lim) && InRange(t, lim, c) && InRange(t, lim, d)
    requires !Greater(ScoreFn(t, lim)(d), ScoreFn(t, lim)(c))
    ensures var (q, q') := (TermsOf(t, lim, c), TermsOf(t, lim, d));
            q.Valid() && q'.Valid() && AtLeastAsFast(lim, q, q')
  {
    ScoreIs(t, lim, c);
    ScoreIs(t, lim, d);
    hide *;
    NotBeaten(lim, ScoreFn(t, lim)(c), TermsOf(t, lim, c), ScoreFn(t, lim)(d), TermsOf(t, lim, d));
  }
}
