/** The Wilson score interval in exact reals. The square root of `x` is any `s >= 0` with
    `s * s == x`. */
module Wilson {
  import opened Outcomes

  datatype Interval = Interval(low: real, high: real)

  datatype Problem = SuccessesOutsideTrials

  function Max(x: real, y: real): real { if x < y then y else x }

  function Min(x: real, y: real): real { if y < x then y else x }

  predicate IsRoot(s: real, x: real) {
    s >= 0.0 && s * s == x
  }

  function Share(successes: int, trials: int): real
    requires trials > 0
  {
    successes as real / trials as real
  }

  function Denominator(trials: int, z: real): (d: real)
    requires trials > 0
    ensures d >= 1.0
  {
    assert z * z >= 0.0;
    1.0 + z * z / trials as real
  }

  /** What the square root is taken of. */
  function Radicand(successes: int, trials: int, z: real): real
    requires trials > 0
  {
    var (n, share) := (trials as real, Share(successes, trials));
    share * (1.0 - share) / n + z * z / (4.0 * n * n)
  }

  function Centre(successes: int, trials: int, z: real): real
    requires trials > 0
  {
    (Share(successes, trials) + z * z / (2.0 * trials as real)) / Denominator(trials, z)
  }

  function Half(trials: int, z: real, root: real): real
    requires trials > 0
  {
    z * root / Denominator(trials, z)
  }

  /** `wilson_interval`, given the root it takes. */
  function WilsonInterval(successes: int, trials: int, z: real, root: real): Outcome<Option<Interval>, Problem> {
    if trials <= 0 then Done(None)
    else if !(0 <= successes <= trials) then Raised(SuccessesOutsideTrials)
    else
      var (centre, half) := (Centre(successes, trials, z), Half(trials, z, root));
      Done(Some(Interval(Max(0.0, centre - half), Min(1.0, centre + half))))
  }

  /** The score test at a true share `p` does not reject the observed share `x`; `a` is the
      squared quantile over the trials. */
  predicate Accepts(x: real, a: real, p: real) {
    (x - p) * (x - p) <= a * (p * (1.0 - p))
  }

  // ---- the algebra, away from integers ----

  /** The ends `c - h` and `c + h` are the roots of the score test's quadratic. */
  lemma Quadratic(x: real, a: real, c: real, h: real, p: real)
    requires a >= 0.0 && h >= 0.0
    requires (1.0 + a) * c == x + a / 2.0
    requires ((1.0 + a) * h) * ((1.0 + a) * h) == a * (x * (1.0 - x)) + a * a / 4.0
    ensures Accepts(x, a, p) <==> c - h <= p <= c + h
  {
    var d := 1.0 + a;
    var (q, m, w) := (d * p, d * c, d * h);
    Expand(x, a, p);
    Product(d, h);
    Squares(q - m, w);
    ProductSign(d, (x - p) * (x - p) - a * (p * (1.0 - p)));
    ProductSign(d, p - (c - h));
    ProductSign(d, (c + h) - p);
    Distribute(d, p, c, h);
  }

  lemma Distribute(d: real, p: real, c: real, h: real)
    ensures d * (p - (c - h)) == d * p - d * c + d * h
    ensures d * ((c + h) - p) == d * h - (d * p - d * c)
  {
  }

  lemma Expand(x: real, a: real, p: real)
    ensures var (d, m) := (1.0 + a, x + a / 2.0);
            && d * ((x - p) * (x - p) - a * (p * (1.0 - p)))
            == (d * p - m) * (d * p - m) - (a * (x * (1.0 - x)) + a * a / 4.0)
  {
  }

  lemma ProductSign(d: real, y: real)
    requires d >= 1.0
    ensures d * y <= 0.0 <==> y <= 0.0
    ensures d * y >= 0.0 <==> y >= 0.0
  {
  }

  lemma Positive(u: real, v: real)
    requires u > 0.0 && v > 0.0
    ensures u * v > 0.0
  {
  }

  lemma Squares(u: real, w: real)
    requires w >= 0.0
    ensures u * u - w * w <= 0.0 <==> -w <= u <= w
  {
    var v := if u < 0.0 then -u else u;
    assert v * v == u * u;
    if v > w {
      Larger(v, w);
    } else {
      NotLarger(v, w);
    }
  }

  lemma Larger(v: real, w: real)
    requires v > w >= 0.0
    ensures v * v > w * w
  {
    Positive(v - w, v + w);
    assert (v - w) * (v + w) == v * v - w * w;
  }

  lemma NotLarger(v: real, w: real)
    requires 0.0 <= v <= w
    ensures v * v <= w * w
  {
    Product(w - v, w + v);
    assert (w - v) * (w + v) == w * w - v * v;
  }

  /** A smaller observed share is no closer to a share above both. */
  lemma CloserAbove(x: real, y: real, a: real, p: real)
    requires p <= x <= y && Accepts(y, a, p)
    ensures Accepts(x, a, p)
  {
    NotLarger(x - p, y - p);
  }

  lemma CloserBelow(x: real, y: real, a: real, p: real)
    requires x <= y <= p && Accepts(x, a, p)
    ensures Accepts(y, a, p)
  {
    NotLarger(p - y, p - x);
    assert (p - y) * (p - y) == (y - p) * (y - p) && (p - x) * (p - x) == (x - p) * (x - p);
  }

  // ---- the interval ----

  function Weight(trials: int, z: real): real
    requires trials > 0
  {
    z * z / trials as real
  }

  lemma Ends(successes: int, trials: int, z: real, root: real)
    requires 0 <= successes <= trials && trials > 0 && z >= 0.0
    requires IsRoot(root, Radicand(successes, trials, z))
    ensures var (x, a) := (Share(successes, trials), Weight(trials, z));
            var (c, h) := (Centre(successes, trials, z), Half(trials, z, root));
            && 0.0 <= x <= 1.0 && a >= 0.0 && h >= 0.0
            && (1.0 + a) * c == x + a / 2.0
            && ((1.0 + a) * h) * ((1.0 + a) * h) == a * (x * (1.0 - x)) + a * a / 4.0
  {
    var (n, x, a) := (trials as real, Share(successes, trials), Weight(trials, z));
    ShareInUnit(successes, trials);
    HalfWeight(z * z, n);
    HalfSquared(x, n, z, root, a);
    Quotient(x + a / 2.0, Denominator(trials, z));
    Quotient(z * root, Denominator(trials, z));
    Product(z, root);
    Product(z, z);
  }

  lemma Quotient(u: real, d: real)
    requires d >= 1.0
    ensures d * (u / d) == u
    ensures u >= 0.0 ==> u / d >= 0.0
  {
  }

  lemma Product(u: real, v: real)
    requires u >= 0.0 && v >= 0.0
    ensures u * v >= 0.0
  {
  }

  lemma ShareInUnit(successes: int, trials: int)
    requires 0 <= successes <= trials && trials > 0
    ensures 0.0 <= Share(successes, trials) <= 1.0
  {
  }

  lemma HalfWeight(zz: real, n: real)
    requires n > 0.0
    ensures zz / (2.0 * n) == zz / n / 2.0
  {
  }

  lemma Cancel(u: real, v: real, n: real)
    requires n > 0.0 && u * n == v * n
    ensures u == v
  {
  }

  lemma HalfSquared(x: real, n: real, z: real, root: real, a: real)
    requires n > 0.0 && a == z * z / n
    requires root * root == x * (1.0 - x) / n + z * z / (4.0 * n * n)
    ensures (z * root) * (z * root) == a * (x * (1.0 - x)) + a * a / 4.0
  {
    var (v, zz) := (x * (1.0 - x), z * z);
    assert (z * root) * (z * root) == zz * (root * root);
    assert zz * (v / n) == a * v;
    assert zz * (zz / (4.0 * n * n)) == a * a / 4.0 by {
      var r := zz / (4.0 * n * n);
      assert r * (4.0 * n * n) == zz == a * n;
      Cancel(4.0 * n * r, a, n);
      assert zz * r == a * (n * r);
    }
  }

  /** The interval is the set of true shares that the score test does not reject; neither
      clamp changes it, and it holds the observed share. */
  lemma IntervalIsTheScoreTest(successes: int, trials: int, z: real, root: real)
    requires 0 <= successes <= trials && trials > 0 && z >= 0.0
    requires IsRoot(root, Radicand(successes, trials, z))
    ensures var r := WilsonInterval(successes, trials, z, root);
            var (x, a) := (Share(successes, trials), Weight(trials, z));
            && r.Done? && r.value.Some?
            && r.value.value.low == Centre(successes, trials, z) - Half(trials, z, root)
            && r.value.value.high == Centre(successes, trials, z) + Half(trials, z, root)
            && 0.0 <= r.value.value.low <= x <= r.value.value.high <= 1.0
            && forall p :: Accepts(x, a, p) <==> r.value.value.low <= p <= r.value.value.high
  {
    var (x, a) := (Share(successes, trials), Weight(trials, z));
    var (c, h) := (Centre(successes, trials, z), Half(trials, z, root));
    Ends(successes, trials, z, root);
    forall p
      ensures Accepts(x, a, p) <==> c - h <= p <= c + h
    {
      Quadratic(x, a, c, h, p);
    }
    assert Accepts(x, a, x) by {
      assert x * (1.0 - x) >= 0.0;
      assert a * (x * (1.0 - x)) >= 0.0;
    }
    EndsInUnit(x, a, c, h);
  }

  lemma EndsInUnit(x: real, a: real, c: real, h: real)
    requires 0.0 <= x <= 1.0 && a >= 0.0 && h >= 0.0
    requires forall p :: Accepts(x, a, p) <==> c - h <= p <= c + h
    ensures 0.0 <= c - h && c + h <= 1.0
  {
    assert Accepts(x, a, c - h) && Accepts(x, a, c + h);
    OnlyShares(x, a, c - h);
    OnlyShares(x, a, c + h);
  }

  lemma OnlyShares(x: real, a: real, p: real)
    requires 0.0 <= x <= 1.0 && a >= 0.0 && Accepts(x, a, p)
    ensures 0.0 <= p <= 1.0
  {
    if p < 0.0 || p > 1.0 {
      assert p * (1.0 - p) < 0.0;
      assert a * (p * (1.0 - p)) <= 0.0;
      Squares(x - p, 0.0);
    }
  }

  /** Counting failures instead of successes reflects the interval. */
  lemma FailuresReflect(successes: int, trials: int, z: real, root: real, other: real)
    requires 0 <= successes <= trials && trials > 0 && z >= 0.0
    requires IsRoot(root, Radicand(successes, trials, z))
    requires IsRoot(other, Radicand(trials - successes, trials, z))
    ensures var i := WilsonInterval(successes, trials, z, root);
            && i.Done? && i.value.Some?
            && WilsonInterval(trials - successes, trials, z, other)
            == Done(Some(Interval(1.0 - i.value.value.high, 1.0 - i.value.value.low)))
  {
    var x := Share(successes, trials);
    var y := Share(trials - successes, trials);
    IntervalIsTheScoreTest(successes, trials, z, root);
    IntervalIsTheScoreTest(trials - successes, trials, z, other);
    Complement(successes as real, trials as real);
    assert (trials - successes) as real == trials as real - successes as real;
    var i := WilsonInterval(successes, trials, z, root).value.value;
    var j := WilsonInterval(trials - successes, trials, z, other).value.value;
    MirrorEnds(x, y, Weight(trials, z), i, j);
  }

  lemma MirrorEnds(x: real, y: real, a: real, i: Interval, j: Interval)
    requires y == 1.0 - x
    requires i.low <= i.high && forall p :: Accepts(x, a, p) <==> i.low <= p <= i.high
    requires j.low <= j.high && forall p :: Accepts(y, a, p) <==> j.low <= p <= j.high
    ensures j == Interval(1.0 - i.high, 1.0 - i.low)
  {
    Mirror(x, a, i.low);
    Mirror(x, a, i.high);
    Mirror(y, a, j.low);
    Mirror(y, a, j.high);
    assert Accepts(x, a, i.low) && Accepts(x, a, i.high) && Accepts(y, a, j.low) && Accepts(y, a, j.high);
  }

  lemma Mirror(x: real, a: real, p: real)
    ensures Accepts(x, a, p) <==> Accepts(1.0 - x, a, 1.0 - p)
  {
    assert ((1.0 - x) - (1.0 - p)) * ((1.0 - x) - (1.0 - p)) == (x - p) * (x - p);
    assert (1.0 - p) * (1.0 - (1.0 - p)) == p * (1.0 - p);
  }

  lemma Complement(k: real, n: real)
    requires n > 0.0
    ensures (n - k) / n == 1.0 - k / n
  {
    assert (n - k) / n * n == n - k;
    assert (1.0 - k / n) * n == n - k / n * n;
    Cancel((n - k) / n, 1.0 - k / n, n);
  }

  lemma MoreShare(k: real, m: real, n: real)
    requires k <= m && n > 0.0
    ensures k / n <= m / n
  {
  }

  /** More successes never lower an end. */
  lemma MoreSuccessesRaiseBothEnds(fewer: int, more: int, trials: int, z: real, root: real, other: real)
    requires 0 <= fewer <= more <= trials && trials > 0 && z >= 0.0
    requires IsRoot(root, Radicand(fewer, trials, z)) && IsRoot(other, Radicand(more, trials, z))
    ensures var i := WilsonInterval(fewer, trials, z, root).value.value;
            var j := WilsonInterval(more, trials, z, other).value.value;
            i.low <= j.low && i.high <= j.high
  {
    var (x, y, a) := (Share(fewer, trials), Share(more, trials), Weight(trials, z));
    IntervalIsTheScoreTest(fewer, trials, z, root);
    IntervalIsTheScoreTest(more, trials, z, other);
    MoreShare(fewer as real, more as real, trials as real);
    var i := WilsonInterval(fewer, trials, z, root).value.value;
    var j := WilsonInterval(more, trials, z, other).value.value;
    assert Accepts(y, a, j.low) && Accepts(x, a, i.high);
    if j.low <= x {
      CloserAbove(x, y, a, j.low);
    }
    if y <= i.high {
      CloserBelow(x, y, a, i.high);
    }
  }

  /** Nothing observed gives no interval, and a count outside the trials is refused. */
  lemma OutsideTheTrials(successes: int, trials: int, z: real, root: real)
    ensures WilsonInterval(successes, trials, z, root) == Done(None) <==> trials <= 0
    ensures WilsonInterval(successes, trials, z, root).Raised? <==> trials > 0 && (successes < 0 || trials < successes)
  {
  }
}
