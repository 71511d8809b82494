/** The exported decimals. A value is an exact real; an absent one (`NA`) is `None`. */
module OofRounding {
  import opened Outcomes

  /** Nine decimals. */
  const SCALE: real := 1000000000.0

  datatype Columns = Columns(
    appearance: Option<real>,
    startGivenAppearance: Option<real>,
    start: Option<real>,
    minutes: Option<real>,
    raw: Option<real>,
    expected: Option<real>,
    control: Option<real>
  )

  function HalfEven(x: real): int {
    var below := x.Floor;
    if x - below as real < 0.5 then below
    else if x - below as real > 0.5 then below + 1
    else if below % 2 == 0 then below
    else below + 1
  }

  function Round(x: real): real {
    HalfEven(x * SCALE) as real / SCALE
  }

  function Clip(x: real): real {
    if x < 0.0 then 0.0 else x
  }

  function Each(x: Option<real>, f: real -> real): Option<real> {
    if x.None? then None else Some(f(x.value))
  }

  /** The declared bound on a row: an absent factor leaves it absent. */
  function Bounded(probability: Option<real>, raw: Option<real>): Option<real> {
    if probability.None? || raw.None? then None else Some(Bound(probability.value, raw.value))
  }

  function Product(x: real, y: real): real {
    x * y
  }

  function Bound(probability: real, raw: real): real {
    Round(Clip(Product(probability, raw)))
  }

  /** `_round_and_derive`, row by row. */
  function RoundAndDerive(c: Columns): Columns {
    var appearance := Each(c.appearance, Round);
    var raw := Each(c.raw, Round);
    Columns(
      appearance,
      Each(c.startGivenAppearance, Round),
      Each(c.start, Round),
      Each(c.minutes, Round),
      raw,
      Each(Each(raw, Clip), Round),
      Bounded(appearance, raw))
  }

  /** The parameters of a predictive distribution; the slots a family does not use are absent. */
  datatype Distribution = Distribution(family: string, parameters: seq<Option<real>>)

  function RoundParameters(d: Distribution): Distribution {
    d.(parameters := seq(|d.parameters|, i requires 0 <= i < |d.parameters| => Each(d.parameters[i], Round)))
  }

  /** `HalfEven` is the nearest integer, the even one of two. */
  lemma HalfEvenMeans(x: real, k: int)
    ensures HalfEven(x) == k
       <==> -0.5 <= x - k as real <= 0.5 && (x - k as real == 0.5 || x - k as real == -0.5 ==> k % 2 == 0)
  {
    var below := x.Floor;
    if -0.5 <= x - k as real <= 0.5 {
      assert k == below || k == below + 1;
    }
  }

  lemma HalfEvenOnIntegers(k: int)
    ensures HalfEven(k as real) == k
  {
    HalfEvenMeans(k as real, k);
  }

  lemma HalfEvenMonotone(x: real, y: real)
    requires x <= y
    ensures HalfEven(x) <= HalfEven(y)
  {
    HalfEvenMeans(x, HalfEven(x));
    HalfEvenMeans(y, HalfEven(y));
  }

  predicate OnGrid(x: real) {
    Round(x) == x
  }

  lemma RoundedIsOnGrid(x: real)
    ensures OnGrid(Round(x))
  {
    var k := HalfEven(x * SCALE);
    assert k as real / SCALE * SCALE == k as real;
    HalfEvenOnIntegers(k);
  }

  lemma RoundKeepsSign(x: real)
    ensures x >= 0.0 ==> Round(x) >= 0.0
    ensures x <= 0.0 ==> Round(x) <= 0.0
  {
    HalfEvenOnIntegers(0);
    if x >= 0.0 {
      HalfEvenMonotone(0.0, x * SCALE);
    }
    if x <= 0.0 {
      HalfEvenMonotone(x * SCALE, 0.0);
    }
  }

  lemma RoundIsNear(x: real)
    ensures -0.5 / SCALE <= Round(x) - x <= 0.5 / SCALE
  {
    var k := HalfEven(x * SCALE);
    HalfEvenMeans(x * SCALE, k);
    assert k as real / SCALE - x == (k as real - x * SCALE) / SCALE;
  }

  lemma ClipRoundsToItself(x: real)
    requires OnGrid(x)
    ensures OnGrid(Clip(x))
  {
    HalfEvenOnIntegers(0);
  }

  lemma ClipOfProduct(p: real, x: real)
    requires p >= 0.0
    ensures Clip(p * x) == p * Clip(x)
  {
    if x < 0.0 {
      assert p * x <= 0.0;
    } else {
      assert p * x >= 0.0;
    }
  }

  /** Exporting an exported row changes nothing. */
  lemma RoundAndDeriveIdempotent(c: Columns)
    ensures RoundAndDerive(RoundAndDerive(c)) == RoundAndDerive(c)
  {
    forall x: Option<real>
      ensures Each(Each(x, Round), Round) == Each(x, Round)
    {
      if x.Some? {
        RoundedIsOnGrid(x.value);
      }
    }
  }

  lemma BoundEitherWay(p: real, x: real)
    requires p >= 0.0
    ensures Bound(p, x) == Round(Product(p, Clip(x)))
    ensures Bound(p, x) >= 0.0
    ensures -0.5 / SCALE <= Bound(p, x) - Clip(Product(p, x)) <= 0.5 / SCALE
  {
    ClipOfProduct(p, x);
    var product := p * x;
    RoundKeepsSign(Clip(product));
    RoundIsNear(Clip(product));
  }

  /** The bound a reader recomputes from the exported columns is the exported value, whichever
      factor is clipped, is never negative, and is within half a unit of the last decimal of the
      product it rounds. */
  lemma ControlIsRecomputable(c: Columns)
    requires c.appearance.Some? && c.raw.Some? && c.appearance.value >= 0.0
    ensures var r := RoundAndDerive(c);
            && r.appearance.Some? && r.raw.Some? && r.expected.Some? && r.control.Some?
            && r.expected.value == Clip(r.raw.value)
            && r.control.value == Round(Clip(Product(r.appearance.value, r.raw.value)))
            && r.control.value == Round(Product(r.appearance.value, r.expected.value))
            && r.control.value >= 0.0
            && -0.5 / SCALE <= r.control.value - Clip(Product(r.appearance.value, r.raw.value)) <= 0.5 / SCALE
  {
    var r := RoundAndDerive(c);
    var (p, x) := (r.appearance.value, r.raw.value);
    RoundKeepsSign(c.appearance.value);
    RoundedIsOnGrid(c.raw.value);
    ClipRoundsToItself(x);
    BoundEitherWay(p, x);
    assert r.control.value == Bound(p, x);
  }

  /** The two derived columns are absent exactly when what they derive from is. */
  lemma AbsentExactlyWhenUnderived(c: Columns)
    ensures RoundAndDerive(c).expected.None? <==> c.raw.None?
    ensures RoundAndDerive(c).control.None? <==> c.raw.None? || c.appearance.None?
  {
    assert Each(c.raw, Round).None? <==> c.raw.None?;
    assert Each(c.appearance, Round).None? <==> c.appearance.None?;
  }

  /** Deriving before rounding would export a value its own columns do not give. */
  lemma DerivingFirstDisagrees()
    ensures var (p, x) := (0.12345678949, 10.0);
            Round(Clip(p * x)) != Round(Clip(Round(p) * Round(x)))
  {
    var (p, x) := (0.12345678949, 10.0);
    HalfEvenMeans(p * SCALE, 123456789);
    HalfEvenMeans(x * SCALE, 10000000000);
    HalfEvenMeans(p * x * SCALE, 1234567895);
    HalfEvenMeans(Round(p) * Round(x) * SCALE, 1234567890);
  }

  /** With a negative factor the two clips part, so the sign is needed. */
  lemma NegativeFactorDisagrees()
    ensures var (p, x) := (-1.0, 2.0);
            Round(Clip(Round(p) * Round(x))) != Round(Round(p) * Clip(Round(x)))
  {
    HalfEvenMeans(-1.0 * SCALE, -1000000000);
    HalfEvenMeans(2.0 * SCALE, 2000000000);
    HalfEvenMeans(0.0, 0);
    HalfEvenMeans(-2.0 * SCALE, -2000000000);
    assert Round(-1.0) == -1.0 && Round(2.0) == 2.0;
    assert Round(0.0) == 0.0 && Round(-2.0) == -2.0;
  }
}
