/** Prices in documents: Python's arithmetic on the integers and floats a document carries, where
    an integer too large for a float raises once it meets one. */
module Pricing {
  import opened Outcomes
  import opened Json
  import opened AdviceIndex

  /** A number that Python holds as a float. */
  predicate FloatLike(j: Json) {
    j.Dec? || j.Infinite? || j.NaN?
  }

  /** A number that Python holds as an integer; a bool is one. */
  predicate IntLike(j: Json) {
    j.Int? || j.Bool?
  }

  function IntValue(j: Json): int {
    match j
    case Int(n) => n
    case Bool(b) => if b then 1 else 0
    case _ => 0
  }

  /** `a - b` raises: one is an integer that no float holds, the other a float. */
  predicate DifferenceOverflows(env: Env, a: Json, b: Json) {
    || (IntLike(a) && FloatLike(b) && !env.Fits(IntValue(a) as real))
    || (FloatLike(a) && IntLike(b) && !env.Fits(IntValue(b) as real))
  }

  /** `abs(a - b) > 1e-9`; infinities of one sign, and NaN, are not apart. */
  predicate FarApart(a: Json, b: Json) {
    if a.NaN? || b.NaN? then false
    else if a.Infinite? || b.Infinite? then !(a.Infinite? && b.Infinite? && a.negative == b.negative)
    else
      var gap := Exact(a) - Exact(b);
      gap > 0.000000001 || -gap > 0.000000001
  }

  /** What the price is measured against: a document without a control is its own. */
  function Anchor(p: Json): Json {
    var control := At(p, "control_solver_status");
    if Truthy(control) then control else At(p, "solver_status")
  }

  /** `price_problem` is none; or the arithmetic raises. */
  function PriceAgrees(env: Env, p: Json): Outcome<bool, PyError> {
    var cost, ceiling := At(p, "expected_points_cost"), At(p, "expected_points_cost_ceiling");
    if !NumberOrBool(cost) || Less(cost, Int(0)) then Done(false)
    else if Anchor(p) == Str("FEASIBLE") then Done(ceiling.Null?)
    else if !NumberOrBool(ceiling) then Done(false)
    else if DifferenceOverflows(env, ceiling, cost) then Raised(ArithmeticError)
    else Done(!FarApart(ceiling, cost))
  }

  /** The price and its ceiling are subtracted, and cannot be. */
  predicate PriceOverflows(env: Env, p: Json) {
    var cost, ceiling := At(p, "expected_points_cost"), At(p, "expected_points_cost_ceiling");
    && NumberOrBool(cost) && !Less(cost, Int(0))
    && Anchor(p) != Str("FEASIBLE")
    && NumberOrBool(ceiling)
    && DifferenceOverflows(env, ceiling, cost)
  }

  /** A price that is never negative, with a ceiling at the price over a proven control and none
      over a merely found one. */
  predicate PriceIsRight(env: Env, p: Json) {
    var cost, ceiling := At(p, "expected_points_cost"), At(p, "expected_points_cost_ceiling");
    && NumberOrBool(cost) && !Less(cost, Int(0))
    && if Anchor(p) == Str("FEASIBLE") then ceiling.Null?
       else NumberOrBool(ceiling) && !DifferenceOverflows(env, ceiling, cost) && !FarApart(ceiling, cost)
  }

  lemma PriceMeaning(env: Env, p: Json)
    ensures PriceAgrees(env, p) == Done(true) <==> PriceIsRight(env, p)
    ensures PriceAgrees(env, p).Raised? <==> PriceOverflows(env, p)
    ensures PriceAgrees(env, p).Raised? ==> PriceAgrees(env, p) == Raised(ArithmeticError)
  {
  }

  /** A number with an exact value: a decimal, an integer or a bool. */
  predicate HasValue(j: Json) {
    j.Dec? || j.Int? || j.Bool?
  }

  /** A price in exact numbers, however they are written: never negative; over a proven control
      with the ceiling within 1e-9 of it; over a merely found one with no ceiling. It raises
      exactly when an integer past every float meets a float. */
  lemma PriceMeans(env: Env, p: Json)
    requires HasValue(At(p, "expected_points_cost"))
    ensures var (cost, ceiling) := (At(p, "expected_points_cost"), At(p, "expected_points_cost_ceiling"));
            && (Exact(cost) < 0.0 ==> PriceAgrees(env, p) == Done(false))
            && (Exact(cost) >= 0.0 && Anchor(p) == Str("FEASIBLE") ==> PriceAgrees(env, p) == Done(ceiling.Null?))
            && (Exact(cost) >= 0.0 && Anchor(p) != Str("FEASIBLE") && !NumberOrBool(ceiling) ==> PriceAgrees(env, p) == Done(false))
            && (Exact(cost) >= 0.0 && Anchor(p) != Str("FEASIBLE") && HasValue(ceiling) && (IntLike(cost) <==> IntLike(ceiling)) ==>
                  PriceAgrees(env, p) == Done(Near(Exact(ceiling), Exact(cost))))
            && (Exact(cost) >= 0.0 && Anchor(p) != Str("FEASIBLE") && ceiling.Dec? && IntLike(cost) ==>
                  PriceAgrees(env, p) == if env.Fits(Exact(cost)) then Done(Near(Exact(ceiling), Exact(cost))) else Raised(ArithmeticError))
            && (Exact(cost) >= 0.0 && Anchor(p) != Str("FEASIBLE") && IntLike(ceiling) && cost.Dec? ==>
                  PriceAgrees(env, p) == if env.Fits(Exact(ceiling)) then Done(Near(Exact(ceiling), Exact(cost))) else Raised(ArithmeticError))
  {
  }

  predicate Near(x: real, y: real) {
    y - 0.000000001 <= x <= y + 0.000000001
  }

  /* ---------- the mean and the greatest of a list ---------- */

  /** A running sum: an exact integer until a float comes in. */
  datatype Sum = Exactly(n: int) | AsFloat

  /** `sum + v` */
  function Add(env: Env, sum: Sum, v: Json): Outcome<Sum, PyError> {
    if !NumberOrBool(v) then Raised(TypeError)
    else match sum
      case Exactly(n) =>
        if IntLike(v) then Done(Exactly(n + IntValue(v)))
        else if env.Fits(n as real) then Done(AsFloat)
        else Raised(ArithmeticError)
      case AsFloat =>
        if IntLike(v) && !env.Fits(IntValue(v) as real) then Raised(ArithmeticError) else Done(AsFloat)
  }

  function SumFrom(env: Env, sum: Sum, values: seq<Json>): Outcome<Sum, PyError>
    decreases |values|
  {
    if values == [] then Done(sum)
    else
      var next :- Add(env, sum, values[0]);
      SumFrom(env, next, values[1..])
  }

  /** `max(values)`: the first value no later one is greater than, as it is met. */
  function Greatest(best: Json, values: seq<Json>): Json
    decreases |values|
  {
    if values == [] then best else Greatest(if Less(best, values[0]) then values[0] else best, values[1..])
  }

  /** The mean of some values and the greatest of them, formatted as decimals. */
  function Average(env: Env, values: seq<Json>): Outcome<(), PyError>
    requires values != []
  {
    var sum :- SumFrom(env, Exactly(0), values);
    if sum.Exactly? && !env.Fits(sum.n as real / |values| as real) then Raised(ArithmeticError)
    else if IntLike(Greatest(values[0], values[1..])) && !env.Fits(IntValue(Greatest(values[0], values[1..])) as real)
    then Raised(ArithmeticError)
    else Done(())
  }

  function Total(values: seq<Json>): int {
    if values == [] then 0 else IntValue(values[0]) + Total(values[1..])
  }

  predicate AllInts(values: seq<Json>) {
    forall v | v in values :: IntLike(v)
  }

  /** The integers of a list before its first float. */
  function LeadingInts(values: seq<Json>): nat {
    if values == [] || !IntLike(values[0]) then 0 else 1 + LeadingInts(values[1..])
  }

  /** A list of numbers can be averaged: the greatest fits a float; a list of integers has a mean
      that does; in any other list the integers before the first float fit together, and each
      one after it alone. */
  predicate Averageable(env: Env, values: seq<Json>)
    requires values != []
  {
    var best := Greatest(values[0], values[1..]);
    && (forall v | v in values :: NumberOrBool(v))
    && (IntLike(best) ==> env.Fits(IntValue(best) as real))
    && if AllInts(values) then env.Fits(Total(values) as real / |values| as real)
       else MixedFits(env, 0, values)
  }

  /** The values after a sum of `n`: the integers before the first float fit with it, and each
      one after alone. */
  predicate MixedFits(env: Env, n: int, values: seq<Json>) {
    var k := LeadingInts(values);
    && k <= |values|
    && env.Fits((n + Total(values[..k])) as real)
    && forall v | v in values[k..] && IntLike(v) :: env.Fits(IntValue(v) as real)
  }

  lemma {:induction false} FloatSumMeans(env: Env, values: seq<Json>)
    requires forall v | v in values :: NumberOrBool(v)
    ensures SumFrom(env, AsFloat, values)
         == if forall v | v in values && IntLike(v) :: env.Fits(IntValue(v) as real) then Done(AsFloat)
            else Raised(ArithmeticError)
    decreases |values|
  {
    if values != [] {
      FloatSumMeans(env, values[1..]);
      assert forall v :: v in values <==> v == values[0] || v in values[1..];
    }
  }

  lemma {:induction false} SumMeans(env: Env, n: int, values: seq<Json>)
    requires forall v | v in values :: NumberOrBool(v)
    ensures AllInts(values) ==> SumFrom(env, Exactly(n), values) == Done(Exactly(n + Total(values)))
    ensures !AllInts(values) ==>
              SumFrom(env, Exactly(n), values) == if MixedFits(env, n, values) then Done(AsFloat) else Raised(ArithmeticError)
    decreases |values|
  {
    if values != [] {
      var (v, rest) := (values[0], values[1..]);
      assert forall x :: x in values <==> x == v || x in rest;
      if IntLike(v) {
        SumMeans(env, n + IntValue(v), rest);
        assert AllInts(values) <==> AllInts(rest);
        MixedNext(env, n, values);
      } else {
        FloatSumMeans(env, rest);
        assert values[..0] == [] && values[0..] == values;
      }
    }
  }

  lemma {:induction false} LeadingBound(values: seq<Json>)
    ensures LeadingInts(values) <= |values|
  {
    if values != [] {
      LeadingBound(values[1..]);
    }
  }

  lemma MixedNext(env: Env, n: int, values: seq<Json>)
    requires values != [] && IntLike(values[0])
    ensures MixedFits(env, n, values) <==> MixedFits(env, n + IntValue(values[0]), values[1..])
  {
    LeadingBound(values[1..]);
    var k := LeadingInts(values[1..]);
    assert values[..k + 1][1..] == values[1..][..k] && values[k + 1..] == values[1..][k..];
  }

  lemma {:induction false} NonNumberRaises(env: Env, sum: Sum, values: seq<Json>)
    requires exists v | v in values :: !NumberOrBool(v)
    ensures SumFrom(env, sum, values).Raised?
    decreases |values|
  {
    if NumberOrBool(values[0]) && Add(env, sum, values[0]).Done? {
      assert forall x :: x in values <==> x == values[0] || x in values[1..];
      NonNumberRaises(env, Add(env, sum, values[0]).value, values[1..]);
    }
  }

  /** The summary of a list is printed exactly when the list can be averaged. */
  lemma AverageMeaning(env: Env, values: seq<Json>)
    requires values != []
    ensures Average(env, values).Done? <==> Averageable(env, values)
  {
    if forall v | v in values :: NumberOrBool(v) {
      SumMeans(env, 0, values);
    } else {
      NonNumberRaises(env, Exactly(0), values);
    }
  }

  /** How many numbers a list starts with. */
  function LeadingNumbers(values: seq<Json>): (k: nat)
    ensures k <= |values|
    ensures forall v | v in values[..k] :: NumberOrBool(v)
    ensures k < |values| ==> !NumberOrBool(values[k])
  {
    if values == [] || !NumberOrBool(values[0]) then 0
    else
      var k := 1 + LeadingNumbers(values[1..]);
      assert values[..k] == [values[0]] + values[1..][..k - 1];
      k
  }

  /** The numbers a list starts with do not add up, or the list is all numbers and cannot be
      averaged. */
  predicate AverageOverflows(env: Env, values: seq<Json>)
    requires values != []
  {
    var k := LeadingNumbers(values);
    if k == |values| then !Averageable(env, values)
    else !AllInts(values[..k]) && !MixedFits(env, 0, values[..k])
  }

  lemma {:induction false} SumPasses(env: Env, sum: Sum, a: seq<Json>, b: seq<Json>)
    ensures SumFrom(env, sum, a + b)
         == if SumFrom(env, sum, a).Raised? then SumFrom(env, sum, a) else SumFrom(env, SumFrom(env, sum, a).value, b)
    decreases |a|
  {
    if a == [] {
      assert a + b == b;
    } else {
      assert (a + b)[1..] == a[1..] + b;
      if Add(env, sum, a[0]).Done? {
        SumPasses(env, Add(env, sum, a[0]).value, a[1..], b);
      }
    }
  }

  /** Which error ends a summary: an overflow, or a value that is no number. */
  lemma AverageErrors(env: Env, values: seq<Json>)
    requires values != []
    ensures AverageOverflows(env, values) <==> Average(env, values) == Raised(ArithmeticError)
    ensures Average(env, values).Raised? ==> Average(env, values).error in {ArithmeticError, TypeError}
  {
    var k := LeadingNumbers(values);
    var (a, b) := (values[..k], values[k..]);
    assert values == a + b;
    SumPasses(env, Exactly(0), a, b);
    SumMeans(env, 0, a);
    if k == |values| {
      assert a == values;
      AverageMeaning(env, values);
    }
  }
}
