/** The automated market maker's cost function, over exact reals. */
module LmsrPricing {

  /** ln(e^x + e^y), of which only the stated facts are used. */
  type LogSumExp = (real, real) -> real

  /** Raising both arguments by `c` raises the value by `c`. */
  ghost predicate Shifts(lse: LogSumExp, x: real, y: real, c: real) {
    lse(x + c, y + c) == lse(x, y) + c
  }

  ghost predicate IsLogSumExp(lse: LogSumExp) {
    && (forall x: real, y: real :: x <= lse(x, y) && y <= lse(x, y))
    && (forall x: real, y: real, z: real :: x < z ==> lse(x, y) < lse(z, y))
    && (forall x: real, y: real, z: real :: y < z ==> lse(x, y) < lse(x, z))
    && (forall x: real, y: real, c: real :: Shifts(lse, x, y, c))
    && lse(0.0, 0.0) > 0.0
  }

  // ----- the facts can be met together

  function Apart(x: real, y: real): (d: real)
    ensures d >= 0.0
  {
    if x <= y then y - x else x - y
  }

  function Bump(d: real): real
    requires d >= 0.0
  {
    0.5 / (1.0 + d)
  }

  function SoftMax(x: real, y: real): real {
    (if x <= y then y else x) + Bump(Apart(x, y))
  }

  lemma BumpFalls(c: real, d: real)
    requires 0.0 <= c < d
    ensures 0.0 < Bump(d) < Bump(c) < Bump(d) + (d - c)
  {
    InverseFalls(Bump(c), 1.0 + c, Bump(d), 1.0 + d);
  }

  lemma InverseFalls(u: real, p: real, v: real, q: real)
    requires 1.0 <= p < q && u * p == 0.5 && v * q == 0.5
    ensures 0.0 < v < u < v + (q - p)
  {
    Positive(v, q);
    AtMostHalf(v, q);
    assert (u - v) * p == v * (q - p);
    FallsSlower(u - v, p, v, q - p);
  }

  lemma FallsSlower(fall: real, p: real, v: real, step: real)
    requires p >= 1.0 && 0.0 < v <= 0.5 && step > 0.0 && fall * p == v * step
    ensures 0.0 < fall < step
  {
    Positive(v, step);
    Positive(fall, p);
    assert fall * (p - 1.0) >= 0.0;
    assert (0.5 - v) * step >= 0.0;
  }

  lemma AtMostHalf(v: real, q: real)
    requires q >= 1.0 && v > 0.0 && v * q == 0.5
    ensures v <= 0.5
  {
    assert v * (q - 1.0) >= 0.0;
  }

  lemma Positive(x: real, y: real)
    requires y > 0.0
    ensures x * y > 0.0 <==> x > 0.0
  {
  }

  lemma SoftMaxRises(x: real, y: real, z: real)
    requires x < z
    ensures SoftMax(x, y) < SoftMax(z, y) && SoftMax(y, x) < SoftMax(y, z)
  {
    if z <= y {
      BumpFalls(y - z, y - x);
    } else if y <= x {
      BumpFalls(x - y, z - y);
    } else {
      BumpFalls(0.0, y - x);
      BumpFalls(0.0, z - y);
    }
  }

  lemma SomeLogSumExp() returns (lse: LogSumExp)
    ensures IsLogSumExp(lse)
  {
    lse := SoftMax;
    forall x: real, y: real, z: real | x < z ensures lse(x, y) < lse(z, y) && lse(y, x) < lse(y, z) {
      SoftMaxRises(x, y, z);
    }
    forall x: real, y: real ensures x <= lse(x, y) && y <= lse(x, y) {
      assert Bump(Apart(x, y)) >= 0.0;
    }
    forall x: real, y: real, c: real ensures Shifts(lse, x, y, c) {
      assert Apart(x + c, y + c) == Apart(x, y);
    }
  }

  /** b = subsidy / (ln 2 * 100). */
  function BFromSubsidy(lse: LogSumExp, subsidy: int): real
    requires lse(0.0, 0.0) > 0.0
  {
    subsidy as real / (lse(0.0, 0.0) * 100.0)
  }

  /** C(q) = b * ln(e^(yes/b) + e^(no/b)). */
  function CostFunction(lse: LogSumExp, b: real, yes: int, no: int): real
    requires b != 0.0
  {
    b * lse(yes as real / b, no as real / b)
  }

  function TradeCost(lse: LogSumExp, b: real, yes: int, no: int, deltaYes: int, deltaNo: int): real
    requires b != 0.0
  {
    CostFunction(lse, b, yes + deltaYes, no + deltaNo) - CostFunction(lse, b, yes, no)
  }

  /** Ruby's `round`: half away from zero. */
  function Round(x: real): int {
    if x >= 0.0 then (x + 0.5).Floor else -((-x + 0.5).Floor)
  }

  lemma RoundIsNear(x: real)
    ensures x - 0.5 <= Round(x) as real <= x + 0.5
    ensures x >= 0.0 ==> Round(x) >= 0
  {
  }

  lemma ScalesBack(b: real, q: real)
    requires b > 0.0
    ensures b * (q / b) == q
  {
  }

  lemma ScaleOrder(b: real, x: real, y: real)
    requires b > 0.0 && x <= y
    ensures b * x <= b * y && x / b <= y / b
  {
    ScalesBack(b, x);
    ScalesBack(b, y);
  }

  lemma BIsPositive(lse: LogSumExp, subsidy: int)
    requires IsLogSumExp(lse) && subsidy > 0
    ensures BFromSubsidy(lse, subsidy) > 0.0
  {
  }

  /** The parameter computed from the subsidy makes the empty market cost exactly the subsidy. */
  lemma EmptyMarketCost(lse: LogSumExp, subsidy: int)
    requires IsLogSumExp(lse) && subsidy > 0
    ensures BFromSubsidy(lse, subsidy) > 0.0
    ensures CostFunction(lse, BFromSubsidy(lse, subsidy), 0, 0) * 100.0 == subsidy as real
  {
    BIsPositive(lse, subsidy);
    var b := BFromSubsidy(lse, subsidy);
    assert 0.0 / b == 0.0;
    ScalesBack(lse(0.0, 0.0) * 100.0, subsidy as real);
  }

  /** The cost function dominates both outstanding quantities. */
  lemma CostCoversQuantities(lse: LogSumExp, b: real, yes: int, no: int)
    requires IsLogSumExp(lse) && b > 0.0
    ensures yes as real <= CostFunction(lse, b, yes, no)
    ensures no as real <= CostFunction(lse, b, yes, no)
  {
    var x, y := yes as real / b, no as real / b;
    assert x <= lse(x, y) && y <= lse(x, y);
    ScaleOrder(b, x, lse(x, y));
    ScaleOrder(b, y, lse(x, y));
    ScalesBack(b, yes as real);
    ScalesBack(b, no as real);
  }

  lemma ScalesStrictly(b: real, x: real, y: real)
    requires b > 0.0 && x < y
    ensures b * x < b * y && x / b < y / b
  {
    ScalesBack(b, x);
    ScalesBack(b, y);
  }

  /** Raising one argument by `c` raises the value, but by less than `c`. */
  lemma RisesSlower(lse: LogSumExp, x: real, y: real, c: real)
    requires IsLogSumExp(lse) && c > 0.0
    ensures lse(x, y) < lse(x + c, y) < lse(x, y) + c
    ensures lse(x, y) < lse(x, y + c) < lse(x, y) + c
  {
    assert Shifts(lse, x, y, c);
  }

  lemma Scaled(b: real, before: real, after: real, d: real)
    requires b > 0.0 && before < after < before + d / b
    ensures 0.0 < b * after - b * before < d
  {
    ScalesBack(b, d);
    ScalesStrictly(b, before, after);
    ScalesStrictly(b, after, before + d / b);
    assert b * (before + d / b) == b * before + b * (d / b);
  }

  lemma QuotientAdds(b: real, x: real, d: real)
    requires b != 0.0
    ensures (x + d) / b == x / b + d / b
  {
  }

  lemma Priced(lse: LogSumExp, b: real, yes: int, no: int, quantity: int)
    requires b > 0.0
    requires var x, y, d := yes as real / b, no as real / b, quantity as real / b;
      && lse(x, y) < lse(x + d, y) < lse(x, y) + d
      && lse(x, y) < lse(x, y + d) < lse(x, y) + d
    ensures 0.0 < TradeCost(lse, b, yes, no, quantity, 0) < quantity as real
    ensures 0.0 < TradeCost(lse, b, yes, no, 0, quantity) < quantity as real
  {
    var x, y, d := yes as real / b, no as real / b, quantity as real / b;
    QuotientAdds(b, yes as real, quantity as real);
    QuotientAdds(b, no as real, quantity as real);
    Scaled(b, lse(x, y), lse(x + d, y), quantity as real);
    Scaled(b, lse(x, y), lse(x, y + d), quantity as real);
    assert (yes + quantity) as real / b == x + d && (no + quantity) as real / b == y + d;
    assert CostFunction(lse, b, yes, no) == b * lse(x, y);
    assert CostFunction(lse, b, yes + quantity, no) == b * lse(x + d, y);
    assert CostFunction(lse, b, yes, no + quantity) == b * lse(x, y + d);
  }

  /** A contract costs more than nothing and less than the 1 it can pay. */
  lemma ContractPrice(lse: LogSumExp, b: real, yes: int, no: int, quantity: int)
    requires IsLogSumExp(lse) && b > 0.0 && quantity > 0
    ensures 0.0 < TradeCost(lse, b, yes, no, quantity, 0) < quantity as real
    ensures 0.0 < TradeCost(lse, b, yes, no, 0, quantity) < quantity as real
  {
    ScalesStrictly(b, 0.0, quantity as real);
    RisesSlower(lse, yes as real / b, no as real / b, quantity as real / b);
    Priced(lse, b, yes, no, quantity);
  }
}
