/** Position sizing on the exchange's step lattice (src/engine/sizing_policy.cpp). */
module SizingPolicy {
  import opened Common

  datatype Input = Input(availableBalance: real, atr: real, riskPct: real, slMultiplier: real, minNotional: real, maxNotional: real)

  datatype Size = Size(notional: real, quantity: real, minClamped: bool, maxCapped: bool)

  predicate Sizable(i: Input, price: real, step: real) {
    i.atr > 0.0 && i.slMultiplier > 0.0 && i.riskPct > 0.0 && price > 0.0 && step > 0.0 && i.availableBalance > 0.0
  }

  function Ceiling(x: real): int { -((-x).Floor) }

  function Times(a: real, b: real): real { a * b }

  // The notional of n steps.
  function Worth(n: int, price: real, step: real): real { Times(Times(n as real, step), price) }

  // The notional at which a stop-out loses the risk capital.
  function RiskNotional(i: Input, price: real): real
    requires i.atr > 0.0 && i.slMultiplier > 0.0
  {
    RiskPositive(i);
    i.availableBalance * i.riskPct / (i.atr * i.slMultiplier) * price
  }

  lemma RiskPositive(i: Input)
    requires i.atr > 0.0 && i.slMultiplier > 0.0
    ensures i.atr * i.slMultiplier > 0.0
  {}

  /** A stop-out at the risk notional, that is, a move of the stop distance against the whole quantity, loses exactly the risk capital. */
  lemma StopOutLosesRisk(i: Input, price: real)
    requires Sizable(i, price, 1.0)
    ensures RiskNotional(i, price) / price * (i.atr * i.slMultiplier) == i.availableBalance * i.riskPct
  {
    RiskPositive(i);
    var capital, distance := i.availableBalance * i.riskPct, i.atr * i.slMultiplier;
    var quantity := capital / distance;
    assert quantity * distance == capital;
    assert quantity * price / price == quantity;
  }

  // Raised to the minimum, then capped at the maximum (0 or less: no maximum).
  function Target(i: Input, price: real): real
    requires i.atr > 0.0 && i.slMultiplier > 0.0
  {
    var raised := MaxReal(i.minNotional, RiskNotional(i, price));
    if i.maxNotional > 0.0 && raised > i.maxNotional then i.maxNotional else raised
  }

  // n steps are a size the limits allow.
  ghost predicate Fits(i: Input, price: real, step: real, n: int) {
    && n >= 1
    && i.minNotional <= Worth(n, price, step)
    && (i.maxNotional > 0.0 ==> Worth(n, price, step) <= i.maxNotional)
  }

  // n is the most steps within the target, or, if those miss the minimum, the fewest that reach it.
  ghost predicate Best(i: Input, price: real, step: real, n: int)
    requires Sizable(i, price, step)
  {
    || (Worth(n, price, step) <= Target(i, price) && forall m | m > n :: Target(i, price) < Worth(m, price, step))
    || (Target(i, price) < Worth(n, price, step) && forall m | m < n :: Worth(m, price, step) < i.minNotional)
  }

  // Some allowed size exists; without a minimum it must also stay within the target.
  ghost predicate Reachable(i: Input, price: real, step: real)
    requires Sizable(i, price, step)
  {
    exists n :: Fits(i, price, step, n) && (i.minNotional <= 0.0 ==> Worth(n, price, step) <= Target(i, price))
  }

  ghost predicate IsSteps(i: Input, price: real, step: real, quantity: real, n: int) {
    Fits(i, price, step, n) && quantity == Times(n as real, step)
  }

  method StepsToward(i: Input, price: real, step: real, target: real) returns (steps: int)
    requires Sizable(i, price, step) && target == Target(i, price)
    requires target > 0.0 && i.minNotional <= target
    ensures steps >= 0 && Best(i, price, step, steps)
    ensures i.maxNotional > 0.0 && Worth(steps, price, step) > i.maxNotional ==> !Reachable(i, price, step)
    ensures !(i.maxNotional > 0.0 && Worth(steps, price, step) > i.maxNotional) ==> (steps > 0 <==> Reachable(i, price, step))
    ensures !(i.maxNotional > 0.0 && Worth(steps, price, step) > i.maxNotional) && steps > 0 ==> Fits(i, price, step, steps)
    ensures i.minNotional > 0.0 ==> steps > 0
    ensures i.maxNotional > 0.0 && Worth(steps, price, step) > i.maxNotional ==> i.minNotional > 0.0
  {
    steps := (target / price / step).Floor;
    var floor := steps;
    FloorLattice(target, price, step);
    if Worth(steps, price, step) < i.minNotional {
      steps := Ceiling(i.minNotional / price / step);
      CeilingLattice(i.minNotional, price, step);
    }
    ChosenSteps(i, price, step, floor, steps);
  }

  // The maximum decides: it lies below what is asked for, or below the fewest steps that reach the minimum.
  ghost predicate Capped(i: Input, price: real, step: real)
    requires Sizable(i, price, step)
  {
    && i.maxNotional > 0.0
    && (MaxReal(i.minNotional, RiskNotional(i, price)) > i.maxNotional
        || (0.0 < i.minNotional <= Target(i, price) && !Reachable(i, price, step)))
  }

  /** The chosen quantity is zero unless an allowed size exists, and otherwise it is the best allowed size. */
  method CalculateSize(i: Input, price: real, step: real) returns (out: Size)
    ensures out.quantity >= 0.0
    ensures out.notional == Times(out.quantity, price)
    ensures out.quantity > 0.0 <==> Sizable(i, price, step) && Reachable(i, price, step)
    ensures out.quantity > 0.0 ==> exists n :: IsSteps(i, price, step, out.quantity, n) && Best(i, price, step, n)
    ensures out.minClamped <==> Sizable(i, price, step) && RiskNotional(i, price) < i.minNotional
    ensures out.maxCapped <==> Sizable(i, price, step) && Capped(i, price, step)
  {
    out := Size(0.0, 0.0, false, false);
    if i.atr <= 0.0 || i.slMultiplier <= 0.0 || i.riskPct <= 0.0 || price <= 0.0 || step <= 0.0 || i.availableBalance <= 0.0 {
      return;
    }
    RiskIsPositive(i, price);
    var riskNotional := RiskNotional(i, price);
    out := out.(minClamped := riskNotional < i.minNotional);
    var target := MaxReal(i.minNotional, riskNotional);
    if i.maxNotional > 0.0 && target > i.maxNotional {
      target := i.maxNotional;
      out := out.(maxCapped := true);
    }
    if target < i.minNotional {
      return;
    }
    var steps := StepsToward(i, price, step, target);
    if i.maxNotional > 0.0 && Worth(steps, price, step) > i.maxNotional {
      out := out.(maxCapped := true);
      return;
    }
    out := out.(quantity := Times(steps as real, step), notional := Times(Times(steps as real, step), price));
    if steps > 0 {
      QuantityPositive(steps, step);
      assert IsSteps(i, price, step, out.quantity, steps);
    }
  }

  lemma QuantityPositive(steps: int, step: real)
    requires steps > 0 && step > 0.0
    ensures Times(steps as real, step) > 0.0
  {}

  /** The steps taken from the target, or from the minimum when the target's fall short, are the best ones,
      and they exceed the maximum only if no allowed size exists. */
  lemma ChosenSteps(i: Input, price: real, step: real, floor: int, steps: int)
    requires Sizable(i, price, step) && i.minNotional <= Target(i, price) && Target(i, price) > 0.0
    requires Worth(floor, price, step) <= Target(i, price) < Worth(floor + 1, price, step)
    requires i.minNotional <= Worth(floor, price, step) ==> steps == floor
    requires Worth(floor, price, step) < i.minNotional ==> Worth(steps - 1, price, step) < i.minNotional <= Worth(steps, price, step)
    ensures steps >= 0 && Best(i, price, step, steps)
    ensures i.maxNotional > 0.0 && Worth(steps, price, step) > i.maxNotional ==> !Reachable(i, price, step)
    ensures !(i.maxNotional > 0.0 && Worth(steps, price, step) > i.maxNotional) ==> (steps > 0 <==> Reachable(i, price, step))
    ensures !(i.maxNotional > 0.0 && Worth(steps, price, step) > i.maxNotional) && steps > 0 ==> Fits(i, price, step, steps)
    ensures i.minNotional > 0.0 ==> steps > 0
    ensures i.maxNotional > 0.0 && Worth(steps, price, step) > i.maxNotional ==> i.minNotional > 0.0
  {
    assert Times(0.0, step) == 0.0 && Worth(0, price, step) == 0.0;
    forall m: int, n: int
      ensures m < n ==> Worth(m, price, step) < Worth(n, price, step)
    {
      if m < n {
        ScaledStrictly(m as real, n as real, price, step);
      }
    }
    assert steps >= 0;
    if Worth(floor, price, step) < i.minNotional {
      assert steps == floor + 1;
    }
    if !(i.maxNotional > 0.0 && Worth(steps, price, step) > i.maxNotional) && steps > 0 {
      assert Fits(i, price, step, steps);
    }
  }

  lemma RiskIsPositive(i: Input, price: real)
    requires Sizable(i, price, 1.0)
    ensures RiskNotional(i, price) > 0.0 && Times(0.0, price) == 0.0
  {
    RiskPositive(i);
    assert i.availableBalance * i.riskPct > 0.0;
    assert i.availableBalance * i.riskPct / (i.atr * i.slMultiplier) > 0.0;
  }

  lemma FloorLattice(notional: real, price: real, step: real)
    requires price > 0.0 && step > 0.0
    ensures var n := (notional / price / step).Floor;
            Worth(n, price, step) <= notional < Worth(n + 1, price, step)
  {
    var x := notional / price / step;
    Scaled(x.Floor as real, x, price, step);
    ScaledStrictly(x, (x.Floor + 1) as real, price, step);
    Undivided(notional, price, step, x);
  }

  lemma CeilingLattice(notional: real, price: real, step: real)
    requires price > 0.0 && step > 0.0
    ensures var n := Ceiling(notional / price / step);
            Worth(n - 1, price, step) < notional <= Worth(n, price, step)
  {
    var x := notional / price / step;
    Scaled(x, Ceiling(x) as real, price, step);
    ScaledStrictly((Ceiling(x) - 1) as real, x, price, step);
    Undivided(notional, price, step, x);
  }

  lemma Undivided(notional: real, price: real, step: real, x: real)
    requires price > 0.0 && step > 0.0 && x == notional / price / step
    ensures Times(Times(x, step), price) == notional
  {
    var perUnit := notional / price;
    assert Times(x, step) == perUnit;
    assert Times(perUnit, price) == notional;
  }

  lemma Scaled(a: real, b: real, price: real, step: real)
    requires a <= b && price > 0.0 && step > 0.0
    ensures Times(Times(a, step), price) <= Times(Times(b, step), price)
  {
    TimesMonotone(a, b, step);
    TimesMonotone(Times(a, step), Times(b, step), price);
  }

  lemma ScaledStrictly(a: real, b: real, price: real, step: real)
    requires a < b && price > 0.0 && step > 0.0
    ensures Times(Times(a, step), price) < Times(Times(b, step), price)
  {
    TimesMonotone(a, b, step);
    TimesMonotone(Times(a, step), Times(b, step), price);
  }

  lemma TimesMonotone(a: real, b: real, c: real)
    requires c > 0.0
    ensures a <= b ==> Times(a, c) <= Times(b, c)
    ensures a < b ==> Times(a, c) < Times(b, c)
  {}

  // ----- Rounding to a unit -----

  // The greatest multiple of the unit not above x.
  function FloorTo(x: real, unit: real): (r: real)
    requires unit > 0.0
    ensures r <= x < r + unit
  {
    LatticeFloor(x, unit);
    Times((x / unit).Floor as real, unit)
  }

  lemma LatticeFloor(x: real, unit: real)
    requires unit > 0.0
    ensures Times((x / unit).Floor as real, unit) <= x < Times((x / unit).Floor as real, unit) + unit
  {
    var n := (x / unit).Floor as real;
    assert Times(x / unit, unit) == x && Times(n + 1.0, unit) == Times(n, unit) + unit;
    TimesMonotone(n, x / unit, unit);
    TimesMonotone(x / unit, n + 1.0, unit);
  }

  // The least one not below x.
  function CeilingTo(x: real, unit: real): (r: real)
    requires unit > 0.0
    ensures r - unit < x <= r
  {
    -FloorTo(-x, unit)
  }

  lemma RoundsToZero(x: real, unit: real)
    requires unit > 0.0
    ensures FloorTo(x, unit) > 0.0 <==> x >= unit
  {
    var n := (x / unit).Floor;
    assert Times(x / unit, unit) == x;
    TimesMonotone(1.0, x / unit, unit);
    TimesMonotone(x / unit, 1.0, unit);
    TimesMonotone(0.0, n as real, unit);
    TimesMonotone(n as real, 0.0, unit);
  }

  // A whole number of units.
  ghost predicate OnLattice(x: real, unit: real) { exists n: int :: IsTimes(x, n, unit) }

  predicate IsTimes(x: real, n: int, unit: real) { x == Times(n as real, unit) }

  lemma RoundedOnLattice(x: real, unit: real)
    requires unit > 0.0
    ensures OnLattice(FloorTo(x, unit), unit) && OnLattice(CeilingTo(x, unit), unit)
  {
    assert IsTimes(FloorTo(x, unit), (x / unit).Floor, unit);
    assert IsTimes(CeilingTo(x, unit), -((-x / unit).Floor), unit);
  }
}
