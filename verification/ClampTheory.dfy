/** What clamping to a budget keeps, and what its verdict says about the grid. */
module ClampTheory {
  import opened Common
  import opened ParameterSpace
  import opened GridTheory

  // The range holds no more values than an int can count.
  predicate Countable(r: ParamRange) {
    Usable(r) ==> RawSteps(r) <= INT_MAX
  }

  // Value i of the widened range is value i * 2^k of the original.
  lemma WidenedValue(r0: ParamRange, r: ParamRange, i: nat) returns (j: nat)
    requires WellStepped(r0) && Widened(r0, r) && Countable(r0)
    requires i < StepCount(r)
    ensures j < StepCount(r0) && ValueForStep(r0, j) == ValueForStep(r, i)
  {
    var k: nat :| DoubledTimes(r0, r, k);
    var m := Pow2(k);
    Pow2Positive(k);
    j := i * m;
    if r.isInteger {
      WidenedIntValue(r0, r, i, m);
    } else {
      WidenedRealValue(r0, r, i, m);
    }
  }

  lemma WidenedIntValue(r0: ParamRange, r: ParamRange, i: nat, m: nat)
    requires WellStepped(r0) && Countable(r0) && r0.isInteger && m >= 1 && r == r0.(step := r0.step * m as real)
    requires i < StepCount(r)
    ensures i * m < StepCount(r0) && ValueForStep(r0, i * m) == ValueForStep(r, i)
  {
    var s := r0.step.Floor;
    var sm := s * m;
    CastMul(s, m);
    MulAtLeast(s, m);
    WholeIntStep(r0, s);
    WholeIntStep(r, sm);
    ValueUnclipped(r, i);
    Regroup(i, m, s);
    QuotientAtLeast(i * m, s, r0.max.Floor - Ceil(r0.min));
  }

  lemma CastMul(a: int, b: int)
    ensures a as real * b as real == (a * b) as real
  {}

  lemma WholeIntStep(r: ParamRange, s: int)
    requires s >= 1 && r.step == s as real
    ensures IntStep(r) == s
  {}

  lemma Regroup(i: int, m: int, s: int)
    ensures i * (s * m) == i * m * s
  {}

  lemma WidenedRealValue(r0: ParamRange, r: ParamRange, i: nat, m: nat)
    requires WellStepped(r0) && Countable(r0) && !r0.isInteger && m >= 1 && r == r0.(step := r0.step * m as real)
    requires i < StepCount(r)
    ensures i * m < StepCount(r0) && ValueForStep(r0, i * m) == ValueForStep(r, i)
  {
    ValueUnclipped(r, i);
    RealRegroup(i as real, m as real, r0.step);
    CastMul(i, m);
    RealQuotientAtLeast((i * m) as real, r0.step, r0.max - r0.min);
  }

  lemma RealRegroup(i: real, m: real, s: real)
    ensures i * (s * m) == i * m * s
  {}

  lemma QuotientAtLeast(j: int, s: int, span: int)
    requires s >= 1 && j * s <= span
    ensures j <= span / s
  {
    if j > span / s {
      MulMono(span / s + 1, j, s);
    }
  }

  lemma RealQuotientAtLeast(j: real, s: real, span: real)
    requires s > 0.0 && j * s <= span
    ensures j <= span / s
  {
    var q := span / s;
    assert q * s == span;
    if j > q {
      RealMulStrict(q, j, s);
    }
  }

  /** Whatever doubling clamping did, the grid it leaves is part of the grid it was given. */
  lemma ClampedGridIsCoarser(before: seq<ParamRange>, after: seq<ParamRange>, cs: seq<ParamConstraint>, q: ParamPoint)
    requires |before| == |after| && DistinctNames(before)
    requires forall i | 0 <= i < |before| :: WellStepped(before[i]) && Countable(before[i]) && Widened(before[i], after[i])
    requires q in Grid(after, cs)
    ensures q in Grid(before, cs)
  {
    SameNames(before, after);
    GridExact(after, cs, map[], q);
    forall r | r in before ensures r.name in q && q[r.name] in Values(r) {
      var i :| 0 <= i < |before| && before[i] == r;
      assert after[i] in after;
      CoarserValue(r, after[i], q[after[i].name]);
    }
    GridExact(before, cs, map[], q);
  }

  lemma SameNames(before: seq<ParamRange>, after: seq<ParamRange>)
    requires |before| == |after|
    requires forall i | 0 <= i < |before| :: Widened(before[i], after[i])
    ensures forall i | 0 <= i < |before| :: before[i].name == after[i].name
    ensures Names(before) == Names(after) && (DistinctNames(before) ==> DistinctNames(after))
  {
    forall i | 0 <= i < |before| ensures before[i].name == after[i].name {
      var k: nat :| DoubledTimes(before[i], after[i], k);
    }
    forall n ensures n in Names(before) <==> n in Names(after) {
      if n in Names(before) {
        var i :| 0 <= i < |before| && before[i].name == n;
        assert after[i] in after;
      }
      if n in Names(after) {
        var i :| 0 <= i < |after| && after[i].name == n;
        assert before[i] in before;
      }
    }
  }

  lemma CoarserValue(r0: ParamRange, r: ParamRange, v: real)
    requires WellStepped(r0) && Widened(r0, r) && Countable(r0) && v in Values(r)
    ensures v in Values(r0)
  {
    var m :| 0 <= m < |Values(r)| && Values(r)[m] == v;
    var j := WidenedValue(r0, r, m);
    assert Values(r0)[j] == v;
  }

  /** A rejection is always right. An accepted grid has the counted points and those the counter cut off, so the acceptance is
      wrong exactly when the two together exceed the budget, and the count is the grid size exactly when nothing was cut off. That
      is always so when nothing is constrained, or when the counting cap covers the whole product of step counts. */
  lemma VerdictVersusGrid(rs: seq<ParamRange>, cs: seq<ParamConstraint>, maxTotalCombos: int)
    requires DistinctNames(rs) && 0 < maxTotalCombos < INT_MAX
    ensures Count(rs, cs, CountCap(maxTotalCombos)) > maxTotalCombos ==> |Grid(rs, cs)| > maxTotalCombos
    ensures Count(rs, cs, CountCap(maxTotalCombos)) <= maxTotalCombos ==>
              && (|Grid(rs, cs)| > maxTotalCombos <==>
                    Count(rs, cs, CountCap(maxTotalCombos)) + Dropped(rs, cs, map[], CountCap(maxTotalCombos)) > maxTotalCombos)
              && (Count(rs, cs, CountCap(maxTotalCombos)) == |Grid(rs, cs)| <==> Complete(rs, cs, map[], CountCap(maxTotalCombos)))
    ensures cs == [] || CountCap(maxTotalCombos) >= Product(rs) ==>
              (Count(rs, cs, CountCap(maxTotalCombos)) <= maxTotalCombos <==> |Grid(rs, cs)| <= maxTotalCombos)
  {
    CountVersusGrid(rs, cs, CountCap(maxTotalCombos));
    if Count(rs, cs, CountCap(maxTotalCombos)) <= maxTotalCombos {
      CountMisses(rs, cs, CountCap(maxTotalCombos));
    }
  }

  /** At the largest budget the counting cap equals the budget, so no range list is ever rejected;
      without constraints the verdict is then right exactly when the product fits an int. */
  lemma LargestBudgetAcceptsAll(rs: seq<ParamRange>, cs: seq<ParamConstraint>)
    requires DistinctNames(rs)
    ensures Count(rs, cs, CountCap(INT_MAX)) <= INT_MAX
    ensures cs == [] ==> (|Grid(rs, cs)| <= INT_MAX <==> Product(rs) <= INT_MAX)
  {
    CountVersusGrid(rs, cs, INT_MAX);
    GridSize(rs, cs, map[]);
  }

  /** Two lists of 65536 values each are accepted at the largest budget, although the grid exceeds it. */
  lemma LargestBudgetWronglyAccepts()
    ensures var rs := [IntRange("a", 1, 65536), IntRange("b", 1, 65536)];
            Count(rs, [], CountCap(INT_MAX)) <= INT_MAX < |Grid(rs, [])|
  {
    var a, b := IntRange("a", 1, 65536), IntRange("b", 1, 65536);
    WitnessRange("a", 1, 65536, INT_MAX);
    WitnessRange("b", 1, 65536, INT_MAX);
    assert [a, b][1..] == [b] && [b][1..] == [];
    assert Product([b]) == StepCount(b) * Product([]) && Product([a, b]) == StepCount(a) * Product([b]);
    LargestBudgetAcceptsAll([a, b], []);
  }

  // Value i before it is cut off at the upper bound.
  function Raw(r: ParamRange, i: int): real {
    if r.isInteger then (Ceil(r.min) + i * IntStep(r)) as real else r.min + i as real * r.step
  }

  lemma ValueIsRaw(r: ParamRange, i: int)
    requires Usable(r) && 0 <= i < StepCount(r)
    ensures ValueForStep(r, i) == Raw(r, i)
  {
    ValueUnclipped(r, i);
  }

  lemma WidenedRaw(r0: ParamRange, r: ParamRange, k: nat, i: int)
    requires WellStepped(r0) && DoubledTimes(r0, r, k)
    ensures Raw(r, i) == Raw(r0, i * Pow2(k))
  {
    var m := Pow2(k);
    Pow2Positive(k);
    if r0.isInteger {
      CastMul(r0.step.Floor, m);
      MulAtLeast(r0.step.Floor, m);
      WholeIntStep(r0, r0.step.Floor);
      WholeIntStep(r, r0.step.Floor * m);
      Regroup(i, m, r0.step.Floor);
    } else {
      RealRegroup(i as real, m as real, r0.step);
      CastMul(i, m);
    }
  }

  lemma RawIncreases(r: ParamRange, i: int, j: int)
    requires WellStepped(r) && i < j
    ensures Raw(r, i) < Raw(r, j)
  {
    if r.isInteger {
      MulStrict(i, j, IntStep(r));
    } else {
      RealMulStrict(i as real, j as real, r.step);
    }
  }

  /** Every value of the widened range is one the original lists exactly when the last of them is: always, if the original's values can
      be counted, and otherwise as long as the doublings do not carry past the values an int counts. */
  lemma CoarserExactly(r0: ParamRange, r: ParamRange, k: nat)
    requires WellStepped(r0) && Usable(r0) && DoubledTimes(r0, r, k)
    ensures (forall v | v in Values(r) :: v in Values(r0)) <==> StepCount(r) == 0 || (StepCount(r) - 1) * Pow2(k) < StepCount(r0)
    ensures Countable(r0) ==> forall v | v in Values(r) :: v in Values(r0)
  {
    Pow2Positive(k);
    RealStepPositive(r0.step, Pow2(k));
    var n, m := StepCount(r), Pow2(k);
    if n > 0 && (n - 1) * m >= StepCount(r0) {
      BeyondList(r0, r, k);
      assert Values(r)[n - 1] in Values(r);
    } else {
      forall v | v in Values(r)
        ensures v in Values(r0)
      {
        var i :| 0 <= i < |Values(r)| && Values(r)[i] == v;
        WithinList(r0, r, k, i);
      }
    }
    if Countable(r0) {
      forall v | v in Values(r)
        ensures v in Values(r0)
      {
        CoarserValue(r0, r, v);
      }
    }
  }

  lemma RealStepPositive(step: real, m: int)
    requires step > 0.0 && m >= 1
    ensures step * m as real > 0.0
  {}

  lemma WithinList(r0: ParamRange, r: ParamRange, k: nat, i: nat)
    requires WellStepped(r0) && Usable(r0) && Usable(r) && DoubledTimes(r0, r, k)
    requires i < StepCount(r) && (StepCount(r) - 1) * Pow2(k) < StepCount(r0)
    ensures Values(r)[i] in Values(r0)
  {
    Pow2Positive(k);
    MulMono(i, StepCount(r) - 1, Pow2(k));
    MulMono(0, i, Pow2(k));
    ValueIsRaw(r, i);
    WidenedRaw(r0, r, k, i);
    ValueIsRaw(r0, i * Pow2(k));
    assert Values(r0)[i * Pow2(k)] == Values(r)[i];
  }

  lemma BeyondList(r0: ParamRange, r: ParamRange, k: nat)
    requires WellStepped(r0) && Usable(r0) && Usable(r) && DoubledTimes(r0, r, k)
    requires StepCount(r) > 0 && (StepCount(r) - 1) * Pow2(k) >= StepCount(r0)
    ensures Values(r)[StepCount(r) - 1] !in Values(r0)
  {
    var last := StepCount(r) - 1;
    ValueIsRaw(r, last);
    WidenedRaw(r0, r, k, last);
    forall i | 0 <= i < |Values(r0)|
      ensures Values(r0)[i] < Values(r)[last]
    {
      ValueIsRaw(r0, i);
      RawIncreases(r0, i, last * Pow2(k));
    }
  }

  /** Without a count that fits, the clamped grid need not be part of the original one: of 1..2^32 only the first INT_MAX values are
      listed, and after one doubling the list goes beyond them. */
  lemma UncountableRangeEscapes()
    ensures var before, after := [IntRange("a", 1, 0x1_0000_0000)], [IntRange("a", 1, 0x1_0000_0000).(step := 2.0)];
            && WellStepped(before[0]) && !Countable(before[0]) && DoubledTimes(before[0], after[0], 1)
            && Beyond32 in Grid(after, []) && Beyond32 !in Grid(before, [])
  {
    var r0 := IntRange("a", 1, 0x1_0000_0000);
    var r := r0.(step := 2.0);
    SteppedByTwo();
    SteppedByOne();
    OneRange(r, 0xFFFF_FFFD as real);
    OneRange(r0, 0xFFFF_FFFD as real);
  }

  // The grid of one range lists its values.
  lemma OneRange(r: ParamRange, v: real)
    ensures map[r.name := v] in Grid([r], []) <==> v in Values(r)
  {
    GridExact([r], [], map[], map[r.name := v]);
    assert r in [r];
  }

  lemma SteppedByTwo()
    ensures var r0 := IntRange("a", 1, 0x1_0000_0000);
            DoubledTimes(r0, r0.(step := 2.0), 1) && 0xFFFF_FFFD as real in Values(r0.(step := 2.0))
  {
    var r := IntRange("a", 1, 0x1_0000_0000).(step := 2.0);
    assert Pow2(1) == 2 * Pow2(0);
    assert Ceil(r.min) == 1 && r.max.Floor == 0x1_0000_0000 && IntStep(r) == 2 && RawSteps(r) == 0x8000_0000;
    assert ValueForStep(r, 0x7FFF_FFFE) == 0xFFFF_FFFD as real;
    assert Values(r)[0x7FFF_FFFE] == 0xFFFF_FFFD as real;
  }

  lemma SteppedByOne()
    ensures var r0 := IntRange("a", 1, 0x1_0000_0000);
            WellStepped(r0) && !Countable(r0) && 0xFFFF_FFFD as real !in Values(r0)
  {
    var r0 := IntRange("a", 1, 0x1_0000_0000);
    WitnessRange("a", 1, 0x1_0000_0000, INT_MAX);
    assert IntStep(r0) == 1 && RawSteps(r0) == 0x1_0000_0000;
    forall i | 0 <= i < |Values(r0)|
      ensures Values(r0)[i] != 0xFFFF_FFFD as real
    {
      assert Values(r0)[i] == (1 + i) as real;
    }
  }

  const Beyond32: ParamPoint := map["a" := 0xFFFF_FFFD as real]

  // ----- The documented verdict fails once constraints exist -----

  function IntRange(name: string, lo: int, hi: int): ParamRange {
    ParamRange(name, lo as real, hi as real, 1.0, true)
  }

  const WitnessRanges := [IntRange("a", 1, 2), IntRange("b", 1, 4)]
  const WitnessConstraints := [ParamConstraint("a", LessThan, "b")]

  lemma WitnessRange(name: string, lo: int, hi: int, cap: int)
    requires lo <= hi && 1 <= cap
    ensures Usable(IntRange(name, lo, hi))
    ensures DiscreteStepCount(IntRange(name, lo, hi), cap) == Min(hi - lo + 1, cap)
    ensures forall i | 0 <= i <= hi - lo :: ValueForStep(IntRange(name, lo, hi), i) == (lo + i) as real
  {
    var r := IntRange(name, lo, hi);
    assert Ceil(r.min) == lo && r.max.Floor == hi;
    assert IntStep(r) == 1;
    assert RawSteps(r) == (hi - lo) / 1 + 1;
  }

  lemma WitnessSatisfies(p: ParamPoint)
    ensures Satisfies(p, WitnessConstraints) <==> ("a" in p && "b" in p ==> p["a"] < p["b"])
  {
    assert WitnessConstraints[0] in WitnessConstraints;
  }

  /** a in {1,2}, b in {1..4}, a < b, budget 3: the counter truncates b's values by the remaining cap
      before the constraint filters them, so it reports 3 and clamping accepts, yet the grid has 5 points. */
  lemma AcceptedGridOverBudget()
    ensures Count(WitnessRanges, WitnessConstraints, CountCap(3)) == 3
    ensures |Grid(WitnessRanges, WitnessConstraints)| == 5
  {
    WitnessCount();
    WitnessGrid();
  }

  lemma WitnessCount()
    ensures Count(WitnessRanges, WitnessConstraints, 4) == 3
  {
    var rs, cs := WitnessRanges, WitnessConstraints;
    assert rs[1..] == [IntRange("b", 1, 4)];
    WitnessRange("a", 1, 2, 4);
    InnerCount(1, 4);
    InnerCount(2, 1);
    var p: ParamPoint := map[];
    var p1, p2 := p["a" := 1.0], p["a" := 2.0];
    WitnessSatisfies(p1);
    WitnessSatisfies(p2);
    assert p1["a" := 2.0] == p2;
    assert CountSteps(rs, cs, p2, 4, 2, 3) == (3, p2);
    assert CountSteps(rs, cs, p1, 4, 1, 3) == (3, p2);
    assert CountSteps(rs, cs, p, 4, 0, 0) == (3, p2);
  }

  lemma WitnessGrid()
    ensures |Grid(WitnessRanges, WitnessConstraints)| == 5
  {
    var rs, cs := WitnessRanges, WitnessConstraints;
    assert rs[1..] == [IntRange("b", 1, 4)];
    WitnessRange("a", 1, 2, INT_MAX);
    InnerGrid(1);
    InnerGrid(2);
    var p: ParamPoint := map[];
    assert GridSteps(rs, cs, p, 1) == GridFrom(rs[1..], cs, p["a" := 1.0]);
    assert GridSteps(rs, cs, p, 2) == GridSteps(rs, cs, p, 1) + GridFrom(rs[1..], cs, p["a" := 2.0]);
  }

  // With a fixed at 2 and a remaining cap of 1, only b = 1 is tried.
  lemma InnerCount(a: int, cap: int)
    requires (a == 1 && cap == 4) || (a == 2 && cap == 1)
    ensures var p: ParamPoint := map["a" := a as real];
            CountRec([IntRange("b", 1, 4)], WitnessConstraints, p, cap) == (if a == 1 then 3 else 0, p)
  {
    var rs, cs, p: ParamPoint := [IntRange("b", 1, 4)], WitnessConstraints, map["a" := a as real];
    assert rs[1..] == [];
    WitnessRange("b", 1, 4, cap);
    var p1, p2, p3, p4 := p["b" := 1.0], p["b" := 2.0], p["b" := 3.0], p["b" := 4.0];
    assert p1["b" := 2.0] == p2 && p2["b" := 3.0] == p3 && p3["b" := 4.0] == p4;
    assert p1 - {"b"} == p && p4 - {"b"} == p;
    WitnessSatisfies(p1);
    if a == 1 {
      WitnessSatisfies(p2);
      WitnessSatisfies(p3);
      WitnessSatisfies(p4);
      assert CountSteps(rs, cs, p4, 4, 4, 3) == (3, p4);
      assert CountSteps(rs, cs, p3, 4, 3, 2) == (3, p4);
      assert CountSteps(rs, cs, p2, 4, 2, 1) == (3, p4);
      assert CountSteps(rs, cs, p1, 4, 1, 0) == (3, p4);
    } else {
      assert CountSteps(rs, cs, p1, 1, 1, 0) == (0, p1);
    }
  }

  lemma InnerGrid(a: int)
    requires 1 <= a <= 2
    ensures |GridFrom([IntRange("b", 1, 4)], WitnessConstraints, map["a" := a as real])| == 4 - a
  {
    var rs, cs, p: ParamPoint := [IntRange("b", 1, 4)], WitnessConstraints, map["a" := a as real];
    assert rs[1..] == [];
    WitnessRange("b", 1, 4, INT_MAX);
    WitnessSatisfies(p["b" := 1.0]);
    WitnessSatisfies(p["b" := 2.0]);
    WitnessSatisfies(p["b" := 3.0]);
    WitnessSatisfies(p["b" := 4.0]);
    assert |GridSteps(rs, cs, p, 1)| == 0;
    assert |GridSteps(rs, cs, p, 2)| == 2 - a;
    assert |GridSteps(rs, cs, p, 3)| == 3 - a;
    assert |GridSteps(rs, cs, p, 4)| == 4 - a;
  }
}
