/** Parameter ranges, the constrained grid, the capped counter and budget clamping
    (src/backtest/parameter_space.cpp). */
module ParameterSpace {
  import opened Common

  datatype ParamRange = ParamRange(name: string, min: real, max: real, step: real, isInteger: bool)

  datatype Kind = LessThan | LessEqual

  datatype ParamConstraint = ParamConstraint(left: string, kind: Kind, right: string)

  type ParamPoint = map<string, real>

  const INT_MAX := 2147483647

  function Ceil(x: real): int { -((-x).Floor) }

  // Rounds to the nearest integer, halves away from zero.
  function Round(x: real): int {
    if x >= 0.0 then (x + 0.5).Floor else -((-x + 0.5).Floor)
  }

  // ----- One range -----

  predicate Usable(r: ParamRange) {
    r.step > 0.0 && r.max >= r.min
  }

  function IntStep(r: ParamRange): (s: int)
    ensures s >= 1
  {
    Max(1, Round(r.step))
  }

  // How many lattice values the range holds before any cap.
  function RawSteps(r: ParamRange): (n: int)
    requires Usable(r)
    ensures n >= 0
  {
    if r.isInteger then
      if r.max.Floor < Ceil(r.min) then 0 else (r.max.Floor - Ceil(r.min)) / IntStep(r) + 1
    else
      assert (r.max - r.min) / r.step >= 0.0;
      ((r.max - r.min) / r.step).Floor + 1
  }

  function DiscreteStepCount(r: ParamRange, cap: int): (n: int)
    ensures n >= 0
  {
    if !Usable(r) || RawSteps(r) == 0 then 0 else Max(1, Min(RawSteps(r), cap))
  }

  function ValueForStep(r: ParamRange, index: int): real {
    if r.isInteger then
      Min(Ceil(r.min) + index * IntStep(r), r.max.Floor) as real
    else
      var value := r.min + index as real * r.step;
      if value > r.max then r.max else value
  }

  function StepCount(r: ParamRange): (n: nat) { DiscreteStepCount(r, INT_MAX) }

  function Values(r: ParamRange): seq<real> {
    seq(StepCount(r), i requires 0 <= i => ValueForStep(r, i))
  }

  // ----- Constraints -----

  predicate Holds(c: ParamConstraint, point: ParamPoint) {
    c.left in point && c.right in point ==>
      match c.kind
      case LessThan => point[c.left] < point[c.right]
      case LessEqual => point[c.left] <= point[c.right]
  }

  predicate Satisfies(point: ParamPoint, constraints: seq<ParamConstraint>) {
    forall c | c in constraints :: Holds(c, point)
  }

  method EvaluateConstraints(point: ParamPoint, constraints: seq<ParamConstraint>) returns (ok: bool)
    ensures ok <==> Satisfies(point, constraints)
  {
    for k := 0 to |constraints|
      invariant forall j | 0 <= j < k :: Holds(constraints[j], point)
    {
      var c := constraints[k];
      if c.left !in point || c.right !in point {
        continue;
      }
      var leftVal, rightVal := point[c.left], point[c.right];
      if c.kind == LessThan {
        if !(leftVal < rightVal) {
          assert !Holds(c, point);
          return false;
        }
      } else if !(leftVal <= rightVal) {
        assert !Holds(c, point);
        return false;
      }
    }
    return true;
  }

  // ----- The grid -----

  function Names(rs: seq<ParamRange>): set<string> {
    set r | r in rs :: r.name
  }

  ghost predicate DistinctNames(rs: seq<ParamRange>) {
    forall i, j | 0 <= i < j < |rs| :: rs[i].name != rs[j].name
  }

  function GridFrom(rs: seq<ParamRange>, cs: seq<ParamConstraint>, p: ParamPoint): seq<ParamPoint>
    decreases |rs|
  {
    if rs == [] then
      if Satisfies(p, cs) then [p] else []
    else
      GridSteps(rs, cs, p, StepCount(rs[0]))
  }

  // The grid points whose first range takes one of its first n values.
  function GridSteps(rs: seq<ParamRange>, cs: seq<ParamConstraint>, p: ParamPoint, n: nat): seq<ParamPoint>
    requires rs != []
    decreases |rs|, n
  {
    if n == 0 then []
    else GridSteps(rs, cs, p, n - 1) + GridFrom(rs[1..], cs, p[rs[0].name := ValueForStep(rs[0], n - 1)])
  }

  function Grid(rs: seq<ParamRange>, cs: seq<ParamConstraint>): seq<ParamPoint> {
    GridFrom(rs, cs, map[])
  }

  ghost predicate AgreeOutside(p: ParamPoint, q: ParamPoint, names: set<string>) {
    forall k | k !in names :: (k in p <==> k in q) && (k in p && k in q ==> p[k] == q[k])
  }

  // Entries that deeper ranges left behind in the shared point do not show in the grid.
  lemma {:induction false} GridIgnoresLeftovers(rs: seq<ParamRange>, cs: seq<ParamConstraint>, p: ParamPoint, q: ParamPoint)
    requires AgreeOutside(p, q, Names(rs))
    ensures GridFrom(rs, cs, p) == GridFrom(rs, cs, q)
    decreases |rs|
  {
    if rs == [] {
      assert p == q;
    } else {
      StepsIgnoreLeftovers(rs, cs, p, q, StepCount(rs[0]));
    }
  }

  lemma {:induction false} StepsIgnoreLeftovers(rs: seq<ParamRange>, cs: seq<ParamConstraint>, p: ParamPoint, q: ParamPoint, n: nat)
    requires rs != [] && AgreeOutside(p, q, Names(rs))
    ensures GridSteps(rs, cs, p, n) == GridSteps(rs, cs, q, n)
    decreases |rs|, n
  {
    if n > 0 {
      StepsIgnoreLeftovers(rs, cs, p, q, n - 1);
      var v := ValueForStep(rs[0], n - 1);
      assert rs == [rs[0]] + rs[1..];
      assert Names(rs) == {rs[0].name} + Names(rs[1..]);
      GridIgnoresLeftovers(rs[1..], cs, p[rs[0].name := v], q[rs[0].name := v]);
    }
  }

  lemma AssignKeepsAgreement(p: ParamPoint, q: ParamPoint, name: string, v: real, names: set<string>)
    requires AgreeOutside(p, q, {name} + names)
    ensures AgreeOutside(p[name := v], q[name := v], names)
  {}

  lemma AgreementWidens(after: ParamPoint, entered: ParamPoint, q: ParamPoint, name: string, v: real, names: set<string>)
    requires AgreeOutside(after, entered, names)
    requires AgreeOutside(entered, q[name := v], names)
    ensures AgreeOutside(after, q, {name} + names)
  {}

  lemma Suffix(ranges: seq<ParamRange>, k: nat)
    requires k < |ranges|
    ensures ranges[k..] != [] && ranges[k..][0] == ranges[k] && ranges[k..][1..] == ranges[k + 1..]
    ensures Names(ranges[k..]) == {ranges[k].name} + Names(ranges[k + 1..])
  {
    assert ranges[k..] == [ranges[k]] + ranges[k + 1..];
  }

  // One shared point is overwritten all the way down; results are appended as they are found.
  method BuildGridRecursive(ranges: seq<ParamRange>, cs: seq<ParamConstraint>, currentIndex: nat,
                            point: ParamPoint, result: seq<ParamPoint>)
    returns (currentPoint: ParamPoint, grown: seq<ParamPoint>)
    requires currentIndex <= |ranges|
    ensures grown == result + GridFrom(ranges[currentIndex..], cs, point)
    ensures AgreeOutside(currentPoint, point, Names(ranges[currentIndex..]))
    decreases |ranges| - currentIndex
  {
    currentPoint, grown := point, result;
    if currentIndex >= |ranges| {
      var ok := EvaluateConstraints(currentPoint, cs);
      if ok {
        grown := grown + [currentPoint];
      }
      return;
    }
    var range := ranges[currentIndex];
    ghost var rs, rest := ranges[currentIndex..], ranges[currentIndex + 1..];
    Suffix(ranges, currentIndex);
    if range.step <= 0.0 || range.max < range.min {
      return;
    }
    var numSteps := DiscreteStepCount(range, INT_MAX);
    ghost var names := {range.name} + Names(rest);
    for i := 0 to numSteps
      invariant grown == result + GridSteps(rs, cs, point, i)
      invariant AgreeOutside(currentPoint, point, names)
    {
      var val := ValueForStep(range, i);
      var entered := currentPoint[range.name := val];
      AssignKeepsAgreement(currentPoint, point, range.name, val, Names(rest));
      GridIgnoresLeftovers(rest, cs, entered, point[range.name := val]);
      currentPoint, grown := BuildGridRecursive(ranges, cs, currentIndex + 1, entered, grown);
      AgreementWidens(currentPoint, entered, point, range.name, val, Names(rest));
    }
  }

  method BuildGrid(ranges: seq<ParamRange>, cs: seq<ParamConstraint>) returns (result: seq<ParamPoint>)
    ensures result == Grid(ranges, cs)
  {
    var point: ParamPoint := map[];
    assert ranges[0..] == ranges;
    point, result := BuildGridRecursive(ranges, cs, 0, point, []);
  }

  // ----- The capped counter -----

  // The count and the shared point the recursion leaves behind.
  function CountRec(rs: seq<ParamRange>, cs: seq<ParamConstraint>, p: ParamPoint, cap: int): (int, ParamPoint)
    decreases |rs|
  {
    if cap <= 0 then (0, p)
    else if rs == [] then (if Satisfies(p, cs) then 1 else 0, p)
    else if !Usable(rs[0]) then (0, p)
    else
      var (count, left) := CountSteps(rs, cs, p, cap, 0, 0);
      (count, left - {rs[0].name})
  }

  function CountSteps(rs: seq<ParamRange>, cs: seq<ParamConstraint>, p: ParamPoint, cap: int, i: nat, count: int): (int, ParamPoint)
    requires rs != []
    decreases |rs|, DiscreteStepCount(rs[0], cap) - i
  {
    if i >= DiscreteStepCount(rs[0], cap) || count >= cap then (count, p)
    else
      var p1 := p[rs[0].name := ValueForStep(rs[0], i)];
      if Satisfies(p1, cs) then
        var (c, p2) := CountRec(rs[1..], cs, p1, cap - count);
        CountSteps(rs, cs, p2, cap, i + 1, count + c)
      else
        CountSteps(rs, cs, p1, cap, i + 1, count)
  }

  method CountGridRecursiveCapped(ranges: seq<ParamRange>, cs: seq<ParamConstraint>, currentIndex: nat,
                                  point: ParamPoint, cap: int)
    returns (count: int, currentPoint: ParamPoint)
    requires currentIndex <= |ranges|
    ensures (count, currentPoint) == CountRec(ranges[currentIndex..], cs, point, cap)
    decreases |ranges| - currentIndex
  {
    count, currentPoint := 0, point;
    if cap <= 0 {
      return;
    }
    if currentIndex >= |ranges| {
      var ok := EvaluateConstraints(currentPoint, cs);
      count := if ok then 1 else 0;
      return;
    }
    var range := ranges[currentIndex];
    if range.step <= 0.0 || range.max < range.min {
      return;
    }
    ghost var rs := ranges[currentIndex..];
    assert rs[0] == range && rs[1..] == ranges[currentIndex + 1..];
    var numSteps := DiscreteStepCount(range, cap);
    var i := 0;
    while i < numSteps && count < cap
      invariant 0 <= i <= numSteps
      invariant CountSteps(rs, cs, point, cap, 0, 0) == CountSteps(rs, cs, currentPoint, cap, i, count)
    {
      var val := ValueForStep(range, i);
      currentPoint := currentPoint[range.name := val];
      var ok := EvaluateConstraints(currentPoint, cs);
      if ok {
        var inner;
        inner, currentPoint := CountGridRecursiveCapped(ranges, cs, currentIndex + 1, currentPoint, cap - count);
        count := count + inner;
      }
      i := i + 1;
    }
    currentPoint := currentPoint - {range.name};
  }

  function Count(rs: seq<ParamRange>, cs: seq<ParamConstraint>, cap: int): int {
    CountRec(rs, cs, map[], cap).0
  }

  // ----- Budget clamping -----

  function WidenedStep(r: ParamRange): real {
    if r.isInteger then
      var rounded := Round(r.step * 2.0) as real;
      if rounded >= r.step + 1.0 then rounded else r.step + 1.0
    else r.step * 2.0
  }

  function Pow2(k: nat): int { if k == 0 then 1 else 2 * Pow2(k - 1) }

  // A positive step, whole on an integer range.
  predicate WellStepped(r: ParamRange) {
    r.step > 0.0 && (r.isInteger ==> r.step >= 1.0 && r.step == r.step.Floor as real)
  }

  // r is r0 with its step doubled k times and nothing else changed.
  ghost predicate DoubledTimes(r0: ParamRange, r: ParamRange, k: nat) {
    r == r0.(step := r0.step * Pow2(k) as real)
  }

  ghost predicate Widened(r0: ParamRange, r: ParamRange) {
    exists k: nat :: DoubledTimes(r0, r, k)
  }

  lemma {:induction false} WideningDoubles(r0: ParamRange, r: ParamRange)
    requires WellStepped(r0) && Widened(r0, r)
    ensures Widened(r0, r.(step := WidenedStep(r)))
  {
    var k: nat :| DoubledTimes(r0, r, k);
    Pow2Positive(k);
    assert Pow2(k + 1) == 2 * Pow2(k);
    if r.isInteger {
      MulAtLeast(r0.step.Floor, Pow2(k));
      WholeDoubles(r, r0.step.Floor * Pow2(k));
    }
    assert DoubledTimes(r0, r.(step := WidenedStep(r)), k + 1);
  }

  lemma WholeDoubles(r: ParamRange, whole: int)
    requires whole >= 1 && r.step == whole as real
    ensures WidenedStep(r) == r.step * 2.0
  {
    assert Round(r.step * 2.0) == 2 * whole;
  }

  lemma {:induction false} Pow2Positive(k: nat)
    ensures Pow2(k) >= 1
  {
    if k > 0 { Pow2Positive(k - 1); }
  }

  lemma MulAtLeast(a: int, b: int)
    requires a >= 1 && b >= 1
    ensures a * b >= 1
  {}

  // The first of the ranges with the most values.
  method DensestRange(ranges: array<ParamRange>) returns (m: nat)
    requires ranges.Length > 0
    ensures m < ranges.Length
    ensures forall j | 0 <= j < ranges.Length :: StepCount(ranges[j]) <= StepCount(ranges[m])
    ensures forall j | 0 <= j < m :: StepCount(ranges[j]) < StepCount(ranges[m])
  {
    m := 0;
    for i := 1 to ranges.Length
      invariant m < i
      invariant forall j | 0 <= j < i :: StepCount(ranges[j]) <= StepCount(ranges[m])
      invariant forall j | 0 <= j < m :: StepCount(ranges[j]) < StepCount(ranges[m])
    {
      if StepCount(ranges[m]) < StepCount(ranges[i]) {
        m := i;
      }
    }
  }

  // ----- A run of widenings -----

  ghost predicate FirstDensest(rs: seq<ParamRange>, m: nat) {
    && m < |rs|
    && (forall j | 0 <= j < |rs| :: StepCount(rs[j]) <= StepCount(rs[m]))
    && (forall j | 0 <= j < m :: StepCount(rs[j]) < StepCount(rs[m]))
  }

  // Widening goes on while there is more than a single value to the range and a step to widen.
  predicate CanWiden(r: ParamRange) { r.step > 0.0 && r.max > r.min }

  // One round: the first densest range gets its wider step, and nothing else changes.
  ghost predicate OneWidening(before: seq<ParamRange>, after: seq<ParamRange>) {
    exists m: nat :: FirstDensest(before, m) && CanWiden(before[m]) && after == before[m := before[m].(step := WidenedStep(before[m]))]
  }

  // run[0] is what there was, every round found the count too large, and each is one widening.
  ghost predicate IsWidening(run: seq<seq<ParamRange>>, cs: seq<ParamConstraint>, maxTotalCombos: int) {
    run != [] && forall k | 0 <= k < |run| - 1 :: NeededRound(run[k], run[k + 1], cs, maxTotalCombos)
  }

  ghost predicate NeededRound(before: seq<ParamRange>, after: seq<ParamRange>, cs: seq<ParamConstraint>, maxTotalCombos: int) {
    OneWidening(before, after) && Count(before, cs, CountCap(maxTotalCombos)) > maxTotalCombos
  }

  // No more than this is done: the count fits, 64 rounds were made, or the densest range cannot be widened.
  ghost predicate WideningEnds(run: seq<seq<ParamRange>>, cs: seq<ParamConstraint>, maxTotalCombos: int)
    requires run != []
  {
    var rs := run[|run| - 1];
    || Count(rs, cs, CountCap(maxTotalCombos)) <= maxTotalCombos
    || |run| == 65
    || Stuck(rs)
  }

  // The densest range cannot be widened.
  ghost predicate Stuck(rs: seq<ParamRange>) { exists m: nat :: FirstDensest(rs, m) && !CanWiden(rs[m]) }

  lemma ExtendWidening(run: seq<seq<ParamRange>>, next: seq<ParamRange>, cs: seq<ParamConstraint>, maxTotalCombos: int)
    requires IsWidening(run, cs, maxTotalCombos) && NeededRound(run[|run| - 1], next, cs, maxTotalCombos)
    ensures IsWidening(run + [next], cs, maxTotalCombos)
  {
    var all := run + [next];
    forall k | 0 <= k < |all| - 1
      ensures NeededRound(all[k], all[k + 1], cs, maxTotalCombos)
    {
      assert all[k] == run[k] && (k + 1 < |run| ==> all[k + 1] == run[k + 1]);
    }
  }

  function CountCap(maxTotalCombos: int): int {
    if maxTotalCombos == INT_MAX then maxTotalCombos else maxTotalCombos + 1
  }

  method NextStep(r: ParamRange) returns (newStep: real)
    ensures newStep == WidenedStep(r)
  {
    newStep := r.step * 2.0;
    if r.isInteger {
      newStep := MaxReal(r.step + 1.0, Round(newStep) as real);
    }
  }

  // Only steps differ, and on well-stepped ranges only by doublings.
  ghost predicate OnlySteps(before: seq<ParamRange>, after: seq<ParamRange>) {
    |after| == |before| && forall i | 0 <= i < |before| :: OnlyStep(before[i], after[i])
  }

  ghost predicate OnlyStep(before: ParamRange, after: ParamRange) {
    after == before.(step := after.step) && (WellStepped(before) ==> Widened(before, after))
  }

  lemma NothingWidened(rs: seq<ParamRange>)
    ensures OnlySteps(rs, rs)
  {
    forall i | 0 <= i < |rs| ensures OnlyStep(rs[i], rs[i]) {
      assert DoubledTimes(rs[i], rs[i], 0);
    }
  }

  lemma WideningKeeps(origin: seq<ParamRange>, before: seq<ParamRange>, after: seq<ParamRange>)
    requires OnlySteps(origin, before) && OneWidening(before, after)
    ensures OnlySteps(origin, after)
  {
    var m: nat :| FirstDensest(before, m) && CanWiden(before[m]) && after == before[m := before[m].(step := WidenedStep(before[m]))];
    forall i | 0 <= i < |origin| ensures OnlyStep(origin[i], after[i]) {
      assert OnlyStep(origin[i], before[i]);
      if i == m && WellStepped(origin[m]) {
        WideningDoubles(origin[m], before[m]);
      }
    }
  }

  // One round, if the densest range can be widened.
  method WidenDensest(ranges: array<ParamRange>) returns (widened: bool)
    requires ranges.Length > 0
    modifies ranges
    ensures if widened then OneWidening(old(ranges[..]), ranges[..]) else Stuck(ranges[..]) && ranges[..] == old(ranges[..])
  {
    var m := DensestRange(ranges);
    assert FirstDensest(ranges[..], m);
    var before := ranges[m];
    if before.step <= 0.0 || before.max <= before.min {
      assert !CanWiden(ranges[..][m]);
      return false;
    }
    var newStep := NextStep(before);
    ranges[m] := before.(step := newStep);
    assert ranges[..] == old(ranges[..])[m := before.(step := WidenedStep(before))];
    return true;
  }

  /** Widens the first densest range, round by round, until the count fits, 64 rounds were made, or that range cannot be widened. Only
      steps change; on well-stepped ranges every change is a doubling; and the verdict is about the count of the ranges it leaves. */
  method ClampToBudget(ranges: array<ParamRange>, cs: seq<ParamConstraint>, maxTotalCombos: int)
    returns (fits: bool, ghost run: seq<seq<ParamRange>>)
    modifies ranges
    ensures run != [] && run[0] == old(ranges[..]) && run[|run| - 1] == ranges[..]
    ensures IsWidening(run, cs, maxTotalCombos) && |run| <= 65
    ensures ranges.Length > 0 && maxTotalCombos > 0 ==> WideningEnds(run, cs, maxTotalCombos)
    ensures ranges.Length > 0 && maxTotalCombos > 0 && !fits ==>
              |run| == 65 || Stuck(ranges[..])
    ensures OnlySteps(old(ranges[..]), ranges[..])
    ensures ranges.Length == 0 ==> fits
    ensures ranges.Length > 0 && maxTotalCombos <= 0 ==> !fits && ranges[..] == old(ranges[..])
    ensures ranges.Length > 0 && maxTotalCombos > 0 ==>
              (fits <==> Count(ranges[..], cs, CountCap(maxTotalCombos)) <= maxTotalCombos)
    ensures Count(old(ranges[..]), cs, CountCap(maxTotalCombos)) <= maxTotalCombos ==> ranges[..] == old(ranges[..])
  {
    NothingWidened(ranges[..]);
    run := [ranges[..]];
    if ranges.Length == 0 || maxTotalCombos <= 0 {
      return ranges.Length == 0, run;
    }
    var countCap := if maxTotalCombos == INT_MAX then maxTotalCombos else maxTotalCombos + 1;
    var totalCombos, point := CountGridRecursiveCapped(ranges[..], cs, 0, map[], countCap);
    assert ranges[..][0..] == ranges[..];
    var safetyIter := 0;
    while totalCombos > maxTotalCombos && safetyIter < 64
      invariant totalCombos == Count(ranges[..], cs, countCap)
      invariant OnlySteps(old(ranges[..]), ranges[..])
      invariant |run| == safetyIter + 1 && run[0] == old(ranges[..]) && run[|run| - 1] == ranges[..] && safetyIter <= 64
      invariant IsWidening(run, cs, maxTotalCombos)
      invariant safetyIter == 0 ==> ranges[..] == old(ranges[..])
      invariant Count(old(ranges[..]), cs, countCap) <= maxTotalCombos ==> ranges[..] == old(ranges[..])
      decreases 64 - safetyIter
    {
      safetyIter := safetyIter + 1;
      ghost var narrow := ranges[..];
      var widened := WidenDensest(ranges);
      if !widened {
        return false, run;
      }
      WideningKeeps(old(ranges[..]), narrow, ranges[..]);
      ExtendWidening(run, ranges[..], cs, maxTotalCombos);
      run := run + [ranges[..]];
      var newTotal, nextPoint := CountGridRecursiveCapped(ranges[..], cs, 0, map[], countCap);
      assert ranges[..][0..] == ranges[..];
      var countWasSaturated := totalCombos >= countCap;
      if newTotal >= totalCombos && !countWasSaturated {
        assert false;
      }
      totalCombos := newTotal;
    }
    return totalCombos <= maxTotalCombos, run;
  }
}
