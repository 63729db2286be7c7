/** What the grid holds, how the pruned counter relates to it, and what clamping keeps. */
module GridTheory {
  import opened Common
  import opened ParameterSpace
  import opened Ordering

  // ----- Values of one range -----

  // Below the step count no value is cut off at the upper bound.
  lemma ValueUnclipped(r: ParamRange, i: int)
    requires Usable(r) && 0 <= i < StepCount(r)
    ensures r.isInteger ==> Ceil(r.min) + i * IntStep(r) <= r.max.Floor
    ensures !r.isInteger ==> r.min + i as real * r.step <= r.max
  {
    assert i <= RawSteps(r) - 1;
    if r.isInteger {
      WithinQuotient(i, r.max.Floor - Ceil(r.min), IntStep(r));
    } else {
      WithinRealQuotient(i, r.max - r.min, r.step);
    }
  }

  lemma WithinQuotient(i: int, span: int, s: int)
    requires s >= 1 && i <= span / s
    ensures i * s <= span
  {
    MulMono(i, span / s, s);
  }

  lemma WithinRealQuotient(i: int, span: real, s: real)
    requires s > 0.0 && i <= (span / s).Floor
    ensures i as real * s <= span
  {
    var q := span / s;
    assert q * s == span;
    assert i as real <= q;
    RealMulMono(i as real, q, s);
  }

  lemma MulMono(a: int, b: int, s: int)
    requires a <= b && s >= 0
    ensures a * s <= b * s
  {}

  lemma MulStrict(a: int, b: int, s: int)
    requires a < b && s > 0
    ensures a * s < b * s
  {
    assert b * s - a * s == (b - a) * s;
  }

  lemma RealMulMono(a: real, b: real, s: real)
    requires a <= b && s >= 0.0
    ensures a * s <= b * s
  {}

  lemma RealMulStrict(a: real, b: real, s: real)
    requires a < b && s > 0.0
    ensures a * s < b * s
  {}

  lemma ValuesIncrease(r: ParamRange, i: int, j: int)
    requires 0 <= i < j < StepCount(r)
    ensures ValueForStep(r, i) < ValueForStep(r, j)
  {
    ValueUnclipped(r, i);
    ValueUnclipped(r, j);
    if r.isInteger {
      MulStrict(i, j, IntStep(r));
    } else {
      RealMulStrict(i as real, j as real, r.step);
    }
  }

  // Halves are rounded up; a step below a half counts as 1.
  ghost predicate WholeStep(step: real, s: int) {
    s >= 1 && if step < 0.5 then s == 1 else s as real - 0.5 <= step < s as real + 0.5
  }

  // The k-th value from the lower bound, on an integer range from the first integer not below it, within the upper bound.
  ghost predicate IsValue(r: ParamRange, k: nat, first: int, s: int, v: real) {
    && r.step > 0.0 && r.min <= r.max && v <= r.max
    && if r.isInteger then first as real - 1.0 < r.min <= first as real && WholeStep(r.step, s) && v == (first + k * s) as real
       else v == r.min + k as real * r.step
  }

  /** A range's values are exactly the steps from its lower bound that stay within its upper bound, up to INT_MAX of them. */
  lemma ValuesExact(r: ParamRange, v: real)
    ensures v in Values(r) <==> exists k: nat, first: int, s: int :: k < INT_MAX && IsValue(r, k, first, s, v)
  {
    if v in Values(r) {
      var i: nat :| i < StepCount(r) && v == ValueForStep(r, i);
      ListedIsValue(r, i);
    }
    if k: nat, first: int, s: int :| k < INT_MAX && IsValue(r, k, first, s, v) {
      ValueIsListed(r, k, first, s, v);
    }
  }

  lemma ListedIsValue(r: ParamRange, i: nat)
    requires i < StepCount(r)
    ensures i < INT_MAX && IsValue(r, i, Ceil(r.min), IntStep(r), ValueForStep(r, i))
  {
    ValueUnclipped(r, i);
    StepIsWhole(r);
  }

  lemma ValueIsListed(r: ParamRange, k: nat, first: int, s: int, v: real)
    requires k < INT_MAX && IsValue(r, k, first, s, v)
    ensures v in Values(r)
  {
    if r.isInteger {
      StepIsWhole(r);
      OneWholeStep(r.step, s, IntStep(r));
      assert first == Ceil(r.min);
    }
    StepWithin(r, k);
    ValueUnclipped(r, k);
    assert Values(r)[k] == v;
  }

  lemma OneWholeStep(step: real, s: int, t: int)
    requires WholeStep(step, s) && WholeStep(step, t)
    ensures s == t
  {}

  lemma StepIsWhole(r: ParamRange)
    requires r.step > 0.0
    ensures WholeStep(r.step, IntStep(r))
  {}

  // A step that stays within the upper bound is counted.
  lemma StepWithin(r: ParamRange, k: nat)
    requires Usable(r) && k < INT_MAX
    requires if r.isInteger then Ceil(r.min) + k * IntStep(r) <= r.max.Floor else r.min + k as real * r.step <= r.max
    ensures k < StepCount(r)
  {
    if r.isInteger {
      var span, s := r.max.Floor - Ceil(r.min), IntStep(r);
      if span >= 0 && k > span / s {
        MulMono(span / s + 1, k, s);
      }
    } else {
      var q := (r.max - r.min) / r.step;
      assert q * r.step == r.max - r.min;
      if k as real > q {
        RealMulStrict(q, k as real, r.step);
      }
    }
  }

  // ----- Membership -----

  // q extends p by one value of each range and meets every constraint.
  ghost predicate InProduct(rs: seq<ParamRange>, cs: seq<ParamConstraint>, p: ParamPoint, q: ParamPoint) {
    && q.Keys == p.Keys + Names(rs)
    && (forall k | k in p :: q[k] == p[k])
    && (forall r | r in rs :: r.name in q && q[r.name] in Values(r))
    && Satisfies(q, cs)
  }

  lemma {:induction false} StepsMember(rs: seq<ParamRange>, cs: seq<ParamConstraint>, p: ParamPoint, n: nat, q: ParamPoint)
    requires rs != []
    ensures q in GridSteps(rs, cs, p, n) <==>
            exists i :: 0 <= i < n && q in GridFrom(rs[1..], cs, p[rs[0].name := ValueForStep(rs[0], i)])
  {
    if n > 0 {
      StepsMember(rs, cs, p, n - 1, q);
    }
  }

  lemma NamesSplit(rs: seq<ParamRange>)
    requires rs != []
    ensures Names(rs) == {rs[0].name} + Names(rs[1..])
    ensures DistinctNames(rs) ==> DistinctNames(rs[1..]) && rs[0].name !in Names(rs[1..])
  {
    assert rs == [rs[0]] + rs[1..];
    if DistinctNames(rs) {
      forall r | r in rs[1..] ensures r.name != rs[0].name {
        var j :| 0 <= j < |rs[1..]| && rs[1..][j] == r;
        assert rs[j + 1] == r;
      }
    }
  }

  /** The grid is exactly the constrained product of the value lists. */
  lemma {:induction false} GridExact(rs: seq<ParamRange>, cs: seq<ParamConstraint>, p: ParamPoint, q: ParamPoint)
    requires DistinctNames(rs) && p.Keys !! Names(rs)
    ensures q in GridFrom(rs, cs, p) <==> InProduct(rs, cs, p, q)
    decreases |rs|
  {
    if rs == [] {
      if q.Keys == p.Keys && (forall k | k in p :: q[k] == p[k]) { assert q == p; }
    } else {
      var name, rest := rs[0].name, rs[1..];
      NamesSplit(rs);
      StepsMember(rs, cs, p, StepCount(rs[0]), q);
      forall i | 0 <= i < StepCount(rs[0])
        ensures q in GridFrom(rest, cs, p[name := ValueForStep(rs[0], i)]) <==>
                InProduct(rest, cs, p[name := ValueForStep(rs[0], i)], q)
      {
        GridExact(rest, cs, p[name := ValueForStep(rs[0], i)], q);
      }
      ProductSplit(rs, cs, p, q);
    }
  }

  lemma ProductSplit(rs: seq<ParamRange>, cs: seq<ParamConstraint>, p: ParamPoint, q: ParamPoint)
    requires rs != [] && DistinctNames(rs) && p.Keys !! Names(rs)
    ensures InProduct(rs, cs, p, q) <==>
            exists i :: 0 <= i < StepCount(rs[0]) && InProduct(rs[1..], cs, p[rs[0].name := ValueForStep(rs[0], i)], q)
  {
    if InProduct(rs, cs, p, q) {
      var i := ProductHead(rs, cs, p, q);
    }
    if i :| 0 <= i < StepCount(rs[0]) && InProduct(rs[1..], cs, p[rs[0].name := ValueForStep(rs[0], i)], q) {
      ProductCons(rs, cs, p, q, i);
    }
  }

  lemma ProductHead(rs: seq<ParamRange>, cs: seq<ParamConstraint>, p: ParamPoint, q: ParamPoint) returns (i: int)
    requires rs != [] && DistinctNames(rs) && p.Keys !! Names(rs) && InProduct(rs, cs, p, q)
    ensures 0 <= i < StepCount(rs[0]) && InProduct(rs[1..], cs, p[rs[0].name := ValueForStep(rs[0], i)], q)
  {
    var r := rs[0];
    NamesSplit(rs);
    assert r in rs;
    i := StepOf(r, q[r.name]);
    ProductTail(rs, cs, p, q, ValueForStep(r, i));
  }

  lemma StepOf(r: ParamRange, v: real) returns (i: int)
    requires v in Values(r)
    ensures 0 <= i < StepCount(r) && ValueForStep(r, i) == v
  {
    i :| 0 <= i < |Values(r)| && Values(r)[i] == v;
  }

  lemma ProductTail(rs: seq<ParamRange>, cs: seq<ParamConstraint>, p: ParamPoint, q: ParamPoint, v: real)
    requires rs != [] && InProduct(rs, cs, p, q) && Names(rs) == {rs[0].name} + Names(rs[1..]) && rs[0].name in q && q[rs[0].name] == v
    ensures InProduct(rs[1..], cs, p[rs[0].name := v], q)
  {
    forall r | r in rs[1..]
      ensures r.name in q && q[r.name] in Values(r)
    {
      assert r in rs;
    }
  }

  lemma ProductCons(rs: seq<ParamRange>, cs: seq<ParamConstraint>, p: ParamPoint, q: ParamPoint, i: int)
    requires rs != [] && DistinctNames(rs) && p.Keys !! Names(rs)
    requires 0 <= i < StepCount(rs[0]) && InProduct(rs[1..], cs, p[rs[0].name := ValueForStep(rs[0], i)], q)
    ensures InProduct(rs, cs, p, q)
  {
    var r, rest := rs[0], rs[1..];
    NamesSplit(rs);
    var p1 := p[r.name := ValueForStep(r, i)];
    assert r.name in p1 && q[r.name] == Values(r)[i];
    forall k | k in p ensures q[k] == p[k] { assert k in p1 && p1[k] == p[k]; }
    forall r' | r' in rs ensures r'.name in q && q[r'.name] in Values(r') {
      if r' != r { assert r' in rest; }
    }
  }

  lemma GridPointExtends(rs: seq<ParamRange>, cs: seq<ParamConstraint>, p: ParamPoint, q: ParamPoint, k: string)
    requires DistinctNames(rs) && p.Keys !! Names(rs) && q in GridFrom(rs, cs, p) && k in p
    ensures k in q && q[k] == p[k]
  {
    GridExact(rs, cs, p, q);
  }

  // ----- Distinctness and size -----

  lemma DistinctConcat<T>(xs: seq<T>, ys: seq<T>)
    requires Distinct(xs) && Distinct(ys)
    requires forall x | x in xs :: x !in ys
    ensures Distinct(xs + ys)
  {
    forall i, j | 0 <= i < j < |xs + ys| ensures (xs + ys)[i] != (xs + ys)[j] {
      if i < |xs| <= j {
        assert xs[i] in xs && ys[j - |xs|] in ys;
      }
    }
  }

  /** No point appears twice in the grid. */
  lemma {:induction false} GridDistinct(rs: seq<ParamRange>, cs: seq<ParamConstraint>, p: ParamPoint)
    requires DistinctNames(rs) && p.Keys !! Names(rs)
    ensures Distinct(GridFrom(rs, cs, p))
    decreases |rs|
  {
    if rs != [] {
      StepsDistinct(rs, cs, p, StepCount(rs[0]));
    }
  }

  lemma {:induction false} StepsDistinct(rs: seq<ParamRange>, cs: seq<ParamConstraint>, p: ParamPoint, n: nat)
    requires rs != [] && DistinctNames(rs) && p.Keys !! Names(rs) && n <= StepCount(rs[0])
    ensures Distinct(GridSteps(rs, cs, p, n))
    decreases |rs|, n
  {
    if n > 0 {
      var name, rest := rs[0].name, rs[1..];
      var last := p[name := ValueForStep(rs[0], n - 1)];
      NamesSplit(rs);
      StepsDistinct(rs, cs, p, n - 1);
      GridDistinct(rest, cs, last);
      forall q | q in GridSteps(rs, cs, p, n - 1) ensures q !in GridFrom(rest, cs, last) {
        StepsMember(rs, cs, p, n - 1, q);
        var i :| 0 <= i < n - 1 && q in GridFrom(rest, cs, p[name := ValueForStep(rs[0], i)]);
        GridPointExtends(rest, cs, p[name := ValueForStep(rs[0], i)], q, name);
        ValuesIncrease(rs[0], i, n - 1);
        if q in GridFrom(rest, cs, last) {
          GridPointExtends(rest, cs, last, q, name);
        }
      }
      DistinctConcat(GridSteps(rs, cs, p, n - 1), GridFrom(rest, cs, last));
    }
  }

  function Product(rs: seq<ParamRange>): nat {
    if rs == [] then 1 else StepCount(rs[0]) * Product(rs[1..])
  }

  lemma {:induction false} GridSize(rs: seq<ParamRange>, cs: seq<ParamConstraint>, p: ParamPoint)
    ensures |GridFrom(rs, cs, p)| <= Product(rs)
    ensures cs == [] ==> |GridFrom(rs, cs, p)| == Product(rs)
    decreases |rs|
  {
    if rs != [] {
      StepsSize(rs, cs, p, StepCount(rs[0]));
    }
  }

  lemma {:induction false} StepsSize(rs: seq<ParamRange>, cs: seq<ParamConstraint>, p: ParamPoint, n: nat)
    requires rs != []
    ensures |GridSteps(rs, cs, p, n)| <= n * Product(rs[1..])
    ensures cs == [] ==> |GridSteps(rs, cs, p, n)| == n * Product(rs[1..])
    decreases |rs|, n
  {
    if n > 0 {
      StepsSize(rs, cs, p, n - 1);
      GridSize(rs[1..], cs, p[rs[0].name := ValueForStep(rs[0], n - 1)]);
      assert n * Product(rs[1..]) == (n - 1) * Product(rs[1..]) + Product(rs[1..]);
    }
  }

  lemma {:induction false} StepsGrow(rs: seq<ParamRange>, cs: seq<ParamConstraint>, p: ParamPoint, m: nat, n: nat)
    requires rs != [] && m <= n
    ensures |GridSteps(rs, cs, p, m)| <= |GridSteps(rs, cs, p, n)|
    decreases n
  {
    if m < n {
      StepsGrow(rs, cs, p, m, n - 1);
    }
  }

  // ----- The capped counter against the grid -----

  lemma PartialSatisfies(rs: seq<ParamRange>, cs: seq<ParamConstraint>, p: ParamPoint, q: ParamPoint)
    requires DistinctNames(rs) && p.Keys !! Names(rs) && q in GridFrom(rs, cs, p)
    ensures Satisfies(p, cs)
  {
    GridExact(rs, cs, p, q);
    forall c | c in cs ensures Holds(c, p) {
      assert Holds(c, q);
    }
  }

  /** Pruning is sound: a partial point that breaks a constraint extends to no grid point. */
  lemma PrunedIsEmpty(rs: seq<ParamRange>, cs: seq<ParamConstraint>, p: ParamPoint)
    requires DistinctNames(rs) && p.Keys !! Names(rs) && !Satisfies(p, cs)
    ensures GridFrom(rs, cs, p) == []
  {
    if GridFrom(rs, cs, p) != [] {
      PartialSatisfies(rs, cs, p, GridFrom(rs, cs, p)[0]);
    }
  }

  // What the counter reports and the point it hands back, for a cap that may cut the search short.
  ghost predicate CountOk(rs: seq<ParamRange>, cs: seq<ParamConstraint>, p: ParamPoint, cap: int) {
    var (count, left) := CountRec(rs, cs, p, cap);
    && left == p
    && 0 <= count <= |GridFrom(rs, cs, p)|
    && (cap >= 0 ==> count <= cap)
    && (cap >= Product(rs) ==> count == |GridFrom(rs, cs, p)|)
    && (cs == [] && cap >= 0 ==> count == Min(cap, Product(rs)))
  }

  lemma {:induction false} CountCorrect(rs: seq<ParamRange>, cs: seq<ParamConstraint>, p: ParamPoint, cap: int)
    requires DistinctNames(rs) && p.Keys !! Names(rs) && cap <= INT_MAX
    ensures CountOk(rs, cs, p, cap)
    decreases |rs|
  {
    GridSize(rs, cs, p);
    if cap > 0 && rs != [] && Usable(rs[0]) {
      NamesSplit(rs);
      StepsCountCorrect(rs, cs, p, p, cap, 0, 0);
    }
  }

  // The loop at one level: i values done, count points found, the shared point differing from p
  // at most in this range's own entry.
  ghost predicate LoopInv(rs: seq<ParamRange>, cs: seq<ParamConstraint>, p: ParamPoint, cur: ParamPoint, cap: int, i: nat, count: int)
    requires rs != []
  {
    && i <= DiscreteStepCount(rs[0], cap) && 0 <= count <= cap
    && cur - {rs[0].name} == p
    && count <= |GridSteps(rs, cs, p, i)|
    && (cap >= Product(rs) ==> count == |GridSteps(rs, cs, p, i)|)
    && (cs == [] ==> count == Min(cap, i * Product(rs[1..])))
  }

  lemma {:induction false} StepsCountCorrect(rs: seq<ParamRange>, cs: seq<ParamConstraint>, p: ParamPoint, cur: ParamPoint,
                                             cap: int, i: nat, count: int)
    requires rs != [] && DistinctNames(rs) && p.Keys !! Names(rs) && 0 < cap <= INT_MAX && Usable(rs[0])
    requires LoopInv(rs, cs, p, cur, cap, i, count)
    ensures var (total, left) := CountSteps(rs, cs, cur, cap, i, count);
            && left - {rs[0].name} == p
            && 0 <= total <= |GridFrom(rs, cs, p)| && total <= cap
            && (cap >= Product(rs) ==> total == |GridFrom(rs, cs, p)|)
            && (cs == [] ==> total == Min(cap, Product(rs)))
    decreases |rs|, DiscreteStepCount(rs[0], cap) - i
  {
    var r, rest, n := rs[0], rs[1..], DiscreteStepCount(rs[0], cap);
    assert n <= StepCount(r);
    if i >= n || count >= cap {
      StepsGrow(rs, cs, p, i, StepCount(r));
      LoopExit(rs, cs, p, cap, i, count);
    } else {
      NamesSplit(rs);
      var v := ValueForStep(r, i);
      var p1 := p[r.name := v];
      assert p - {r.name} == p;
      SamePoint(p, cur, r.name, v);
      if Satisfies(p1, cs) {
        CountCorrect(rest, cs, p1, cap - count);
        var c := CountRec(rest, cs, p1, cap - count).0;
        LoopAdvances(rs, cs, p, cur, cap, i, count, c);
        StepsCountCorrect(rs, cs, p, p1, cap, i + 1, count + c);
      } else {
        PrunedIsEmpty(rest, cs, p1);
        LoopAdvances(rs, cs, p, cur, cap, i, count, 0);
        StepsCountCorrect(rs, cs, p, p1, cap, i + 1, count);
      }
    }
  }

  // One round of the loop, given what the deeper call counted for value i.
  lemma LoopAdvances(rs: seq<ParamRange>, cs: seq<ParamConstraint>, p: ParamPoint, cur: ParamPoint,
                     cap: int, i: nat, count: int, c: int)
    requires rs != [] && p.Keys !! Names(rs) && 0 < cap <= INT_MAX && Usable(rs[0])
    requires LoopInv(rs, cs, p, cur, cap, i, count) && i < DiscreteStepCount(rs[0], cap) && count < cap
    requires var g := GridFrom(rs[1..], cs, p[rs[0].name := ValueForStep(rs[0], i)]);
             && 0 <= c <= |g| && c <= cap - count
             && (cap - count >= Product(rs[1..]) ==> c == |g|)
             && (cs == [] ==> c == Min(cap - count, Product(rs[1..])))
    ensures LoopInv(rs, cs, p, p[rs[0].name := ValueForStep(rs[0], i)], cap, i + 1, count + c)
  {
    var r, rest, x := rs[0], rs[1..], Product(rs[1..]);
    var p1 := p[r.name := ValueForStep(r, i)];
    assert r.name !in p by { assert r in rs; }
    assert p1 - {r.name} == p;
    StepsSize(rs, cs, p, i);
    assert GridSteps(rs, cs, p, i + 1) == GridSteps(rs, cs, p, i) + GridFrom(rest, cs, p1);
    assert (i + 1) * x == i * x + x;
    MulMono(i + 1, StepCount(r), x);
  }

  lemma LoopExit(rs: seq<ParamRange>, cs: seq<ParamConstraint>, p: ParamPoint, cap: int, i: nat, count: nat)
    requires rs != [] && 0 < cap <= INT_MAX && Usable(rs[0]) && count <= cap
    requires i <= DiscreteStepCount(rs[0], cap)
    requires i == DiscreteStepCount(rs[0], cap) || count == cap
    requires count <= |GridSteps(rs, cs, p, i)| <= |GridFrom(rs, cs, p)|
    requires cap >= Product(rs) ==> count == |GridSteps(rs, cs, p, i)|
    requires cs == [] ==> count == Min(cap, i * Product(rs[1..]))
    ensures cap >= Product(rs) ==> count == |GridFrom(rs, cs, p)|
    ensures cs == [] ==> count == Min(cap, Product(rs))
  {
    var n, m, rest := StepCount(rs[0]), DiscreteStepCount(rs[0], cap), Product(rs[1..]);
    GridSize(rs, cs, p);
    if rest == 0 {
      assert Product(rs) == 0;
    } else if m < n {
      assert m == cap;
      ScaleAtLeast(cap, rest);
      ScaleAtLeast(n, rest);
    } else if i < n {
      MulMono(i, n, rest);
    }
  }

  lemma ScaleAtLeast(a: nat, b: nat)
    requires b >= 1
    ensures a * b >= a
  {}

  /** The count a budget is checked with: never above the cap or the grid, exact once the cap covers
      the product of the step counts, and exactly the capped size when nothing is constrained. */
  lemma CountVersusGrid(rs: seq<ParamRange>, cs: seq<ParamConstraint>, cap: int)
    requires DistinctNames(rs) && 0 <= cap <= INT_MAX
    ensures 0 <= Count(rs, cs, cap) <= Min(cap, |Grid(rs, cs)|)
    ensures cap >= Product(rs) ==> Count(rs, cs, cap) == |Grid(rs, cs)|
    ensures cs == [] ==> Count(rs, cs, cap) == Min(cap, |Grid(rs, cs)|)
  {
    CountCorrect(rs, cs, map[], cap);
    GridSize(rs, cs, map[]);
  }

  // ----- What the counter misses -----

  // The grid points behind the values past the first m of the first range.
  ghost function Beyond(rs: seq<ParamRange>, cs: seq<ParamConstraint>, p: ParamPoint, m: nat): int
    requires rs != []
  {
    |GridFrom(rs, cs, p)| - |GridSteps(rs, cs, p, m)|
  }

  // How many grid points are cut off where a range's values are limited by the remaining cap, at the ranges the counter visits.
  ghost function Dropped(rs: seq<ParamRange>, cs: seq<ParamConstraint>, p: ParamPoint, cap: int): int
    decreases |rs|
  {
    if cap <= 0 || rs == [] || !Usable(rs[0]) then 0 else DroppedSteps(rs, cs, p, cap, 0, 0)
  }

  ghost function DroppedSteps(rs: seq<ParamRange>, cs: seq<ParamConstraint>, p: ParamPoint, cap: int, i: nat, count: int): int
    requires rs != []
    decreases |rs|, DiscreteStepCount(rs[0], cap) - i
  {
    var p1 := p[rs[0].name := ValueForStep(rs[0], i)];
    if i >= DiscreteStepCount(rs[0], cap) then Beyond(rs, cs, p, i)
    else if count >= cap then 0
    else if Satisfies(p1, cs) then
      Dropped(rs[1..], cs, p1, cap - count) + DroppedSteps(rs, cs, p, cap, i + 1, count + CountRec(rs[1..], cs, p1, cap - count).0)
    else DroppedSteps(rs, cs, p, cap, i + 1, count)
  }

  // Value j of the first range extends p to no grid point.
  ghost predicate LeadsNowhere(rs: seq<ParamRange>, cs: seq<ParamConstraint>, p: ParamPoint, j: nat)
    requires rs != []
  {
    GridFrom(rs[1..], cs, p[rs[0].name := ValueForStep(rs[0], j)]) == []
  }

  // At no range the counter visits do the values it cuts off lead to a grid point.
  ghost predicate Complete(rs: seq<ParamRange>, cs: seq<ParamConstraint>, p: ParamPoint, cap: int)
    decreases |rs|
  {
    cap <= 0 || rs == [] || !Usable(rs[0]) || CompleteSteps(rs, cs, p, cap, 0, 0)
  }

  ghost predicate CompleteSteps(rs: seq<ParamRange>, cs: seq<ParamConstraint>, p: ParamPoint, cap: int, i: nat, count: int)
    requires rs != []
    decreases |rs|, DiscreteStepCount(rs[0], cap) - i
  {
    var p1 := p[rs[0].name := ValueForStep(rs[0], i)];
    if i >= DiscreteStepCount(rs[0], cap) then
      forall j | i <= j < StepCount(rs[0]) :: LeadsNowhere(rs, cs, p, j)
    else if count >= cap then true
    else if Satisfies(p1, cs) then
      Complete(rs[1..], cs, p1, cap - count)
      && CompleteSteps(rs, cs, p, cap, i + 1, count + CountRec(rs[1..], cs, p1, cap - count).0)
    else CompleteSteps(rs, cs, p, cap, i + 1, count)
  }

  lemma {:induction false} BeyondNone(rs: seq<ParamRange>, cs: seq<ParamConstraint>, p: ParamPoint, m: nat, n: nat)
    requires rs != [] && m <= n
    ensures |GridSteps(rs, cs, p, m)| == |GridSteps(rs, cs, p, n)| <==>
            forall j | m <= j < n :: LeadsNowhere(rs, cs, p, j)
    decreases n
  {
    if m < n {
      BeyondNone(rs, cs, p, m, n - 1);
      StepsGrow(rs, cs, p, m, n - 1);
      assert |GridSteps(rs, cs, p, n)| == |GridSteps(rs, cs, p, n - 1)| <==> LeadsNowhere(rs, cs, p, n - 1);
    }
  }

  lemma {:induction false} CompleteDropsNone(rs: seq<ParamRange>, cs: seq<ParamConstraint>, p: ParamPoint, cap: int)
    requires cap <= INT_MAX
    requires DistinctNames(rs) && p.Keys !! Names(rs)
    ensures Dropped(rs, cs, p, cap) >= 0 && (Complete(rs, cs, p, cap) <==> Dropped(rs, cs, p, cap) == 0)
    decreases |rs|
  {
    if cap > 0 && rs != [] && Usable(rs[0]) {
      CompleteStepsDropNone(rs, cs, p, cap, 0, 0);
    }
  }

  lemma {:induction false} CompleteStepsDropNone(rs: seq<ParamRange>, cs: seq<ParamConstraint>, p: ParamPoint, cap: int, i: nat, count: int)
    requires rs != [] && DistinctNames(rs) && p.Keys !! Names(rs) && 0 < cap <= INT_MAX && Usable(rs[0])
    requires i <= DiscreteStepCount(rs[0], cap) && 0 <= count
    ensures var dropped := DroppedSteps(rs, cs, p, cap, i, count);
            dropped >= 0 && (CompleteSteps(rs, cs, p, cap, i, count) <==> dropped == 0)
    decreases |rs|, DiscreteStepCount(rs[0], cap) - i
  {
    var r, rest := rs[0], rs[1..];
    if i >= DiscreteStepCount(r, cap) {
      StepsGrow(rs, cs, p, i, StepCount(r));
      BeyondNone(rs, cs, p, i, StepCount(r));
    } else if count < cap {
      var p1 := p[r.name := ValueForStep(r, i)];
      NamesSplit(rs);
      if Satisfies(p1, cs) {
        CompleteDropsNone(rest, cs, p1, cap - count);
        CountCorrect(rest, cs, p1, cap - count);
        CompleteStepsDropNone(rs, cs, p, cap, i + 1, count + CountRec(rest, cs, p1, cap - count).0);
      } else {
        CompleteStepsDropNone(rs, cs, p, cap, i + 1, count);
      }
    }
  }

  lemma {:induction false} CountPlusDropped(rs: seq<ParamRange>, cs: seq<ParamConstraint>, p: ParamPoint, cap: int)
    requires DistinctNames(rs) && p.Keys !! Names(rs) && 0 < cap <= INT_MAX && CountRec(rs, cs, p, cap).0 < cap
    ensures CountRec(rs, cs, p, cap).0 + Dropped(rs, cs, p, cap) == |GridFrom(rs, cs, p)|
    decreases |rs|
  {
    if rs != [] && Usable(rs[0]) {
      StepsPlusDropped(rs, cs, p, p, cap, 0, 0);
    }
  }

  lemma {:induction false} StepsPlusDropped(rs: seq<ParamRange>, cs: seq<ParamConstraint>, p: ParamPoint, cur: ParamPoint,
                                            cap: int, i: nat, count: int)
    requires rs != [] && DistinctNames(rs) && p.Keys !! Names(rs) && 0 < cap <= INT_MAX && Usable(rs[0])
    requires i <= DiscreteStepCount(rs[0], cap) && 0 <= count && cur - {rs[0].name} == p - {rs[0].name}
    ensures var total := CountSteps(rs, cs, cur, cap, i, count).0;
            && count <= total
            && (total < cap ==> total - count + DroppedSteps(rs, cs, p, cap, i, count) == Beyond(rs, cs, p, i))
    decreases |rs|, DiscreteStepCount(rs[0], cap) - i
  {
    if i < DiscreteStepCount(rs[0], cap) && count < cap {
      var p1 := p[rs[0].name := ValueForStep(rs[0], i)];
      var c := FoundBehind(rs, cs, p1, cap - count);
      CountRound(rs, cs, p, cur, cap, i, count);
      BeyondStep(rs, cs, p, i);
      assert p1 - {rs[0].name} == p - {rs[0].name};
      StepsPlusDropped(rs, cs, p, p1, cap, i + 1, count + c);
      if c < cap - count {
        RoundPlusDropped(rs, cs, p1, cap - count);
      }
    }
  }

  // What the counter finds, and what it cuts off, behind one value of the first range.
  ghost function FoundBehind(rs: seq<ParamRange>, cs: seq<ParamConstraint>, p1: ParamPoint, cap: int): int
    requires rs != []
  {
    if Satisfies(p1, cs) then CountRec(rs[1..], cs, p1, cap).0 else 0
  }

  ghost function DroppedBehind(rs: seq<ParamRange>, cs: seq<ParamConstraint>, p1: ParamPoint, cap: int): int
    requires rs != []
  {
    if Satisfies(p1, cs) then Dropped(rs[1..], cs, p1, cap) else 0
  }

  lemma {:induction false} RoundPlusDropped(rs: seq<ParamRange>, cs: seq<ParamConstraint>, p1: ParamPoint, cap: int)
    requires rs != [] && DistinctNames(rs) && p1.Keys !! Names(rs[1..]) && 0 < cap <= INT_MAX
    requires FoundBehind(rs, cs, p1, cap) < cap
    ensures |GridFrom(rs[1..], cs, p1)| == FoundBehind(rs, cs, p1, cap) + DroppedBehind(rs, cs, p1, cap)
    decreases |rs|, 0
  {
    NamesSplit(rs);
    if Satisfies(p1, cs) {
      CountPlusDropped(rs[1..], cs, p1, cap);
    } else {
      PrunedIsEmpty(rs[1..], cs, p1);
    }
  }

  lemma CountRound(rs: seq<ParamRange>, cs: seq<ParamConstraint>, p: ParamPoint, cur: ParamPoint, cap: int, i: nat, count: int)
    requires rs != [] && DistinctNames(rs) && p.Keys !! Names(rs) && 0 < cap <= INT_MAX && Usable(rs[0])
    requires i < DiscreteStepCount(rs[0], cap) && 0 <= count < cap && cur - {rs[0].name} == p - {rs[0].name}
    ensures var p1 := p[rs[0].name := ValueForStep(rs[0], i)];
            var c := FoundBehind(rs, cs, p1, cap - count);
            && 0 <= c <= cap - count && p1.Keys !! Names(rs[1..])
            && CountSteps(rs, cs, cur, cap, i, count) == CountSteps(rs, cs, p1, cap, i + 1, count + c)
            && DroppedSteps(rs, cs, p, cap, i, count)
                 == DroppedBehind(rs, cs, p1, cap - count) + DroppedSteps(rs, cs, p, cap, i + 1, count + c)
  {
    SamePoint(p, cur, rs[0].name, ValueForStep(rs[0], i));
    NamesSplit(rs);
    CountCorrect(rs[1..], cs, p[rs[0].name := ValueForStep(rs[0], i)], cap - count);
  }

  lemma BeyondStep(rs: seq<ParamRange>, cs: seq<ParamConstraint>, p: ParamPoint, i: nat)
    requires rs != []
    ensures Beyond(rs, cs, p, i) == Beyond(rs, cs, p, i + 1) + |GridFrom(rs[1..], cs, p[rs[0].name := ValueForStep(rs[0], i)])|
  {}

  lemma SamePoint(p: ParamPoint, cur: ParamPoint, name: string, v: real)
    requires cur - {name} == p - {name}
    ensures cur[name := v] == p[name := v]
  {
    forall k | k != name
      ensures (k in cur <==> k in p) && (k in p ==> cur[k] == p[k])
    {
      assert k in cur <==> k in cur - {name};
      assert k in p <==> k in p - {name};
    }
  }

  /** A count below the cap falls short of the grid by exactly the points cut off, so it is exact exactly when none are. */
  lemma CountMisses(rs: seq<ParamRange>, cs: seq<ParamConstraint>, cap: int)
    requires DistinctNames(rs) && 0 < cap <= INT_MAX && Count(rs, cs, cap) < cap
    ensures Count(rs, cs, cap) + Dropped(rs, cs, map[], cap) == |Grid(rs, cs)|
    ensures Count(rs, cs, cap) == |Grid(rs, cs)| <==> Complete(rs, cs, map[], cap)
  {
    CountPlusDropped(rs, cs, map[], cap);
    CompleteDropsNone(rs, cs, map[], cap);
  }
}
