/** Plateau detection over a scored grid (src/backtest/plateau_finder.cpp). */
module PlateauFinder {
  import opened Common
  import opened ParameterSpace
  import opened Ordering

  datatype ScoredPoint = ScoredPoint(point: ParamPoint, oosSortino: real, isSortino: real, passedFilters: bool)

  datatype PlateauResult = PlateauResult(center: ParamPoint, survivors: seq<ParamPoint>,
                                         centerSortinoIS: real, centerSortinoOOS: real)

  // MissingDimension is the exception a survivor without some dimension raises.
  datatype FindOutcome = NoPlateau | MissingDimension | Plateau(result: PlateauResult)

  type Dims = map<string, seq<real>>

  type IndexedPoint = map<string, int>

  function AbsInt(x: int): int { if x >= 0 then x else -x }

  // ----- Dimensions and indices -----

  ghost predicate HasValue(grid: seq<ScoredPoint>, dim: string, v: real) {
    exists sp :: sp in grid && dim in sp.point && sp.point[dim] == v
  }

  ghost predicate IsDims(dims: Dims, grid: seq<ScoredPoint>) {
    && (forall d :: d in dims <==> exists sp :: sp in grid && d in sp.point)
    && (forall d | d in dims :: Increasing(dims[d]))
    && (forall d, v | d in dims :: v in dims[d] <==> HasValue(grid, d, v))
  }

  // Adds each of the point's values to its dimension's set.
  method InsertValues(before: map<string, set<real>>, p: ParamPoint) returns (sets: map<string, set<real>>)
    ensures sets.Keys == before.Keys + p.Keys
    ensures forall d | d in sets :: sets[d] == (if d in before then before[d] else {}) + (if d in p then {p[d]} else {})
  {
    sets := before;
    var names := p.Keys;
    while names != {}
      invariant names <= p.Keys
      invariant sets.Keys == before.Keys + (p.Keys - names)
      invariant forall d | d in sets :: sets[d] ==
                  (if d in before then before[d] else {}) + (if d in p && d !in names then {p[d]} else {})
    {
      var k :| k in names;
      names := names - {k};
      sets := sets[k := (if k in sets then sets[k] else {}) + {p[k]}];
    }
  }

  method SortDimensions(sets: map<string, set<real>>) returns (dims: Dims)
    ensures dims.Keys == sets.Keys
    ensures forall d | d in dims :: Increasing(dims[d]) && forall v :: v in dims[d] <==> v in sets[d]
  {
    dims := map[];
    var names := sets.Keys;
    while names != {}
      invariant names <= sets.Keys && dims.Keys == sets.Keys - names
      invariant forall d | d in dims :: Increasing(dims[d]) && forall v :: v in dims[d] <==> v in sets[d]
    {
      var k :| k in names;
      names := names - {k};
      var values := SortedVector(sets[k]);
      dims := dims[k := values];
    }
  }

  method ExtractDimensions(grid: seq<ScoredPoint>) returns (dims: Dims)
    ensures IsDims(dims, grid)
  {
    var sets: map<string, set<real>> := map[];
    for i := 0 to |grid|
      invariant forall d :: d in sets <==> exists sp :: sp in grid[..i] && d in sp.point
      invariant forall d, v | d in sets :: v in sets[d] <==> HasValue(grid[..i], d, v)
    {
      assert forall sp :: sp in grid[..i + 1] <==> sp in grid[..i] || sp == grid[i];
      var p := grid[i].point;
      ghost var before := sets;
      sets := InsertValues(sets, p);
      forall d, v | d in sets ensures v in sets[d] <==> HasValue(grid[..i + 1], d, v) {
        assert v in sets[d] <==> HasValue(grid[..i], d, v) || (d in p && p[d] == v);
      }
    }
    assert grid[..|grid|] == grid;
    dims := SortDimensions(sets);
  }

  // The first position whose value is not below the target.
  function LowerBound(values: seq<real>, target: real): (i: nat)
    ensures i <= |values|
  {
    if values == [] || values[0] >= target then 0 else 1 + LowerBound(values[1..], target)
  }

  function NearestValueIndex(values: seq<real>, target: real): int {
    if values == [] then -1
    else
      var hi := LowerBound(values, target);
      if hi == 0 then 0
      else if hi == |values| then |values| - 1
      else if Abs(values[hi] - target) < Abs(target - values[hi - 1]) then hi else hi - 1
  }

  function IndexPoint(point: ParamPoint, dims: Dims): IndexedPoint {
    map d | d in dims && d in point && NearestValueIndex(dims[d], point[d]) >= 0 :: NearestValueIndex(dims[d], point[d])
  }

  predicate SameAllDimsExcept(lhs: IndexedPoint, rhs: IndexedPoint, excluded: string) {
    forall d | d in lhs && d != excluded :: d in rhs && rhs[d] == lhs[d]
  }

  predicate SameDims(lhs: IndexedPoint, rhs: IndexedPoint, dims: set<string>) {
    forall d | d in dims :: d in lhs && d in rhs && lhs[d] == rhs[d]
  }

  // ----- Sensitivity -----

  predicate IsNeighbour(sp: ScoredPoint, dims: Dims, best: IndexedPoint, dim: string, index: int) {
    var ip := IndexPoint(sp.point, dims);
    dim in ip && ip[dim] == index && SameAllDimsExcept(ip, best, dim)
  }

  // |best - neighbour| for the first scored point one step away at the given index; 0 when there is none.
  function GradientAt(grid: seq<ScoredPoint>, dims: Dims, best: ScoredPoint, dim: string, index: int): real {
    if grid == [] then 0.0
    else if IsNeighbour(grid[0], dims, IndexPoint(best.point, dims), dim, index) then
      Abs(best.oosSortino - grid[0].oosSortino)
    else GradientAt(grid[1..], dims, best, dim, index)
  }

  function Sensitivity(grid: seq<ScoredPoint>, dims: Dims, best: ScoredPoint, dim: string): real
    requires dim in dims
  {
    var ip := IndexPoint(best.point, dims);
    if dim !in ip then 0.0
    else
      var idx := ip[dim];
      var down := if 0 < idx <= |dims[dim]| - 1 then GradientAt(grid, dims, best, dim, idx - 1) else 0.0;
      var up := if idx >= 0 && idx + 1 < |dims[dim]| then GradientAt(grid, dims, best, dim, idx + 1) else 0.0;
      if up > down then up else down
  }

  method FindGradient(grid: seq<ScoredPoint>, dims: Dims, best: ScoredPoint, dim: string, index: int) returns (gradient: real)
    ensures gradient == GradientAt(grid, dims, best, dim, index)
  {
    var bestIndexed := IndexPoint(best.point, dims);
    var i := 0;
    while i < |grid|
      invariant 0 <= i <= |grid|
      invariant GradientAt(grid, dims, best, dim, index) == GradientAt(grid[i..], dims, best, dim, index)
    {
      if IsNeighbour(grid[i], dims, bestIndexed, dim, index) {
        return Abs(best.oosSortino - grid[i].oosSortino);
      }
      assert grid[i..][1..] == grid[i + 1..];
      i := i + 1;
    }
    return 0.0;
  }

  method GetSensitivity(grid: seq<ScoredPoint>, dims: Dims, best: ScoredPoint, dim: string) returns (s: real)
    requires dim in dims
    ensures s == Sensitivity(grid, dims, best, dim)
  {
    var ip := IndexPoint(best.point, dims);
    if dim !in ip {
      return 0.0;
    }
    var idx := ip[dim];
    var gradDown, gradUp := 0.0, 0.0;
    if 0 < idx <= |dims[dim]| - 1 {
      gradDown := FindGradient(grid, dims, best, dim, idx - 1);
    }
    if idx >= 0 && idx + 1 < |dims[dim]| {
      gradUp := FindGradient(grid, dims, best, dim, idx + 1);
    }
    return if gradUp > gradDown then gradUp else gradDown;
  }

  // ----- Which dimensions stay active -----

  // a ranks before b: higher sensitivity, and among equals the later name.
  ghost predicate RanksBefore(sens: map<string, real>, a: string, b: string) {
    a in sens && b in sens && (sens[a] > sens[b] || (sens[a] == sens[b] && NameLess(b, a)))
  }

  ghost predicate IsRanking(order: seq<string>, sens: map<string, real>) {
    && Lists(order, sens.Keys)
    && forall i, j | 0 <= i < j < |order| :: RanksBefore(sens, order[i], order[j])
  }

  method TopRanked(sens: map<string, real>, names: set<string>) returns (top: string)
    requires names != {} && names <= sens.Keys
    ensures top in names && forall d | d in names && d != top :: RanksBefore(sens, top, d)
  {
    top :| top in names;
    var rest := names - {top};
    while rest != {}
      invariant rest <= names && top in names && top !in rest
      invariant forall d | d in names && d !in rest && d != top :: RanksBefore(sens, top, d)
    {
      var d :| d in rest;
      rest := rest - {d};
      NameLessTotal(d, top);
      if sens[d] > sens[top] || (sens[d] == sens[top] && NameLess(top, d)) {
        forall e | e in names && e !in rest && e != d ensures RanksBefore(sens, d, e) {
          if e != top && sens[d] == sens[top] && sens[top] == sens[e] {
            NameLessTransitive(e, top, d);
          }
        }
        top := d;
      }
    }
  }

  method RankDimensions(sens: map<string, real>) returns (order: seq<string>)
    ensures IsRanking(order, sens)
  {
    order := [];
    var rest := sens.Keys;
    while rest != {}
      invariant rest <= sens.Keys && Lists(order, sens.Keys - rest)
      invariant forall i, j | 0 <= i < j < |order| :: RanksBefore(sens, order[i], order[j])
      invariant forall i, d | 0 <= i < |order| && d in rest :: RanksBefore(sens, order[i], d)
    {
      var top := TopRanked(sens, rest);
      rest := rest - {top};
      order := order + [top];
    }
  }

  function Power(b: int, n: nat): int { if n == 0 then 1 else Power(b, n - 1) * b }

  function WindowSize(dims: Dims, d: string, radius: int): int
    requires d in dims
  {
    Min(|dims[d]|, 2 * radius + 1)
  }

  // Dimensions kept from the first n of the ranking, with the product of their window sizes.
  function Keep(order: seq<string>, n: nat, dims: Dims, radius: int, maxSize: int): (seq<string>, int)
    requires n <= |order| && forall d | d in order :: d in dims
  {
    if n == 0 then ([], 1)
    else
      var (kept, size) := Keep(order, n - 1, dims, radius, maxSize);
      var w := WindowSize(dims, order[n - 1], radius);
      if size * w <= maxSize || kept == [] then (kept + [order[n - 1]], size * w) else (kept, size)
  }

  // The choices a run makes: the dimensions, the best point, the ranking and what stays active.
  datatype Choices = Choices(dims: Dims, best: nat, order: seq<string>, active: seq<string>)

  ghost predicate IsBest(grid: seq<ScoredPoint>, b: nat) {
    && b < |grid| && grid[b].passedFilters
    && forall j | 0 <= j < |grid| && grid[j].passedFilters ::
      grid[j].oosSortino <= grid[b].oosSortino && (j < b ==> grid[j].oosSortino < grid[b].oosSortino)
  }

  function Sensitivities(grid: seq<ScoredPoint>, dims: Dims, best: ScoredPoint): map<string, real> {
    map d | d in dims :: Sensitivity(grid, dims, best, d)
  }

  ghost predicate ValidChoices(grid: seq<ScoredPoint>, radius: int, maxSize: int, c: Choices) {
    && IsDims(c.dims, grid) && IsBest(grid, c.best)
    && if Power(2 * radius + 1, |c.dims|) <= maxSize then
         Lists(c.active, c.dims.Keys)
       else
         IsRanking(c.order, Sensitivities(grid, c.dims, grid[c.best]))
         && c.active == Keep(c.order, |c.order|, c.dims, radius, maxSize).0
  }

  // ----- Neighbourhood, survivors, centre -----

  predicate WithinRadius(sp: IndexedPoint, best: IndexedPoint, active: seq<string>, radius: int) {
    forall d | d in active :: d in sp && d in best && AbsInt(sp[d] - best[d]) <= radius
  }

  predicate InNeighborhood(sp: ScoredPoint, best: ScoredPoint, dims: Dims, active: seq<string>, radius: int) {
    && WithinRadius(IndexPoint(sp.point, dims), IndexPoint(best.point, dims), active, radius)
    && SameDims(IndexPoint(sp.point, dims), IndexPoint(best.point, dims), dims.Keys - set d | d in active)
  }

  function Neighborhood(grid: seq<ScoredPoint>, best: ScoredPoint, dims: Dims, active: seq<string>, radius: int): seq<ScoredPoint> {
    if grid == [] then []
    else
      var rest := Neighborhood(grid[..|grid| - 1], best, dims, active, radius);
      var sp := grid[|grid| - 1];
      if InNeighborhood(sp, best, dims, active, radius) then rest + [sp] else rest
  }

  function Survivors(neighborhood: seq<ScoredPoint>): seq<ParamPoint> {
    if neighborhood == [] then []
    else
      var rest := Survivors(neighborhood[..|neighborhood| - 1]);
      var sp := neighborhood[|neighborhood| - 1];
      if sp.passedFilters then rest + [sp.point] else rest
  }

  predicate AllHave(points: seq<ParamPoint>, names: set<string>) {
    forall p, d | p in points && d in names :: d in p
  }

  function SumAt(points: seq<ParamPoint>, d: string): real
    requires forall p | p in points :: d in p
  {
    if points == [] then 0.0 else SumAt(points[..|points| - 1], d) + points[|points| - 1][d]
  }

  function Mean(points: seq<ParamPoint>, d: string): real
    requires points != [] && forall p | p in points :: d in p
  {
    SumAt(points, d) / |points| as real
  }

  // The first value closest to the mean.
  ghost predicate IsSnap(values: seq<real>, mean: real, v: real) {
    exists i :: 0 <= i < |values| && values[i] == v
                && (forall j | 0 <= j < |values| :: Abs(v - mean) <= Abs(values[j] - mean))
                && (forall j | 0 <= j < i :: Abs(v - mean) < Abs(values[j] - mean))
  }

  ghost predicate IsCenter(center: ParamPoint, survivors: seq<ParamPoint>, dims: Dims)
    requires survivors != [] && AllHave(survivors, dims.Keys)
  {
    center.Keys == dims.Keys && forall d | d in dims :: IsSnap(dims[d], Mean(survivors, d), center[d])
  }

  // First scored point with the centre's indices.
  ghost predicate IsFirstMatch(grid: seq<ScoredPoint>, dims: Dims, center: ParamPoint, m: nat) {
    && m < |grid| && SameDims(IndexPoint(grid[m].point, dims), IndexPoint(center, dims), dims.Keys)
    && forall j | 0 <= j < m :: !SameDims(IndexPoint(grid[j].point, dims), IndexPoint(center, dims), dims.Keys)
  }

  // The centre's scores are those of the first match, or zero without one.
  ghost predicate CenterScored(grid: seq<ScoredPoint>, r: PlateauResult, dims: Dims) {
    && (forall m: nat | IsFirstMatch(grid, dims, r.center, m) ::
         r.centerSortinoIS == grid[m].isSortino && r.centerSortinoOOS == grid[m].oosSortino)
    && ((forall m: nat :: !IsFirstMatch(grid, dims, r.center, m)) ==> r.centerSortinoIS == 0.0 && r.centerSortinoOOS == 0.0)
  }

  ghost predicate IsPlateau(grid: seq<ScoredPoint>, cs: seq<ParamConstraint>, c: Choices, survivors: seq<ParamPoint>, r: PlateauResult)
    requires c.best < |grid| && survivors != [] && AllHave(survivors, c.dims.Keys)
  {
    && r.survivors == survivors
    && (exists mean :: IsCenter(mean, survivors, c.dims) &&
                       r.center == if Satisfies(mean, cs) then mean else grid[c.best].point)
    && CenterScored(grid, r, c.dims)
  }

  // What a run with the given choices must answer.
  ghost predicate IsOutcome(grid: seq<ScoredPoint>, cs: seq<ParamConstraint>, radius: int, minPassFraction: real,
                            c: Choices, out: FindOutcome)
    requires c.best < |grid|
  {
    var neighborhood := Neighborhood(grid, grid[c.best], c.dims, c.active, radius);
    var survivors := Survivors(neighborhood);
    if neighborhood == [] || survivors == [] || |survivors| as real / |neighborhood| as real < minPassFraction then out == NoPlateau
    else if !AllHave(survivors, c.dims.Keys) then out == MissingDimension
    else out.Plateau? && IsPlateau(grid, cs, c, survivors, out.result)
  }

  // ----- The best point is always inside a non-empty neighbourhood -----

  lemma {:induction false} NeighborhoodMember(grid: seq<ScoredPoint>, best: ScoredPoint, dims: Dims, active: seq<string>,
                                              radius: int, sp: ScoredPoint)
    ensures sp in Neighborhood(grid, best, dims, active, radius) <==>
            sp in grid && InNeighborhood(sp, best, dims, active, radius)
  {
    if grid != [] {
      NeighborhoodMember(grid[..|grid| - 1], best, dims, active, radius, sp);
      assert grid == grid[..|grid| - 1] + [grid[|grid| - 1]];
    }
  }

  lemma {:induction false} SurvivorsMember(neighborhood: seq<ScoredPoint>, p: ParamPoint)
    ensures p in Survivors(neighborhood) <==> exists sp :: sp in neighborhood && sp.passedFilters && sp.point == p
  {
    if neighborhood != [] {
      SurvivorsMember(neighborhood[..|neighborhood| - 1], p);
      assert neighborhood == neighborhood[..|neighborhood| - 1] + [neighborhood[|neighborhood| - 1]];
    }
  }

  lemma SurvivorsNonEmpty(grid: seq<ScoredPoint>, b: nat, dims: Dims, active: seq<string>, radius: int)
    requires IsBest(grid, b) && Neighborhood(grid, grid[b], dims, active, radius) != []
    ensures grid[b].point in Survivors(Neighborhood(grid, grid[b], dims, active, radius))
  {
    var neighborhood := Neighborhood(grid, grid[b], dims, active, radius);
    var first := neighborhood[0];
    NeighborhoodMember(grid, grid[b], dims, active, radius, first);
    var ip := IndexPoint(grid[b].point, dims);
    assert WithinRadius(ip, ip, active, radius);
    NeighborhoodMember(grid, grid[b], dims, active, radius, grid[b]);
    SurvivorsMember(neighborhood, grid[b].point);
  }

  // ----- The search -----

  method PickBest(grid: seq<ScoredPoint>) returns (best: int)
    ensures best < 0 ==> forall sp | sp in grid :: !sp.passedFilters
    ensures best >= 0 ==> IsBest(grid, best)
  {
    best := -1;
    for i := 0 to |grid|
      invariant best < i
      invariant best < 0 ==> forall j | 0 <= j < i :: !grid[j].passedFilters
      invariant best >= 0 ==> IsBest(grid[..i], best)
    {
      if grid[i].passedFilters && (best < 0 || grid[i].oosSortino > grid[best].oosSortino) {
        best := i;
      }
    }
    assert grid[..|grid|] == grid;
  }

  method ChooseActive(grid: seq<ScoredPoint>, dims: Dims, best: ScoredPoint, radius: int, maxSize: int)
    returns (active: seq<string>, order: seq<string>)
    ensures Power(2 * radius + 1, |dims|) <= maxSize ==> Lists(active, dims.Keys)
    ensures Power(2 * radius + 1, |dims|) > maxSize ==>
              IsRanking(order, Sensitivities(grid, dims, best)) && active == Keep(order, |order|, dims, radius, maxSize).0
  {
    order := [];
    active := ListSet(dims.Keys);
    var size := 1;
    for i := 0 to |active|
      invariant size == Power(2 * radius + 1, i)
    {
      size := size * (2 * radius + 1);
    }
    ListsSize(active, dims.Keys);
    if size > maxSize {
      var sensitivities: map<string, real> := map[];
      for i := 0 to |active|
        invariant sensitivities.Keys == set d | d in active[..i]
        invariant forall d | d in sensitivities :: d in dims && sensitivities[d] == Sensitivity(grid, dims, best, d)
      {
        var s := GetSensitivity(grid, dims, best, active[i]);
        sensitivities := sensitivities[active[i] := s];
      }
      assert active[..|active|] == active;
      assert sensitivities == Sensitivities(grid, dims, best);
      order := RankDimensions(sensitivities);
      active := [];
      var curSize := 1;
      for i := 0 to |order|
        invariant (active, curSize) == Keep(order, i, dims, radius, maxSize)
      {
        var dimSize := Min(|dims[order[i]]|, 2 * radius + 1);
        if curSize * dimSize <= maxSize || active == [] {
          curSize := curSize * dimSize;
          active := active + [order[i]];
        }
      }
    }
  }

  lemma ListsSize<T(!new)>(xs: seq<T>, s: set<T>)
    requires Lists(xs, s)
    ensures |xs| == |s|
  {
    DistinctSize(xs);
    assert s == set x | x in xs;
  }

  method CollectNeighborhood(grid: seq<ScoredPoint>, best: ScoredPoint, dims: Dims, active: seq<string>, radius: int)
    returns (neighborhood: seq<ScoredPoint>)
    ensures neighborhood == Neighborhood(grid, best, dims, active, radius)
  {
    neighborhood := [];
    for i := 0 to |grid|
      invariant neighborhood == Neighborhood(grid[..i], best, dims, active, radius)
    {
      assert grid[..i + 1][..i] == grid[..i];
      if InNeighborhood(grid[i], best, dims, active, radius) {
        neighborhood := neighborhood + [grid[i]];
      }
    }
    assert grid[..|grid|] == grid;
  }

  method CollectSurvivors(neighborhood: seq<ScoredPoint>) returns (survivors: seq<ParamPoint>)
    ensures survivors == Survivors(neighborhood)
  {
    survivors := [];
    for i := 0 to |neighborhood|
      invariant survivors == Survivors(neighborhood[..i])
    {
      assert neighborhood[..i + 1][..i] == neighborhood[..i];
      if neighborhood[i].passedFilters {
        survivors := survivors + [neighborhood[i].point];
      }
    }
    assert neighborhood[..|neighborhood|] == neighborhood;
  }

  method Snap(values: seq<real>, mean: real) returns (v: real)
    requires values != []
    ensures IsSnap(values, mean, v)
  {
    var k := 0;
    for i := 1 to |values|
      invariant k < i
      invariant forall j | 0 <= j < i :: Abs(values[k] - mean) <= Abs(values[j] - mean)
      invariant forall j | 0 <= j < k :: Abs(values[k] - mean) < Abs(values[j] - mean)
    {
      if Abs(values[i] - mean) < Abs(values[k] - mean) {
        k := i;
      }
    }
    return values[k];
  }

  // None stands for the exception raised at the first dimension some survivor lacks.
  method CenterOf(survivors: seq<ParamPoint>, dims: Dims) returns (ok: bool, center: ParamPoint)
    requires survivors != [] && forall d | d in dims :: dims[d] != []
    ensures ok <==> AllHave(survivors, dims.Keys)
    ensures ok ==> IsCenter(center, survivors, dims)
  {
    center := map[];
    var names := dims.Keys;
    while names != {}
      invariant names <= dims.Keys && center.Keys == dims.Keys - names
      invariant forall p, d | p in survivors && d in center :: d in p
      invariant forall d | d in center :: IsSnap(dims[d], Mean(survivors, d), center[d])
    {
      var k :| k in names;
      var sum := 0.0;
      for i := 0 to |survivors|
        invariant forall j | 0 <= j < i :: k in survivors[j]
        invariant sum == SumAt(survivors[..i], k)
      {
        if k !in survivors[i] {
          return false, map[];
        }
        assert survivors[..i + 1][..i] == survivors[..i];
        sum := sum + survivors[i][k];
      }
      assert survivors[..|survivors|] == survivors;
      var snapped := Snap(dims[k], sum / |survivors| as real);
      names := names - {k};
      center := center[k := snapped];
    }
    return true, center;
  }

  method ScoreCenter(grid: seq<ScoredPoint>, dims: Dims, center: ParamPoint, survivors: seq<ParamPoint>)
    returns (r: PlateauResult)
    ensures r.center == center && r.survivors == survivors && CenterScored(grid, r, dims)
  {
    var centerIndexed := IndexPoint(center, dims);
    r := PlateauResult(center, survivors, 0.0, 0.0);
    for i := 0 to |grid|
      invariant r == PlateauResult(center, survivors, 0.0, 0.0)
      invariant forall j | 0 <= j < i :: !SameDims(IndexPoint(grid[j].point, dims), centerIndexed, dims.Keys)
    {
      if SameDims(IndexPoint(grid[i].point, dims), centerIndexed, dims.Keys) {
        r := r.(centerSortinoIS := grid[i].isSortino, centerSortinoOOS := grid[i].oosSortino);
        assert IsFirstMatch(grid, dims, center, i);
        return;
      }
    }
  }

  /** Without a passing point there is no plateau; otherwise the answer is the one its choices prescribe. */
  method Find(grid: seq<ScoredPoint>, cs: seq<ParamConstraint>, radius: int, maxSize: int, minPassFraction: real)
    returns (out: FindOutcome, ghost c: Choices)
    ensures (forall sp | sp in grid :: !sp.passedFilters) ==> out == NoPlateau
    ensures (exists sp :: sp in grid && sp.passedFilters) ==>
              ValidChoices(grid, radius, maxSize, c) && IsOutcome(grid, cs, radius, minPassFraction, c, out)
  {
    c := Choices(map[], 0, [], []);
    var best := PickBest(grid);
    if best < 0 {
      return NoPlateau, c;
    }
    var dims := ExtractDimensions(grid);
    var active, order := ChooseActive(grid, dims, grid[best], radius, maxSize);
    c := Choices(dims, best, order, active);
    var neighborhood := CollectNeighborhood(grid, grid[best], dims, active, radius);
    var survivors := CollectSurvivors(neighborhood);
    if neighborhood == [] {
      return NoPlateau, c;
    }
    SurvivorsNonEmpty(grid, best, dims, active, radius);
    if |survivors| as real / |neighborhood| as real < minPassFraction {
      return NoPlateau, c;
    }
    forall d | d in dims ensures dims[d] != [] {
      var sp :| sp in grid && d in sp.point;
      assert HasValue(grid, d, sp.point[d]);
    }
    var ok, center := CenterOf(survivors, dims);
    if !ok {
      return MissingDimension, c;
    }
    ghost var mean := center;
    var valid := EvaluateConstraints(center, cs);
    if !valid {
      center := grid[best].point;
    }
    var result := ScoreCenter(grid, dims, center, survivors);
    return Plateau(result), c;
  }
}
