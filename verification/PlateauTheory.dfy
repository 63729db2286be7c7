/** Why the plateau centre is a scored grid point, and how large a neighbourhood can be. */
module PlateauTheory {
  import opened Common
  import opened ParameterSpace
  import opened Ordering
  import opened GridTheory
  import opened PlateauFinder

  // ----- Indices identify values -----

  lemma {:induction false} LowerBoundOf(values: seq<real>, i: nat)
    requires Increasing(values) && i < |values|
    ensures LowerBound(values, values[i]) == i
  {
    if i > 0 {
      LowerBoundOf(values[1..], i - 1);
    }
  }

  lemma NearestOf(values: seq<real>, i: nat)
    requires Increasing(values) && i < |values|
    ensures NearestValueIndex(values, values[i]) == i
  {
    LowerBoundOf(values, i);
  }

  // Every point of the grid has the same dimensions.
  ghost predicate Uniform(grid: seq<ScoredPoint>, names: set<string>) {
    grid != [] && forall sp | sp in grid :: sp.point.Keys == names
  }

  ghost predicate DistinctPoints(grid: seq<ScoredPoint>) {
    forall i, j | 0 <= i < j < |grid| :: grid[i].point != grid[j].point
  }

  ghost predicate OnDims(p: ParamPoint, dims: Dims) {
    p.Keys == dims.Keys && forall d | d in dims :: p[d] in dims[d]
  }

  lemma UniformDims(grid: seq<ScoredPoint>, names: set<string>, dims: Dims)
    requires Uniform(grid, names) && IsDims(dims, grid)
    ensures dims.Keys == names
    ensures forall sp | sp in grid :: OnDims(sp.point, dims)
  {
    assert grid[0] in grid;
    forall sp, d | sp in grid && d in dims ensures d in sp.point && sp.point[d] in dims[d] {
      assert HasValue(grid, d, sp.point[d]);
    }
  }

  lemma IndexesAll(p: ParamPoint, dims: Dims, d: string)
    requires OnDims(p, dims) && d in dims && Increasing(dims[d])
    ensures d in IndexPoint(p, dims)
    ensures 0 <= IndexPoint(p, dims)[d] < |dims[d]| && dims[d][IndexPoint(p, dims)[d]] == p[d]
  {
    var i :| 0 <= i < |dims[d]| && dims[d][i] == p[d];
    NearestOf(dims[d], i);
  }

  lemma SameIndicesSamePoint(p: ParamPoint, q: ParamPoint, dims: Dims)
    requires OnDims(p, dims) && OnDims(q, dims) && forall d | d in dims :: Increasing(dims[d])
    requires SameDims(IndexPoint(p, dims), IndexPoint(q, dims), dims.Keys)
    ensures p == q
  {
    forall d | d in dims ensures p[d] == q[d] {
      IndexesAll(p, dims, d);
      IndexesAll(q, dims, d);
    }
  }

  // ----- Sensitivity -----

  // Two of the values with none between them.
  ghost predicate Adjacent(values: seq<real>, a: real, b: real) {
    a in values && b in values && a != b && forall v | v in values :: !(a < v < b || b < v < a)
  }

  // The points differ in one dimension alone, by one step of its values.
  ghost predicate StepAway(p: ParamPoint, q: ParamPoint, dims: Dims, dim: string)
    requires dim in dims
  {
    && dim in p && dim in q && Adjacent(dims[dim], p[dim], q[dim])
    && forall d | d in dims && d != dim :: d in p && d in q && p[d] == q[d]
  }

  lemma AdjacentIndices(values: seq<real>, i: nat, j: nat)
    requires Increasing(values) && i < |values| && j < |values|
    ensures Adjacent(values, values[i], values[j]) <==> j == i + 1 || i == j + 1
  {
    if i + 1 < j {
      assert values[i + 1] in values;
    } else if j + 1 < i {
      assert values[j + 1] in values;
    }
  }

  predicate NextTo(sp: ScoredPoint, best: ScoredPoint, dims: Dims, dim: string) {
    var ip := IndexPoint(best.point, dims);
    dim in ip && (IsNeighbour(sp, dims, ip, dim, ip[dim] - 1) || IsNeighbour(sp, dims, ip, dim, ip[dim] + 1))
  }

  // One step away, by values and by indices.
  lemma NeighbourIsStep(sp: ScoredPoint, best: ScoredPoint, dims: Dims, dim: string)
    requires OnDims(sp.point, dims) && OnDims(best.point, dims) && dim in dims && forall d | d in dims :: Increasing(dims[d])
    ensures var ip := IndexPoint(best.point, dims);
            && dim in ip && 0 <= ip[dim] < |dims[dim]|
            && (StepAway(best.point, sp.point, dims, dim) <==>
                  IsNeighbour(sp, dims, ip, dim, ip[dim] - 1) || IsNeighbour(sp, dims, ip, dim, ip[dim] + 1))
  {
    var ip, iq := IndexPoint(best.point, dims), IndexPoint(sp.point, dims);
    forall d | d in dims
      ensures d in ip && d in iq && (ip[d] == iq[d] <==> best.point[d] == sp.point[d])
    {
      IndexesAll(best.point, dims, d);
      IndexesAll(sp.point, dims, d);
    }
    IndexesAll(best.point, dims, dim);
    IndexesAll(sp.point, dims, dim);
    AdjacentIndices(dims[dim], ip[dim], iq[dim]);
    assert SameAllDimsExcept(iq, ip, dim) <==> forall d | d in dims && d != dim :: best.point[d] == sp.point[d];
  }

  // A side's gradient is the step to some neighbour there, or 0 without one.
  lemma {:induction false} GradientFound(grid: seq<ScoredPoint>, dims: Dims, best: ScoredPoint, dim: string, index: int) returns (k: int)
    ensures -1 <= k < |grid|
    ensures k == -1 ==> GradientAt(grid, dims, best, dim, index) == 0.0
    ensures k == -1 ==> forall i | 0 <= i < |grid| :: !IsNeighbour(grid[i], dims, IndexPoint(best.point, dims), dim, index)
    ensures k >= 0 ==> IsNeighbour(grid[k], dims, IndexPoint(best.point, dims), dim, index)
    ensures k >= 0 ==> GradientAt(grid, dims, best, dim, index) == Abs(best.oosSortino - grid[k].oosSortino)
  {
    if grid == [] {
      k := -1;
    } else if IsNeighbour(grid[0], dims, IndexPoint(best.point, dims), dim, index) {
      k := 0;
    } else {
      k := GradientFound(grid[1..], dims, best, dim, index);
      k := if k >= 0 then k + 1 else k;
    }
  }

  // Every point has one of the values in every dimension.
  ghost predicate AllOn(grid: seq<ScoredPoint>, dims: Dims) {
    (forall i | 0 <= i < |grid| :: OnDims(grid[i].point, dims)) && forall d | d in dims :: Increasing(dims[d])
  }

  lemma OneNeighbourASide(grid: seq<ScoredPoint>, dims: Dims, best: IndexedPoint, dim: string, index: int, i: nat, j: nat)
    requires DistinctPoints(grid) && AllOn(grid, dims) && i < |grid| && j < |grid|
    requires IsNeighbour(grid[i], dims, best, dim, index) && IsNeighbour(grid[j], dims, best, dim, index)
    ensures i == j
  {
    var p, q := grid[i].point, grid[j].point;
    forall d | d in dims
      ensures d in IndexPoint(p, dims) && d in IndexPoint(q, dims) && IndexPoint(p, dims)[d] == IndexPoint(q, dims)[d]
    {
      IndexesAll(p, dims, d);
      IndexesAll(q, dims, d);
    }
    SameIndicesSamePoint(p, q, dims);
  }

  // The score step from the best point to point i.
  function ScoreStep(grid: seq<ScoredPoint>, b: nat, i: nat): real
    requires b < |grid| && i < |grid|
  {
    Abs(grid[b].oosSortino - grid[i].oosSortino)
  }

  ghost predicate BoundsSteps(grid: seq<ScoredPoint>, dims: Dims, b: nat, dim: string, s: real)
    requires b < |grid| && dim in dims
  {
    forall i: nat | i < |grid| && StepAway(grid[b].point, grid[i].point, dims, dim) :: ScoreStep(grid, b, i) <= s
  }

  ghost predicate IsStep(grid: seq<ScoredPoint>, dims: Dims, b: nat, dim: string, s: real)
    requires b < |grid| && dim in dims
  {
    exists i: nat :: i < |grid| && StepAway(grid[b].point, grid[i].point, dims, dim) && ScoreStep(grid, b, i) == s
  }

  /** The sensitivity to a dimension is the largest score step from the best point to a scored point that differs from it in that
      dimension alone, by one step of the values in use; it is 0 when there is none. */
  lemma SensitivityIsLargestStep(grid: seq<ScoredPoint>, names: set<string>, dims: Dims, b: nat, dim: string)
    requires Uniform(grid, names) && DistinctPoints(grid) && IsDims(dims, grid) && b < |grid| && dim in dims
    ensures var s := Sensitivity(grid, dims, grid[b], dim);
            BoundsSteps(grid, dims, b, dim, s) && (s == 0.0 || IsStep(grid, dims, b, dim, s))
  {
    AllOnDims(grid, names, dims);
    StepsAreSeen(grid, dims, b, dim);
    StepIsMet(grid, dims, b, dim);
  }

  lemma StepsAreSeen(grid: seq<ScoredPoint>, dims: Dims, b: nat, dim: string)
    requires DistinctPoints(grid) && AllOn(grid, dims) && b < |grid| && dim in dims
    ensures BoundsSteps(grid, dims, b, dim, Sensitivity(grid, dims, grid[b], dim))
  {
    forall i: nat | i < |grid| && StepAway(grid[b].point, grid[i].point, dims, dim)
      ensures ScoreStep(grid, b, i) <= Sensitivity(grid, dims, grid[b], dim)
    {
      StepIsSeen(grid, dims, b, dim, i);
    }
  }

  lemma StepIsMet(grid: seq<ScoredPoint>, dims: Dims, b: nat, dim: string)
    requires AllOn(grid, dims) && b < |grid| && dim in dims
    ensures var s := Sensitivity(grid, dims, grid[b], dim); s == 0.0 || IsStep(grid, dims, b, dim, s)
  {
    var s := Sensitivity(grid, dims, grid[b], dim);
    var away := (i: nat) => i < |grid| && StepAway(grid[b].point, grid[i].point, dims, dim);
    forall i: nat | i < |grid| && NextTo(grid[i], grid[b], dims, dim)
      ensures away(i)
    {
      NeighbourAway(grid, dims, b, dim, i);
    }
    if s != 0.0 {
      var i := SensitivityIsMet(grid, dims, b, dim, s, away);
      MetStep(grid, dims, b, dim, s, i);
    }
  }

  lemma MetStep(grid: seq<ScoredPoint>, dims: Dims, b: nat, dim: string, s: real, i: nat)
    requires b < |grid| && i < |grid| && dim in dims
    requires StepAway(grid[b].point, grid[i].point, dims, dim) && ScoreStep(grid, b, i) == s
    ensures IsStep(grid, dims, b, dim, s)
  {}

  lemma AllOnDims(grid: seq<ScoredPoint>, names: set<string>, dims: Dims)
    requires Uniform(grid, names) && IsDims(dims, grid)
    ensures AllOn(grid, dims)
  {
    UniformDims(grid, names, dims);
    forall i | 0 <= i < |grid|
      ensures OnDims(grid[i].point, dims)
    {
      assert grid[i] in grid;
    }
  }

  lemma StepIsSeen(grid: seq<ScoredPoint>, dims: Dims, b: nat, dim: string, i: nat)
    requires DistinctPoints(grid) && AllOn(grid, dims) && b < |grid| && i < |grid| && dim in dims
    requires StepAway(grid[b].point, grid[i].point, dims, dim)
    ensures Abs(grid[b].oosSortino - grid[i].oosSortino) <= Sensitivity(grid, dims, grid[b], dim)
  {
    var index := StepSide(grid[i], grid[b], dims, dim);
    NeighbourSeen(grid, dims, b, dim, i, IndexPoint(grid[b].point, dims), index);
  }

  // The index at which the search for neighbours meets a point one step away.
  lemma StepSide(sp: ScoredPoint, best: ScoredPoint, dims: Dims, dim: string) returns (index: int)
    requires OnDims(sp.point, dims) && OnDims(best.point, dims) && dim in dims && forall d | d in dims :: Increasing(dims[d])
    requires StepAway(best.point, sp.point, dims, dim)
    ensures var ip := IndexPoint(best.point, dims);
            && dim in ip && 0 <= ip[dim] < |dims[dim]|
            && IsNeighbour(sp, dims, ip, dim, index) && (index == ip[dim] - 1 || index == ip[dim] + 1)
  {
    NeighbourIsStep(sp, best, dims, dim);
    var ip := IndexPoint(best.point, dims);
    index := if IsNeighbour(sp, dims, ip, dim, ip[dim] - 1) then ip[dim] - 1 else ip[dim] + 1;
  }

  lemma NeighbourSeen(grid: seq<ScoredPoint>, dims: Dims, b: nat, dim: string, i: nat, ip: IndexedPoint, index: int)
    requires DistinctPoints(grid) && AllOn(grid, dims) && b < |grid| && i < |grid| && dim in dims
    requires ip == IndexPoint(grid[b].point, dims) && dim in ip && 0 <= ip[dim] < |dims[dim]|
    requires IsNeighbour(grid[i], dims, ip, dim, index) && (index == ip[dim] - 1 || index == ip[dim] + 1)
    ensures Abs(grid[b].oosSortino - grid[i].oosSortino) <= Sensitivity(grid, dims, grid[b], dim)
  {
    IndexesAll(grid[i].point, dims, dim);
    SideBelow(grid, dims, grid[b], dim, index);
    NeighbourGradient(grid, dims, grid[b], dim, i, index);
  }

  lemma NeighbourGradient(grid: seq<ScoredPoint>, dims: Dims, best: ScoredPoint, dim: string, i: nat, index: int)
    requires DistinctPoints(grid) && AllOn(grid, dims) && i < |grid|
    requires IsNeighbour(grid[i], dims, IndexPoint(best.point, dims), dim, index)
    ensures GradientAt(grid, dims, best, dim, index) == Abs(best.oosSortino - grid[i].oosSortino)
  {
    var k := GradientFound(grid, dims, best, dim, index);
    OneNeighbourASide(grid, dims, IndexPoint(best.point, dims), dim, index, i, k);
  }

  lemma SideBelow(grid: seq<ScoredPoint>, dims: Dims, best: ScoredPoint, dim: string, index: int)
    requires dim in dims
    requires var ip := IndexPoint(best.point, dims);
             dim in ip && 0 <= ip[dim] < |dims[dim]| && 0 <= index < |dims[dim]| && (index == ip[dim] - 1 || index == ip[dim] + 1)
    ensures GradientAt(grid, dims, best, dim, index) <= Sensitivity(grid, dims, best, dim)
  {}

  // A sensitivity that is not 0 is one of the two sides' gradients.
  lemma SideMet(grid: seq<ScoredPoint>, dims: Dims, best: ScoredPoint, dim: string) returns (index: int)
    requires dim in dims && Sensitivity(grid, dims, best, dim) != 0.0
    ensures dim in IndexPoint(best.point, dims)
    ensures index == IndexPoint(best.point, dims)[dim] - 1 || index == IndexPoint(best.point, dims)[dim] + 1
    ensures GradientAt(grid, dims, best, dim, index) == Sensitivity(grid, dims, best, dim)
  {
    var idx := IndexPoint(best.point, dims)[dim];
    index := if GradientAt(grid, dims, best, dim, idx - 1) == Sensitivity(grid, dims, best, dim) then idx - 1 else idx + 1;
  }

  lemma SensitivityIsMet(grid: seq<ScoredPoint>, dims: Dims, b: nat, dim: string, s: real, away: nat -> bool) returns (i: nat)
    requires b < |grid| && dim in dims && s == Sensitivity(grid, dims, grid[b], dim) != 0.0
    requires forall j: nat | j < |grid| && NextTo(grid[j], grid[b], dims, dim) :: away(j)
    ensures i < |grid| && away(i) && ScoreStep(grid, b, i) == s
  {
    i := GradientMet(grid, dims, grid[b], dim);
    assert away(i);
  }

  lemma NeighbourAway(grid: seq<ScoredPoint>, dims: Dims, b: nat, dim: string, i: nat)
    requires AllOn(grid, dims) && b < |grid| && i < |grid| && dim in dims
    requires NextTo(grid[i], grid[b], dims, dim)
    ensures StepAway(grid[b].point, grid[i].point, dims, dim)
  {
    NeighbourIsStep(grid[i], grid[b], dims, dim);
  }

  lemma GradientMet(grid: seq<ScoredPoint>, dims: Dims, best: ScoredPoint, dim: string) returns (i: nat)
    requires dim in dims && Sensitivity(grid, dims, best, dim) != 0.0
    ensures i < |grid| && Sensitivity(grid, dims, best, dim) == Abs(best.oosSortino - grid[i].oosSortino)
    ensures NextTo(grid[i], best, dims, dim)
  {
    var index := SideMet(grid, dims, best, dim);
    i := GradientFound(grid, dims, best, dim, index);
  }

  // ----- The neighbourhood, by values -----

  // How many of the values lie from the smaller of the two up to, but not at, the larger.
  function Between(values: seq<real>, a: real, b: real): nat {
    if values == [] then 0
    else
      var v := values[|values| - 1];
      Between(values[..|values| - 1], a, b) + if a <= v < b || b <= v < a then 1 else 0
  }

  lemma {:induction false} BetweenTheirPlaces(values: seq<real>, n: nat, i: nat, j: nat)
    requires Increasing(values) && i <= j < |values| && n <= |values|
    ensures Between(values[..n], values[i], values[j]) == if n <= i then 0 else if n <= j then n - i else j - i
    ensures Between(values[..n], values[j], values[i]) == Between(values[..n], values[i], values[j])
  {
    if n > 0 {
      BetweenTheirPlaces(values, n - 1, i, j);
      assert values[..n][..n - 1] == values[..n - 1];
    }
  }

  // Values are as many steps apart as there are values in between.
  lemma BetweenIndices(values: seq<real>, i: nat, j: nat)
    requires Increasing(values) && i < |values| && j < |values|
    ensures Between(values, values[i], values[j]) == AbsInt(i - j)
  {
    BetweenTheirPlaces(values, |values|, if i <= j then i else j, if i <= j then j else i);
    assert values[..|values|] == values;
  }

  // Within so many steps in each active dimension, and equal in the others.
  ghost predicate Nearby(p: ParamPoint, q: ParamPoint, dims: Dims, active: seq<string>, radius: int) {
    && (forall d | d in active :: d in dims && d in p && d in q && Between(dims[d], p[d], q[d]) <= radius)
    && (forall d | d in dims && d !in active :: d in p && d in q && p[d] == q[d])
  }

  /** On a uniform grid the neighbourhood of the best point holds exactly the scored points that are at most `radius` of the values in
      use away from it in every active dimension, and equal to it in every other one. */
  lemma NeighborhoodIsBox(grid: seq<ScoredPoint>, names: set<string>, dims: Dims, b: nat, active: seq<string>, radius: int, sp: ScoredPoint)
    requires Uniform(grid, names) && IsDims(dims, grid) && b < |grid| && forall d | d in active :: d in dims
    ensures sp in Neighborhood(grid, grid[b], dims, active, radius) <==>
            sp in grid && Nearby(sp.point, grid[b].point, dims, active, radius)
  {
    NeighborhoodMember(grid, grid[b], dims, active, radius, sp);
    UniformDims(grid, names, dims);
    assert grid[b] in grid;
    if sp in grid {
      BoxByIndices(sp, grid[b], dims, active, radius);
    }
  }

  lemma BoxByIndices(sp: ScoredPoint, best: ScoredPoint, dims: Dims, active: seq<string>, radius: int)
    requires OnDims(sp.point, dims) && OnDims(best.point, dims) && (forall d | d in dims :: Increasing(dims[d]))
    requires forall d | d in active :: d in dims
    ensures InNeighborhood(sp, best, dims, active, radius) <==> Nearby(sp.point, best.point, dims, active, radius)
  {
    var ip, iq := IndexPoint(sp.point, dims), IndexPoint(best.point, dims);
    forall d | d in dims
      ensures d in ip && d in iq && Between(dims[d], sp.point[d], best.point[d]) == AbsInt(ip[d] - iq[d])
      ensures ip[d] == iq[d] <==> sp.point[d] == best.point[d]
    {
      StepsApart(sp.point, best.point, dims, d);
    }
    BoxOf(ip, iq, sp.point, best.point, dims, active, radius);
  }

  lemma BoxOf(ip: IndexedPoint, iq: IndexedPoint, p: ParamPoint, q: ParamPoint, dims: Dims, active: seq<string>, radius: int)
    requires OnDims(p, dims) && OnDims(q, dims) && forall d | d in active :: d in dims
    requires forall d | d in dims :: d in ip && d in iq && Between(dims[d], p[d], q[d]) == AbsInt(ip[d] - iq[d])
    requires forall d | d in dims :: ip[d] == iq[d] <==> p[d] == q[d]
    ensures WithinRadius(ip, iq, active, radius) && SameDims(ip, iq, dims.Keys - set d | d in active) <==>
            Nearby(p, q, dims, active, radius)
  {}

  lemma StepsApart(p: ParamPoint, q: ParamPoint, dims: Dims, d: string)
    requires OnDims(p, dims) && OnDims(q, dims) && d in dims && Increasing(dims[d])
    ensures var ip, iq := IndexPoint(p, dims), IndexPoint(q, dims);
            && d in ip && d in iq && Between(dims[d], p[d], q[d]) == AbsInt(ip[d] - iq[d])
            && (ip[d] == iq[d] <==> p[d] == q[d])
  {
    IndexesAll(p, dims, d);
    IndexesAll(q, dims, d);
    BetweenIndices(dims[d], IndexPoint(p, dims)[d], IndexPoint(q, dims)[d]);
  }

  // ----- The centre -----

  // The scored grid is the constrained grid, point for point.
  ghost predicate ScoresGrid(scored: seq<ScoredPoint>, rs: seq<ParamRange>, cs: seq<ParamConstraint>) {
    |scored| == |Grid(rs, cs)| && forall i | 0 <= i < |scored| :: scored[i].point == Grid(rs, cs)[i]
  }

  lemma ScoredPoints(scored: seq<ScoredPoint>, rs: seq<ParamRange>, cs: seq<ParamConstraint>)
    requires DistinctNames(rs) && ScoresGrid(scored, rs, cs) && scored != []
    ensures Uniform(scored, Names(rs))
    ensures forall sp | sp in scored :: InProduct(rs, cs, map[], sp.point)
    ensures DistinctPoints(scored)
  {
    GridDistinct(rs, cs, map[]);
    forall sp | sp in scored ensures InProduct(rs, cs, map[], sp.point) && sp.point.Keys == Names(rs) {
      var i :| 0 <= i < |scored| && scored[i] == sp;
      assert sp.point == Grid(rs, cs)[i];
      GridExact(rs, cs, map[], sp.point);
    }
  }

  // A point assembled from values the scored points use, dimension by dimension, is scored once it
  // satisfies the constraints.
  lemma AssembledPointIsScored(scored: seq<ScoredPoint>, rs: seq<ParamRange>, cs: seq<ParamConstraint>, dims: Dims, q: ParamPoint)
    returns (m: nat)
    requires DistinctNames(rs) && ScoresGrid(scored, rs, cs) && scored != [] && IsDims(dims, scored)
    requires OnDims(q, dims) && Satisfies(q, cs)
    ensures m < |scored| && scored[m].point == q
  {
    ScoredPoints(scored, rs, cs);
    UniformDims(scored, Names(rs), dims);
    AssembledInProduct(scored, rs, cs, dims, q);
    GridExact(rs, cs, map[], q);
    var g := Grid(rs, cs);
    m :| 0 <= m < |g| && g[m] == q;
  }

  lemma AssembledInProduct(scored: seq<ScoredPoint>, rs: seq<ParamRange>, cs: seq<ParamConstraint>, dims: Dims, q: ParamPoint)
    requires IsDims(dims, scored) && OnDims(q, dims) && Satisfies(q, cs) && dims.Keys == Names(rs)
    requires forall sp | sp in scored :: InProduct(rs, cs, map[], sp.point)
    ensures InProduct(rs, cs, map[], q)
  {
    forall r | r in rs ensures r.name in q && q[r.name] in Values(r) {
      assert r.name in Names(rs);
      ValueOfRange(scored, rs, cs, dims, r, q[r.name]);
    }
  }

  lemma ValueOfRange(scored: seq<ScoredPoint>, rs: seq<ParamRange>, cs: seq<ParamConstraint>, dims: Dims, r: ParamRange, v: real)
    requires r in rs && IsDims(dims, scored) && r.name in dims && v in dims[r.name]
    requires forall sp | sp in scored :: InProduct(rs, cs, map[], sp.point)
    ensures v in Values(r)
  {
    assert HasValue(scored, r.name, v);
    var sp :| sp in scored && r.name in sp.point && sp.point[r.name] == v;
    assert InProduct(rs, cs, map[], sp.point);
  }

  lemma SnapIsValue(center: ParamPoint, survivors: seq<ParamPoint>, dims: Dims)
    requires survivors != [] && AllHave(survivors, dims.Keys) && IsCenter(center, survivors, dims)
    ensures OnDims(center, dims)
  {
    forall d | d in dims ensures center[d] in dims[d] {
      assert IsSnap(dims[d], Mean(survivors, d), center[d]);
    }
  }

  lemma PlateauCenterIsScored(scored: seq<ScoredPoint>, rs: seq<ParamRange>, cs: seq<ParamConstraint>, c: Choices,
                              survivors: seq<ParamPoint>, r: PlateauResult) returns (m: nat)
    requires DistinctNames(rs) && ScoresGrid(scored, rs, cs) && c.best < |scored| && IsDims(c.dims, scored)
    requires survivors != [] && AllHave(survivors, c.dims.Keys) && IsPlateau(scored, cs, c, survivors, r)
    ensures m < |scored| && scored[m].point == r.center
    ensures r.center in Grid(rs, cs) && Satisfies(r.center, cs)
    ensures r.centerSortinoIS == scored[m].isSortino && r.centerSortinoOOS == scored[m].oosSortino
    ensures forall j | 0 <= j < |scored| && scored[j].point == r.center :: j == m
  {
    m := CenterIndex(scored, rs, cs, c, survivors, r);
    ScoredPoints(scored, rs, cs);
    UniformDims(scored, Names(rs), c.dims);
    assert scored[m] in scored && Grid(rs, cs)[m] == r.center;
    OnlyMatch(scored, c.dims, r.center, m);
  }

  lemma CenterIndex(scored: seq<ScoredPoint>, rs: seq<ParamRange>, cs: seq<ParamConstraint>, c: Choices,
                    survivors: seq<ParamPoint>, r: PlateauResult) returns (m: nat)
    requires DistinctNames(rs) && ScoresGrid(scored, rs, cs) && c.best < |scored| && IsDims(c.dims, scored)
    requires survivors != [] && AllHave(survivors, c.dims.Keys) && IsPlateau(scored, cs, c, survivors, r)
    ensures m < |scored| && scored[m].point == r.center
  {
    var mean :| IsCenter(mean, survivors, c.dims) && r.center == if Satisfies(mean, cs) then mean else scored[c.best].point;
    SnapIsValue(mean, survivors, c.dims);
    if Satisfies(mean, cs) {
      m := AssembledPointIsScored(scored, rs, cs, c.dims, mean);
    } else {
      m := c.best;
    }
  }

  /** Averaging and snapping dimension by dimension still lands on a scored grid point: the centre is one,
      meets every constraint, and carries that point's own scores. */
  lemma CenterIsScored(scored: seq<ScoredPoint>, rs: seq<ParamRange>, cs: seq<ParamConstraint>,
                       radius: int, maxSize: int, minPassFraction: real, c: Choices, out: FindOutcome) returns (m: nat)
    requires DistinctNames(rs) && ScoresGrid(scored, rs, cs)
    requires ValidChoices(scored, radius, maxSize, c) && IsOutcome(scored, cs, radius, minPassFraction, c, out)
    requires out.Plateau?
    ensures m < |scored| && scored[m].point == out.result.center
    ensures out.result.center in Grid(rs, cs) && Satisfies(out.result.center, cs)
    ensures out.result.centerSortinoIS == scored[m].isSortino && out.result.centerSortinoOOS == scored[m].oosSortino
    ensures forall j | 0 <= j < |scored| && scored[j].point == out.result.center :: j == m
  {
    var survivors := Survivors(Neighborhood(scored, scored[c.best], c.dims, c.active, radius));
    m := PlateauCenterIsScored(scored, rs, cs, c, survivors, out.result);
  }

  // With distinct points, a scored point is the first match of itself.
  lemma OnlyMatch(grid: seq<ScoredPoint>, dims: Dims, q: ParamPoint, m: nat)
    requires IsDims(dims, grid) && (forall sp | sp in grid :: OnDims(sp.point, dims))
    requires DistinctPoints(grid)
    requires m < |grid| && grid[m].point == q
    ensures IsFirstMatch(grid, dims, q, m)
  {
    assert grid[m] in grid;
    forall d | d in dims ensures d in IndexPoint(q, dims) {
      IndexesAll(q, dims, d);
    }
    forall j | 0 <= j < m ensures !SameDims(IndexPoint(grid[j].point, dims), IndexPoint(q, dims), dims.Keys) {
      assert grid[j] in grid;
      if SameDims(IndexPoint(grid[j].point, dims), IndexPoint(q, dims), dims.Keys) {
        SameIndicesSamePoint(grid[j].point, q, dims);
      }
    }
  }

  // ----- When a plateau is found -----

  /** On a uniform grid with a non-negative radius the best point is a survivor, no exception is raised, and
      a plateau is reported exactly when enough of the neighbourhood passes. */
  lemma PlateauExactly(grid: seq<ScoredPoint>, names: set<string>, cs: seq<ParamConstraint>, radius: int, maxSize: int,
                       minPassFraction: real, c: Choices, out: FindOutcome)
    requires Uniform(grid, names) && radius >= 0
    requires ValidChoices(grid, radius, maxSize, c) && IsOutcome(grid, cs, radius, minPassFraction, c, out)
    ensures var n := Neighborhood(grid, grid[c.best], c.dims, c.active, radius);
            && grid[c.best] in n && grid[c.best].point in Survivors(n)
            && out != MissingDimension
            && (out.Plateau? <==> |Survivors(n)| as real / |n| as real >= minPassFraction)
            && (out.Plateau? ==> out.result.survivors == Survivors(n))
  {
    ActiveWithin(grid, radius, maxSize, c);
    BestSurvives(grid, names, radius, c);
  }

  lemma BestSurvives(grid: seq<ScoredPoint>, names: set<string>, radius: int, c: Choices)
    requires Uniform(grid, names) && radius >= 0 && IsDims(c.dims, grid) && IsBest(grid, c.best)
    requires forall d | d in c.active :: d in c.dims
    ensures var n := Neighborhood(grid, grid[c.best], c.dims, c.active, radius);
            && grid[c.best] in n && grid[c.best].point in Survivors(n) && AllHave(Survivors(n), c.dims.Keys)
  {
    UniformDims(grid, names, c.dims);
    BestInNeighborhood(grid, c.best, c.dims, c.active, radius);
    SurvivorsNonEmpty(grid, c.best, c.dims, c.active, radius);
    SurvivorsScored(grid, grid[c.best], c.dims, c.active, radius);
  }

  lemma BestInNeighborhood(grid: seq<ScoredPoint>, b: nat, dims: Dims, active: seq<string>, radius: int)
    requires b < |grid| && radius >= 0 && OnDims(grid[b].point, dims) && forall d | d in active :: d in dims
    requires forall d | d in dims :: Increasing(dims[d])
    ensures grid[b] in Neighborhood(grid, grid[b], dims, active, radius)
  {
    forall d | d in dims ensures d in IndexPoint(grid[b].point, dims) {
      IndexesAll(grid[b].point, dims, d);
    }
    NeighborhoodMember(grid, grid[b], dims, active, radius, grid[b]);
  }

  lemma SurvivorsScored(grid: seq<ScoredPoint>, best: ScoredPoint, dims: Dims, active: seq<string>, radius: int)
    requires forall sp | sp in grid :: OnDims(sp.point, dims)
    ensures AllHave(Survivors(Neighborhood(grid, best, dims, active, radius)), dims.Keys)
  {
    var n := Neighborhood(grid, best, dims, active, radius);
    forall p | p in Survivors(n) ensures p.Keys == dims.Keys {
      SurvivorsMember(n, p);
      var sp :| sp in n && sp.passedFilters && sp.point == p;
      NeighborhoodMember(grid, best, dims, active, radius, sp);
    }
  }

  lemma ActiveWithin(grid: seq<ScoredPoint>, radius: int, maxSize: int, c: Choices)
    requires ValidChoices(grid, radius, maxSize, c)
    ensures forall d | d in c.active :: d in c.dims
    ensures Distinct(c.active)
  {
    if Power(2 * radius + 1, |c.dims|) > maxSize {
      KeptFromOrder(c.order, |c.order|, c.dims, radius, maxSize);
    }
  }

  lemma {:induction false} KeptFromOrder(order: seq<string>, n: nat, dims: Dims, radius: int, maxSize: int)
    requires n <= |order| && Lists(order, dims.Keys)
    ensures var kept := Keep(order, n, dims, radius, maxSize).0;
            Distinct(kept) && forall d | d in kept :: d in order[..n]
  {
    if n > 0 {
      KeptFromOrder(order, n - 1, dims, radius, maxSize);
      var kept := Keep(order, n - 1, dims, radius, maxSize).0;
      assert order[..n] == order[..n - 1] + [order[n - 1]];
      assert forall j | 0 <= j < n - 1 :: order[..n - 1][j] == order[j] != order[n - 1];
      assert forall i | 0 <= i < |kept| :: kept[i] in order[..n - 1];
    }
  }

  // ----- The size of a neighbourhood -----

  function WindowProduct(active: seq<string>, dims: Dims, radius: int): int
    requires forall d | d in active :: d in dims
  {
    if active == [] then 1
    else WindowProduct(active[..|active| - 1], dims, radius) * WindowSize(dims, active[|active| - 1], radius)
  }

  // Position of x inside the window around b.
  function Offset(x: int, b: int, radius: int): int {
    if b >= radius then x - (b - radius) else x
  }

  // The offsets of one point's active indices, packed into one number below the window product.
  function Code(sp: IndexedPoint, best: IndexedPoint, active: seq<string>, dims: Dims, radius: int): int
    requires forall d | d in active :: d in dims && d in sp && d in best
  {
    if active == [] then 0
    else
      var d := active[|active| - 1];
      Code(sp, best, active[..|active| - 1], dims, radius) * WindowSize(dims, d, radius) + Offset(sp[d], best[d], radius)
  }

  ghost predicate Indexed(ip: IndexedPoint, active: seq<string>, dims: Dims) {
    forall d | d in active :: d in dims && d in ip && 0 <= ip[d] < |dims[d]|
  }

  lemma {:induction false} CodeInRange(sp: IndexedPoint, best: IndexedPoint, active: seq<string>, dims: Dims, radius: int)
    requires radius >= 0 && Indexed(sp, active, dims) && Indexed(best, active, dims)
    requires WithinRadius(sp, best, active, radius)
    ensures 0 <= Code(sp, best, active, dims, radius) < WindowProduct(active, dims, radius)
  {
    if active != [] {
      var rest, d := active[..|active| - 1], active[|active| - 1];
      CodeInRange(sp, best, rest, dims, radius);
      assert d in active;
      PackBounds(Code(sp, best, rest, dims, radius), WindowProduct(rest, dims, radius),
                 WindowSize(dims, d, radius), Offset(sp[d], best[d], radius));
    }
  }

  lemma PackBounds(c: int, p: int, w: int, o: int)
    requires 0 <= c < p && 0 <= o < w
    ensures 0 <= c * w + o < p * w
  {
    MulMono(c + 1, p, w);
    MulMono(0, c, w);
  }

  lemma {:induction false} CodeInjective(sp: IndexedPoint, sq: IndexedPoint, best: IndexedPoint, active: seq<string>, dims: Dims, radius: int)
    requires radius >= 0 && Indexed(sp, active, dims) && Indexed(sq, active, dims) && Indexed(best, active, dims)
    requires WithinRadius(sp, best, active, radius) && WithinRadius(sq, best, active, radius)
    requires Code(sp, best, active, dims, radius) == Code(sq, best, active, dims, radius)
    ensures forall d | d in active :: sp[d] == sq[d]
  {
    if active != [] {
      var rest, d := active[..|active| - 1], active[|active| - 1];
      assert d in active;
      Unpack(Code(sp, best, rest, dims, radius), Code(sq, best, rest, dims, radius), WindowSize(dims, d, radius),
             Offset(sp[d], best[d], radius), Offset(sq[d], best[d], radius));
      CodeInjective(sp, sq, best, rest, dims, radius);
      assert active == rest + [d];
    }
  }

  lemma Unpack(c1: int, c2: int, w: int, o1: int, o2: int)
    requires 0 <= o1 < w && 0 <= o2 < w && c1 * w + o1 == c2 * w + o2
    ensures c1 == c2 && o1 == o2
  {
    if c1 < c2 { MulMono(c1 + 1, c2, w); }
    if c2 < c1 { MulMono(c2 + 1, c1, w); }
  }

  /** Distinct points: the neighbourhood never exceeds maxSize, unless the window of the most sensitive
      dimension alone is larger. */
  lemma NeighborhoodBound(grid: seq<ScoredPoint>, names: set<string>, radius: int, maxSize: int, c: Choices)
    requires Uniform(grid, names) && radius >= 0 && names != {}
    requires DistinctPoints(grid)
    requires ValidChoices(grid, radius, maxSize, c)
    ensures var size := |Neighborhood(grid, grid[c.best], c.dims, c.active, radius)|;
            && (Power(2 * radius + 1, |c.dims|) <= maxSize ==> size <= maxSize)
            && (Power(2 * radius + 1, |c.dims|) > maxSize ==>
                  c.order != [] && c.order[0] in c.dims && size <= Max(maxSize, WindowSize(c.dims, c.order[0], radius)))
  {
    ActiveWithin(grid, radius, maxSize, c);
    UniformCount(grid, names, c.best, c.dims, c.active, radius);
    ActiveWindows(grid, radius, maxSize, c);
  }

  lemma UniformCount(grid: seq<ScoredPoint>, names: set<string>, b: nat, dims: Dims, active: seq<string>, radius: int)
    requires Uniform(grid, names) && names != {} && b < |grid| && radius >= 0 && IsDims(dims, grid)
    requires forall d | d in active :: d in dims
    requires DistinctPoints(grid)
    ensures dims != map[]
    ensures |Neighborhood(grid, grid[b], dims, active, radius)| <= WindowProduct(active, dims, radius)
  {
    UniformDims(grid, names, dims);
    NeighborhoodCount(grid, b, dims, active, radius);
  }

  lemma ActiveWindows(grid: seq<ScoredPoint>, radius: int, maxSize: int, c: Choices)
    requires radius >= 0 && ValidChoices(grid, radius, maxSize, c) && c.dims != map[] && forall d | d in c.active :: d in c.dims
    ensures Power(2 * radius + 1, |c.dims|) <= maxSize ==> WindowProduct(c.active, c.dims, radius) <= maxSize
    ensures Power(2 * radius + 1, |c.dims|) > maxSize ==>
              c.order != [] && c.order[0] in c.dims &&
              WindowProduct(c.active, c.dims, radius) <= Max(maxSize, WindowSize(c.dims, c.order[0], radius))
  {
    if Power(2 * radius + 1, |c.dims|) <= maxSize {
      ListsSize(c.active, c.dims.Keys);
      WindowsBelowPower(c.active, c.dims, radius);
    } else {
      assert Lists(c.order, c.dims.Keys);
      var d0 :| d0 in c.dims;
      assert d0 in c.order;
      forall d | d in c.order ensures d in c.dims && c.dims[d] != [] {
        var sp :| sp in grid && d in sp.point;
        assert HasValue(grid, d, sp.point[d]);
      }
      KeepSize(c.order, |c.order|, c.dims, radius, maxSize);
    }
  }

  lemma NeighborhoodCount(grid: seq<ScoredPoint>, b: nat, dims: Dims, active: seq<string>, radius: int)
    requires b < |grid| && radius >= 0 && IsDims(dims, grid) && forall d | d in active :: d in dims
    requires forall sp | sp in grid :: OnDims(sp.point, dims)
    requires DistinctPoints(grid)
    ensures |Neighborhood(grid, grid[b], dims, active, radius)| <= WindowProduct(active, dims, radius)
  {
    var n := Neighborhood(grid, grid[b], dims, active, radius);
    assert grid[b] in grid;
    OnDimsIndexed(grid[b].point, dims, active);
    forall i | 0 <= i < |n|
      ensures Coded(n[i], grid[b], dims, active, radius)
    {
      NeighborhoodMember(grid, grid[b], dims, active, radius, n[i]);
      OnDimsIndexed(n[i].point, dims, active);
    }
    NeighborhoodDistinct(grid, grid[b], dims, active, radius);
    CodesBelow(n, grid[b], dims, active, radius);
  }

  // A point of the neighbourhood, with a code of its own.
  ghost predicate Coded(sp: ScoredPoint, best: ScoredPoint, dims: Dims, active: seq<string>, radius: int) {
    && OnDims(sp.point, dims) && Indexed(IndexPoint(sp.point, dims), active, dims)
    && InNeighborhood(sp, best, dims, active, radius)
  }

  lemma CodesBelow(n: seq<ScoredPoint>, best: ScoredPoint, dims: Dims, active: seq<string>, radius: int)
    requires radius >= 0 && OnDims(best.point, dims) && Indexed(IndexPoint(best.point, dims), active, dims)
    requires (forall d | d in dims :: Increasing(dims[d])) && forall d | d in active :: d in dims
    requires DistinctPoints(n) && forall i | 0 <= i < |n| :: Coded(n[i], best, dims, active, radius)
    ensures |n| <= WindowProduct(active, dims, radius)
  {
    var b := IndexPoint(best.point, dims);
    var codes := seq(|n|, i requires 0 <= i < |n| => CodeOf(n[i], best, dims, active, radius));
    forall i, j | 0 <= i < j < |n|
      ensures codes[i] != codes[j]
    {
      assert n[i].point != n[j].point;
      if codes[i] == codes[j] {
        SameCodeSamePoint(n[i], n[j], best, dims, active, radius);
      }
    }
    forall x | x in codes
      ensures 0 <= x < WindowProduct(active, dims, radius)
    {
      var i :| 0 <= i < |codes| && codes[i] == x;
      CodeInRange(IndexPoint(n[i].point, dims), b, active, dims, radius);
    }
    CenterInRadius(b, active, dims, radius);
    DistinctBelow(codes, WindowProduct(active, dims, radius));
  }

  ghost function CodeOf(sp: ScoredPoint, best: ScoredPoint, dims: Dims, active: seq<string>, radius: int): int
    requires Coded(sp, best, dims, active, radius) && Indexed(IndexPoint(best.point, dims), active, dims)
  {
    Code(IndexPoint(sp.point, dims), IndexPoint(best.point, dims), active, dims, radius)
  }

  lemma CenterInRadius(b: IndexedPoint, active: seq<string>, dims: Dims, radius: int)
    requires radius >= 0 && Indexed(b, active, dims)
    ensures 0 <= WindowProduct(active, dims, radius)
  {
    CodeInRange(b, b, active, dims, radius);
  }

  lemma OnDimsIndexed(p: ParamPoint, dims: Dims, active: seq<string>)
    requires OnDims(p, dims) && (forall d | d in dims :: Increasing(dims[d])) && forall d | d in active :: d in dims
    ensures Indexed(IndexPoint(p, dims), active, dims)
  {
    forall d | d in active ensures d in IndexPoint(p, dims) && 0 <= IndexPoint(p, dims)[d] < |dims[d]| {
      IndexesAll(p, dims, d);
    }
  }

  lemma SameCodeSamePoint(sp: ScoredPoint, sq: ScoredPoint, best: ScoredPoint, dims: Dims, active: seq<string>, radius: int)
    requires radius >= 0 && OnDims(sp.point, dims) && OnDims(sq.point, dims) && OnDims(best.point, dims)
    requires (forall d | d in dims :: Increasing(dims[d])) && forall d | d in active :: d in dims
    requires InNeighborhood(sp, best, dims, active, radius) && InNeighborhood(sq, best, dims, active, radius)
    requires Code(IndexPoint(sp.point, dims), IndexPoint(best.point, dims), active, dims, radius) ==
             Code(IndexPoint(sq.point, dims), IndexPoint(best.point, dims), active, dims, radius)
    ensures sp.point == sq.point
  {
    OnDimsIndexed(sp.point, dims, active);
    OnDimsIndexed(sq.point, dims, active);
    OnDimsIndexed(best.point, dims, active);
    CodeInjective(IndexPoint(sp.point, dims), IndexPoint(sq.point, dims), IndexPoint(best.point, dims), active, dims, radius);
    SameIndicesSamePoint(sp.point, sq.point, dims);
  }

  lemma {:induction false} NeighborhoodDistinct(grid: seq<ScoredPoint>, best: ScoredPoint, dims: Dims, active: seq<string>, radius: int)
    requires DistinctPoints(grid)
    ensures DistinctPoints(Neighborhood(grid, best, dims, active, radius))
  {
    if grid != [] {
      var front, last := grid[..|grid| - 1], grid[|grid| - 1];
      NeighborhoodDistinct(front, best, dims, active, radius);
      var n := Neighborhood(front, best, dims, active, radius);
      forall i | 0 <= i < |n| ensures n[i].point != last.point {
        NeighborhoodMember(front, best, dims, active, radius, n[i]);
        var k :| 0 <= k < |front| && front[k] == n[i];
        assert grid[k] == n[i];
      }
    }
  }

  lemma {:induction false} WindowsBelowPower(active: seq<string>, dims: Dims, radius: int)
    requires radius >= 0 && forall d | d in active :: d in dims
    ensures 0 <= WindowProduct(active, dims, radius) <= Power(2 * radius + 1, |active|)
  {
    if active != [] {
      var rest, d := active[..|active| - 1], active[|active| - 1];
      assert d in active;
      WindowsBelowPower(rest, dims, radius);
      var w := WindowSize(dims, d, radius);
      MulMono(WindowProduct(rest, dims, radius), Power(2 * radius + 1, |rest|), w);
      MulMono(w, 2 * radius + 1, Power(2 * radius + 1, |rest|));
      MulMono(0, WindowProduct(rest, dims, radius), w);
    }
  }

  lemma {:induction false} KeepSize(order: seq<string>, n: nat, dims: Dims, radius: int, maxSize: int)
    requires 0 < n <= |order| && radius >= 0 && forall d | d in order :: d in dims && dims[d] != []
    ensures var (kept, size) := Keep(order, n, dims, radius, maxSize);
            && kept != [] && (forall d | d in kept :: d in dims)
            && size == WindowProduct(kept, dims, radius)
            && 1 <= size <= Max(maxSize, WindowSize(dims, order[0], radius))
  {
    if n == 1 {
      assert Keep(order, 0, dims, radius, maxSize) == ([], 1);
      assert Keep(order, 1, dims, radius, maxSize).0 == [order[0]];
    } else {
      KeepSize(order, n - 1, dims, radius, maxSize);
      var (kept, size) := Keep(order, n - 1, dims, radius, maxSize);
      var d := order[n - 1];
      var w := WindowSize(dims, d, radius);
      assert d in order && w >= 1;
      MulMono(1, w, size);
      assert (kept + [d])[..|kept + [d]| - 1] == kept;
    }
  }
}
