/** Scoring the grid and handing it to the plateau search (src/backtest/backtest_gate_controller.cpp).
    What the engine reports for a point on a fold is an arbitrary function of both. */
module BacktestGate {
  import opened Common
  import opened ParameterSpace
  import opened GridTheory
  import opened ClampTheory
  import opened PlateauFinder
  import opened PlateauTheory

  datatype FoldStats = FoldStats(numTrades: int, sortino: real)

  datatype FoldScores = FoldScores(inSample: FoldStats, outOfSample: FoldStats)

  type Engine = (ParamPoint, nat) -> FoldScores

  datatype Filters = Filters(minTradesPerFold: int, oosIsRatioThreshold: real, minOosSortino: real)

  predicate EnoughTrades(s: FoldScores, f: Filters) {
    s.inSample.numTrades >= f.minTradesPerFold && s.outOfSample.numTrades >= f.minTradesPerFold
  }

  ghost predicate AllFolds(run: Engine, p: ParamPoint, folds: nat, f: Filters) {
    forall k: nat | k < folds :: EnoughTrades(run(p, k), f)
  }

  function SumIS(run: Engine, p: ParamPoint, n: nat): real {
    if n == 0 then 0.0 else SumIS(run, p, n - 1) + run(p, n - 1).inSample.sortino
  }

  function SumOOS(run: Engine, p: ParamPoint, n: nat): real {
    if n == 0 then 0.0 else SumOOS(run, p, n - 1) + run(p, n - 1).outOfSample.sortino
  }

  function RealMax(a: real, b: real): real { if a >= b then a else b }

  // The score of a point: its means over all folds, or zero and rejected when some fold trades too little.
  ghost predicate IsScore(sp: ScoredPoint, p: ParamPoint, run: Engine, folds: nat, f: Filters)
    requires folds > 0
  {
    var everyFold := AllFolds(run, p, folds, f);
    var meanIS, meanOOS := SumIS(run, p, folds) / folds as real, SumOOS(run, p, folds) / folds as real;
    && sp.point == p
    && (everyFold ==> sp.isSortino == meanIS && sp.oosSortino == meanOOS)
    && (!everyFold ==> sp.isSortino == 0.0 && sp.oosSortino == 0.0)
    && (sp.passedFilters <==>
          everyFold && meanIS > 0.0 && meanOOS > 0.0 && meanOOS >= RealMax(f.oosIsRatioThreshold * meanIS, f.minOosSortino))
  }

  function Passing(scored: seq<ScoredPoint>): nat {
    if scored == [] then 0
    else Passing(scored[..|scored| - 1]) + if scored[|scored| - 1].passedFilters then 1 else 0
  }

  lemma {:induction false} PassingExists(scored: seq<ScoredPoint>)
    ensures Passing(scored) == 0 <==> forall sp | sp in scored :: !sp.passedFilters
  {
    if scored != [] {
      PassingExists(scored[..|scored| - 1]);
      assert scored == scored[..|scored| - 1] + [scored[|scored| - 1]];
    }
  }

  // How many of the points some fold rejects for trading too little.
  ghost function TradeRejects(grid: seq<ParamPoint>, run: Engine, folds: nat, f: Filters): nat {
    if grid == [] then 0
    else
      TradeRejects(grid[..|grid| - 1], run, folds, f) +
      if AllFolds(run, grid[|grid| - 1], folds, f) then 0 else 1
  }

  datatype ScoreOutcome = ScoreOutcome(scored: seq<ScoredPoint>, combosEvaluated: nat,
                                       minTradesRejects: nat, oosIsRejects: nat, deadlineHit: bool)

  datatype FoldSums = DeadlineHit | TooFewTrades | Summed(sumIS: real, sumOOS: real)

  // How many of the first n folds a point is run on: up to the first on which it trades too little.
  ghost function Tried(run: Engine, p: ParamPoint, n: nat, f: Filters): nat {
    if n == 0 then 0 else Tried(run, p, n - 1, f) + if AllFolds(run, p, n - 1, f) then 1 else 0
  }

  // The clock is looked at before each point and before each fold it is run on.
  ghost function Looks(grid: seq<ParamPoint>, run: Engine, folds: nat, f: Filters): nat {
    if grid == [] then 0
    else Looks(grid[..|grid| - 1], run, folds, f) + 1 + Tried(run, grid[|grid| - 1], folds, f)
  }

  ghost predicate LateBy(late: nat -> bool, looks: nat) { exists k: nat :: k < looks && late(k) }

  lemma {:induction false} TriedGrows(run: Engine, p: ParamPoint, k: nat, n: nat, f: Filters)
    requires k <= n
    ensures Tried(run, p, k, f) <= Tried(run, p, n, f)
    ensures AllFolds(run, p, k, f) ==> Tried(run, p, k, f) == k && (k < n ==> Tried(run, p, n, f) > k)
    ensures k > 0 && AllFolds(run, p, k - 1, f) && !AllFolds(run, p, k, f) ==> Tried(run, p, n, f) == k
    decreases n
  {
    if k < n {
      TriedGrows(run, p, k, n - 1, f);
    } else if n > 0 {
      TriedGrows(run, p, n - 1, n - 1, f);
    }
  }

  lemma {:induction false} LooksGrow(grid: seq<ParamPoint>, k: nat, run: Engine, folds: nat, f: Filters)
    requires k <= |grid|
    ensures Looks(grid[..k], run, folds, f) <= Looks(grid, run, folds, f)
    ensures k < |grid| ==> Looks(grid[..k], run, folds, f) + 1 + Tried(run, grid[k], folds, f) <= Looks(grid, run, folds, f)
    decreases |grid|
  {
    if k == |grid| {
      assert grid[..k] == grid;
    } else {
      var front := grid[..|grid| - 1];
      assert k <= |front| && front[..k] == grid[..k];
      LooksGrow(front, k, run, folds, f);
    }
  }

  // Runs one point over the folds until some fold trades too little; late(k) says whether the k-th
  // look at the clock is past the deadline.
  method RunFolds(point: ParamPoint, run: Engine, folds: nat, filters: Filters, late: nat -> bool, firstLook: nat)
    returns (sums: FoldSums, looks: nat)
    ensures sums.Summed? ==> sums == Summed(SumIS(run, point, folds), SumOOS(run, point, folds))
                             && AllFolds(run, point, folds, filters)
    ensures sums.TooFewTrades? ==> !AllFolds(run, point, folds, filters)
    ensures firstLook <= looks && forall k | firstLook <= k < looks :: !late(k)
    ensures if sums.DeadlineHit? then looks < firstLook + Tried(run, point, folds, filters) && late(looks)
            else looks == firstLook + Tried(run, point, folds, filters)
  {
    looks := firstLook;
    var sumIS, sumOOS := 0.0, 0.0;
    for k := 0 to folds
      invariant sumIS == SumIS(run, point, k) && sumOOS == SumOOS(run, point, k)
      invariant AllFolds(run, point, k, filters)
      invariant looks == firstLook + k && forall q | firstLook <= q < looks :: !late(q)
    {
      TriedGrows(run, point, k, folds, filters);
      if late(looks) {
        return DeadlineHit, looks;
      }
      looks := looks + 1;
      var s := run(point, k);
      if s.inSample.numTrades < filters.minTradesPerFold || s.outOfSample.numTrades < filters.minTradesPerFold {
        assert !EnoughTrades(run(point, k), filters);
        TriedGrows(run, point, k + 1, folds, filters);
        return TooFewTrades, looks;
      }
      sumIS := sumIS + s.inSample.sortino;
      sumOOS := sumOOS + s.outOfSample.sortino;
    }
    TriedGrows(run, point, folds, folds, filters);
    return Summed(sumIS, sumOOS), looks;
  }

  method ScorePoint(point: ParamPoint, sums: FoldSums, folds: nat, filters: Filters, ghost run: Engine) returns (sp: ScoredPoint)
    requires folds > 0 && !sums.DeadlineHit?
    requires sums.Summed? ==> sums == Summed(SumIS(run, point, folds), SumOOS(run, point, folds))
                              && AllFolds(run, point, folds, filters)
    requires sums.TooFewTrades? ==> !AllFolds(run, point, folds, filters)
    ensures IsScore(sp, point, run, folds, filters)
  {
    sp := ScoredPoint(point, 0.0, 0.0, false);
    if sums.Summed? {
      var meanIS, meanOOS := sums.sumIS / folds as real, sums.sumOOS / folds as real;
      sp := sp.(isSortino := meanIS, oosSortino := meanOOS);
      var ratioFloor := filters.oosIsRatioThreshold * meanIS;
      var floor := if ratioFloor < filters.minOosSortino then filters.minOosSortino else ratioFloor;
      if meanIS > 0.0 && meanOOS > 0.0 && meanOOS >= floor {
        sp := sp.(passedFilters := true);
      }
    }
  }

  // The first points of the grid are scored, in order.
  ghost predicate ScoresFirst(scored: seq<ScoredPoint>, grid: seq<ParamPoint>, run: Engine, folds: nat, f: Filters)
    requires folds > 0
  {
    || scored == []
    || (|scored| <= |grid|
        && ScoresFirst(scored[..|scored| - 1], grid, run, folds, f)
        && IsScore(scored[|scored| - 1], grid[|scored| - 1], run, folds, f))
  }

  lemma {:induction false} ScoredAt(scored: seq<ScoredPoint>, grid: seq<ParamPoint>, run: Engine, folds: nat, f: Filters, i: nat)
    requires folds > 0 && ScoresFirst(scored, grid, run, folds, f) && i < |scored|
    ensures |scored| <= |grid| && IsScore(scored[i], grid[i], run, folds, f)
  {
    if i < |scored| - 1 {
      ScoredAt(scored[..|scored| - 1], grid, run, folds, f, i);
    }
  }

  lemma PointsKept(scored: seq<ScoredPoint>, rs: seq<ParamRange>, cs: seq<ParamConstraint>, run: Engine, folds: nat, f: Filters)
    requires folds > 0 && |scored| == |Grid(rs, cs)| && ScoresFirst(scored, Grid(rs, cs), run, folds, f)
    ensures ScoresGrid(scored, rs, cs)
  {
    forall i | 0 <= i < |scored|
      ensures scored[i].point == Grid(rs, cs)[i]
    {
      ScoredAt(scored, Grid(rs, cs), run, folds, f, i);
    }
  }

  // One more point, unless the deadline passes first.
  method EvaluateNext(scored: seq<ScoredPoint>, grid: seq<ParamPoint>, run: Engine, folds: nat, filters: Filters,
                      late: nat -> bool, firstLook: nat)
    returns (sp: Option<ScoredPoint>, tooFewTrades: bool, looks: nat)
    requires folds > 0 && !LateBy(late, firstLook) && |scored| < |grid| && ScoresFirst(scored, grid, run, folds, filters)
    ensures sp.None? <==> LateBy(late, firstLook + 1 + Tried(run, grid[|scored|], folds, filters))
    ensures sp.Some? ==> ScoresFirst(scored + [sp.value], grid, run, folds, filters)
    ensures sp.Some? ==> (tooFewTrades <==> !AllFolds(run, grid[|scored|], folds, filters))
    ensures sp.Some? && tooFewTrades ==> !sp.value.passedFilters
    ensures sp.Some? ==> looks == firstLook + 1 + Tried(run, grid[|scored|], folds, filters)
  {
    var point := grid[|scored|];
    if late(firstLook) {
      return None, false, firstLook;
    }
    var sums;
    sums, looks := RunFolds(point, run, folds, filters, late, firstLook + 1);
    if sums.DeadlineHit? {
      return None, false, looks;
    }
    var next := ScorePoint(point, sums, folds, filters, run);
    assert (scored + [next])[..|scored|] == scored;
    return Some(next), sums.TooFewTrades?, looks;
  }

  // The counts so far.
  ghost predicate Tallied(out: ScoreOutcome, looks: nat, grid: seq<ParamPoint>, run: Engine, folds: nat, f: Filters)
    requires folds > 0
  {
    var n := |out.scored|;
    && n <= |grid| && out.combosEvaluated == n && !out.deadlineHit && ScoresFirst(out.scored, grid, run, folds, f)
    && out.minTradesRejects == TradeRejects(grid[..n], run, folds, f) && looks == Looks(grid[..n], run, folds, f)
    && out.minTradesRejects + out.oosIsRejects + Passing(out.scored) == n
  }

  lemma TallyStep(out: ScoreOutcome, looks: nat, sp: ScoredPoint, tooFewTrades: bool, next: ScoreOutcome, grid: seq<ParamPoint>,
                  run: Engine, folds: nat, f: Filters)
    requires folds > 0 && Tallied(out, looks, grid, run, folds, f) && |out.scored| < |grid|
    requires ScoresFirst(out.scored + [sp], grid, run, folds, f) && (tooFewTrades <==> !AllFolds(run, grid[|out.scored|], folds, f))
    requires tooFewTrades ==> !sp.passedFilters
    requires next == ScoreOutcome(out.scored + [sp], out.combosEvaluated + 1, out.minTradesRejects + if tooFewTrades then 1 else 0,
                                  out.oosIsRejects + if !tooFewTrades && !sp.passedFilters then 1 else 0, false)
    ensures Tallied(next, looks + 1 + Tried(run, grid[|out.scored|], folds, f), grid, run, folds, f)
  {
    var n := |out.scored|;
    assert grid[..n + 1][..n] == grid[..n];
    assert (out.scored + [sp])[..n] == out.scored;
  }

  method ScoreGrid(grid: seq<ParamPoint>, run: Engine, folds: nat, filters: Filters, late: nat -> bool)
    returns (out: ScoreOutcome, looks: nat)
    requires folds > 0
    ensures out.deadlineHit <==> LateBy(late, Looks(grid, run, folds, filters))
    ensures !out.deadlineHit ==> looks == Looks(grid, run, folds, filters)
    ensures out.combosEvaluated == |out.scored| && ScoresFirst(out.scored, grid, run, folds, filters)
    ensures !out.deadlineHit ==>
              && |out.scored| == |grid|
              && out.minTradesRejects == TradeRejects(grid, run, folds, filters)
              && out.oosIsRejects == |grid| - out.minTradesRejects - Passing(out.scored)
  {
    out := ScoreOutcome([], 0, 0, 0, false);
    looks := 0;
    for i := 0 to |grid|
      invariant |out.scored| == i && Tallied(out, looks, grid, run, folds, filters) && !LateBy(late, looks)
    {
      var sp, tooFewTrades;
      ghost var before, seen := out, looks;
      sp, tooFewTrades, looks := EvaluateNext(out.scored, grid, run, folds, filters, late, looks);
      if sp.None? {
        LooksGrow(grid, i, run, folds, filters);
        return out.(deadlineHit := true), looks;
      }
      out := out.(scored := out.scored + [sp.value], combosEvaluated := i + 1,
        minTradesRejects := out.minTradesRejects + if tooFewTrades then 1 else 0,
        oosIsRejects := out.oosIsRejects + if !tooFewTrades && !sp.value.passedFilters then 1 else 0);
      TallyStep(before, seen, sp.value, tooFewTrades, out, grid, run, folds, filters);
    }
    assert grid[..|grid|] == grid;
  }

  datatype SearchOutcome =
    | ComboBudgetExhausted
    | GridEmpty
    | DeadlineExceeded
    | NoComboPassedFilter
    | NoPlateauFound
    | InternalError
    | Found(plateau: PlateauResult)

  ghost predicate Proposable(ranges: seq<ParamRange>) {
    DistinctNames(ranges) && forall r | r in ranges :: WellStepped(r) && Countable(r)
  }

  // The ranges are over budget.
  ghost predicate OverBudget(rs: seq<ParamRange>, cs: seq<ParamConstraint>, maxTotalCombos: int) {
    rs != [] && (maxTotalCombos <= 0 || Count(rs, cs, CountCap(maxTotalCombos)) > maxTotalCombos)
  }

  // rounds: the ranges after each round of widening, which went on as long as it was needed and possible.
  ghost predicate IsClamp(proposal: seq<ParamRange>, rounds: seq<seq<ParamRange>>, cs: seq<ParamConstraint>, maxTotalCombos: int) {
    && rounds != [] && rounds[0] == proposal && IsWidening(rounds, cs, maxTotalCombos) && |rounds| <= 65
    && (proposal != [] && maxTotalCombos > 0 ==> WideningEnds(rounds, cs, maxTotalCombos))
  }

  datatype Search = Search(cs: seq<ParamConstraint>, maxTotalCombos: int, radius: int, maxSize: int, minPassFraction: real)

  // What the plateau search answered, as the gate hands it on.
  ghost predicate HandsOn(out: SearchOutcome, scored: seq<ScoredPoint>, q: Search, c: Choices) {
    && ValidChoices(scored, q.radius, q.maxSize, c)
    && match out
       case NoPlateauFound => IsOutcome(scored, q.cs, q.radius, q.minPassFraction, c, NoPlateau)
       case InternalError => IsOutcome(scored, q.cs, q.radius, q.minPassFraction, c, MissingDimension)
       case Found(result) => IsOutcome(scored, q.cs, q.radius, q.minPassFraction, c, Plateau(result))
       case _ => false
  }

  // What comes out of the ranges rs that clamping left: the first obstacle met, or what the plateau search answered.
  ghost predicate IsAnswer(out: SearchOutcome, rs: seq<ParamRange>, q: Search, run: Engine, folds: nat, f: Filters, late: nat -> bool,
                           scored: seq<ScoredPoint>, c: Choices)
    requires folds > 0
  {
    var grid := Grid(rs, q.cs);
    var looks := Looks(grid, run, folds, f);
    if OverBudget(rs, q.cs, q.maxTotalCombos) then out == ComboBudgetExhausted
    else if grid == [] then out == GridEmpty
    else if LateBy(late, looks) then out == DeadlineExceeded
    else
      && |scored| == |grid| && ScoresFirst(scored, grid, run, folds, f)
      && if forall sp | sp in scored :: !sp.passedFilters then out == NoComboPassedFilter
         else if late(looks) then out == DeadlineExceeded
         else HandsOn(out, scored, q, c)
  }

  /** Clamp, build, score, search: each answer comes exactly when its cause is the first one met; and the centre handed on is a point
      of the grid that was proposed, before any widening; it meets every constraint, carries its own scores, and no exception is
      raised. */
  method SearchPlateau(proposal: seq<ParamRange>, q: Search, run: Engine, folds: nat, filters: Filters, late: nat -> bool)
    returns (out: SearchOutcome, ghost rounds: seq<seq<ParamRange>>, ghost scored: seq<ScoredPoint>, ghost c: Choices)
    requires folds > 0
    ensures IsClamp(proposal, rounds, q.cs, q.maxTotalCombos)
    ensures IsAnswer(out, rounds[|rounds| - 1], q, run, folds, filters, late, scored, c)
    ensures Proposable(proposal) && q.radius >= 0 ==> out != InternalError
    ensures Proposable(proposal) && out.Found? ==> CenterProposed(out.plateau, proposal, q.cs, run, folds, filters)
  {
    c, scored := Choices(map[], 0, [], []), [];
    var rs, fits;
    rs, fits, rounds := ClampRanges(proposal, q);
    if !fits {
      return ComboBudgetExhausted, rounds, scored, c;
    }
    var grid := BuildGrid(rs, q.cs);
    if grid == [] {
      return GridEmpty, rounds, scored, c;
    }
    out, scored, c := SearchGrid(grid, rs, q, run, folds, filters, late);
    ClampKeepsPromise(out, proposal, rs, q.cs, run, folds, filters);
  }

  method ClampRanges(proposal: seq<ParamRange>, q: Search)
    returns (rs: seq<ParamRange>, fits: bool, ghost rounds: seq<seq<ParamRange>>)
    ensures IsClamp(proposal, rounds, q.cs, q.maxTotalCombos) && rounds[|rounds| - 1] == rs && OnlySteps(proposal, rs)
    ensures fits <==> !OverBudget(rs, q.cs, q.maxTotalCombos)
  {
    var ranges := new ParamRange[|proposal|](i requires 0 <= i < |proposal| => proposal[i]);
    assert ranges[..] == proposal;
    fits, rounds := ClampToBudget(ranges, q.cs, q.maxTotalCombos);
    rs := ranges[..];
  }

  lemma ClampKeepsPromise(out: SearchOutcome, proposal: seq<ParamRange>, rs: seq<ParamRange>, cs: seq<ParamConstraint>,
                          run: Engine, folds: nat, f: Filters)
    requires folds > 0 && OnlySteps(proposal, rs)
    requires DistinctNames(rs) && out.Found? ==> CenterProposed(out.plateau, rs, cs, run, folds, f)
    ensures Proposable(proposal) ==> DistinctNames(rs)
    ensures Proposable(proposal) && out.Found? ==> CenterProposed(out.plateau, proposal, cs, run, folds, f)
  {
    if Proposable(proposal) {
      ClampKeepsProposal(proposal, rs);
      if out.Found? {
        ClampedGridIsCoarser(proposal, rs, cs, out.plateau.center);
      }
    }
  }

  // The centre and its scores, as promised of the grid given.
  ghost predicate CenterProposed(plateau: PlateauResult, rs: seq<ParamRange>, cs: seq<ParamConstraint>, run: Engine, folds: nat, f: Filters)
    requires folds > 0
  {
    && plateau.center in Grid(rs, cs) && Satisfies(plateau.center, cs)
    && exists passed :: IsScore(ScoredPoint(plateau.center, plateau.centerSortinoOOS, plateau.centerSortinoIS, passed),
                                plateau.center, run, folds, f)
  }

  method SearchGrid(grid: seq<ParamPoint>, rs: seq<ParamRange>, q: Search, run: Engine, folds: nat, filters: Filters, late: nat -> bool)
    returns (out: SearchOutcome, ghost scored: seq<ScoredPoint>, ghost c: Choices)
    requires folds > 0 && grid == Grid(rs, q.cs) && grid != []
    ensures OverBudget(rs, q.cs, q.maxTotalCombos) || IsAnswer(out, rs, q, run, folds, filters, late, scored, c)
    ensures DistinctNames(rs) && q.radius >= 0 ==> out != InternalError
    ensures DistinctNames(rs) && out.Found? ==> CenterProposed(out.plateau, rs, q.cs, run, folds, filters)
  {
    c := Choices(map[], 0, [], []);
    var score, looks := ScoreGrid(grid, run, folds, filters, late);
    scored := score.scored;
    if score.deadlineHit {
      return DeadlineExceeded, scored, c;
    }
    var survivorCount := CountPassing(score.scored);
    PassingExists(score.scored);
    if survivorCount == 0 {
      return NoComboPassedFilter, scored, c;
    }
    if late(looks) {
      return DeadlineExceeded, scored, c;
    }
    out, c := SearchScored(score.scored, q);
    SearchKeepsPromise(out, scored, c, rs, q, run, folds, filters);
  }

  method SearchScored(scored: seq<ScoredPoint>, q: Search) returns (out: SearchOutcome, ghost c: Choices)
    requires exists sp :: sp in scored && sp.passedFilters
    ensures HandsOn(out, scored, q, c)
  {
    var found;
    found, c := Find(scored, q.cs, q.radius, q.maxSize, q.minPassFraction);
    match found {
      case NoPlateau => out := NoPlateauFound;
      case MissingDimension => out := InternalError;
      case Plateau(result) => out := Found(result);
    }
  }

  lemma SearchKeepsPromise(out: SearchOutcome, scored: seq<ScoredPoint>, c: Choices, rs: seq<ParamRange>, q: Search,
                           run: Engine, folds: nat, f: Filters)
    requires folds > 0 && HandsOn(out, scored, q, c) && |scored| == |Grid(rs, q.cs)| && ScoresFirst(scored, Grid(rs, q.cs), run, folds, f)
    requires exists sp :: sp in scored && sp.passedFilters
    ensures DistinctNames(rs) && q.radius >= 0 ==> out != InternalError
    ensures DistinctNames(rs) && out.Found? ==> CenterProposed(out.plateau, rs, q.cs, run, folds, f)
  {
    if DistinctNames(rs) {
      PointsKept(scored, rs, q.cs, run, folds, f);
      if out.Found? {
        var m := CenterIsScored(scored, rs, q.cs, q.radius, q.maxSize, q.minPassFraction, c, Plateau(out.plateau));
        ScoredAt(scored, Grid(rs, q.cs), run, folds, f, m);
      } else if q.radius >= 0 && out.InternalError? {
        ScoredPoints(scored, rs, q.cs);
        PlateauExactly(scored, Names(rs), q.cs, q.radius, q.maxSize, q.minPassFraction, c, MissingDimension);
      }
    }
  }

  method CountPassing(scored: seq<ScoredPoint>) returns (n: nat)
    ensures n == Passing(scored)
  {
    n := 0;
    for i := 0 to |scored|
      invariant n == Passing(scored[..i])
    {
      assert scored[..i + 1][..i] == scored[..i];
      if scored[i].passedFilters {
        n := n + 1;
      }
    }
    assert scored[..|scored|] == scored;
  }

  lemma ClampKeepsProposal(proposal: seq<ParamRange>, rs: seq<ParamRange>)
    requires Proposable(proposal) && OnlySteps(proposal, rs)
    ensures DistinctNames(rs)
    ensures forall i | 0 <= i < |rs| :: WellStepped(proposal[i]) && Countable(proposal[i]) && Widened(proposal[i], rs[i])
  {
    forall i | 0 <= i < |rs| ensures WellStepped(proposal[i]) && Countable(proposal[i]) && Widened(proposal[i], rs[i]) {
      assert proposal[i] in proposal && OnlyStep(proposal[i], rs[i]);
    }
    SameNames(proposal, rs);
  }
}
