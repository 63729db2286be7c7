/** The admission gates in a row, and what they keep over a run of openings and closings
    (src/engine/signal_engine.cpp:1444-1566). */
module Admission {
  import opened Common
  import opened SizingPolicy
  import opened TrackerSpec
  import opened OrderCap
  import opened Exposure

  datatype Env = Env(account: Account, cap: Config, limits: Limits, beta: string -> real)

  datatype Request = Request(symbol: string, direction: Direction, sizing: Input, price: real, step: real)

  datatype Stage = Sizing | OrderCapBlocked | OrderCapFailed | ExposureBlocked | ScaledTooSmall | ScaledInvalid

  datatype Outcome = Admitted(size: Size) | Blocked(stage: Stage)

  // A sized request: the sizing policy's result when it is not zero.
  ghost predicate Sized(r: Request, size: Size) {
    && size.quantity > 0.0 && Sizable(r.sizing, r.price, r.step)
    && size.notional == Times(size.quantity, r.price)
    && (exists n :: IsSteps(r.sizing, r.price, r.step, size.quantity, n) && Best(r.sizing, r.price, r.step, n))
    && (size.minClamped <==> RiskNotional(r.sizing, r.price) < r.sizing.minNotional)
    && (size.maxCapped <==> Capped(r.sizing, r.price, r.step))
  }

  /** The sizing policy's result is unique: of the allowed sizes only one is best. */
  lemma SizedUnique(r: Request, a: Size, b: Size)
    requires Sized(r, a) && Sized(r, b)
    ensures a == b
  {
    var n :| IsSteps(r.sizing, r.price, r.step, a.quantity, n) && Best(r.sizing, r.price, r.step, n);
    var m :| IsSteps(r.sizing, r.price, r.step, b.quantity, m) && Best(r.sizing, r.price, r.step, m);
    BestIsUnique(r.sizing, r.price, r.step, n, m);
    BestIsUnique(r.sizing, r.price, r.step, m, n);
  }

  lemma BestIsUnique(i: Input, price: real, step: real, n: int, m: int)
    requires Sizable(i, price, step) && Fits(i, price, step, n) && Fits(i, price, step, m)
    requires Best(i, price, step, n) && Best(i, price, step, m)
    ensures n >= m
  {
    if n < m {
      ScaledStrictly(n as real, m as real, price, step);
    }
  }

  ghost predicate PassesCap(env: Env, open: seq<TrackedPosition>, notional: real) {
    match OrderCap.Check(env.cap, notional, env.account, open)
    case Allow => true
    case Block => false
    case Failed => env.cap.failsOpen
  }

  function Exposed(env: Env, open: seq<TrackedPosition>, r: Request, notional: real): Decision {
    CheckExposure(env.limits, env.account, env.beta, open, r.symbol, r.direction, notional)
  }

  // Size after the scale-down: the most whole steps within the scaled notional.
  ghost predicate Rescaled(r: Request, before: Size, factor: real, after: Size) {
    && after == before.(quantity := after.quantity, notional := Times(after.quantity, r.price))
    && exists n: int :: n >= 1 && after.quantity == Times(n as real, r.step)
         && Worth(n, r.price, r.step) <= Times(before.notional, factor) < Worth(n + 1, r.price, r.step)
  }

  // The gates let the request through at this size, decided from this size of the sizing policy.
  ghost predicate Passes(env: Env, open: seq<TrackedPosition>, r: Request, sized: Size, size: Size) {
    && Sized(r, sized) && PassesCap(env, open, sized.notional)
    && match Exposed(env, open, r, sized.notional)
       case Refuse => false
       case Admit(_) => size == sized
       case ScaleDown(factor) => Rescaled(r, sized, factor, size) && env.limits.minNotionalAfterScale <= size.notional
  }

  ghost predicate Admits(env: Env, open: seq<TrackedPosition>, r: Request, size: Size) {
    exists sized :: Passes(env, open, r, sized, size)
  }

  // The answer to a request of this size: the first gate that refuses, or the size the last one leaves.
  ghost predicate Decided(env: Env, open: seq<TrackedPosition>, r: Request, sized: Size, out: Outcome) {
    var verdict := OrderCap.Check(env.cap, sized.notional, env.account, open);
    if verdict == Failed && !env.cap.failsOpen then out == Blocked(OrderCapFailed)
    else if verdict == Block then out == Blocked(OrderCapBlocked)
    else
      match Exposed(env, open, r, sized.notional)
      case Refuse => out == Blocked(ExposureBlocked)
      case Admit(_) => out == Admitted(sized)
      case ScaleDown(factor) =>
        if Times(sized.notional, factor) < env.limits.minNotionalAfterScale then out == Blocked(ScaledTooSmall)
        else if out.Admitted? then Rescaled(r, sized, factor, out.size) && env.limits.minNotionalAfterScale <= out.size.notional
        else out == Blocked(ScaledInvalid)
             && forall after | Rescaled(r, sized, factor, after) :: after.notional < env.limits.minNotionalAfterScale
  }

  /** One preflight: a request is blocked at sizing exactly when no size is allowed; any other is answered by the gates in turn, and
      admitted exactly when they let some size through. */
  method Preflight(env: Env, open: seq<TrackedPosition>, r: Request) returns (out: Outcome)
    ensures out == Blocked(Sizing) <==> !(Sizable(r.sizing, r.price, r.step) && Reachable(r.sizing, r.price, r.step))
    ensures out != Blocked(Sizing) ==> exists sized :: Sized(r, sized) && Decided(env, open, r, sized, out)
    ensures out.Admitted? <==> exists size :: Admits(env, open, r, size)
    ensures out.Admitted? ==> Admits(env, open, r, out.size)
  {
    ghost var sized;
    out, sized := RunGates(env, open, r);
    if out != Blocked(Sizing) {
      DecidedAdmits(env, open, r, sized, out);
    } else {
      forall size | Admits(env, open, r, size)
        ensures false
      {
        var other :| Passes(env, open, r, other, size);
        SizedReachable(r, other);
      }
    }
  }

  lemma SizedReachable(r: Request, sized: Size)
    requires Sized(r, sized)
    ensures Reachable(r.sizing, r.price, r.step)
  {
    var n :| IsSteps(r.sizing, r.price, r.step, sized.quantity, n) && Best(r.sizing, r.price, r.step, n);
    SomeStepsFit(r.sizing, r.price, r.step, n);
  }

  lemma SomeStepsFit(i: Input, price: real, step: real, n: int)
    requires Sizable(i, price, step) && Fits(i, price, step, n) && Best(i, price, step, n)
    ensures Reachable(i, price, step)
  {
    NothingWorthNothing(price, step);
    if i.minNotional <= 0.0 && Target(i, price) < Worth(n, price, step) {
      assert false;
    }
  }

  lemma NothingWorthNothing(price: real, step: real)
    ensures Worth(0, price, step) == 0.0
  {
    assert Times(0.0, step) == 0.0 && Times(0.0, price) == 0.0;
  }

  lemma DecidedAdmits(env: Env, open: seq<TrackedPosition>, r: Request, sized: Size, out: Outcome)
    requires Sized(r, sized) && Decided(env, open, r, sized, out)
    ensures out.Admitted? <==> exists size :: Admits(env, open, r, size)
    ensures out.Admitted? ==> Admits(env, open, r, out.size)
  {
    if out.Admitted? {
      assert Passes(env, open, r, sized, out.size);
      assert Admits(env, open, r, out.size);
    }
    forall size | Admits(env, open, r, size)
      ensures out.Admitted?
    {
      var other :| Passes(env, open, r, other, size);
      SizedUnique(r, sized, other);
      PassesDecided(env, open, r, sized, size, out);
    }
  }

  lemma PassesDecided(env: Env, open: seq<TrackedPosition>, r: Request, sized: Size, size: Size, out: Outcome)
    requires Passes(env, open, r, sized, size) && Decided(env, open, r, sized, out)
    ensures out.Admitted?
  {
    var d := Exposed(env, open, r, sized.notional);
    if d.ScaleDown? {
      assert size.notional <= Times(sized.notional, d.scaleFactor);
    }
  }

  method RunGates(env: Env, open: seq<TrackedPosition>, r: Request) returns (out: Outcome, ghost sized: Size)
    ensures out == Blocked(Sizing) <==> !(Sizable(r.sizing, r.price, r.step) && Reachable(r.sizing, r.price, r.step))
    ensures out != Blocked(Sizing) ==> Sized(r, sized) && Decided(env, open, r, sized, out)
  {
    var size := CalculateSize(r.sizing, r.price, r.step);
    sized := size;
    if size.quantity <= 0.0 {
      return Blocked(Sizing), sized;
    }
    assert Sized(r, size);
    var verdict := CheckOrder(env.cap, size.notional, env.account, open);
    if verdict == Failed && !env.cap.failsOpen {
      return Blocked(OrderCapFailed), sized;
    }
    if verdict == Block {
      return Blocked(OrderCapBlocked), sized;
    }
    var decision := Exposure.Check(env.limits, env.account, env.beta, open, r.symbol, r.direction, size.notional);
    if decision.Refuse? {
      return Blocked(ExposureBlocked), sized;
    }
    if decision.ScaleDown? {
      var scaledNotional := Times(size.notional, decision.scaleFactor);
      if scaledNotional < env.limits.minNotionalAfterScale {
        return Blocked(ScaledTooSmall), sized;
      }
      var steps := (scaledNotional / r.price / r.step).Floor;
      FloorLattice(scaledNotional, r.price, r.step);
      var quantity := if Times(steps as real, r.step) < 0.0 then 0.0 else Times(steps as real, r.step);
      size := size.(quantity := quantity, notional := Times(quantity, r.price));
      if size.quantity <= 0.0 || size.notional < env.limits.minNotionalAfterScale {
        NoneRescaled(env, r, sized, decision.scaleFactor, steps);
        return Blocked(ScaledInvalid), sized;
      }
      StepsPositive(steps, r.step);
      assert Rescaled(r, sized, decision.scaleFactor, size);
    }
    return Admitted(size), sized;
  }

  // The whole steps below the scaled notional decide.
  lemma NoneRescaled(env: Env, r: Request, sized: Size, factor: real, steps: int)
    requires r.price > 0.0 && r.step > 0.0
    requires Worth(steps, r.price, r.step) <= Times(sized.notional, factor) < Worth(steps + 1, r.price, r.step)
    requires steps < 1 || Worth(steps, r.price, r.step) < env.limits.minNotionalAfterScale
    ensures forall after | Rescaled(r, sized, factor, after) :: after.notional < env.limits.minNotionalAfterScale
  {
    forall after | Rescaled(r, sized, factor, after)
      ensures after.notional < env.limits.minNotionalAfterScale
    {
      var n: int :| n >= 1 && after.quantity == Times(n as real, r.step)
        && Worth(n, r.price, r.step) <= Times(sized.notional, factor) < Worth(n + 1, r.price, r.step);
      if n < steps {
        Scaled((n + 1) as real, steps as real, r.price, r.step);
      } else if steps < n {
        Scaled((steps + 1) as real, n as real, r.price, r.step);
      }
    }
  }

  lemma StepsPositive(steps: int, step: real)
    requires step > 0.0 && Times(steps as real, step) > 0.0
    ensures steps >= 1
  {}

  // ----- Recording and closing -----

  function Recorded(r: Request, size: Size): TrackedPosition {
    TrackedPosition(r.symbol, r.direction, 0, 0, r.price, size.quantity, 0, 0, 0, "", "", 0.0, 0, false, false)
  }

  // What the gates look at: the account as last reported, and the tracked positions.
  datatype Desk = Desk(account: Account, open: seq<TrackedPosition>)

  // Grow: an averaging-down order, sized by the loss manager, is filled and shows in the next snapshot.
  datatype Event =
    | Open(request: Request, size: Size)
    | Close(index: nat)
    | Snapshot(account: Account)
    | Grow(index: nat, proposed: real, filled: real, grown: TrackedPosition, account: Account)

  function Without(open: seq<TrackedPosition>, k: nat): seq<TrackedPosition> {
    if k < |open| then open[..k] + open[k + 1..] else open
  }

  function After(d: Desk, e: Event): Desk {
    match e
    case Open(r, size) => d.(open := d.open + [Recorded(r, size)])
    case Close(k) => d.(open := Without(d.open, k))
    case Snapshot(account) => d.(account := account)
    case Grow(k, _, _, grown, account) => if k < |d.open| then Desk(account, d.open[k := grown]) else d
  }

  function AfterAll(d: Desk, run: seq<Event>): Desk {
    if run == [] then d else After(AfterAll(d, run[..|run| - 1]), run[|run| - 1])
  }

  // The symbol's next measurement is the admitted notional: it is not reported, or reported at just that.
  predicate Measured(a: Account, r: Request, size: Size) {
    Unreported(a, r.symbol) || PositionNotional(Listed(a), Recorded(r, size)) == size.notional
  }

  // A live report names nothing new: it repeats one there was, or a tracked position, at no more than its notional.
  ghost predicate Known(before: Account, open: seq<TrackedPosition>, p: Report) {
    || ReportNotional(p) <= 0.0
    || (exists q | q in AllReports(before) :: q.symbol == p.symbol && ReportNotional(p) <= ReportNotional(q))
    || (exists t | t in open :: t.symbol == p.symbol && ReportNotional(p) <= TrackedNotional(t))
  }

  // The next snapshot catches up with the tracker: balances as they were, no tracked position measured differently.
  ghost predicate CatchesUp(before: Account, after: Account, open: seq<TrackedPosition>) {
    && after.availableBalance == before.availableBalance && after.totalMarginBalance == before.totalMarginBalance
    && (forall t | t in open :: PositionNotional(Listed(after), t) == PositionNotional(Listed(before), t))
    && (forall p | p in AllReports(after) :: Known(before, open, p))
  }

  // The loss manager sends its order only if neither gate blocks it or asks for less (src/engine/loss_manager.cpp:349-371).
  ghost predicate MayGrow(env: Env, open: seq<TrackedPosition>, t: TrackedPosition, proposed: real) {
    && proposed > 0.0 && t.direction != NoDirection && OrderCap.Check(env.cap, proposed, env.account, open) == Allow
    && CheckExposure(env.limits, env.account, env.beta, open, t.symbol, t.direction, proposed).Admit?
  }

  // A notional of the symbol known before is at least x.
  ghost predicate Reaches(before: Account, open: seq<TrackedPosition>, symbol: string, x: real) {
    exists y :: x <= y && Seen(AllReports(before), open, symbol, y)
  }

  // Position k grows by the filled notional, in the tracker and in the account; everything else is as it was.
  ghost predicate Grown(before: Account, after: Account, open: seq<TrackedPosition>, k: nat, grown: TrackedPosition, filled: real) {
    && k < |open| && grown.symbol == open[k].symbol && grown.direction == open[k].direction && filled >= 0.0
    && after.availableBalance == before.availableBalance && after.totalMarginBalance == before.totalMarginBalance
    && (forall j | 0 <= j < |open| && j != k :: PositionNotional(Listed(after), open[j]) == PositionNotional(Listed(before), open[j]))
    && PositionNotional(Listed(after), grown) == PositionNotional(Listed(before), open[k]) + filled
    && TrackedNotional(grown) <= TrackedNotional(open[k]) + filled
    && (forall p | p in AllReports(after) ::
          Known(before, open, p) || (p.symbol == grown.symbol && Reaches(before, open, p.symbol, ReportNotional(p) - filled)))
  }

  // Every opening was admitted against the account and the positions tracked at its turn, and every averaging down let through.
  ghost predicate Gated(env: Env, d: Desk, run: seq<Event>) {
    run == [] ||
    var before, e := AfterAll(d, run[..|run| - 1]), run[|run| - 1];
    && Gated(env, d, run[..|run| - 1])
    && match e
       case Open(r, size) =>
         Admits(env.(account := before.account), before.open, r, size) && r.direction != NoDirection && Measured(before.account, r, size)
       case Close(_) => true
       case Snapshot(account) => CatchesUp(before.account, account, before.open)
       case Grow(k, proposed, filled, grown, account) =>
         && k < |before.open| && MayGrow(env.(account := before.account), before.open, before.open[k], proposed)
         && Grown(before.account, account, before.open, k, grown, filled) && filled <= proposed
  }

  // A position was opened since the last closing.
  predicate OpenedSinceClosing(run: seq<Event>) {
    run != [] && match run[|run| - 1]
                 case Open(_, _) => true
                 case Close(_) => false
                 case _ => OpenedSinceClosing(run[..|run| - 1])
  }

  // Both gates are on, and the cap's own failure refuses.
  predicate Guarded(env: Env) {
    env.cap.enabled && !env.cap.failsOpen && env.limits.enabled && env.account.availableBalance > 0.0
  }

  ghost predicate WithinCap(env: Env, open: seq<TrackedPosition>) {
    OpenNotional(env.account, open) <= Cap(env.cap, env.account)
  }

  ghost predicate WithinGross(env: Env, open: seq<TrackedPosition>) {
    Gross(env.account, env.beta, open) <= ScaledLimits(env.limits, env.account.availableBalance).maxGross
  }

  ghost predicate WithinNet(env: Env, open: seq<TrackedPosition>) {
    var l := ScaledLimits(env.limits, env.account.availableBalance);
    Abs(Net(env.account, env.beta, open) - l.target) < l.hard
  }

  // ----- One admission -----

  /** The admitted notional is positive, at most what the gates saw, and no more than the sizing maximum. */
  lemma AdmittedShare(env: Env, open: seq<TrackedPosition>, r: Request, sized: Size, size: Size)
    requires Passes(env, open, r, sized, size)
    ensures 0.0 < size.notional <= sized.notional
    ensures size.notional == TrackedNotional(Recorded(r, size))
    ensures r.sizing.maxNotional > 0.0 ==> size.notional <= r.sizing.maxNotional
    ensures !Exposed(env, open, r, sized.notional).ScaleDown? ==> r.sizing.minNotional <= size.notional
  {
    assert Times(0.0, r.price) == 0.0;
    TimesMonotone(0.0, sized.quantity, r.price);
    var s :| IsSteps(r.sizing, r.price, r.step, sized.quantity, s);
    assert sized.notional == Worth(s, r.price, r.step);
    var d := Exposed(env, open, r, sized.notional);
    if d.ScaleDown? {
      var l := ScaledLimits(env.limits, env.account.availableBalance);
      ScaleIsFraction(Net(env.account, env.beta, open), Added(env.beta(r.symbol), r.direction, sized.notional), l,
                      Gross(env.account, env.beta, open));
      var n: int :| n >= 1 && size.quantity == Times(n as real, r.step)
        && Worth(n, r.price, r.step) <= Times(sized.notional, d.scaleFactor);
      TimesCommutes(sized.notional, d.scaleFactor);
      TimesMonotone(d.scaleFactor, 1.0, sized.notional);
      assert Times(1.0, sized.notional) == sized.notional;
      assert Times(0.0, r.step) == 0.0;
      TimesMonotone(0.0, n as real, r.step);
      TimesMonotone(0.0, size.quantity, r.price);
    }
  }

  lemma TimesCommutes(a: real, b: real)
    ensures Times(a, b) == Times(b, a)
  {}

  // A smaller notional's exposure lies between none and the larger one's.
  lemma ShareBetween(beta: real, direction: Direction, share: real, whole: real)
    requires 0.0 <= share <= whole
    ensures var s, w := Added(beta, direction, share), Added(beta, direction, whole);
            0.0 <= s <= w || w <= s <= 0.0
  {
    assert Times(0.0, beta) == 0.0;
    if beta > 0.0 {
      TimesMonotone(0.0, share, beta);
      TimesMonotone(share, whole, beta);
    } else if beta < 0.0 {
      TimesMonotone(0.0, share, -beta);
      TimesMonotone(share, whole, -beta);
      assert Times(share, -beta) == -Times(share, beta) && Times(whole, -beta) == -Times(whole, beta);
    } else {
      assert Times(share, beta) == 0.0 && Times(whole, beta) == 0.0;
    }
  }

  /** Recording an admitted position leaves the total within the cap, the gross exposure within its maximum and the net
      exposure strictly inside the hard limit, whatever the portfolio was before. */
  lemma AdmissionKeepsLimits(env: Env, open: seq<TrackedPosition>, r: Request, size: Size)
    requires Guarded(env) && Admits(env, open, r, size)
    ensures WithinCap(env, open + [Recorded(r, size)])
    ensures r.direction != NoDirection && Measured(env.account, r, size) ==>
              WithinGross(env, open + [Recorded(r, size)]) && WithinNet(env, open + [Recorded(r, size)])
  {
    var sized :| Passes(env, open, r, sized, size);
    AdmittedShare(env, open, r, sized, size);
    var t := Recorded(r, size);
    RecordingRaises(env.account, open, t);
    if r.direction != NoDirection && Measured(env.account, r, size) {
      if Unreported(env.account, r.symbol) {
        UnreportedNotional(Listed(env.account), t);
      }
      var beta := env.beta(r.symbol);
      ShareBetween(beta, r.direction, size.notional, sized.notional);
      assert (open + [t])[..|open|] == open;
      assert Signed(env.account, env.beta, t) == Added(beta, r.direction, size.notional);
      ShareStaysInside(Net(env.account, env.beta, open), Added(beta, r.direction, sized.notional),
                       Added(beta, r.direction, size.notional), ScaledLimits(env.limits, env.account.availableBalance),
                       Gross(env.account, env.beta, open));
    }
  }

  // ----- Whole runs -----

  /** A snapshot that catches up raises no total and moves no exposure. */
  lemma {:induction false} SnapshotChangesNothing(before: Account, after: Account, beta: string -> real, open: seq<TrackedPosition>)
    requires CatchesUp(before, after, open)
    ensures OpenNotional(after, open) <= OpenNotional(before, open)
    ensures Net(after, beta, open) == Net(before, beta, open) && Gross(after, beta, open) == Gross(before, beta, open)
  {
    SameExposure(before, after, beta, open);
    var small, large := Book(AllReports(after), open), Book(AllReports(before), open);
    BookMeaning(AllReports(after), open);
    BookMeaning(AllReports(before), open);
    BookNonNegative(AllReports(before), open);
    forall s | s in small
      ensures s in large && small[s] <= large[s]
    {
      SeenBefore(before, after, open, s, small[s]);
    }
    TotalMonotone(small, large);
  }

  lemma SeenBefore(before: Account, after: Account, open: seq<TrackedPosition>, s: string, x: real)
    requires (forall p | p in AllReports(after) :: Known(before, open, p)) && s != ""
    requires Seen(AllReports(after), open, s, x)
    ensures exists y :: x <= y && Seen(AllReports(before), open, s, y)
  {
    if t :| t in open && t.symbol == s && TrackedNotional(t) == x {
      assert Seen(AllReports(before), open, s, x);
    } else {
      var p :| p in AllReports(after) && p.symbol == s && ReportNotional(p) == x && x > 0.0;
      assert Known(before, open, p);
      if q :| q in AllReports(before) && q.symbol == p.symbol && ReportNotional(p) <= ReportNotional(q) {
        assert Seen(AllReports(before), open, s, ReportNotional(q));
      } else {
        var t :| t in open && t.symbol == p.symbol && ReportNotional(p) <= TrackedNotional(t);
        assert Seen(AllReports(before), open, s, TrackedNotional(t));
      }
    }
  }

  lemma {:induction false} SameExposure(before: Account, after: Account, beta: string -> real, open: seq<TrackedPosition>)
    requires forall t | t in open :: PositionNotional(Listed(after), t) == PositionNotional(Listed(before), t)
    ensures Net(after, beta, open) == Net(before, beta, open) && Gross(after, beta, open) == Gross(before, beta, open)
  {
    if open != [] {
      SameExposure(before, after, beta, open[..|open| - 1]);
      assert open[|open| - 1] in open;
    }
  }

  // ----- Averaging down -----

  lemma {:induction false} GrownExposure(before: Account, after: Account, beta: string -> real, open: seq<TrackedPosition>, k: nat,
                                         grown: TrackedPosition, filled: real, n: nat)
    requires Grown(before, after, open, k, grown, filled) && grown.direction != NoDirection && n <= |open|
    ensures var more := if k < n then Added(beta(grown.symbol), grown.direction, filled) else 0.0;
            && Net(after, beta, open[k := grown][..n]) == Net(before, beta, open[..n]) + more
            && Gross(after, beta, open[k := grown][..n]) == Gross(before, beta, open[..n]) + Abs(more)
  {
    if n > 0 {
      GrownExposure(before, after, beta, open, k, grown, filled, n - 1);
      assert open[..n][..n - 1] == open[..n - 1] && open[k := grown][..n][..n - 1] == open[k := grown][..n - 1];
      SignedGrowth(before, after, beta, open, k, grown, filled, n - 1);
    }
  }

  lemma SignedGrowth(before: Account, after: Account, beta: string -> real, open: seq<TrackedPosition>, k: nat, grown: TrackedPosition,
                     filled: real, j: nat)
    requires Grown(before, after, open, k, grown, filled) && grown.direction != NoDirection && j < |open|
    ensures var more := if j == k then Added(beta(grown.symbol), grown.direction, filled) else 0.0;
            && Signed(after, beta, open[k := grown][j]) == Signed(before, beta, open[j]) + more
            && Abs(Signed(after, beta, open[k := grown][j])) == Abs(Signed(before, beta, open[j])) + Abs(more)
  {
    if j == k {
      LargerTimes(PositionNotional(Listed(before), open[k]), filled, beta(grown.symbol));
    }
  }

  lemma LargerTimes(a: real, b: real, beta: real)
    requires a >= 0.0 && b >= 0.0
    ensures Times(a + b, beta) == Times(a, beta) + Times(b, beta)
    ensures Abs(Times(a + b, beta)) == Abs(Times(a, beta)) + Abs(Times(b, beta))
  {
    assert Times(0.0, beta) == 0.0;
    if beta >= 0.0 {
      assert Times(a, beta) >= 0.0 && Times(b, beta) >= 0.0;
    } else {
      assert Times(a, beta) <= 0.0 && Times(b, beta) <= 0.0;
    }
  }

  lemma GrownTotal(before: Account, after: Account, open: seq<TrackedPosition>, k: nat, grown: TrackedPosition, filled: real)
    requires Grown(before, after, open, k, grown, filled)
    ensures OpenNotional(after, open[k := grown]) <= OpenNotional(before, open) + filled
  {
    var s, book := grown.symbol, Book(AllReports(before), open);
    var small := Book(AllReports(after), open[k := grown]);
    BookMeaning(AllReports(before), open);
    BookMeaning(AllReports(after), open[k := grown]);
    BookNonNegative(AllReports(before), open);
    assert open[k] in open && Seen(AllReports(before), open, s, TrackedNotional(open[k]));
    var large := if s == "" then book else book[s := book[s] + filled];
    forall r | r in small
      ensures r in large && small[r] <= large[r]
    {
      GrownSeen(before, after, open, k, grown, filled, r, small[r]);
    }
    TotalMonotone(small, large);
    if s != "" {
      TotalSplit(book, s);
      TotalSplit(large, s);
      assert large - {s} == book - {s};
    }
  }

  lemma GrownSeen(before: Account, after: Account, open: seq<TrackedPosition>, k: nat, grown: TrackedPosition, filled: real, r: string, x: real)
    requires Grown(before, after, open, k, grown, filled) && r != "" && Seen(AllReports(after), open[k := grown], r, x)
    ensures Reaches(before, open, r, if r == grown.symbol then x - filled else x)
  {
    if t :| t in open[k := grown] && t.symbol == r && TrackedNotional(t) == x {
      var j :| 0 <= j < |open| && open[k := grown][j] == t;
      assert open[j] in open && Seen(AllReports(before), open, open[j].symbol, TrackedNotional(open[j]));
    } else {
      var p :| p in AllReports(after) && p.symbol == r && ReportNotional(p) == x && x > 0.0;
      if Known(before, open, p) {
        KnownReaches(before, open, p);
      }
    }
  }

  lemma KnownReaches(before: Account, open: seq<TrackedPosition>, p: Report)
    requires Known(before, open, p) && ReportNotional(p) > 0.0
    ensures Reaches(before, open, p.symbol, ReportNotional(p))
  {
    if q :| q in AllReports(before) && q.symbol == p.symbol && ReportNotional(p) <= ReportNotional(q) {
      assert Seen(AllReports(before), open, p.symbol, ReportNotional(q));
    } else {
      var t :| t in open && t.symbol == p.symbol && ReportNotional(p) <= TrackedNotional(t);
      assert Seen(AllReports(before), open, p.symbol, TrackedNotional(t));
    }
  }

  /** An averaging-down order let through by both gates keeps cap and gross however much of it is filled, and brings net inside the hard
      limit when it is filled whole, or keeps it there when it was. */
  lemma GrowthKeepsLimits(env: Env, after: Account, open: seq<TrackedPosition>, k: nat, proposed: real, filled: real, grown: TrackedPosition)
    requires Guarded(env) && k < |open| && MayGrow(env, open, open[k], proposed)
    requires Grown(env.account, after, open, k, grown, filled) && filled <= proposed
    ensures var env' := env.(account := after);
            && WithinCap(env', open[k := grown]) && WithinGross(env', open[k := grown])
            && (filled == proposed || WithinNet(env, open) ==> WithinNet(env', open[k := grown]))
  {
    GrownTotal(env.account, after, open, k, grown, filled);
    GrownExposure(env.account, after, env.beta, open, k, grown, filled, |open|);
    assert open[..|open|] == open && open[k := grown][..|open|] == open[k := grown];
    ShareBetween(env.beta(grown.symbol), grown.direction, filled, proposed);
    var l := ScaledLimits(env.limits, env.account.availableBalance);
    InsideBetween(Net(env.account, env.beta, open), Added(env.beta(grown.symbol), grown.direction, proposed),
                  Added(env.beta(grown.symbol), grown.direction, filled), l, Gross(env.account, env.beta, open));
  }

  // A part of an admitted trade ends no further out than where it starts and where it would lead.
  lemma InsideBetween(net: real, added: real, share: real, l: Limits, gross: real)
    requires Decide(net, added, l, gross).Admit? && (0.0 <= share <= added || added <= share <= 0.0)
    ensures gross + Abs(share) <= l.maxGross
    ensures share == added || Abs(net - l.target) < l.hard ==> Abs(net + share - l.target) < l.hard
  {}

  // ----- The run -----

  function At(env: Env, d: Desk): Env { env.(account := d.account) }

  /** Over any run of admissions, averaging down, closings and snapshots that catch up, the cap and the gross maximum hold from the first
      order on (or from the start, if they held there), and the net deviation is inside the hard limit from every admission to the
      next closing. */
  lemma {:induction false} RunKeepsLimits(env: Env, d: Desk, run: seq<Event>)
    requires Guarded(At(env, d)) && Gated(env, d, run)
    ensures var d' := AfterAll(d, run);
            && Guarded(At(env, d'))
            && ((WithinCap(At(env, d), d.open) && WithinGross(At(env, d), d.open)) || (exists e | e in run :: e.Open? || e.Grow?) ==>
                  WithinCap(At(env, d'), d'.open) && WithinGross(At(env, d'), d'.open))
            && (OpenedSinceClosing(run) ==> WithinNet(At(env, d'), d'.open))
  {
    if run != [] {
      var front, e := run[..|run| - 1], run[|run| - 1];
      var before := AfterAll(d, front);
      RunKeepsLimits(env, d, front);
      assert run == front + [e];
      match e
      case Open(r, size) => AdmissionKeepsLimits(At(env, before), before.open, r, size);
      case Close(k) =>
        if k < |before.open| {
          FewerTotalLess(before.account, Without(before.open, k), before.open);
          ClosingLowersGross(before.account, env.beta, before.open, k);
        }
      case Snapshot(account) => SnapshotChangesNothing(before.account, account, env.beta, before.open);
      case Grow(k, proposed, filled, grown, account) =>
        GrowthKeepsLimits(At(env, before), account, before.open, k, proposed, filled, grown);
    }
  }

  // ----- Where the gates do not reach -----

  /** The gross forecast is met exactly when the account reports nothing else for the symbol: a live report replaces the
      recorded size in the next measurement. */
  lemma ForecastExact(env: Env, open: seq<TrackedPosition>, r: Request, size: Size)
    requires size.notional == TrackedNotional(Recorded(r, size)) && r.direction != NoDirection
    ensures Gross(env.account, env.beta, open + [Recorded(r, size)])
              == Gross(env.account, env.beta, open) + Abs(Times(size.notional, env.beta(r.symbol)))
            <==> env.beta(r.symbol) == 0.0 || PositionNotional(Listed(env.account), Recorded(r, size)) == size.notional
  {
    var t, beta := Recorded(r, size), env.beta(r.symbol);
    assert (open + [t])[..|open|] == open;
    AbsInjective(PositionNotional(Listed(env.account), t), size.notional, beta);
  }

  /** So is the net forecast: each of the two is met exactly when the other is. */
  lemma NetForecastExact(env: Env, open: seq<TrackedPosition>, r: Request, size: Size)
    requires size.notional == TrackedNotional(Recorded(r, size)) && r.direction != NoDirection
    ensures Net(env.account, env.beta, open + [Recorded(r, size)])
              == Net(env.account, env.beta, open) + Added(env.beta(r.symbol), r.direction, size.notional)
            <==> env.beta(r.symbol) == 0.0 || PositionNotional(Listed(env.account), Recorded(r, size)) == size.notional
  {
    var t, beta := Recorded(r, size), env.beta(r.symbol);
    assert (open + [t])[..|open|] == open;
    TimesInjective(PositionNotional(Listed(env.account), t), size.notional, beta);
  }

  lemma TimesInjective(a: real, b: real, beta: real)
    ensures Times(a, beta) == Times(b, beta) <==> beta == 0.0 || a == b
  {
    assert Times(a, beta) - Times(b, beta) == Times(a - b, beta);
    if Times(a - b, beta) == 0.0 && beta != 0.0 {
      assert (a - b) * beta / beta == a - b;
    }
  }

  lemma AbsInjective(a: real, b: real, beta: real)
    requires a >= 0.0 && b >= 0.0
    ensures Abs(Times(a, beta)) == Abs(Times(b, beta)) <==> beta == 0.0 || a == b
  {
    assert Times(0.0, beta) == 0.0;
    if beta > 0.0 {
      TimesMonotone(0.0, a, beta);
      TimesMonotone(0.0, b, beta);
      TimesMonotone(a, b, beta);
      TimesMonotone(b, a, beta);
    } else if beta < 0.0 {
      assert Times(a, -beta) == -Times(a, beta) && Times(b, -beta) == -Times(b, beta) && Times(0.0, -beta) == 0.0;
      TimesMonotone(0.0, a, -beta);
      TimesMonotone(0.0, b, -beta);
      TimesMonotone(a, b, -beta);
      TimesMonotone(b, a, -beta);
    } else {
      assert Times(a, beta) == 0.0 && Times(b, beta) == 0.0;
    }
  }

  /** Closing takes exactly the position's exposure out of the net exposure, so the net limit survives a closing exactly when what is
      left of the deviation is inside it. */
  lemma {:induction false} NetAfterClosing(env: Env, open: seq<TrackedPosition>, k: nat)
    requires k < |open|
    ensures Net(env.account, env.beta, Without(open, k)) == Net(env.account, env.beta, open) - Signed(env.account, env.beta, open[k])
    ensures var l := ScaledLimits(env.limits, env.account.availableBalance);
            WithinNet(env, Without(open, k)) <==>
              Abs(Net(env.account, env.beta, open) - l.target - Signed(env.account, env.beta, open[k])) < l.hard
  {
    var front, last := open[..|open| - 1], open[|open| - 1];
    var rest := Without(open, k);
    if k == |front| {
      assert rest == front;
    } else {
      NetAfterClosing(env, front, k);
      assert rest[..|rest| - 1] == Without(front, k) && rest[|rest| - 1] == last;
    }
  }

  /** So a closing keeps the net limit whenever the closed exposure points the same way as the deviation and is at most twice as
      large: only closing a hedge, or more than that, can break it. */
  lemma HedgesMatter(env: Env, open: seq<TrackedPosition>, k: nat)
    requires k < |open| && WithinNet(env, open)
    ensures var l := ScaledLimits(env.limits, env.account.availableBalance);
            var deviation, exposure := Net(env.account, env.beta, open) - l.target, Signed(env.account, env.beta, open[k]);
            (0.0 <= exposure <= 2.0 * deviation || 2.0 * deviation <= exposure <= 0.0) ==> WithinNet(env, Without(open, k))
  {
    NetAfterClosing(env, open, k);
  }

  /** Closing a hedge may leave the net limit: a short 80 offsets a long 120, and closing it leaves 120 against a limit
      of 100, while cap and gross still hold. */
  lemma ClosingBreaksNet(env: Env, long: TrackedPosition, short: TrackedPosition)
    requires env.account == Account(100.0, 1000.0, [], None) && env.cap == Config(true, 1.0, false)
    requires env.limits == Limits(true, 0.0, 0.5, 1.0, 3.0, 0.0)
    requires env.beta("L") == 1.0 && env.beta("S") == 1.0
    requires long.symbol == "L" && long.direction == Long && long.quantity == 120.0 && long.entryPrice == 1.0
    requires short.symbol == "S" && short.direction == Short && short.quantity == 80.0 && short.entryPrice == 1.0
    ensures WithinNet(env, [long, short]) && !WithinNet(env, Without([long, short], 1))
    ensures WithinGross(env, Without([long, short], 1))
  {
    assert [long, short][..1] == [long] && [long][..0] == [];
    assert [long, short][2..] == [];
    var l := ScaledLimits(env.limits, env.account.availableBalance);
    assert l.target == 0.0 && l.hard == 100.0 && l.maxGross == 300.0;
    assert Without([long, short], 1) == [long];
    assert TrackedNotional(long) == 120.0 && TrackedNotional(short) == 80.0;
    assert Signed(env.account, env.beta, long) == 120.0 && Signed(env.account, env.beta, short) == -80.0;
    assert Net(env.account, env.beta, [long]) == 120.0;
    assert Net(env.account, env.beta, [long, short]) == 40.0;
    assert Gross(env.account, env.beta, [long]) == 120.0;
  }

  // ----- Scaling down -----

  /** A request scaled down for exposure is halved exactly when it would carry the deviation halfway from the soft to the hard limit. */
  lemma HalfwayHalves(env: Env, open: seq<TrackedPosition>, r: Request, notional: real)
    requires Exposed(env, open, r, notional).ScaleDown?
    ensures var l := ScaledLimits(env.limits, env.account.availableBalance);
            var reached := Net(env.account, env.beta, open) + Added(env.beta(r.symbol), r.direction, notional);
            Exposed(env, open, r, notional).scaleFactor == 0.5 <==> 2.0 * Abs(reached - l.target) == l.soft + l.hard
  {
    var l := ScaledLimits(env.limits, env.account.availableBalance);
    var reached := Net(env.account, env.beta, open) + Added(env.beta(r.symbol), r.direction, notional);
    QuotientIsFraction(l.hard - Abs(reached - l.target), l.hard - l.soft);
    HalfQuotient(l.hard - Abs(reached - l.target), l.hard - l.soft);
  }

  lemma HalfQuotient(part: real, whole: real)
    requires whole > 0.0
    ensures part / whole == 0.5 <==> 2.0 * part == whole
  {
    assert part / whole * whole == part;
  }

  const EXAMPLE_ENV := Env(Account(100.0, 1000.0, [], None), Config(true, 1.0, false), Limits(true, 0.0, 0.5, 1.0, 3.0, 5.0), (s: string) => 1.0)

  const EXAMPLE_REQUEST := Request("A", Long, Input(100.0, 1.0, 0.75, 1.0, 5.0, 0.0), 1.0, 1.0)

  /** A balance of 100 asks for 75; that is halfway between the soft limit of 50 and the hard limit of 100, so half of it, in
      whole steps, is admitted: 37. */
  lemma HalfwayIsHalved()
    ensures Guarded(EXAMPLE_ENV)
    ensures Passes(EXAMPLE_ENV, [], EXAMPLE_REQUEST, Size(75.0, 75.0, false, false), Size(37.0, 37.0, false, false))
  {
    var env, r, sized := EXAMPLE_ENV, EXAMPLE_REQUEST, Size(75.0, 75.0, false, false);
    assert RiskNotional(r.sizing, 1.0) == 75.0;
    assert Worth(75, 1.0, 1.0) == 75.0;
    forall m | m > 75
      ensures Target(r.sizing, 1.0) < Worth(m, 1.0, 1.0)
    {
      ScaledStrictly(75.0, m as real, 1.0, 1.0);
    }
    assert Best(r.sizing, 1.0, 1.0, 75) && IsSteps(r.sizing, 1.0, 1.0, 75.0, 75);
    assert Sized(r, sized);
    assert AllReports(env.account) == [] && OpenNotional(env.account, []) == 0.0;
    assert PassesCap(env, [], 75.0);
    assert Exposed(env, [], r, 75.0) == ScaleDown(0.5);
    assert Worth(37, 1.0, 1.0) == 37.0 && Worth(38, 1.0, 1.0) == 38.0 && Times(75.0, 0.5) == 37.5;
    assert Rescaled(r, sized, 0.5, Size(37.0, 37.0, false, false)) by {
      assert 37.0 == Times(37 as real, 1.0);
    }
  }
}
