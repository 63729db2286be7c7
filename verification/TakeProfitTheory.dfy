/** What reconcile cycles achieve: no double cover, distinct ids, and steady progress until nothing is left. */
module TakeProfitTheory {
  import opened Common
  import opened TrackerSpec
  import opened TakeProfitReconciler
  import Ids = ClientOrderIds
  import Ordering

  // ----- One cycle -----

  /** A cycle spends at most its budget, and no placement goes to a position that a live closing order, owned or not,
      already covers. */
  lemma CycleIsSafe(env: Env, positions: seq<Position>, orders: seq<Order>, m: Positions, cancels: seq<Send>, places: seq<Send>, i: nat)
    requires IsCycle(env, positions, orders, m, cancels, places)
    ensures |cancels| + |places| <= Budget(env)
    ensures i < |places| ==> places[i].index < |positions| && !Covered(orders, positions[places[i].index])
                             && places[i].symbol == positions[places[i].index].symbol
                             && places[i].side == CloseSide(positions[places[i].index]) && places[i].quantity > 0.0
                             && places[i].quantity <= Abs(positions[places[i].index].positionAmt)
  {
    if i < |places| {
      assert PlacesOwn(env, positions, places[i]);
      assert NeedList(env, orders, m, positions)[places[i].index];
    }
  }

  /** The ids of one cycle differ, up to 1296 positions, however the clock moves between them. */
  lemma CycleIdsDiffer(env: Env, positions: seq<Position>, orders: seq<Order>, m: Positions, cancels: seq<Send>, places: seq<Send>,
                       i: nat, j: nat)
    requires IsCycle(env, positions, orders, m, cancels, places) && |positions| <= 1296
    requires i < j < |places|
    ensures places[i].Place? && places[j].Place? && places[i].clientOrderId != places[j].clientOrderId
  {
    assert PlacesOwn(env, positions, places[i]) && PlacesOwn(env, positions, places[j]);
    var p, q := places[i], places[j];
    NumbersDiffer(p.symbol, env.hash(p.symbol), env.clock.idMs(p.sequence), p.sequence,
                  q.symbol, env.hash(q.symbol), env.clock.idMs(q.sequence), q.sequence);
  }

  lemma NumbersDiffer(symbol1: string, hash1: nat, now1: nat, seq1: nat, symbol2: string, hash2: nat, now2: nat, seq2: nat)
    requires seq1 < seq2 < 1296
    ensures Ids.Id(symbol1, hash1, now1, seq1) != Ids.Id(symbol2, hash2, now2, seq2)
  {
    assert seq1 % 1296 == seq1 < seq2 == seq2 % 1296;
    if Ids.Id(symbol1, hash1, now1, seq1) == Ids.Id(symbol2, hash2, now2, seq2) {
      Ids.IdsDiffer(symbol1, hash1, now1, seq1, symbol2, hash2, now2, seq2);
    }
  }

  // ----- An accepting exchange -----

  datatype State = State(book: set<Order>, tracker: Positions)

  function Created(send: Send, orderId: int): Order
    requires send.Place?
  {
    Order(orderId, send.symbol, send.clientOrderId, true, true, true, send.side, Some(send.quantity), Some(0.0), 0, 0)
  }

  ghost function Cancelled(orders: seq<Order>, cancels: seq<Send>): set<Order>
    requires forall i | 0 <= i < |cancels| :: cancels[i].index < |orders|
  {
    set i | 0 <= i < |cancels| :: orders[cancels[i].index]
  }

  ghost function NewOrders(places: seq<Send>, ids: nat -> int): set<Order>
    requires forall i | 0 <= i < |places| :: places[i].Place?
  {
    set i | 0 <= i < |places| :: Created(places[i], ids(i))
  }

  // One cycle in which the exchange carries out every request; other actors neither trade nor open anything.
  ghost predicate Step(env: Env, positions: seq<Position>, s: State, orders: seq<Order>, cancels: seq<Send>, places: seq<Send>,
                       ids: nat -> int, s': State)
  {
    && Ordering.Lists(orders, s.book)
    && IsCycle(env, positions, orders, s.tracker, cancels, places)
    && LeavesHeld(s.tracker, s'.tracker)
    && (forall i | 0 <= i < |places| :: places[i].Place?)
    && s'.book == s.book - Cancelled(orders, cancels) + NewOrders(places, ids)
  }

  ghost predicate Steps(env: Env, positions: seq<Position>, s: State, s': State, sent: nat) {
    exists orders, cancels, places, ids: nat -> int ::
      Step(env, positions, s, orders, cancels, places, ids, s') && sent == |cancels| + |places|
  }

  // ----- What is left to do -----

  ghost function StaleOrders(env: Env, positions: seq<Position>, s: State): set<Order> {
    set o | o in s.book && Cancellable(env, positions, o)
  }

  ghost predicate CoveredIn(book: set<Order>, p: Position) { exists o | o in book :: Closing(o, p) }

  ghost predicate NeedsIn(env: Env, s: State, p: Position) {
    Live(p) && !Held(s.tracker, p.symbol) && !CoveredIn(s.book, p) && Quotable(env, p)
  }

  ghost function Uncovered(env: Env, positions: seq<Position>, s: State): set<int> {
    set k | k in Ordering.Below(|positions|) && NeedsIn(env, s, positions[k])
  }

  ghost function Left(env: Env, positions: seq<Position>, s: State): nat {
    |StaleOrders(env, positions, s)| + |Uncovered(env, positions, s)|
  }

  // ----- Counting -----

  ghost function Indices(sends: seq<Send>): set<int> { set i | 0 <= i < |sends| :: sends[i].index as int }

  lemma {:induction false} IndicesSize(sends: seq<Send>, n: nat)
    requires InOrder(sends, n)
    ensures |Indices(sends)| == |sends|
  {
    if sends != [] {
      var front, last := sends[..|sends| - 1], sends[|sends| - 1];
      IndicesSize(front, n);
      assert Indices(sends) == Indices(front) + {last.index as int};
      assert last.index as int !in Indices(front);
    }
  }

  lemma {:induction false} CancelledSize(orders: seq<Order>, book: set<Order>, cancels: seq<Send>)
    requires Ordering.Lists(orders, book) && InOrder(cancels, |orders|)
    ensures |Cancelled(orders, cancels)| == |cancels|
    decreases |cancels|
  {
    if cancels == [] {
    } else {
      var front, last := cancels[..|cancels| - 1], cancels[|cancels| - 1];
      CancelledSize(orders, book, front);
      assert Cancelled(orders, cancels) == Cancelled(orders, front) + {orders[last.index]};
      assert orders[last.index] !in Cancelled(orders, front);
    }
  }

  lemma SubsetRemains<T>(all: set<T>, some: set<T>)
    requires some <= all
    ensures |all - some| == |all| - |some|
  {
    assert all == some + (all - some);
  }

  // ----- Progress -----

  lemma NeedsAgree(env: Env, s: State, orders: seq<Order>, p: Position)
    requires Ordering.Lists(orders, s.book)
    ensures Needs(env, orders, s.tracker, p) <==> NeedsIn(env, s, p)
  {}

  // The cancels take stale orders away, all of them if the budget is not used up.
  lemma CancelledAreStale(env: Env, positions: seq<Position>, s: State, orders: seq<Order>, cancels: seq<Send>)
    requires Ordering.Lists(orders, s.book) && Cancels(env, positions, orders, cancels, |orders|)
    ensures Cancelled(orders, cancels) <= StaleOrders(env, positions, s)
    ensures (forall k | 0 <= k < |orders| && Cancellable(env, positions, orders[k]) :: Sends(cancels, k)) ==>
              Cancelled(orders, cancels) == StaleOrders(env, positions, s)
  {
    forall o | o in Cancelled(orders, cancels)
      ensures o in StaleOrders(env, positions, s)
    {
      var i :| 0 <= i < |cancels| && orders[cancels[i].index] == o;
    }
    if forall k | 0 <= k < |orders| && Cancellable(env, positions, orders[k]) :: Sends(cancels, k) {
      forall o | o in StaleOrders(env, positions, s)
        ensures o in Cancelled(orders, cancels)
      {
        var k :| 0 <= k < |orders| && orders[k] == o;
        assert Sends(cancels, k);
        var i :| 0 <= i < |cancels| && cancels[i].index == k;
      }
    }
  }

  // The order created for a placement closes the placement's position.
  ghost predicate Serves(positions: seq<Position>, send: Send, o: Order) {
    send.index < |positions| && Live(positions[send.index]) && Closing(o, positions[send.index])
  }

  ghost predicate AllServe(positions: seq<Position>, places: seq<Send>, ids: nat -> int) {
    && (forall i | 0 <= i < |places| :: places[i].Place?)
    && (forall i | 0 <= i < |places| :: Serves(positions, places[i], Created(places[i], ids(i))))
  }

  lemma PlacementsServe(env: Env, positions: seq<Position>, s: State, orders: seq<Order>, cancels: seq<Send>, places: seq<Send>,
                        ids: nat -> int, s': State)
    requires Step(env, positions, s, orders, cancels, places, ids, s')
    ensures AllServe(positions, places, ids)
    ensures Indices(places) <= Uncovered(env, positions, s)
    ensures |cancels| + |places| < Budget(env) ==> Indices(places) == Uncovered(env, positions, s)
  {
    var needed := NeedList(env, orders, s.tracker, positions);
    forall i | 0 <= i < |places|
      ensures Serves(positions, places[i], Created(places[i], ids(i))) && places[i].index as int in Uncovered(env, positions, s)
    {
      assert PlacesOwn(env, positions, places[i]) && needed[places[i].index];
      NeedsAgree(env, s, orders, positions[places[i].index]);
    }
    if |cancels| + |places| < Budget(env) {
      forall k | k in Uncovered(env, positions, s)
        ensures k in Indices(places)
      {
        NeedsAgree(env, s, orders, positions[k]);
        assert needed[k] && Sends(places, k);
      }
    }
  }

  lemma StaleAfter(env: Env, positions: seq<Position>, s: State, orders: seq<Order>, cancels: seq<Send>, places: seq<Send>,
                   ids: nat -> int, s': State)
    requires Step(env, positions, s, orders, cancels, places, ids, s')
    ensures |StaleOrders(env, positions, s')| == |StaleOrders(env, positions, s)| - |cancels|
    ensures |cancels| < Budget(env) ==> |cancels| == |StaleOrders(env, positions, s)|
  {
    var stale, gone, created := StaleOrders(env, positions, s), Cancelled(orders, cancels), NewOrders(places, ids);
    CancelledAreStale(env, positions, s, orders, cancels);
    CancelledSize(orders, s.book, cancels);
    PlacementsServe(env, positions, s, orders, cancels, places, ids, s');
    NewOrdersLive(positions, places, ids);
    assert StaleOrders(env, positions, s') == stale - gone;
    SubsetRemains(stale, gone);
  }

  lemma NewOrdersLive(positions: seq<Position>, places: seq<Send>, ids: nat -> int)
    requires AllServe(positions, places, ids)
    ensures forall o | o in NewOrders(places, ids) :: LiveSymbol(positions, o.symbol)
  {
    forall o | o in NewOrders(places, ids)
      ensures LiveSymbol(positions, o.symbol)
    {
      var i :| 0 <= i < |places| && Created(places[i], ids(i)) == o;
      assert Serves(positions, places[i], o);
    }
  }

  // A live position is covered afterwards exactly if it was before or received a placement.
  lemma CoverAfter(positions: seq<Position>, book: set<Order>, gone: set<Order>, places: seq<Send>, ids: nat -> int, k: nat)
    requires DistinctSymbols(positions) && k < |positions| && Live(positions[k])
    requires AllServe(positions, places, ids)
    requires forall o | o in gone :: !LiveSymbol(positions, o.symbol)
    ensures CoveredIn(book - gone + NewOrders(places, ids), positions[k]) <==> CoveredIn(book, positions[k]) || k as int in Indices(places)
  {
    var p, after := positions[k], book - gone + NewOrders(places, ids);
    if CoveredIn(book, p) {
      var o :| o in book && Closing(o, p);
      assert LiveSymbol(positions, o.symbol);
      assert o in after;
    }
    if k as int in Indices(places) {
      var i :| 0 <= i < |places| && places[i].index as int == k;
      var o := Created(places[i], ids(i));
      assert Serves(positions, places[i], o) && o in after;
    }
    if CoveredIn(after, p) && !CoveredIn(book, p) {
      var o :| o in after && Closing(o, p);
      var i :| 0 <= i < |places| && Created(places[i], ids(i)) == o;
      assert Serves(positions, places[i], o);
      assert positions[places[i].index].symbol == p.symbol;
    }
  }

  lemma NeedAfter(env: Env, positions: seq<Position>, s: State, gone: set<Order>, places: seq<Send>, ids: nat -> int, s': State, k: nat)
    requires DistinctSymbols(positions) && k < |positions| && AllServe(positions, places, ids)
    requires forall o | o in gone :: !LiveSymbol(positions, o.symbol)
    requires LeavesHeld(s.tracker, s'.tracker) && s'.book == s.book - gone + NewOrders(places, ids)
    ensures NeedsIn(env, s', positions[k]) <==> NeedsIn(env, s, positions[k]) && k as int !in Indices(places)
  {
    assert Held(s.tracker, positions[k].symbol) <==> Held(s'.tracker, positions[k].symbol);
    if Live(positions[k]) {
      CoverAfter(positions, s.book, gone, places, ids, k);
    }
  }

  lemma UncoveredAfter(env: Env, positions: seq<Position>, s: State, orders: seq<Order>, cancels: seq<Send>, places: seq<Send>,
                       ids: nat -> int, s': State)
    requires Step(env, positions, s, orders, cancels, places, ids, s') && DistinctSymbols(positions)
    ensures |Uncovered(env, positions, s')| == |Uncovered(env, positions, s)| - |places|
    ensures |cancels| + |places| < Budget(env) ==> |places| == |Uncovered(env, positions, s)|
  {
    var needy, served, gone := Uncovered(env, positions, s), Indices(places), Cancelled(orders, cancels);
    PlacementsServe(env, positions, s, orders, cancels, places, ids, s');
    CancelledAreStale(env, positions, s, orders, cancels);
    ServedAreCovered(env, positions, s, gone, places, ids, s');
    IndicesSize(places, |positions|);
    SubsetRemains(needy, served);
  }

  lemma ServedAreCovered(env: Env, positions: seq<Position>, s: State, gone: set<Order>, places: seq<Send>, ids: nat -> int, s': State)
    requires DistinctSymbols(positions) && AllServe(positions, places, ids)
    requires forall o | o in gone :: !LiveSymbol(positions, o.symbol)
    requires LeavesHeld(s.tracker, s'.tracker) && s'.book == s.book - gone + NewOrders(places, ids)
    ensures Uncovered(env, positions, s') == Uncovered(env, positions, s) - Indices(places)
  {
    forall k | k in Ordering.Below(|positions|)
      ensures NeedsIn(env, s', positions[k]) <==> NeedsIn(env, s, positions[k]) && k !in Indices(places)
    {
      NeedAfter(env, positions, s, gone, places, ids, s', k);
    }
  }

  /** With one position per symbol and an exchange that accepts, a cycle sends as much as there is to do and the budget
      allows, and exactly that much less is left afterwards. */
  lemma CycleProgress(env: Env, positions: seq<Position>, s: State, s': State, sent: nat)
    requires Steps(env, positions, s, s', sent) && DistinctSymbols(positions)
    ensures sent == Min(Budget(env), Left(env, positions, s))
    ensures Left(env, positions, s') == Left(env, positions, s) - sent
  {
    var orders, cancels, places, ids: nat -> int :|
      Step(env, positions, s, orders, cancels, places, ids, s') && sent == |cancels| + |places|;
    StaleAfter(env, positions, s, orders, cancels, places, ids, s');
    UncoveredAfter(env, positions, s, orders, cancels, places, ids, s');
    CycleIsSafe(env, positions, orders, s.tracker, cancels, places, 0);
  }

  // A run of cycles, each with its own clock; without a grace period the clock does not matter.
  ghost predicate Run(env: Env, clocks: seq<Clock>, positions: seq<Position>, states: seq<State>, sent: seq<nat>) {
    && |states| == |clocks| + 1 && |sent| == |clocks|
    && forall i | 0 <= i < |clocks| :: Steps(env.(clock := clocks[i]), positions, states[i], states[i + 1], sent[i])
  }

  lemma ClockIrrelevant(env: Env, clock: Clock, positions: seq<Position>, s: State)
    requires env.config.graceSeconds <= 0
    ensures Left(env.(clock := clock), positions, s) == Left(env, positions, s)
  {
    var other := env.(clock := clock);
    assert forall o :: Cancellable(other, positions, o) <==> Cancellable(env, positions, o);
    assert StaleOrders(other, positions, s) == StaleOrders(env, positions, s);
    assert forall p :: NeedsIn(other, s, p) <==> NeedsIn(env, s, p);
    assert Uncovered(other, positions, s) == Uncovered(env, positions, s);
  }

  // What n cycles leave of a start.
  function Remainder(start: nat, budget: nat, n: nat): nat {
    if n == 0 then start
    else
      var before := Remainder(start, budget, n - 1);
      before - Min(budget, before)
  }

  lemma {:induction false} RemainderIs(start: nat, budget: nat, n: nat)
    ensures Remainder(start, budget, n) == if n * budget <= start then start - n * budget else 0
  {
    if n > 0 {
      RemainderIs(start, budget, n - 1);
      assert n * budget == (n - 1) * budget + budget;
    }
  }

  lemma {:induction false} Falls(lefts: seq<nat>, budget: nat, n: nat)
    requires n < |lefts| && forall i | 0 <= i < n :: lefts[i + 1] == lefts[i] - Min(budget, lefts[i])
    ensures lefts[n] == Remainder(lefts[0], budget, n)
  {
    if n > 0 {
      Falls(lefts, budget, n - 1);
      assert lefts[n - 1 + 1] == lefts[n - 1] - Min(budget, lefts[n - 1]);
    }
  }

  // The work left in each state of a run.
  ghost function Lefts(env: Env, positions: seq<Position>, states: seq<State>): (lefts: seq<nat>)
    ensures |lefts| == |states| && forall i | 0 <= i < |states| :: lefts[i] == Left(env, positions, states[i])
  {
    seq(|states|, i requires 0 <= i < |states| => Left(env, positions, states[i]))
  }

  /** After n cycles the work left has fallen by n budgets or to zero. */
  lemma CyclesConverge(env: Env, clocks: seq<Clock>, positions: seq<Position>, states: seq<State>, sent: seq<nat>, n: nat)
    requires Run(env, clocks, positions, states, sent) && DistinctSymbols(positions) && env.config.graceSeconds <= 0
    requires n <= |clocks|
    ensures var start, end := Left(env, positions, states[0]), Left(env, positions, states[n]);
            end == if n * Budget(env) <= start then start - n * Budget(env) else 0
  {
    var lefts := Lefts(env, positions, states);
    forall i | 0 <= i < n
      ensures lefts[i + 1] == lefts[i] - Min(Budget(env), lefts[i])
    {
      CyclesFallSilent(env, clocks, positions, states, sent, i);
    }
    Falls(lefts, Budget(env), n);
    RemainderIs(lefts[0], Budget(env), n);
  }

  /** A cycle sends what is left, up to its budget; once nothing is left, cycles send nothing. */
  lemma CyclesFallSilent(env: Env, clocks: seq<Clock>, positions: seq<Position>, states: seq<State>, sent: seq<nat>, i: nat)
    requires Run(env, clocks, positions, states, sent) && DistinctSymbols(positions) && env.config.graceSeconds <= 0
    requires i < |clocks|
    ensures sent[i] == Min(Budget(env), Left(env, positions, states[i]))
    ensures Left(env, positions, states[i + 1]) == Left(env, positions, states[i]) - sent[i]
  {
    CycleProgress(env.(clock := clocks[i]), positions, states[i], states[i + 1], sent[i]);
    ClockIrrelevant(env, clocks[i], positions, states[i]);
    ClockIrrelevant(env, clocks[i], positions, states[i + 1]);
  }
}
