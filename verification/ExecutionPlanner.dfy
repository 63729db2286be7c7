/** Sliced market execution from a plan in the database (src/engine/qlib_execution_planner.cpp). */
module ExecutionPlanner {
  import opened Common

  // quantity: the parsed decimal, None if it does not parse.
  datatype Slice = Slice(sliceId: string, side: Side, quantity: Option<real>)

  datatype Draft = Draft(side: Side, quantity: real)

  datatype Status = Pending | Submitted | Filled | Failed | Revoked

  datatype Row = Row(planId: string, status: Status)

  datatype Reply = SendError | NotAccepted | Accepted(executed: Option<real>)

  datatype Sent = SliceOrder(sliceId: string, side: Side, quantity: real) | NativeOrder(side: Side, quantity: real)

  // Why the slices stopped.
  datatype Cause = SideMismatch | InvalidQuantity | ExceedsParent | Contradicted | SubmitFailed | PlacementNotAccepted

  datatype Outcome =
    | Done(executed: Option<real>)
    | Stopped(slice: nat, cause: Cause)
    | Native
    | NotConfigured
    | NotReady

  const QTY_EPSILON := 0.000000000001

  // The ready plan's id and its pending slices in index order.
  datatype Plan = Plan(planId: string, slices: seq<Slice>)

  // contradicts(k): the latest decision is against the draft just before slice k; reply(k): the exchange's answer to it;
  // works(n): the status update number n of the run takes effect. A failing one is only logged.
  datatype World = World(contradicts: nat -> bool, reply: nat -> Reply, works: nat -> bool)

  // ----- The slices table -----

  class Db {
    var rows: map<string, Row>

    constructor (rows: map<string, Row>)
      ensures this.rows == rows
    {
      this.rows := rows;
    }

    method MarkSlice(sliceId: string, status: Status, works: bool)
      modifies this`rows
      ensures rows == Marked(old(rows), sliceId, status, works)
    {
      if works && sliceId in rows {
        rows := rows[sliceId := rows[sliceId].(status := status)];
      }
    }

    method RevokePending(planId: string, works: bool)
      modifies this`rows
      ensures rows == Revoke(old(rows), planId, works)
    {
      if works {
        rows := map s | s in rows ::
          if rows[s].planId == planId && rows[s].status == Pending then rows[s].(status := Revoked) else rows[s];
      }
    }
  }

  function Marked(rows: map<string, Row>, sliceId: string, status: Status, works: bool): map<string, Row> {
    if works && sliceId in rows then rows[sliceId := rows[sliceId].(status := status)] else rows
  }

  function Revoke(rows: map<string, Row>, planId: string, works: bool): map<string, Row> {
    map s | s in rows ::
      if works && rows[s].planId == planId && rows[s].status == Pending then rows[s].(status := Revoked) else rows[s]
  }

  // The plan lists exactly the pending rows of its id, each once.
  ghost predicate IsReady(plan: Plan, rows: map<string, Row>) {
    && plan.slices != []
    && (forall i, j | 0 <= i < j < |plan.slices| :: plan.slices[i].sliceId != plan.slices[j].sliceId)
    && (forall i | 0 <= i < |plan.slices| ::
          plan.slices[i].sliceId in rows && rows[plan.slices[i].sliceId] == Row(plan.planId, Pending))
    && (forall s | s in rows && rows[s] == Row(plan.planId, Pending) :: InPlan(plan, s))
  }

  // ----- What was sent -----

  function Total(sent: seq<Sent>): real {
    if sent == [] then 0.0 else Total(sent[..|sent| - 1]) + sent[|sent| - 1].quantity
  }

  // Sum of what the exchange reported for the first n slices.
  function Reported(w: World, n: nat): real {
    if n == 0 then 0.0
    else
      var r := w.reply(n - 1);
      Reported(w, n - 1) + if r.Accepted? && r.executed.Some? then r.executed.value else 0.0
  }

  // The first n slices, each once, on the draft's side and at its own quantity.
  ghost predicate SentSlices(plan: Plan, draft: Draft, sent: seq<Sent>, n: nat) {
    && n <= |plan.slices| && |sent| == n
    && forall i | 0 <= i < n ::
         plan.slices[i].quantity.Some? && sent[i] == SliceOrder(plan.slices[i].sliceId, draft.side, plan.slices[i].quantity.value)
  }

  // How many slices were sent before the outcome.
  function SentCount(plan: Plan, out: Outcome): nat {
    match out
    case Done(_) => |plan.slices|
    case Stopped(k, SubmitFailed) => k + 1
    case Stopped(k, PlacementNotAccepted) => k + 1
    case Stopped(k, _) => k
    case _ => 0
  }

  // ----- What becomes of the rows -----

  // A slice that went through has been marked submitted, then filled.
  function DoneStatus(works: nat -> bool, k: nat): Status {
    if works(2 * k + 1) then Filled else if works(2 * k) then Submitted else Pending
  }

  // The slice execution stops at.
  function StopStatus(works: nat -> bool, k: nat, cause: Cause): Status {
    match cause
    case Contradicted => Pending
    case SubmitFailed => if works(2 * k + 1) then Failed else if works(2 * k) then Submitted else Pending
    case PlacementNotAccepted => if works(2 * k + 1) then Failed else if works(2 * k) then Submitted else Pending
    case _ => if works(2 * k) then Failed else Pending
  }

  // Whether stopping for this cause revokes the slices still pending: no attempt is made after a wrong side or quantity.
  predicate Revokes(works: nat -> bool, k: nat, cause: Cause) {
    match cause
    case SideMismatch => false
    case InvalidQuantity => false
    case ExceedsParent => works(2 * k + 1)
    case Contradicted => works(2 * k)
    case _ => works(2 * k + 2)
  }

  // The status of slice i when execution stops, before anything is revoked.
  function Reached(works: nat -> bool, k: nat, cause: Cause, i: nat): Status {
    if i < k then DoneStatus(works, i) else if i == k then StopStatus(works, k, cause) else Pending
  }

  // The final status of slice i.
  function FinalStatus(works: nat -> bool, out: Outcome, i: nat): Status {
    match out
    case Done(_) => DoneStatus(works, i)
    case Stopped(k, cause) =>
      if Reached(works, k, cause, i) == Pending && Revokes(works, k, cause) then Revoked else Reached(works, k, cause, i)
    case _ => Pending
  }

  // Exactly when the slices stop at k for the cause, given that the earlier ones went through.
  ghost predicate StopsAt(plan: Plan, draft: Draft, w: World, sentBefore: real, k: nat, cause: Cause)
    requires k < |plan.slices|
  {
    var s := plan.slices[k];
    match cause
    case SideMismatch => s.side != draft.side
    case InvalidQuantity => s.side == draft.side && s.quantity.None?
    case ExceedsParent => s.side == draft.side && s.quantity.Some? && sentBefore + s.quantity.value > draft.quantity + QTY_EPSILON
    case Contradicted => Sendable(plan, draft, sentBefore, k) && w.contradicts(k)
    case SubmitFailed => Sendable(plan, draft, sentBefore, k) && !w.contradicts(k) && w.reply(k).SendError?
    case PlacementNotAccepted => Sendable(plan, draft, sentBefore, k) && !w.contradicts(k) && w.reply(k).NotAccepted?
  }

  ghost predicate Sendable(plan: Plan, draft: Draft, sentBefore: real, k: nat)
    requires k < |plan.slices|
  {
    var s := plan.slices[k];
    s.side == draft.side && s.quantity.Some? && sentBefore + s.quantity.value <= draft.quantity + QTY_EPSILON
  }

  ghost predicate InPlan(plan: Plan, s: string) { exists i :: 0 <= i < |plan.slices| && plan.slices[i].sliceId == s }

  // The plan's rows have these statuses; all others are as before.
  ghost predicate RowsAre(plan: Plan, before: map<string, Row>, after: map<string, Row>, status: nat -> Status) {
    && after.Keys == before.Keys
    && (forall i | 0 <= i < |plan.slices| :: RowIs(plan, after, status, i))
    && (forall s | s in before && !InPlan(plan, s) :: after[s] == before[s])
  }

  ghost predicate RowIs(plan: Plan, rows: map<string, Row>, status: nat -> Status, i: nat)
    requires i < |plan.slices|
  {
    plan.slices[i].sliceId in rows && rows[plan.slices[i].sliceId] == Row(plan.planId, status(i))
  }

  lemma MarkedRows(plan: Plan, before: map<string, Row>, rows: map<string, Row>, f: nat -> Status, k: nat, status: Status, works: bool,
                   g: nat -> Status)
    requires IsReady(plan, before) && k < |plan.slices| && RowsAre(plan, before, rows, f)
    requires forall i | 0 <= i < |plan.slices| :: g(i) == if works && i == k then status else f(i)
    ensures RowsAre(plan, before, Marked(rows, plan.slices[k].sliceId, status, works), g)
  {
    assert RowIs(plan, rows, f, k) && InPlan(plan, plan.slices[k].sliceId);
    forall i | 0 <= i < |plan.slices|
      ensures RowIs(plan, Marked(rows, plan.slices[k].sliceId, status, works), g, i)
    {
      assert RowIs(plan, rows, f, i);
      assert i != k ==> plan.slices[i].sliceId != plan.slices[k].sliceId;
    }
  }

  // Revoking touches the plan's pending rows and no others, as the plan lists all of them.
  lemma RevokedRows(plan: Plan, before: map<string, Row>, rows: map<string, Row>, f: nat -> Status, works: bool, g: nat -> Status)
    requires IsReady(plan, before) && RowsAre(plan, before, rows, f)
    requires forall i | 0 <= i < |plan.slices| :: g(i) == if works && f(i) == Pending then Revoked else f(i)
    ensures RowsAre(plan, before, Revoke(rows, plan.planId, works), g)
  {
    forall i | 0 <= i < |plan.slices|
      ensures RowIs(plan, Revoke(rows, plan.planId, works), g, i)
    {
      assert RowIs(plan, rows, f, i);
    }
    forall s | s in before && !InPlan(plan, s)
      ensures Revoke(rows, plan.planId, works)[s] == before[s]
    {
      assert rows[s] == before[s];
    }
  }

  // While slice k is worked on.
  function Working(works: nat -> bool, k: nat, current: Status): nat -> Status {
    (i: nat) => if i < k then DoneStatus(works, i) else if i == k then current else Pending
  }

  function Over(works: nat -> bool, out: Outcome): nat -> Status {
    (i: nat) => FinalStatus(works, out, i)
  }

  // The table after each way of stopping at slice k; every slice before took two updates.
  function StopRows(plan: Plan, rows: map<string, Row>, works: nat -> bool, k: nat, cause: Cause): map<string, Row>
    requires k < |plan.slices|
  {
    var id := plan.slices[k].sliceId;
    match cause
    case SideMismatch => Marked(rows, id, Failed, works(2 * k))
    case InvalidQuantity => Marked(rows, id, Failed, works(2 * k))
    case ExceedsParent => Revoke(Marked(rows, id, Failed, works(2 * k)), plan.planId, works(2 * k + 1))
    case Contradicted => Revoke(rows, plan.planId, works(2 * k))
    case _ =>
      Revoke(Marked(Marked(rows, id, Submitted, works(2 * k)), id, Failed, works(2 * k + 1)), plan.planId, works(2 * k + 2))
  }

  lemma StoppedRows(plan: Plan, before: map<string, Row>, rows: map<string, Row>, works: nat -> bool, k: nat, cause: Cause)
    requires IsReady(plan, before) && k < |plan.slices| && RowsAre(plan, before, rows, Working(works, k, Pending))
    ensures RowsAre(plan, before, StopRows(plan, rows, works, k, cause), Over(works, Stopped(k, cause)))
  {
    var over := Over(works, Stopped(k, cause));
    match cause {
      case Contradicted => RevokedRows(plan, before, rows, Working(works, k, Pending), works(2 * k), over);
      case SubmitFailed => SubmittedRows(plan, before, rows, works, k, cause);
      case PlacementNotAccepted => SubmittedRows(plan, before, rows, works, k, cause);
      case ExceedsParent =>
        var reached := Working(works, k, StopStatus(works, k, cause));
        MarkedRows(plan, before, rows, Working(works, k, Pending), k, Failed, works(2 * k), reached);
        RevokedRows(plan, before, Marked(rows, plan.slices[k].sliceId, Failed, works(2 * k)), reached, works(2 * k + 1), over);
      case _ => MarkedRows(plan, before, rows, Working(works, k, Pending), k, Failed, works(2 * k), over);
    }
  }

  lemma SubmittedRows(plan: Plan, before: map<string, Row>, rows: map<string, Row>, works: nat -> bool, k: nat, cause: Cause)
    requires IsReady(plan, before) && k < |plan.slices| && RowsAre(plan, before, rows, Working(works, k, Pending))
    requires cause == SubmitFailed || cause == PlacementNotAccepted
    ensures RowsAre(plan, before, StopRows(plan, rows, works, k, cause), Over(works, Stopped(k, cause)))
  {
    var id := plan.slices[k].sliceId;
    var submitted := Working(works, k, if works(2 * k) then Submitted else Pending);
    var reached := Working(works, k, StopStatus(works, k, cause));
    MarkedRows(plan, before, rows, Working(works, k, Pending), k, Submitted, works(2 * k), submitted);
    MarkedRows(plan, before, Marked(rows, id, Submitted, works(2 * k)), submitted, k, Failed, works(2 * k + 1), reached);
    RevokedRows(plan, before, Marked(Marked(rows, id, Submitted, works(2 * k)), id, Failed, works(2 * k + 1)), reached,
                works(2 * k + 2), Over(works, Stopped(k, cause)));
  }

  lemma FilledRows(plan: Plan, before: map<string, Row>, rows: map<string, Row>, works: nat -> bool, k: nat)
    requires IsReady(plan, before) && k < |plan.slices| && RowsAre(plan, before, rows, Working(works, k, Pending))
    ensures RowsAre(plan, before, DoneRows(plan, rows, works, k), Working(works, k + 1, Pending))
  {
    var id := plan.slices[k].sliceId;
    var submitted := Working(works, k, if works(2 * k) then Submitted else Pending);
    MarkedRows(plan, before, rows, Working(works, k, Pending), k, Submitted, works(2 * k), submitted);
    MarkedRows(plan, before, Marked(rows, id, Submitted, works(2 * k)), submitted, k, Filled, works(2 * k + 1),
               Working(works, k + 1, Pending));
  }

  // ----- What a run comes to -----

  predicate ReportedAt(w: World, k: nat) { w.reply(k).Accepted? && w.reply(k).executed.Some? }

  function Limit(draft: Draft): real { draft.quantity + QTY_EPSILON }

  // Slices 0..k went through.
  ghost predicate WentThrough(plan: Plan, draft: Draft, w: World, sent: seq<Sent>, k: nat) {
    && SentSlices(plan, draft, sent, k) && (k > 0 ==> Total(sent) <= Limit(draft))
    && (forall i | 0 <= i < k :: plan.slices[i].side == draft.side && w.reply(i).Accepted? && !w.contradicts(i))
  }

  ghost predicate ReportedBy(w: World, n: nat, executed: Option<real>) {
    && (executed.Some? <==> exists k :: 0 <= k < n && ReportedAt(w, k))
    && (executed.Some? ==> executed.value == Reported(w, n))
  }

  // What the slices came to, and what was sent for them.
  ghost predicate IsRun(plan: Plan, draft: Draft, w: World, out: Outcome, sent: seq<Sent>) {
    match out
    case Done(executed) => WentThrough(plan, draft, w, sent, |plan.slices|) && ReportedBy(w, |plan.slices|, executed)
    case Stopped(k, cause) => IsStop(plan, draft, w, k, cause, sent)
    case _ => false
  }

  ghost predicate IsStop(plan: Plan, draft: Draft, w: World, k: nat, cause: Cause, sent: seq<Sent>) {
    && k < |plan.slices| && SentSlices(plan, draft, sent, SentCount(plan, Stopped(k, cause)))
    && (sent != [] ==> Total(sent) <= Limit(draft))
    && WentThrough(plan, draft, w, sent[..k], k) && StopsAt(plan, draft, w, Total(sent[..k]), k, cause)
  }

  // ----- The loop as a function -----

  datatype Ran = Ran(out: Outcome, sent: seq<Sent>, rows: map<string, Row>)

  // The first check that stops at slice k.
  function CauseAt(plan: Plan, draft: Draft, w: World, sentBefore: real, k: nat): Option<Cause>
    requires k < |plan.slices|
  {
    var slice := plan.slices[k];
    if slice.side != draft.side then Some(SideMismatch)
    else if slice.quantity.None? then Some(InvalidQuantity)
    else if sentBefore + slice.quantity.value > Limit(draft) then Some(ExceedsParent)
    else if w.contradicts(k) then Some(Contradicted)
    else if w.reply(k).SendError? then Some(SubmitFailed)
    else if w.reply(k).NotAccepted? then Some(PlacementNotAccepted)
    else None
  }

  function SentAt(plan: Plan, draft: Draft, k: nat): Sent
    requires k < |plan.slices| && plan.slices[k].quantity.Some?
  {
    SliceOrder(plan.slices[k].sliceId, draft.side, plan.slices[k].quantity.value)
  }

  function WithStop(plan: Plan, draft: Draft, k: nat, sent: seq<Sent>, cause: Cause): seq<Sent>
    requires k < |plan.slices| && (cause.SubmitFailed? || cause.PlacementNotAccepted? ==> plan.slices[k].quantity.Some?)
  {
    if cause.SubmitFailed? || cause.PlacementNotAccepted? then sent + [SentAt(plan, draft, k)] else sent
  }

  function Aggregated(so: Option<real>, r: Reply): Option<real> {
    if r.Accepted? && r.executed.Some? then Some((if so.Some? then so.value else 0.0) + r.executed.value) else so
  }

  function DoneRows(plan: Plan, rows: map<string, Row>, works: nat -> bool, k: nat): map<string, Row>
    requires k < |plan.slices|
  {
    Marked(Marked(rows, plan.slices[k].sliceId, Submitted, works(2 * k)), plan.slices[k].sliceId, Filled, works(2 * k + 1))
  }

  function RunFrom(plan: Plan, draft: Draft, w: World, k: nat, sent: seq<Sent>, executed: Option<real>,
                   rows: map<string, Row>): Ran
    requires k <= |plan.slices|
    decreases |plan.slices| - k
  {
    if k == |plan.slices| then Ran(Done(executed), sent, rows)
    else
      var cause := CauseAt(plan, draft, w, Total(sent), k);
      if cause.Some? then
        Ran(Stopped(k, cause.value), WithStop(plan, draft, k, sent, cause.value),
            StopRows(plan, rows, w.works, k, cause.value))
      else
        RunFrom(plan, draft, w, k + 1, sent + [SentAt(plan, draft, k)], Aggregated(executed, w.reply(k)),
                DoneRows(plan, rows, w.works, k))
  }

  function RunAll(plan: Plan, draft: Draft, w: World, rows: map<string, Row>): Ran {
    RunFrom(plan, draft, w, 0, [], None, rows)
  }

  // ----- The code -----

  method RunSlices(plan: Plan, draft: Draft, w: World, db: Db) returns (out: Outcome, sent: seq<Sent>)
    modifies db`rows
    ensures Ran(out, sent, db.rows) == RunAll(plan, draft, w, old(db.rows))
  {
    sent := [];
    var cumulative, aggregate, anyReported := 0.0, 0.0, false;
    ghost var before := db.rows;
    for k := 0 to |plan.slices|
      invariant cumulative == Total(sent) && (!anyReported ==> aggregate == 0.0)
      invariant RunAll(plan, draft, w, before)
                == RunFrom(plan, draft, w, k, sent, if anyReported then Some(aggregate) else None, db.rows)
    {
      var cause;
      cause, sent := RunSlice(plan, draft, w, db, k, cumulative, sent);
      if cause.Some? {
        return Stopped(k, cause.value), sent;
      }
      cumulative := cumulative + plan.slices[k].quantity.value;
      var reply := w.reply(k);
      if reply.executed.Some? {
        aggregate := aggregate + reply.executed.value;
        anyReported := true;
      }
    }
    return Done(if anyReported then Some(aggregate) else None), sent;
  }

  // The checks, the submission and the status updates of one slice.
  method RunSlice(plan: Plan, draft: Draft, w: World, db: Db, k: nat, cumulative: real, earlier: seq<Sent>)
    returns (cause: Option<Cause>, sent: seq<Sent>)
    requires k < |plan.slices| && cumulative == Total(earlier)
    modifies db`rows
    ensures cause == CauseAt(plan, draft, w, Total(earlier), k)
    ensures cause.Some? ==> sent == WithStop(plan, draft, k, earlier, cause.value)
                            && db.rows == StopRows(plan, old(db.rows), w.works, k, cause.value)
    ensures cause.None? ==> sent == earlier + [SentAt(plan, draft, k)] && Total(sent) == cumulative + plan.slices[k].quantity.value
                            && db.rows == DoneRows(plan, old(db.rows), w.works, k)
  {
    var slice := plan.slices[k];
    sent := earlier;
    if slice.side != draft.side {
      db.MarkSlice(slice.sliceId, Failed, w.works(2 * k));
      return Some(SideMismatch), sent;
    }
    if slice.quantity.None? {
      db.MarkSlice(slice.sliceId, Failed, w.works(2 * k));
      return Some(InvalidQuantity), sent;
    }
    if cumulative + slice.quantity.value > draft.quantity + QTY_EPSILON {
      db.MarkSlice(slice.sliceId, Failed, w.works(2 * k));
      db.RevokePending(plan.planId, w.works(2 * k + 1));
      return Some(ExceedsParent), sent;
    }
    if w.contradicts(k) {
      db.RevokePending(plan.planId, w.works(2 * k));
      return Some(Contradicted), sent;
    }
    db.MarkSlice(slice.sliceId, Submitted, w.works(2 * k));
    sent := earlier + [SliceOrder(slice.sliceId, draft.side, slice.quantity.value)];
    TotalPush(earlier, SentAt(plan, draft, k));
    if w.reply(k).SendError? {
      db.MarkSlice(slice.sliceId, Failed, w.works(2 * k + 1));
      db.RevokePending(plan.planId, w.works(2 * k + 2));
      return Some(SubmitFailed), sent;
    }
    if w.reply(k).NotAccepted? {
      db.MarkSlice(slice.sliceId, Failed, w.works(2 * k + 1));
      db.RevokePending(plan.planId, w.works(2 * k + 2));
      return Some(PlacementNotAccepted), sent;
    }
    db.MarkSlice(slice.sliceId, Filled, w.works(2 * k + 1));
    return None, sent;
  }

  lemma TotalPush(sent: seq<Sent>, s: Sent)
    ensures Total(sent + [s]) == Total(sent) + s.quantity
  {
    assert (sent + [s])[..|sent|] == sent;
  }

  // polls: the answers read from the database before the deadline, until one holds a ready plan.
  method ExecuteMarket(draft: Draft, polls: seq<Option<Plan>>, hasNative: bool, w: World, db: Db)
    returns (out: Outcome, sent: seq<Sent>)
    modifies db`rows
    ensures out == Native <==> hasNative && forall p | p in polls :: p.None?
    ensures out == Native ==> sent == [NativeOrder(draft.side, draft.quantity)]
    ensures out == NotConfigured <==> !hasNative && exists p | p in polls :: p.Some?
    ensures out == NotReady <==> !hasNative && forall p | p in polls :: p.None?
    ensures out == NotReady || out == NotConfigured ==> sent == []
    ensures out.Native? || out == NotReady || out == NotConfigured ==> db.rows == old(db.rows)
    ensures out.Done? || out.Stopped? ==> exists k ::
              && 0 <= k < |polls| && polls[k].Some? && (forall j | 0 <= j < k :: polls[j].None?)
              && Ran(out, sent, db.rows) == RunAll(polls[k].value, draft, w, old(db.rows))
  {
    for k := 0 to |polls|
      invariant db.rows == old(db.rows)
      invariant forall j | 0 <= j < k :: polls[j].None?
    {
      if polls[k].Some? {
        assert polls[k] in polls;
        if !hasNative {
          return NotConfigured, [];
        }
        out, sent := RunSlices(polls[k].value, draft, w, db);
        RunEnds(polls[k].value, draft, w, 0, [], None, old(db.rows));
        return;
      }
    }
    if hasNative {
      return Native, [NativeOrder(draft.side, draft.quantity)];
    }
    return NotReady, [];
  }

  lemma {:induction false} RunEnds(plan: Plan, draft: Draft, w: World, k: nat, sent: seq<Sent>, executed: Option<real>,
                                   rows: map<string, Row>)
    requires k <= |plan.slices|
    ensures var out := RunFrom(plan, draft, w, k, sent, executed, rows).out; out.Done? || out.Stopped?
    decreases |plan.slices| - k
  {
    if k < |plan.slices| && CauseAt(plan, draft, w, Total(sent), k).None? {
      RunEnds(plan, draft, w, k + 1, sent + [SentAt(plan, draft, k)], Aggregated(executed, w.reply(k)),
              DoneRows(plan, rows, w.works, k));
    }
  }

  // ----- Safety -----

  /** Each slice is sent at most once, in order, on the draft's side and at its own quantity; the sum sent never exceeds what
      was approved; execution stops at the first reason to; the reported total is the sum of the reported fills. */
  lemma RunIsSafe(plan: Plan, draft: Draft, w: World, rows: map<string, Row>)
    ensures var ran := RunAll(plan, draft, w, rows);
            IsRun(plan, draft, w, ran.out, ran.sent)
  {
    SafeFrom(plan, draft, w, 0, [], None, rows);
  }

  ghost predicate SafeState(plan: Plan, draft: Draft, w: World, k: nat, sent: seq<Sent>, executed: Option<real>) {
    WentThrough(plan, draft, w, sent, k) && ReportedBy(w, k, executed) && (executed.None? ==> Reported(w, k) == 0.0)
  }

  lemma {:induction false} SafeFrom(plan: Plan, draft: Draft, w: World, k: nat, sent: seq<Sent>, executed: Option<real>,
                                    rows: map<string, Row>)
    requires k <= |plan.slices| && SafeState(plan, draft, w, k, sent, executed)
    ensures var ran := RunFrom(plan, draft, w, k, sent, executed, rows);
            IsRun(plan, draft, w, ran.out, ran.sent)
    decreases |plan.slices| - k
  {
    if k < |plan.slices| {
      var cause := CauseAt(plan, draft, w, Total(sent), k);
      if cause.Some? {
        SafeStop(plan, draft, w, k, sent);
      } else {
        SafeNext(plan, draft, w, k, sent, executed);
        SafeFrom(plan, draft, w, k + 1, sent + [SentAt(plan, draft, k)], Aggregated(executed, w.reply(k)),
                 DoneRows(plan, rows, w.works, k));
      }
    }
  }

  lemma SafeStop(plan: Plan, draft: Draft, w: World, k: nat, sent: seq<Sent>)
    requires k < |plan.slices| && WentThrough(plan, draft, w, sent, k) && CauseAt(plan, draft, w, Total(sent), k).Some?
    ensures var cause := CauseAt(plan, draft, w, Total(sent), k).value;
            IsStop(plan, draft, w, k, cause, WithStop(plan, draft, k, sent, cause))
  {
    var cause := CauseAt(plan, draft, w, Total(sent), k).value;
    StopCause(plan, draft, w, k, Total(sent));
    if cause == SubmitFailed || cause == PlacementNotAccepted {
      StopAfterSending(plan, draft, w, k, sent, cause);
    } else {
      StopBeforeSending(plan, draft, w, k, sent, cause);
    }
  }

  // The first check that fails is the cause there is.
  lemma StopCause(plan: Plan, draft: Draft, w: World, k: nat, sentBefore: real)
    requires k < |plan.slices| && CauseAt(plan, draft, w, sentBefore, k).Some?
    ensures var cause := CauseAt(plan, draft, w, sentBefore, k).value;
            && StopsAt(plan, draft, w, sentBefore, k, cause)
            && (cause == SubmitFailed || cause == PlacementNotAccepted ==>
                  plan.slices[k].quantity.Some? && sentBefore + plan.slices[k].quantity.value <= Limit(draft))
  {}

  lemma StopBeforeSending(plan: Plan, draft: Draft, w: World, k: nat, sent: seq<Sent>, cause: Cause)
    requires k < |plan.slices| && WentThrough(plan, draft, w, sent, k) && cause != SubmitFailed && cause != PlacementNotAccepted
    requires StopsAt(plan, draft, w, Total(sent), k, cause)
    ensures IsStop(plan, draft, w, k, cause, sent)
  {
    assert sent[..k] == sent;
  }

  lemma StopAfterSending(plan: Plan, draft: Draft, w: World, k: nat, sent: seq<Sent>, cause: Cause)
    requires k < |plan.slices| && WentThrough(plan, draft, w, sent, k) && (cause == SubmitFailed || cause == PlacementNotAccepted)
    requires StopsAt(plan, draft, w, Total(sent), k, cause)
    requires plan.slices[k].quantity.Some? && Total(sent) + plan.slices[k].quantity.value <= Limit(draft)
    ensures IsStop(plan, draft, w, k, cause, sent + [SentAt(plan, draft, k)])
  {
    var all := sent + [SentAt(plan, draft, k)];
    assert all[..k] == sent;
    TotalPush(sent, SentAt(plan, draft, k));
    SentOneMore(plan, draft, sent, k);
  }

  lemma SentOneMore(plan: Plan, draft: Draft, sent: seq<Sent>, k: nat)
    requires k < |plan.slices| && SentSlices(plan, draft, sent, k) && plan.slices[k].quantity.Some?
    ensures SentSlices(plan, draft, sent + [SentAt(plan, draft, k)], k + 1)
  {}

  lemma SafeNext(plan: Plan, draft: Draft, w: World, k: nat, sent: seq<Sent>, executed: Option<real>)
    requires k < |plan.slices| && SafeState(plan, draft, w, k, sent, executed) && CauseAt(plan, draft, w, Total(sent), k).None?
    ensures SafeState(plan, draft, w, k + 1, sent + [SentAt(plan, draft, k)], Aggregated(executed, w.reply(k)))
  {
    TotalPush(sent, SentAt(plan, draft, k));
    ReportedStep(w, k, executed);
  }

  lemma ReportedStep(w: World, k: nat, executed: Option<real>)
    requires ReportedBy(w, k, executed) && (executed.None? ==> Reported(w, k) == 0.0)
    ensures var next := Aggregated(executed, w.reply(k));
            ReportedBy(w, k + 1, next) && (next.None? ==> Reported(w, k + 1) == 0.0)
  {
    if ReportedAt(w, k) {
      assert exists i :: 0 <= i < k + 1 && ReportedAt(w, i);
    }
    if executed.Some? {
      var i :| 0 <= i < k && ReportedAt(w, i);
      assert 0 <= i < k + 1;
    }
  }

  /** Whichever status updates fail, the plan's rows end in the statuses those that took effect give them, and no other row changes. */
  lemma RunSettlesRows(plan: Plan, draft: Draft, w: World, rows: map<string, Row>)
    requires IsReady(plan, rows)
    ensures var ran := RunAll(plan, draft, w, rows);
            RowsAre(plan, rows, ran.rows, Over(w.works, ran.out))
  {
    forall i | 0 <= i < |plan.slices|
      ensures RowIs(plan, rows, Working(w.works, 0, Pending), i)
    {}
    SettledFrom(plan, draft, w, rows, 0, [], None, rows);
  }

  lemma {:induction false} SettledFrom(plan: Plan, draft: Draft, w: World, before: map<string, Row>, k: nat, sent: seq<Sent>,
                                       executed: Option<real>, rows: map<string, Row>)
    requires IsReady(plan, before) && k <= |plan.slices| && RowsAre(plan, before, rows, Working(w.works, k, Pending))
    ensures var ran := RunFrom(plan, draft, w, k, sent, executed, rows);
            RowsAre(plan, before, ran.rows, Over(w.works, ran.out))
    decreases |plan.slices| - k
  {
    if k == |plan.slices| {
      forall i | 0 <= i < |plan.slices|
        ensures RowIs(plan, rows, Over(w.works, Done(executed)), i)
      {
        assert RowIs(plan, rows, Working(w.works, k, Pending), i);
      }
    } else {
      var cause := CauseAt(plan, draft, w, Total(sent), k);
      if cause.Some? {
        StoppedRows(plan, before, rows, w.works, k, cause.value);
      } else {
        FilledRows(plan, before, rows, w.works, k);
        SettledFrom(plan, draft, w, before, k + 1, sent + [SentAt(plan, draft, k)], Aggregated(executed, w.reply(k)),
                    DoneRows(plan, rows, w.works, k));
      }
    }
  }

  // ----- What the outcomes mean -----

  ghost predicate AllWork(works: nat -> bool) { forall n: nat :: works(n) }

  /** With every update taking effect, a slice is left pending exactly when it comes after a slice with the wrong side or an
      unreadable quantity: only those two ways of stopping leave the rest of the plan unrevoked. */
  lemma LeftPending(plan: Plan, before: map<string, Row>, after: map<string, Row>, works: nat -> bool, out: Outcome)
    requires IsReady(plan, before) && RowsAre(plan, before, after, Over(works, out)) && (out.Done? || out.Stopped?) && AllWork(works)
    ensures (exists s :: s in after && after[s] == Row(plan.planId, Pending)) <==>
              out.Stopped? && (out.cause == SideMismatch || out.cause == InvalidQuantity) && out.slice + 1 < |plan.slices|
  {
    if out.Stopped? && (out.cause == SideMismatch || out.cause == InvalidQuantity) && out.slice + 1 < |plan.slices| {
      var s := plan.slices[out.slice + 1].sliceId;
      assert RowIs(plan, after, Over(works, out), out.slice + 1);
      assert s in after && after[s] == Row(plan.planId, Pending);
    }
    forall s | s in after && after[s] == Row(plan.planId, Pending)
      ensures out.Stopped? && (out.cause == SideMismatch || out.cause == InvalidQuantity) && out.slice + 1 < |plan.slices|
    {
      assert InPlan(plan, s);
      var i :| 0 <= i < |plan.slices| && plan.slices[i].sliceId == s;
      assert RowIs(plan, after, Over(works, out), i);
    }
  }

  /** A slice that was sent and accepted ends as revoked exactly when both its own updates failed and the revocation of the rest
      took effect. */
  lemma AcceptedButRevoked(plan: Plan, draft: Draft, w: World, rows: map<string, Row>, i: nat)
    requires IsReady(plan, rows) && i < |plan.slices|
    requires var out := RunAll(plan, draft, w, rows).out; out.Stopped? ==> i < out.slice
    ensures var ran := RunAll(plan, draft, w, rows);
            var id := plan.slices[i].sliceId;
            && w.reply(i).Accepted? && id in ran.rows
            && (ran.rows[id].status == Revoked <==>
                  !w.works(2 * i) && !w.works(2 * i + 1) && ran.out.Stopped? && Revokes(w.works, ran.out.slice, ran.out.cause))
  {
    EarlierAccepted(plan, draft, w, rows, i);
    RunSettlesRows(plan, draft, w, rows);
    StatusAt(plan, rows, RunAll(plan, draft, w, rows), w.works, i);
  }

  // Every slice before the one execution stopped at was accepted.
  lemma EarlierAccepted(plan: Plan, draft: Draft, w: World, rows: map<string, Row>, i: nat)
    requires i < |plan.slices|
    requires var out := RunAll(plan, draft, w, rows).out; out.Stopped? ==> i < out.slice
    ensures w.reply(i).Accepted?
  {
    RunIsSafe(plan, draft, w, rows);
  }

  lemma StatusAt(plan: Plan, rows: map<string, Row>, ran: Ran, works: nat -> bool, i: nat)
    requires i < |plan.slices| && RowsAre(plan, rows, ran.rows, Over(works, ran.out))
    ensures plan.slices[i].sliceId in ran.rows && ran.rows[plan.slices[i].sliceId].status == FinalStatus(works, ran.out, i)
  {
    assert RowIs(plan, ran.rows, Over(works, ran.out), i);
  }

  const TWO_ROWS: map<string, Row> := map["a" := Row("p", Pending), "b" := Row("p", Pending)]

  const WRONG_SIDE := Plan("p", [Slice("a", Sell, Some(1.0)), Slice("b", Buy, Some(1.0))])

  const CALM := World((k: nat) => false, (k: nat) => Accepted(None), (n: nat) => true)

  /** A plan whose first of two slices has the wrong side: nothing is sent and the second slice stays pending. */
  lemma WrongSideLeavesPending()
    ensures var ran := RunAll(WRONG_SIDE, Draft(Buy, 2.0), CALM, TWO_ROWS);
            && IsReady(WRONG_SIDE, TWO_ROWS) && ran.out == Stopped(0, SideMismatch) && ran.sent == []
            && ran.rows == map["a" := Row("p", Failed), "b" := Row("p", Pending)]
  {
    var plan := WRONG_SIDE;
    forall s | s in TWO_ROWS
      ensures InPlan(plan, s)
    {
      assert plan.slices[if s == "a" then 0 else 1].sliceId == s;
    }
    assert CauseAt(plan, Draft(Buy, 2.0), CALM, 0.0, 0) == Some(SideMismatch);
  }

  const RIGHT_SIDE := Plan("p", [Slice("a", Buy, Some(1.0)), Slice("b", Buy, Some(1.0))])

  // Both updates of the first slice fail, it is accepted, and then the decision turns.
  const TURNED := World((k: nat) => k == 1, (k: nat) => Accepted(Some(1.0)), (n: nat) => n == 2)

  /** Its row says revoked although it was sent and accepted. */
  lemma AcceptedSliceShownRevoked()
    ensures var ran := RunAll(RIGHT_SIDE, Draft(Buy, 2.0), TURNED, TWO_ROWS);
            && ran.out == Stopped(1, Contradicted) && ran.sent == [SliceOrder("a", Buy, 1.0)] && TURNED.reply(0).Accepted?
            && ran.rows == map["a" := Row("p", Revoked), "b" := Row("p", Revoked)]
  {
    var plan, draft := RIGHT_SIDE, Draft(Buy, 2.0);
    var first := SentAt(plan, draft, 0);
    assert CauseAt(plan, draft, TURNED, 0.0, 0) == None && DoneRows(plan, TWO_ROWS, TURNED.works, 0) == TWO_ROWS;
    TotalPush([], first);
    assert [] + [first] == [first] && Total([first]) == 1.0;
    assert CauseAt(plan, draft, TURNED, 1.0, 1) == Some(Contradicted);
    assert RunAll(plan, draft, TURNED, TWO_ROWS) == RunFrom(plan, draft, TURNED, 1, [first], Some(1.0), TWO_ROWS);
  }

  /** No slice is sent twice. */
  lemma SentOnce(plan: Plan, rows: map<string, Row>, draft: Draft, sent: seq<Sent>, n: nat, i: nat, j: nat)
    requires IsReady(plan, rows) && SentSlices(plan, draft, sent, n) && i < j < n
    ensures sent[i].SliceOrder? && sent[j].SliceOrder? && sent[i].sliceId != sent[j].sliceId
  {
    assert sent[i] == SliceOrder(plan.slices[i].sliceId, draft.side, plan.slices[i].quantity.value);
  }

  /** If the exchange never reports more than it was sent, the reported total stays within what was approved. */
  lemma {:induction false} ReportedWithinSent(plan: Plan, draft: Draft, w: World, sent: seq<Sent>, n: nat)
    requires WentThrough(plan, draft, w, sent, n)
    requires forall i | 0 <= i < n && ReportedAt(w, i) :: w.reply(i).executed.value <= sent[i].quantity
    requires forall i | 0 <= i < n :: 0.0 <= sent[i].quantity
    ensures Reported(w, n) <= Total(sent) && (n > 0 ==> Reported(w, n) <= Limit(draft))
  {
    if n > 0 {
      TotalGrows(sent);
      ReportedWithinSent(plan, draft, w, sent[..n - 1], n - 1);
    }
  }

  lemma TotalGrows(sent: seq<Sent>)
    requires sent != [] && 0.0 <= sent[|sent| - 1].quantity
    ensures Total(sent[..|sent| - 1]) <= Total(sent)
  {}
}
