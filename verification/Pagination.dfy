/** Backward pagination of closed bars (src/backtest/rest_client_kline_adapter.cpp:27-182). */
module Pagination {
  import opened Common
  import Ordering

  datatype Page = Bars(bars: seq<Kline>) | Failed(error: string)

  datatype Error = BudgetExceeded(need: int) | UnknownInterval | Timeout | RestFailed(page: nat) | EmptyPage(page: nat)

  datatype Result = Success(bars: seq<Kline>, pagesUsed: nat) | Failure(error: Error, pagesUsed: nat)

  const PAGE_MAX := 1500
  const MAX_INT32 := 0x7FFF_FFFF

  // ----- Interval names -----

  predicate Numeric(s: string) { forall k | 0 <= k < |s| :: '0' <= s[k] <= '9' }

  function Decimal(s: string): nat
    requires Numeric(s)
  {
    if s == [] then 0 else 10 * Decimal(s[..|s| - 1]) + (s[|s| - 1] as int - '0' as int)
  }

  const MINUTE_MS := 60_000
  const HOUR_MS := 3_600_000
  const DAY_MS := 86_400_000
  const WEEK_MS := 604_800_000

  function ParseIntervalMs(interval: string): (r: Option<int>)
    ensures r.Some? ==> r.value >= MINUTE_MS
  {
    if |interval| < 2 then None
    else
      var suffix, number := interval[|interval| - 1], interval[..|interval| - 1];
      if !Numeric(number) || Decimal(number) == 0 || Decimal(number) > MAX_INT32 then None
      else
        match suffix
        case 'm' => Some(Decimal(number) * MINUTE_MS)
        case 'h' => Some(Decimal(number) * HOUR_MS)
        case 'd' => Some(Decimal(number) * DAY_MS)
        case 'w' => Some(Decimal(number) * WEEK_MS)
        case _ => None
  }

  // A number in decimal digits.
  function Shown(n: nat): (s: string)
    ensures s != []
  {
    if n < 10 then [('0' as int + n) as char] else Shown(n / 10) + [('0' as int + n % 10) as char]
  }

  lemma {:induction false} DecimalOfShown(n: nat)
    ensures Numeric(Shown(n)) && Decimal(Shown(n)) == n
  {
    var s := Shown(n);
    if n >= 10 {
      DecimalOfShown(n / 10);
      assert s[..|s| - 1] == Shown(n / 10);
    } else {
      assert s[..0] == [];
    }
  }

  // The milliseconds in a unit of the interval names; a month has no fixed number of them.
  function UnitMs(unit: char): Option<int> {
    match unit
    case 'm' => Some(60 * 1000)
    case 'h' => Some(60 * 60 * 1000)
    case 'd' => Some(24 * 60 * 60 * 1000)
    case 'w' => Some(7 * 24 * 60 * 60 * 1000)
    case _ => None
  }

  /** The name of n units denotes n times the unit's milliseconds exactly when there is such a unit and n is positive and fits an int. */
  lemma NamedInterval(n: nat, unit: char)
    ensures ParseIntervalMs(Shown(n) + [unit])
              == if 0 < n <= MAX_INT32 && UnitMs(unit).Some? then Some(n * UnitMs(unit).value) else None
  {
    DecimalOfShown(n);
    var name := Shown(n) + [unit];
    assert name[..|name| - 1] == Shown(n);
  }

  /** Only such names denote anything, with any number of zeros in front. */
  lemma IntervalNames(interval: string)
    ensures ParseIntervalMs(['0'] + interval) == ParseIntervalMs(interval)
    ensures ParseIntervalMs(interval).Some? ==>
              UnitMs(interval[|interval| - 1]).Some? && forall k | 0 <= k < |interval| - 1 :: '0' <= interval[k] <= '9'
  {
    if interval != [] {
      var name, number := ['0'] + interval, interval[..|interval| - 1];
      assert name[..|name| - 1] == ['0'] + number;
      LeadingZero(number);
    }
  }

  lemma {:induction false} LeadingZero(s: string)
    ensures Numeric(['0'] + s) <==> Numeric(s)
    ensures Numeric(s) ==> Decimal(['0'] + s) == Decimal(s)
  {
    var z := ['0'] + s;
    assert z[1..] == s;
    if Numeric(z) {
      forall k | 0 <= k < |s| ensures '0' <= s[k] <= '9' {
        assert z[k + 1] == s[k];
      }
    }
    if s != [] {
      LeadingZero(s[..|s| - 1]);
      assert z[..|z| - 1] == ['0'] + s[..|s| - 1];
    } else {
      assert z[..0] == [] && Decimal(z[..0]) == 0;
    }
  }

  // ----- Bars -----

  predicate Eligible(b: Kline, signal: int) { b.isClosed && b.openTime <= signal }

  ghost predicate Ascending(bars: seq<Kline>) {
    forall i, j | 0 <= i < j < |bars| :: bars[i].openTime <= bars[j].openTime
  }

  ghost predicate StrictlyAscending(bars: seq<Kline>) {
    forall i, j | 0 <= i < j < |bars| :: bars[i].openTime < bars[j].openTime
  }

  ghost predicate HasTime(bars: seq<Kline>, t: int) { exists b | b in bars :: b.openTime == t }

  // One bar for each of the newest open times among the eligible fetched bars.
  ghost predicate Newest(fetched: seq<Kline>, signal: int, limit: nat, bars: seq<Kline>) {
    && StrictlyAscending(bars) && |bars| <= limit
    && (forall b | b in bars :: b in fetched && Eligible(b, signal))
    && (forall b | b in fetched && Eligible(b, signal) ::
          HasTime(bars, b.openTime) || (|bars| == limit > 0 && b.openTime < bars[0].openTime))
  }

  // The bar goes after the last one that does not open later.
  function Inserted(sorted: seq<Kline>, x: Kline): seq<Kline> {
    if sorted == [] || sorted[|sorted| - 1].openTime <= x.openTime then sorted + [x]
    else Inserted(sorted[..|sorted| - 1], x) + [sorted[|sorted| - 1]]
  }

  lemma {:induction false} InsertedSorted(sorted: seq<Kline>, x: Kline)
    requires Ascending(sorted)
    ensures Ascending(Inserted(sorted, x)) && forall b :: b in Inserted(sorted, x) <==> b in sorted || b == x
  {
    if sorted != [] && sorted[|sorted| - 1].openTime > x.openTime {
      var front, last := sorted[..|sorted| - 1], sorted[|sorted| - 1];
      assert sorted == front + [last];
      InsertedSorted(front, x);
      assert forall b | b in Inserted(front, x) :: b.openTime <= last.openTime;
    }
  }

  // The same bars with ascending open times; nothing is said about the order of equal ones.
  method SortByOpenTime(bars: seq<Kline>) returns (sorted: seq<Kline>)
    ensures Ascending(sorted) && forall b :: b in sorted <==> b in bars
  {
    sorted := [];
    for k := 0 to |bars|
      invariant Ascending(sorted) && forall b :: b in sorted <==> b in bars[..k]
    {
      InsertedSorted(sorted, bars[k]);
      assert bars[..k + 1] == bars[..k] + [bars[k]];
      sorted := Inserted(sorted, bars[k]);
    }
    assert bars[..|bars|] == bars;
  }

  // The first of each run of equal open times.
  method Unique(bars: seq<Kline>) returns (unique: seq<Kline>)
    requires Ascending(bars)
    ensures StrictlyAscending(unique)
    ensures forall b | b in unique :: b in bars
    ensures forall b | b in bars :: HasTime(unique, b.openTime)
  {
    unique := [];
    for k := 0 to |bars|
      invariant StrictlyAscending(unique) && (unique == [] <==> k == 0)
      invariant k > 0 ==> unique[|unique| - 1].openTime == bars[k - 1].openTime
      invariant forall b | b in unique :: b in bars
      invariant forall j | 0 <= j < k :: HasTime(unique, bars[j].openTime)
    {
      if unique == [] || unique[|unique| - 1].openTime != bars[k].openTime {
        ghost var before := unique;
        unique := unique + [bars[k]];
        assert bars[k] in unique;
        forall j | 0 <= j < k
          ensures HasTime(unique, bars[j].openTime)
        {
          var b :| b in before && b.openTime == bars[j].openTime;
          assert b in unique;
        }
      } else {
        assert unique[|unique| - 1] in unique;
      }
    }
  }

  /** Filtering, sorting, removing repeats and cutting leave the newest eligible open times. */
  method Normalise(fetched: seq<Kline>, signal: int, limit: nat) returns (bars: seq<Kline>)
    requires limit > 0
    ensures Newest(fetched, signal, limit, bars)
  {
    var filtered: seq<Kline> := [];
    for k := 0 to |fetched|
      invariant forall b :: b in filtered <==> b in fetched[..k] && Eligible(b, signal)
    {
      assert fetched[..k + 1] == fetched[..k] + [fetched[k]];
      if !fetched[k].isClosed || fetched[k].openTime > signal {
        continue;
      }
      filtered := filtered + [fetched[k]];
    }
    assert fetched[..|fetched|] == fetched;
    var sorted := SortByOpenTime(filtered);
    var all := Unique(sorted);
    bars := all;
    if |all| > limit {
      bars := all[|all| - limit..];
      forall b | b in fetched && Eligible(b, signal)
        ensures HasTime(bars, b.openTime) || b.openTime < bars[0].openTime
      {
        assert HasTime(all, b.openTime);
        var i :| 0 <= i < |all| && all[i].openTime == b.openTime;
        if i >= |all| - limit {
          assert bars[i - (|all| - limit)] == all[i];
        }
      }
    }
  }

  // ----- An honest server -----

  // How many bars open at or before t.
  ghost function Upto(history: seq<Kline>, t: int): (n: nat)
    ensures n <= |history|
  {
    if history == [] || history[|history| - 1].openTime <= t then |history| else Upto(history[..|history| - 1], t)
  }

  lemma {:induction false} UptoSplits(history: seq<Kline>, t: int, n: nat)
    requires StrictlyAscending(history) && n <= |history|
    requires n > 0 ==> history[n - 1].openTime <= t
    requires n < |history| ==> t < history[n].openTime
    ensures Upto(history, t) == n
    decreases |history|
  {
    if n < |history| {
      UptoSplits(history[..|history| - 1], t, n);
    }
  }

  lemma {:induction false} UptoMeaning(history: seq<Kline>, t: int)
    requires StrictlyAscending(history)
    ensures forall k | 0 <= k < |history| :: k < Upto(history, t) <==> history[k].openTime <= t
  {
    if history != [] && history[|history| - 1].openTime > t {
      UptoMeaning(history[..|history| - 1], t);
    }
  }

  // Strictly ascending, looked at one pair at a time.
  ghost predicate Ordered(bars: seq<Kline>) {
    forall i, j | 0 <= i < j < |bars| :: Earlier(bars, i, j)
  }

  predicate Earlier(bars: seq<Kline>, i: nat, j: nat)
    requires i < j < |bars|
  {
    bars[i].openTime < bars[j].openTime
  }

  lemma OrderedAscends(bars: seq<Kline>)
    ensures Ordered(bars) <==> StrictlyAscending(bars)
  {
    if Ordered(bars) {
      forall i, j | 0 <= i < j < |bars|
        ensures bars[i].openTime < bars[j].openTime
      {
        assert Earlier(bars, i, j);
      }
    }
  }

  // Every page holds the last n bars that open at or before the cursor.
  ghost predicate Honest(fetch: (nat, int, int) -> Page, history: seq<Kline>) {
    && Ordered(history) && (forall b | b in history :: b.isClosed)
    && forall page: nat, n: nat, cursor: int :: HonestPage(fetch, history, page, n, cursor)
  }

  ghost predicate HonestPage(fetch: (nat, int, int) -> Page, history: seq<Kline>, page: nat, n: nat, cursor: int) {
    var last := Upto(history, cursor);
    fetch(page, n, cursor) == Bars(history[last - Min(n, last)..last])
  }

  function PageSize(limit: int): int { Min(PAGE_MAX, limit) }

  function PagesNeeded(limit: int): int
    requires limit > 0
  {
    (limit + PageSize(limit) - 1) / PageSize(limit)
  }

  // The bars a complete run keeps: the last `limit` up to the first cursor, without those after the signal.
  ghost function Window(history: seq<Kline>, signal: int, limit: nat, intervalMs: int): seq<Kline> {
    var a, b := Upto(history, signal), Upto(history, signal + intervalMs - 1);
    var start := b - Min(limit, b);
    if start <= a then history[start..a] else []
  }

  // ----- The code -----

  datatype Collected = Pages(bars: seq<Kline>, pagesUsed: nat) | Stopped(error: Error, pagesUsed: nat)

  // The server sent the bar in some page.
  ghost predicate Served(fetch: (nat, int, int) -> Page, b: Kline) {
    exists page, n, cursor :: fetch(page, n, cursor).Bars? && b in fetch(page, n, cursor).bars
  }

  datatype Exchange = Exchange(fetch: (nat, int, int) -> Page, late: nat -> bool)

  // What the pages from `page` on add in front of the bars there are. late(page): the deadline has passed before the page.
  function Collect(x: Exchange, limit: int, pageSize: int, pagesNeeded: nat, page: nat, accumulated: seq<Kline>, cursor: int): Collected
    requires page <= pagesNeeded
    decreases pagesNeeded - page
  {
    if page == pagesNeeded then Pages(accumulated, page)
    else if x.late(page) then Stopped(Timeout, page)
    else if limit <= |accumulated| then Pages(accumulated, page)
    else
      match x.fetch(page, Min(pageSize, limit - |accumulated|), cursor)
      case Failed(error) => Stopped(if error == "timeout" then Timeout else RestFailed(page + 1), page + 1)
      case Bars(bars) =>
        if bars == [] then Stopped(EmptyPage(page + 1), page + 1)
        else Collect(x, limit, pageSize, pagesNeeded, page + 1, bars + accumulated, bars[0].openTime - 1)
  }

  function CollectAll(x: Exchange, limit: int, firstCursor: int): Collected
    requires limit > 0
  {
    PagesPositive(limit);
    Collect(x, limit, PageSize(limit), PagesNeeded(limit), 0, [], firstCursor)
  }

  method CollectPages(x: Exchange, limit: int, pageSize: int, pagesNeeded: nat, firstCursor: int) returns (out: Collected)
    ensures out == Collect(x, limit, pageSize, pagesNeeded, 0, [], firstCursor)
  {
    var accumulated: seq<Kline> := [];
    var cursorEnd := firstCursor;
    for page := 0 to pagesNeeded
      invariant Collect(x, limit, pageSize, pagesNeeded, 0, [], firstCursor)
                == Collect(x, limit, pageSize, pagesNeeded, page, accumulated, cursorEnd)
    {
      if x.late(page) {
        return Stopped(Timeout, page);
      }
      var remaining := limit - |accumulated|;
      if remaining <= 0 {
        return Pages(accumulated, page);
      }
      var answer := x.fetch(page, Min(pageSize, remaining), cursorEnd);
      if answer.Failed? {
        return Stopped(if answer.error == "timeout" then Timeout else RestFailed(page + 1), page + 1);
      }
      if answer.bars == [] {
        return Stopped(EmptyPage(page + 1), page + 1);
      }
      accumulated := answer.bars + accumulated;
      cursorEnd := answer.bars[0].openTime - 1;
    }
    return Pages(accumulated, pagesNeeded);
  }

  // What Paginate promises.
  ghost predicate Answers(x: Exchange, interval: string, signal: int, limit: int, maxRequests: int, out: Result) {
    if limit <= 0 then out == Success([], 0)
    else if maxRequests <= 0 then out == Failure(BudgetExceeded(1), 0)
    else if ParseIntervalMs(interval).None? then out == Failure(UnknownInterval, 0)
    else if maxRequests < PagesNeeded(limit) then out == Failure(BudgetExceeded(PagesNeeded(limit)), 0)
    else
      var pages := CollectAll(x, limit, signal + ParseIntervalMs(interval).value - 1);
      && out.pagesUsed == pages.pagesUsed
      && (pages.Stopped? ==> out == Failure(pages.error, pages.pagesUsed))
      && (pages.Pages? ==> out.Success? && Newest(pages.bars, signal, limit, out.bars))
  }

  /** A success holds the newest eligible bars of the pages; the pages are asked for only if the budget covers all of them. */
  method Paginate(x: Exchange, interval: string, signal: int, limit: int, maxRequests: int) returns (out: Result)
    ensures Answers(x, interval, signal, limit, maxRequests, out)
  {
    if limit <= 0 {
      return Success([], 0);
    }
    if maxRequests <= 0 {
      return Failure(BudgetExceeded(1), 0);
    }
    var parsed := ParseIntervalMs(interval);
    if parsed.None? {
      return Failure(UnknownInterval, 0);
    }
    var pageSize := if limit < PAGE_MAX then limit else PAGE_MAX;
    var pagesNeeded := (limit + pageSize - 1) / pageSize;
    PagesPositive(limit);
    if pagesNeeded > maxRequests {
      return Failure(BudgetExceeded(pagesNeeded), 0);
    }
    var collected := CollectPages(x, limit, pageSize, pagesNeeded, signal + parsed.value - 1);
    if collected.Stopped? {
      return Failure(collected.error, collected.pagesUsed);
    }
    var bars := Normalise(collected.bars, signal, limit);
    return Success(bars, collected.pagesUsed);
  }

  // ----- Any server -----

  /** Every bar kept was sent by the server, and no page beyond the plan is asked for. */
  lemma {:induction false} CollectServed(x: Exchange, limit: int, pageSize: int, pagesNeeded: nat, page: nat, accumulated: seq<Kline>,
                                         cursor: int)
    requires page <= pagesNeeded && forall b | b in accumulated :: Served(x.fetch, b)
    ensures var out := Collect(x, limit, pageSize, pagesNeeded, page, accumulated, cursor);
            out.pagesUsed <= pagesNeeded && (out.Pages? ==> forall b | b in out.bars :: Served(x.fetch, b))
    decreases pagesNeeded - page
  {
    if page < pagesNeeded && !x.late(page) && |accumulated| < limit {
      var answer := x.fetch(page, Min(pageSize, limit - |accumulated|), cursor);
      if answer.Bars? && answer.bars != [] {
        forall b | b in answer.bars + accumulated
          ensures Served(x.fetch, b)
        {
        }
        CollectServed(x, limit, pageSize, pagesNeeded, page + 1, answer.bars + accumulated, answer.bars[0].openTime - 1);
      }
    }
  }

  // ----- The honest server's pages -----

  // The plan fetches `limit` bars, and not before its last page.
  ghost predicate Plan(limit: int, pageSize: int, pagesNeeded: int) {
    && 0 < pageSize && 0 < pagesNeeded && 0 < limit && Planned(pagesNeeded, pageSize, limit) == limit
    && forall page: nat | page < pagesNeeded :: InPlan(page, pageSize, limit, pagesNeeded)
  }

  ghost predicate InPlan(page: nat, pageSize: nat, limit: nat, pagesNeeded: nat)
    requires pagesNeeded > 0
  {
    Planned(page, pageSize, limit) <= Planned(pagesNeeded - 1, pageSize, limit) < limit
  }

  ghost predicate NeverLate(x: Exchange) { forall page :: !x.late(page) }

  // reached: what all pages but the last hold.
  ghost predicate EndsHonestly(x: Exchange, history: seq<Kline>, limit: nat, reached: nat, last: nat, out: Collected) {
    && (out.Pages? ==> reached < last && IsTail(history, last, limit, out.bars))
    && (NeverLate(x) && reached < last ==> out.Pages?)
  }

  lemma {:induction false} HonestCollect(x: Exchange, history: seq<Kline>, limit: int, pageSize: int, pagesNeeded: nat, page: nat,
                                         accumulated: seq<Kline>, cursor: int, last: nat)
    requires Plan(limit, pageSize, pagesNeeded) && page <= pagesNeeded
    requires Honest(x.fetch, history)
    requires Progress(history, accumulated, last, page, pageSize, limit, cursor)
    ensures EndsHonestly(x, history, limit, Planned(pagesNeeded - 1, pageSize, limit), last,
                         Collect(x, limit, pageSize, pagesNeeded, page, accumulated, cursor))
    decreases pagesNeeded - page
  {
    if page == pagesNeeded {
      AllPages(x, history, limit, pageSize, pagesNeeded, accumulated, cursor, last);
    } else if x.late(page) {
      LatePage(x, limit, pageSize, pagesNeeded, page, accumulated, cursor);
    } else {
      PlannedSoFar(limit, pageSize, pagesNeeded, page);
      var bars := OnePage(x, history, limit, pageSize, pagesNeeded, page, accumulated, cursor, last);
      if bars != [] {
        HonestCollect(x, history, limit, pageSize, pagesNeeded, page + 1, bars + accumulated, bars[0].openTime - 1, last);
      }
    }
  }

  lemma PlannedSoFar(limit: int, pageSize: int, pagesNeeded: nat, page: nat)
    requires Plan(limit, pageSize, pagesNeeded) && page < pagesNeeded
    ensures Planned(page, pageSize, limit) <= Planned(pagesNeeded - 1, pageSize, limit) < limit
  {
    assert InPlan(page, pageSize, limit, pagesNeeded);
  }

  lemma AllPages(x: Exchange, history: seq<Kline>, limit: int, pageSize: int, pagesNeeded: nat, accumulated: seq<Kline>, cursor: int, last: nat)
    requires Plan(limit, pageSize, pagesNeeded) && Progress(history, accumulated, last, pagesNeeded, pageSize, limit, cursor)
    ensures var out := Collect(x, limit, pageSize, pagesNeeded, pagesNeeded, accumulated, cursor);
            out.Pages? && Planned(pagesNeeded - 1, pageSize, limit) < last && IsTail(history, last, limit, out.bars)
  {}

  lemma LatePage(x: Exchange, limit: int, pageSize: int, pagesNeeded: nat, page: nat, accumulated: seq<Kline>, cursor: int)
    requires page < pagesNeeded && x.late(page)
    ensures Collect(x, limit, pageSize, pagesNeeded, page, accumulated, cursor).Stopped? && !NeverLate(x)
  {}

  // A page from an honest server either ends the history or brings the collection one page further.
  lemma OnePage(x: Exchange, history: seq<Kline>, limit: int, pageSize: int, pagesNeeded: nat, page: nat, accumulated: seq<Kline>,
                cursor: int, last: nat)
    returns (bars: seq<Kline>)
    requires page < pagesNeeded && !x.late(page) && pageSize > 0 && limit > 0 && Planned(page, pageSize, limit) < limit
    requires Honest(x.fetch, history) && Progress(history, accumulated, last, page, pageSize, limit, cursor)
    ensures bars == [] ==> last <= Planned(page, pageSize, limit)
                           && Collect(x, limit, pageSize, pagesNeeded, page, accumulated, cursor) == Stopped(EmptyPage(page + 1), page + 1)
    ensures bars != [] ==> Progress(history, bars + accumulated, last, page + 1, pageSize, limit, bars[0].openTime - 1)
                           && Collect(x, limit, pageSize, pagesNeeded, page, accumulated, cursor)
                              == Collect(x, limit, pageSize, pagesNeeded, page + 1, bars + accumulated, bars[0].openTime - 1)
  {
    bars := AnswerStep(x.fetch, history, accumulated, last, page, pageSize, limit, cursor);
    CollectStep(x, limit, pageSize, pagesNeeded, page, accumulated, cursor, bars);
  }

  lemma CollectStep(x: Exchange, limit: int, pageSize: int, pagesNeeded: nat, page: nat, accumulated: seq<Kline>, cursor: int,
                    bars: seq<Kline>)
    requires page < pagesNeeded && !x.late(page) && |accumulated| < limit
    requires x.fetch(page, Min(pageSize, limit - |accumulated|), cursor) == Bars(bars)
    ensures bars == [] ==> Collect(x, limit, pageSize, pagesNeeded, page, accumulated, cursor) == Stopped(EmptyPage(page + 1), page + 1)
    ensures bars != [] ==> Collect(x, limit, pageSize, pagesNeeded, page, accumulated, cursor)
                           == Collect(x, limit, pageSize, pagesNeeded, page + 1, bars + accumulated, bars[0].openTime - 1)
  {}

  /** Against an honest server the pages arrive only if the history reaches into the last page, and exactly then if no page is late. */
  lemma HonestPages(x: Exchange, history: seq<Kline>, limit: int, firstCursor: int)
    requires limit > 0 && Honest(x.fetch, history)
    ensures var pages, last := CollectAll(x, limit, firstCursor), Upto(history, firstCursor);
            && (pages.Pages? ==> (PagesNeeded(limit) - 1) * PageSize(limit) < last)
            && (NeverLate(x) ==> (pages.Pages? <==> (PagesNeeded(limit) - 1) * PageSize(limit) < last))
            && (pages.Pages? ==> IsTail(history, last, limit, pages.bars))
  {
    var last := Upto(history, firstCursor);
    PlanCompletes(limit);
    NothingYet(history, PageSize(limit), limit, firstCursor);
    HonestCollect(x, history, limit, PageSize(limit), PagesNeeded(limit), 0, [], firstCursor, last);
  }

  /** Whatever bars a success then returns are the history's window. */
  lemma HonestPagination(x: Exchange, history: seq<Kline>, intervalMs: int, signal: int, limit: int, pages: Collected, bars: seq<Kline>)
    requires limit > 0 && intervalMs > 0
    requires Honest(x.fetch, history)
    requires pages == CollectAll(x, limit, signal + intervalMs - 1) && pages.Pages?
    requires Newest(pages.bars, signal, limit, bars)
    ensures bars == Window(history, signal, limit, intervalMs)
  {
    OrderedAscends(history);
    HonestTail(x, history, limit, signal + intervalMs - 1);
    WindowFound(history, pages.bars, limit, signal, intervalMs, bars);
  }

  lemma HonestTail(x: Exchange, history: seq<Kline>, limit: int, firstCursor: int)
    requires limit > 0 && Honest(x.fetch, history)
    ensures var pages := CollectAll(x, limit, firstCursor);
            pages.Pages? ==> IsTail(history, Upto(history, firstCursor), limit, pages.bars)
  {
    HonestPages(x, history, limit, firstCursor);
  }

  lemma NothingYet(history: seq<Kline>, pageSize: nat, limit: nat, cursor: int)
    ensures Progress(history, [], Upto(history, cursor), 0, pageSize, limit, cursor)
  {
    assert history[Upto(history, cursor)..Upto(history, cursor)] == [];
  }

  // The last `limit` of the first `last` bars.
  ghost predicate IsTail(history: seq<Kline>, last: nat, limit: nat, bars: seq<Kline>) {
    last <= |history| && bars == history[last - Min(limit, last)..last]
  }

  lemma PagesPositive(limit: int)
    requires limit > 0
    ensures 1 <= PagesNeeded(limit) && (PagesNeeded(limit) - 1) * PageSize(limit) < limit <= PagesNeeded(limit) * PageSize(limit)
  {
    var size := PageSize(limit);
    var n := PagesNeeded(limit);
    assert n * size <= limit + size - 1 < n * size + size;
    assert (n - 1) * size == n * size - size;
  }

  // What so many full pages hold.
  function Planned(page: nat, pageSize: nat, limit: nat): nat {
    if page == 0 then 0 else Min(Planned(page - 1, pageSize, limit) + pageSize, limit)
  }

  lemma {:induction false} PlannedMeaning(page: nat, pageSize: nat, limit: nat)
    ensures Planned(page, pageSize, limit) == Min(page * pageSize, limit)
  {
    if page > 0 {
      PlannedMeaning(page - 1, pageSize, limit);
      assert page * pageSize == (page - 1) * pageSize + pageSize;
    }
  }

  lemma {:induction false} PlannedMonotone(p: nat, q: nat, pageSize: nat, limit: nat)
    requires p <= q
    ensures Planned(p, pageSize, limit) <= Planned(q, pageSize, limit)
    decreases q
  {
    if p < q {
      PlannedMonotone(p, q - 1, pageSize, limit);
      PlannedMeaning(q - 1, pageSize, limit);
    }
  }

  /** Only the last page completes the plan. */
  lemma PlanCompletes(limit: nat)
    requires limit > 0
    ensures PagesNeeded(limit) >= 1 && Plan(limit, PageSize(limit), PagesNeeded(limit))
    ensures Planned(PagesNeeded(limit) - 1, PageSize(limit), limit) == (PagesNeeded(limit) - 1) * PageSize(limit)
  {
    PagesPositive(limit);
    PlannedMeaning(PagesNeeded(limit), PageSize(limit), limit);
    PlannedMeaning(PagesNeeded(limit) - 1, PageSize(limit), limit);
    forall page: nat | page < PagesNeeded(limit)
      ensures InPlan(page, PageSize(limit), limit, PagesNeeded(limit))
    {
      PlannedMonotone(page, PagesNeeded(limit) - 1, PageSize(limit), limit);
    }
  }

  // After some pages from an honest server: the bars just before `last`, as many as the pages hold.
  ghost predicate Progress(history: seq<Kline>, accumulated: seq<Kline>, last: nat, page: nat, pageSize: nat, limit: nat, cursor: int) {
    && last <= |history| && |accumulated| == Min(Planned(page, pageSize, limit), last)
    && accumulated == history[last - |accumulated|..last]
    && Upto(history, cursor) == last - |accumulated|
    && (page > 0 ==> Planned(page - 1, pageSize, limit) < last)
  }

  lemma PageStep(history: seq<Kline>, accumulated: seq<Kline>, last: nat, page: nat, pageSize: nat, limit: nat, cursor: int)
    requires Ordered(history) && Progress(history, accumulated, last, page, pageSize, limit, cursor)
    requires pageSize > 0 && Planned(page, pageSize, limit) < limit && |accumulated| < last
    ensures var bars := NextPage(history, accumulated, last, pageSize, limit);
            && bars != []
            && Progress(history, bars + accumulated, last, page + 1, pageSize, limit, bars[0].openTime - 1)
  {
    var left := last - |accumulated|;
    var first := left - Min(Min(pageSize, limit - |accumulated|), left);
    BeforeBar(history, first);
    PageJoins(history, accumulated, last, page, pageSize, limit, cursor, first);
  }

  // The bars before one of them are those that open before it.
  lemma BeforeBar(history: seq<Kline>, first: nat)
    requires Ordered(history) && first < |history|
    ensures Upto(history, history[first].openTime - 1) == first
  {
    OrderedAscends(history);
    UptoSplits(history, history[first].openTime - 1, first);
  }

  lemma PageJoins(history: seq<Kline>, accumulated: seq<Kline>, last: nat, page: nat, pageSize: nat, limit: nat, cursor: int, first: nat)
    requires Progress(history, accumulated, last, page, pageSize, limit, cursor)
    requires pageSize > 0 && Planned(page, pageSize, limit) < limit && |accumulated| < last
    requires first == last - |accumulated| - Min(Min(pageSize, limit - |accumulated|), last - |accumulated|)
    requires Upto(history, history[first].openTime - 1) == first
    ensures var bars := NextPage(history, accumulated, last, pageSize, limit);
            && bars != []
            && Progress(history, bars + accumulated, last, page + 1, pageSize, limit, bars[0].openTime - 1)
  {
    SliceJoin(history, first, last - |accumulated|, last);
  }

  lemma SliceJoin<T>(s: seq<T>, i: nat, j: nat, k: nat)
    requires i <= j <= k <= |s|
    ensures s[i..j] + s[j..k] == s[i..k]
  {}

  lemma AnswerStep(fetch: (nat, int, int) -> Page, history: seq<Kline>, accumulated: seq<Kline>, last: nat, page: nat, pageSize: nat,
                   limit: nat, cursor: int)
    returns (bars: seq<Kline>)
    requires Honest(fetch, history) && Progress(history, accumulated, last, page, pageSize, limit, cursor)
    requires pageSize > 0 && Planned(page, pageSize, limit) < limit
    ensures |accumulated| < limit && fetch(page, Min(pageSize, limit - |accumulated|), cursor) == Bars(bars)
    ensures bars == [] ==> last <= Planned(page, pageSize, limit)
    ensures bars != [] ==> Progress(history, bars + accumulated, last, page + 1, pageSize, limit, bars[0].openTime - 1)
  {
    bars := NextPage(history, accumulated, last, pageSize, limit);
    PageServed(fetch, history, page, Min(pageSize, limit - |accumulated|), cursor);
    if |accumulated| < last {
      PageStep(history, accumulated, last, page, pageSize, limit, cursor);
    }
  }

  // The bars just before the ones there are, as many as fit a page.
  function NextPage(history: seq<Kline>, accumulated: seq<Kline>, last: nat, pageSize: nat, limit: nat): seq<Kline>
    requires |accumulated| <= last <= |history| && |accumulated| <= limit
  {
    var left := last - |accumulated|;
    history[left - Min(Min(pageSize, limit - |accumulated|), left)..left]
  }

  lemma PageServed(fetch: (nat, int, int) -> Page, history: seq<Kline>, page: nat, n: nat, cursor: int)
    requires Honest(fetch, history)
    ensures var upto := Upto(history, cursor); fetch(page, n, cursor) == Bars(history[upto - Min(n, upto)..upto])
  {
    assert HonestPage(fetch, history, page, n, cursor);
  }

  // Two lists of the same bars in strictly ascending order are the same list.
  lemma {:induction false} AscendingUnique(xs: seq<Kline>, ys: seq<Kline>)
    requires StrictlyAscending(xs) && StrictlyAscending(ys) && forall b :: b in xs <==> b in ys
    ensures xs == ys
  {
    assert xs != [] ==> xs[0] in ys;
    assert ys != [] ==> ys[0] in xs;
    if xs != [] {
      var x, y := xs[|xs| - 1], ys[|ys| - 1];
      assert x in ys && y in xs;
      assert x == y;
      var front, front' := xs[..|xs| - 1], ys[..|ys| - 1];
      assert xs == front + [x] && ys == front' + [y];
      assert x !in front && x !in front';
      forall b
        ensures b in front <==> b in front'
      {
        assert b in front <==> b in xs && b != x;
        assert b in front' <==> b in ys && b != x;
      }
      AscendingUnique(front, front');
    }
  }

  lemma WindowFound(history: seq<Kline>, accumulated: seq<Kline>, limit: nat, signal: int, intervalMs: int, bars: seq<Kline>)
    requires limit > 0 && intervalMs > 0
    requires StrictlyAscending(history) && (forall b | b in history :: b.isClosed)
    requires IsTail(history, Upto(history, signal + intervalMs - 1), limit, accumulated)
    requires Newest(accumulated, signal, limit, bars)
    ensures bars == Window(history, signal, limit, intervalMs)
  {
    var window := Window(history, signal, limit, intervalMs);
    WindowEligible(history, accumulated, limit, signal, intervalMs);
    forall b
      ensures b in window <==> b in bars
    {
      if b in window {
        NothingMissing(accumulated, signal, limit, bars, b);
      }
    }
    AscendingUnique(bars, window);
  }

  // The window holds the eligible bars of the pages.
  lemma WindowEligible(history: seq<Kline>, accumulated: seq<Kline>, limit: nat, signal: int, intervalMs: int)
    requires limit > 0 && intervalMs > 0 && StrictlyAscending(history) && (forall b | b in history :: b.isClosed)
    requires IsTail(history, Upto(history, signal + intervalMs - 1), limit, accumulated)
    ensures StrictlyAscending(accumulated) && |accumulated| <= limit
    ensures forall b :: b in Window(history, signal, limit, intervalMs) <==> b in accumulated && Eligible(b, signal)
    ensures StrictlyAscending(Window(history, signal, limit, intervalMs))
  {
    var last, window := Upto(history, signal + intervalMs - 1), Window(history, signal, limit, intervalMs);
    UptoMonotone(history, signal, signal + intervalMs - 1);
    var start := last - |accumulated|;
    if start <= Upto(history, signal) {
      SlicePrefix(history, start, Upto(history, signal), last);
    }
    assert window == accumulated[..|window|];
    SliceEligible(history, start, last, |window|, signal);
    PrefixMembers(accumulated, |window|, signal);
    SliceAscending(history, start, last);
    SliceAscending(accumulated, 0, |window|);
  }

  lemma SlicePrefix<T>(s: seq<T>, i: nat, j: nat, k: nat)
    requires i <= j <= k <= |s|
    ensures s[i..k][..j - i] == s[i..j]
  {}

  lemma SliceAscending(history: seq<Kline>, i: nat, j: nat)
    requires StrictlyAscending(history) && i <= j <= |history|
    ensures StrictlyAscending(history[i..j])
  {}

  lemma SliceEligible(history: seq<Kline>, start: nat, last: nat, n: nat, signal: int)
    requires StrictlyAscending(history) && (forall b | b in history :: b.isClosed) && start <= last <= |history|
    requires n == if start <= Upto(history, signal) then Upto(history, signal) - start else 0
    ensures forall k | 0 <= k < last - start :: k < n <==> Eligible(history[start..last][k], signal)
  {
    UptoMeaning(history, signal);
    forall k | 0 <= k < last - start
      ensures k < n <==> Eligible(history[start..last][k], signal)
    {
      assert history[start + k] in history;
    }
  }

  lemma PrefixMembers(bars: seq<Kline>, n: nat, signal: int)
    requires n <= |bars| && forall k | 0 <= k < |bars| :: k < n <==> Eligible(bars[k], signal)
    ensures forall b :: b in bars[..n] <==> b in bars && Eligible(b, signal)
  {
    forall b | b in bars && Eligible(b, signal)
      ensures b in bars[..n]
    {
      var k :| 0 <= k < |bars| && bars[k] == b;
      assert bars[..n][k] == b;
    }
  }

  lemma {:induction false} UptoMonotone(history: seq<Kline>, t: int, u: int)
    requires t <= u
    ensures Upto(history, t) <= Upto(history, u)
  {
    if history != [] {
      UptoMonotone(history[..|history| - 1], t, u);
    }
  }

  // With no more than `limit` bars of distinct open times, nothing eligible is left out.
  lemma NothingMissing(fetched: seq<Kline>, signal: int, limit: nat, bars: seq<Kline>, b: Kline)
    requires Newest(fetched, signal, limit, bars) && StrictlyAscending(fetched) && |fetched| <= limit
    requires b in fetched && Eligible(b, signal)
    ensures b in bars
  {
    if |bars| == limit {
      var kept, all := set x | x in bars, set x | x in fetched;
      Ordering.DistinctSize(fetched);
      Ordering.DistinctSize(bars);
      FullSubset(kept, all);
      assert b in all;
    } else {
      var c :| c in bars && c.openTime == b.openTime;
      var j :| 0 <= j < |fetched| && fetched[j] == c;
      var k :| 0 <= k < |fetched| && fetched[k] == b;
      assert j == k;
    }
  }

  lemma FullSubset<T>(a: set<T>, b: set<T>)
    requires a <= b && |a| >= |b|
    ensures a == b
  {
    assert b == a + (b - a);
  }

  // ----- Complete windows -----

  // No bar opens strictly between the signal and the bar after it.
  ghost predicate Aligned(history: seq<Kline>, signal: int, intervalMs: int) {
    forall b | b in history :: !(signal < b.openTime < signal + intervalMs)
  }

  /** The window is the last min(limit, available) bars up to the signal exactly when no bar opens between the signal and
      its end, or the limit covers the whole history up to there, or nothing opens by the signal. */
  lemma WindowIsComplete(history: seq<Kline>, signal: int, limit: nat, intervalMs: int)
    requires StrictlyAscending(history) && intervalMs > 0 && limit > 0
    ensures var a := Upto(history, signal);
            Window(history, signal, limit, intervalMs) == history[a - Min(limit, a)..a]
            <==> Aligned(history, signal, intervalMs) || Upto(history, signal + intervalMs - 1) <= limit || a == 0
  {
    UptoMeaning(history, signal);
    UptoMeaning(history, signal + intervalMs - 1);
    var a, b := Upto(history, signal), Upto(history, signal + intervalMs - 1);
    UptoMonotone(history, signal, signal + intervalMs - 1);
    if a < b {
      assert history[a] in history && !Aligned(history, signal, intervalMs);
    } else {
      assert Aligned(history, signal, intervalMs);
    }
    var window, full := Window(history, signal, limit, intervalMs), history[a - Min(limit, a)..a];
    if a < b && b > limit && a > 0 {
      assert |window| != |full|;
    }
  }

  /** A signal between two bars of a server with nothing else: asked for one bar, paging returns none, although one had opened. */
  lemma MisalignedLosesBar(first: Kline, second: Kline, signal: int, intervalMs: int)
    requires first.openTime <= signal < second.openTime < signal + intervalMs
    ensures var history := [first, second];
            StrictlyAscending(history) && Upto(history, signal) == 1 && Window(history, signal, 1, intervalMs) == []
  {
    var history := [first, second];
    UptoSplits(history, signal, 1);
    UptoSplits(history, signal + intervalMs - 1, 2);
  }

  // Bars at equal distances, the signal among their open times or before or after all of them by whole distances.
  ghost predicate Spaced(history: seq<Kline>, start: int, intervalMs: int) {
    forall k | 0 <= k < |history| :: history[k].openTime == start + k * intervalMs
  }

  /** Evenly spaced bars are in order, and a signal on their grid is never followed by a bar too early. */
  lemma SpacedAligned(history: seq<Kline>, start: int, intervalMs: int, signal: int, q: int)
    requires intervalMs > 0 && Spaced(history, start, intervalMs) && signal == start + q * intervalMs
    ensures StrictlyAscending(history) && Aligned(history, signal, intervalMs)
  {
    forall i, j | 0 <= i < j < |history|
      ensures history[i].openTime < history[j].openTime
    {
      Multiples(i, j, intervalMs);
    }
    forall b | b in history
      ensures !(signal < b.openTime < signal + intervalMs)
    {
      var k :| 0 <= k < |history| && history[k] == b;
      if k <= q {
        Multiples(k, q, intervalMs);
      } else {
        Multiples(q, k, intervalMs);
      }
    }
  }

  // n bars are more than all pages but the last hold.
  predicate ReachesLastPage(limit: int, n: nat)
    requires limit > 0
  {
    (PagesNeeded(limit) - 1) * PageSize(limit) < n
  }

  // The promise kept: a success is the last min(limit, available) bars, and comes back when it can.
  ghost predicate Exact(x: Exchange, history: seq<Kline>, signal: int, limit: int, maxRequests: int, out: Result) {
    var a := Upto(history, signal);
    && (out.Success? ==> out.bars == if limit <= 0 then [] else history[a - Min(limit, a)..a])
    && (out.Success? ==> limit <= 0 || (PagesNeeded(limit) <= maxRequests && ReachesLastPage(limit, a)))
    && (NeverLate(x) && (limit <= 0 || (PagesNeeded(limit) <= maxRequests && ReachesLastPage(limit, a))) ==> out.Success?)
  }

  /** All together: against an honest server with an evenly spaced history and a signal on its grid, whatever success comes back is
      exactly the last min(limit, available) bars up to the signal. It comes back only if the limit asks for nothing, or the budget
      covers the pages and the history reaches into the last one, and then always, if no page is late. */
  lemma PaginateIsExact(x: Exchange, interval: string, history: seq<Kline>, start: int, q: int, signal: int, limit: int, maxRequests: int,
                        out: Result)
    requires ParseIntervalMs(interval).Some? && Honest(x.fetch, history) && Spaced(history, start, ParseIntervalMs(interval).value)
    requires signal == start + q * ParseIntervalMs(interval).value
    requires Answers(x, interval, signal, limit, maxRequests, out)
    ensures Exact(x, history, signal, limit, maxRequests, out)
  {
    SpacedAligned(history, start, ParseIntervalMs(interval).value, signal, q);
    AlignedIsExact(x, interval, history, signal, limit, maxRequests, out);
  }

  lemma AlignedIsExact(x: Exchange, interval: string, history: seq<Kline>, signal: int, limit: int, maxRequests: int, out: Result)
    requires ParseIntervalMs(interval).Some? && Honest(x.fetch, history) && Aligned(history, signal, ParseIntervalMs(interval).value)
    requires Answers(x, interval, signal, limit, maxRequests, out)
    ensures Exact(x, history, signal, limit, maxRequests, out)
  {
    if limit > 0 {
      PagesPositive(limit);
      if PagesNeeded(limit) <= maxRequests {
        CollectedIsExact(x, history, ParseIntervalMs(interval).value, signal, limit, maxRequests, out);
      } else {
        RefusedIsExact(x, history, signal, limit, maxRequests, out);
      }
    }
  }

  lemma RefusedIsExact(x: Exchange, history: seq<Kline>, signal: int, limit: int, maxRequests: int, out: Result)
    requires limit > 0 && PagesNeeded(limit) > maxRequests && out.Failure?
    ensures Exact(x, history, signal, limit, maxRequests, out)
  {}

  lemma CollectedIsExact(x: Exchange, history: seq<Kline>, intervalMs: int, signal: int, limit: int, maxRequests: int, out: Result)
    requires limit > 0 && intervalMs > 0 && PagesNeeded(limit) <= maxRequests
    requires Honest(x.fetch, history) && Aligned(history, signal, intervalMs)
    requires var pages := CollectAll(x, limit, signal + intervalMs - 1);
             (out.Success? <==> pages.Pages?) && (out.Success? ==> Newest(pages.bars, signal, limit, out.bars))
    ensures Exact(x, history, signal, limit, maxRequests, out)
  {
    OrderedAscends(history);
    AlignedUpto(history, signal, intervalMs);
    AlignedPages(x, history, limit, signal + intervalMs - 1, Upto(history, signal));
    if out.Success? {
      AlignedBars(x, history, intervalMs, signal, limit, out.bars);
    }
  }

  lemma AlignedPages(x: Exchange, history: seq<Kline>, limit: int, cursor: int, a: nat)
    requires limit > 0 && Honest(x.fetch, history) && Upto(history, cursor) == a
    ensures var pages := CollectAll(x, limit, cursor);
            (pages.Pages? ==> ReachesLastPage(limit, a)) && (NeverLate(x) && ReachesLastPage(limit, a) ==> pages.Pages?)
  {
    HonestPages(x, history, limit, cursor);
  }

  lemma AlignedBars(x: Exchange, history: seq<Kline>, intervalMs: int, signal: int, limit: int, bars: seq<Kline>)
    requires limit > 0 && intervalMs > 0 && Honest(x.fetch, history) && Aligned(history, signal, intervalMs)
    requires var pages := CollectAll(x, limit, signal + intervalMs - 1); pages.Pages? && Newest(pages.bars, signal, limit, bars)
    ensures var a := Upto(history, signal); bars == history[a - Min(limit, a)..a]
  {
    OrderedAscends(history);
    HonestPagination(x, history, intervalMs, signal, limit, CollectAll(x, limit, signal + intervalMs - 1), bars);
    WindowIsComplete(history, signal, limit, intervalMs);
  }

  // With nothing between the signal and the bar after it, both cut the history at the same place.
  lemma AlignedUpto(history: seq<Kline>, signal: int, intervalMs: int)
    requires StrictlyAscending(history) && Aligned(history, signal, intervalMs) && intervalMs > 0
    ensures Upto(history, signal + intervalMs - 1) == Upto(history, signal)
  {
    UptoMeaning(history, signal);
    forall k | Upto(history, signal) <= k < |history|
      ensures history[k].openTime > signal + intervalMs - 1
    {
      assert history[k] in history;
    }
    UptoSplits(history, signal + intervalMs - 1, Upto(history, signal));
  }

  lemma Multiples(i: int, j: int, d: int)
    requires i <= j && d > 0
    ensures i * d <= j * d
    ensures i < j ==> i * d + d <= j * d
  {
    var m := j - i;
    assert j * d == i * d + m * d;
    if m > 0 {
      assert m * d == (m - 1) * d + d && (m - 1) * d >= 0;
    }
  }
}
