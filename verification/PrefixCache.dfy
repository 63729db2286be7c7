/** Moving averages from cached prefix sums (src/backtest/indicator_adapters.cpp:36-94). */
module PrefixCache {
  import opened Common

  type Field = Kline -> real

  function Close(k: Kline): real { k.close }

  function High(k: Kline): real { k.high }

  function Low(k: Kline): real { k.low }

  // A buffer as the cache sees it: where it lies in memory, and its bars.
  datatype Buffer = Buffer(address: int, bars: seq<Kline>)

  // ----- Sums -----

  // Sum of the field over the first n bars.
  function SumOf(f: Field, bars: seq<Kline>, n: nat): real
    requires n <= |bars|
  {
    if n == 0 then 0.0 else SumOf(f, bars, n - 1) + f(bars[n - 1])
  }

  // sums[i] is the sum of the first i bars, for every i there is.
  ghost predicate Sums(f: Field, sums: seq<real>, bars: seq<Kline>) {
    |sums| <= |bars| + 1 && forall i | 0 <= i < |sums| :: sums[i] == SumOf(f, bars, i)
  }

  // ----- The cache -----

  datatype Cache = Cache(address: Option<int>, firstOpenTime: int, close: seq<real>, high: seq<real>, low: seq<real>)

  const EMPTY := Cache(None, 0, [], [], [])

  predicate Aligned(c: Cache) { |c.close| == |c.high| == |c.low| }

  predicate NeedsReset(c: Cache, b: Buffer)
    requires b.bars != []
  {
    c.address != Some(b.address) || c.firstOpenTime != b.bars[0].openTime || c.close == [] || |c.close| > |b.bars| + 1
  }

  // Sums carried on from the last one to the end of the bars.
  function Extended(f: Field, sums: seq<real>, bars: seq<Kline>): (r: seq<real>)
    requires 1 <= |sums|
    ensures |r| == if |sums| > |bars| then |sums| else |bars| + 1
    decreases |bars| + 1 - |sums|
  {
    if |sums| > |bars| then sums else Extended(f, sums + [sums[|sums| - 1] + f(bars[|sums| - 1])], bars)
  }

  // All three lists carried on to the end of the bars.
  function Filled(c: Cache, bars: seq<Kline>): Cache
    requires Aligned(c) && c.close != []
  {
    c.(close := Extended(Close, c.close, bars), high := Extended(High, c.high, bars), low := Extended(Low, c.low, bars))
  }

  function Ensured(c: Cache, b: Buffer): (r: Cache)
    requires Aligned(c)
    ensures Aligned(r)
  {
    if b.bars == [] then EMPTY
    else if NeedsReset(c, b) then
      Filled(Cache(Some(b.address), b.bars[0].openTime, [0.0], [0.0], [0.0]), b.bars)
    else
      Filled(c, b.bars)
  }

  // The source pushes onto the three lists in one loop; they do not depend on each other.
  method ExtendSums(f: Field, start: seq<real>, bars: seq<Kline>) returns (sums: seq<real>)
    requires 1 <= |start|
    ensures sums == Extended(f, start, bars)
  {
    sums := start;
    while |sums| <= |bars|
      invariant 1 <= |sums| && Extended(f, sums, bars) == Extended(f, start, bars)
      decreases |bars| + 1 - |sums|
    {
      var i := |sums| - 1;
      sums := sums + [sums[i] + f(bars[i])];
    }
  }

  class PrefixSumCache {
    var address: Option<int>
    var firstOpenTime: int
    var close: seq<real>
    var high: seq<real>
    var low: seq<real>

    function View(): Cache
      reads this
    {
      Cache(address, firstOpenTime, close, high, low)
    }

    constructor ()
      ensures View() == EMPTY
    {
      address, firstOpenTime, close, high, low := None, 0, [], [], [];
    }

    method Ensure(b: Buffer)
      requires Aligned(View())
      modifies this
      ensures View() == Ensured(old(View()), b) && Aligned(View())
    {
      if b.bars == [] {
        address, firstOpenTime, close, high, low := None, 0, [], [], [];
        return;
      }
      if address != Some(b.address) || firstOpenTime != b.bars[0].openTime || close == [] || |close| > |b.bars| + 1 {
        address, firstOpenTime := Some(b.address), b.bars[0].openTime;
        close, high, low := [0.0], [0.0], [0.0];
      }
      close := ExtendSums(Close, close, b.bars);
      high := ExtendSums(High, high, b.bars);
      low := ExtendSums(Low, low, b.bars);
    }
  }

  function SmaCloseTail(c: Cache, n: nat, period: int): real
    requires n < |c.close|
  {
    if period <= 0 || period > n then 0.0 else (c.close[n] - c.close[n - period]) / period as real
  }

  function SmaRange(sums: seq<real>, startIdx: int, endIdx: int): real
    requires endIdx + 1 < |sums|
  {
    if startIdx < 0 || endIdx < startIdx then 0.0 else (sums[endIdx + 1] - sums[startIdx]) / (endIdx - startIdx + 1) as real
  }

  // ----- Exactness -----

  // The cache holds all of the buffer's sums.
  ghost predicate Exact(c: Cache, bars: seq<Kline>) {
    && Aligned(c) && |c.close| == |bars| + 1
    && Sums(Close, c.close, bars) && Sums(High, c.high, bars) && Sums(Low, c.low, bars)
  }

  lemma {:induction false} ExtendedSums(f: Field, sums: seq<real>, bars: seq<Kline>)
    requires 1 <= |sums| <= |bars| + 1
    ensures |Extended(f, sums, bars)| == |bars| + 1 && sums <= Extended(f, sums, bars)
    ensures Sums(f, Extended(f, sums, bars), bars) <==> Sums(f, sums, bars)
    decreases |bars| + 1 - |sums|
  {
    if |sums| <= |bars| {
      var more := sums + [sums[|sums| - 1] + f(bars[|sums| - 1])];
      ExtendedSums(f, more, bars);
      assert forall i | 0 <= i < |sums| :: more[i] == sums[i];
      if Sums(f, sums, bars) {
        assert Sums(f, more, bars);
      }
      if Sums(f, more, bars) {
        assert forall i | 0 <= i < |sums| :: sums[i] == more[i];
      }
    }
  }

  // Two buffers agree in a field over the first n bars exactly when their sums up to n agree.
  lemma {:induction false} SumsAgree(f: Field, a: seq<Kline>, b: seq<Kline>, n: nat)
    requires n <= |a| && n <= |b|
    ensures (forall i | 0 <= i <= n :: SumOf(f, a, i) == SumOf(f, b, i)) <==> (forall i | 0 <= i < n :: f(a[i]) == f(b[i]))
  {
    if n > 0 {
      SumsAgree(f, a, b, n - 1);
      assert SumOf(f, a, n) == SumOf(f, a, n - 1) + f(a[n - 1]) && SumOf(f, b, n) == SumOf(f, b, n - 1) + f(b[n - 1]);
      if forall i | 0 <= i <= n :: SumOf(f, a, i) == SumOf(f, b, i) {
        assert forall i | 0 <= i <= n - 1 :: SumOf(f, a, i) == SumOf(f, b, i);
      }
      if forall i | 0 <= i < n :: f(a[i]) == f(b[i]) {
        assert forall i | 0 <= i < n - 1 :: f(a[i]) == f(b[i]);
      }
    }
  }

  ghost predicate SameField(f: Field, a: seq<Kline>, b: seq<Kline>, n: nat)
    requires n <= |a| && n <= |b|
  {
    forall i | 0 <= i < n :: f(a[i]) == f(b[i])
  }

  // The prices the cache already summed are the buffer's own.
  ghost predicate Extends(before: seq<Kline>, after: seq<Kline>) {
    && |before| <= |after|
    && SameField(Close, before, after, |before|) && SameField(High, before, after, |before|) && SameField(Low, before, after, |before|)
  }

  lemma FieldCarriesOver(f: Field, sums: seq<real>, before: seq<Kline>, after: seq<Kline>)
    requires |sums| == |before| + 1 <= |after| + 1 && Sums(f, sums, before)
    ensures Sums(f, sums, after) <==> SameField(f, before, after, |before|)
  {
    SumsAgree(f, before, after, |before|);
    if Sums(f, sums, after) {
      assert forall i | 0 <= i <= |before| :: SumOf(f, before, i) == sums[i] == SumOf(f, after, i);
    }
    if SameField(f, before, after, |before|) {
      assert forall i | 0 <= i < |sums| :: sums[i] == SumOf(f, before, i) == SumOf(f, after, i);
    }
  }

  /** A cache exact for the previous buffer is exact for the next one exactly when the call resets it or the next buffer
      repeats the prices already summed. */
  lemma ExactAfter(c: Cache, before: seq<Kline>, b: Buffer)
    requires Exact(c, before) && b.bars != []
    ensures Exact(Ensured(c, b), b.bars) <==> NeedsReset(c, b) || Extends(before, b.bars)
  {
    if NeedsReset(c, b) {
      ResetExact(c, b);
    } else {
      ExtendedSums(Close, c.close, b.bars);
      ExtendedSums(High, c.high, b.bars);
      ExtendedSums(Low, c.low, b.bars);
      FieldCarriesOver(Close, c.close, before, b.bars);
      FieldCarriesOver(High, c.high, before, b.bars);
      FieldCarriesOver(Low, c.low, before, b.bars);
    }
  }

  lemma ResetExact(c: Cache, b: Buffer)
    requires Aligned(c) && b.bars != [] && NeedsReset(c, b)
    ensures Exact(Ensured(c, b), b.bars)
  {
    ExtendedSums(Close, [0.0], b.bars);
    ExtendedSums(High, [0.0], b.bars);
    ExtendedSums(Low, [0.0], b.bars);
  }

  function EnsuredAll(calls: seq<Buffer>): (c: Cache)
    ensures Aligned(c)
  {
    if calls == [] then EMPTY else Ensured(EnsuredAll(calls[..|calls| - 1]), calls[|calls| - 1])
  }

  // The call cannot be told from a continuation of the one before it, and is not shorter.
  predicate Continues(before: Buffer, after: Buffer) {
    && before.bars != [] && after.bars != [] && after.address == before.address
    && after.bars[0].openTime == before.bars[0].openTime && |before.bars| <= |after.bars|
  }

  ghost predicate WellUsed(calls: seq<Buffer>) {
    forall k | 0 < k < |calls| :: Continues(calls[k - 1], calls[k]) ==> Extends(calls[k - 1].bars, calls[k].bars)
  }

  ghost predicate Remembers(c: Cache, b: Buffer) {
    if b.bars == [] then c == EMPTY
    else Exact(c, b.bars) && c.address == Some(b.address) && c.firstOpenTime == b.bars[0].openTime
  }

  /** After any sequence of calls in which a buffer that looks like a continuation is one, the sums are the last buffer's. */
  lemma {:induction false} CacheStaysExact(calls: seq<Buffer>)
    requires WellUsed(calls) && calls != []
    ensures Remembers(EnsuredAll(calls), calls[|calls| - 1])
  {
    var front, b := calls[..|calls| - 1], calls[|calls| - 1];
    if b.bars != [] {
      var c := EnsuredAll(front);
      if NeedsReset(c, b) {
        ResetExact(c, b);
      } else {
        assert front != [];
        CacheStaysExact(front);
        var before := front[|front| - 1];
        assert before == calls[|calls| - 2];
        assert Continues(before, b);
        ExactAfter(c, before.bars, b);
      }
    }
  }

  function AddUp(prices: seq<real>): real { if prices == [] then 0.0 else prices[0] + AddUp(prices[1..]) }

  function Closes(bars: seq<Kline>): seq<real> { seq(|bars|, i requires 0 <= i < |bars| => bars[i].close) }

  function Highs(bars: seq<Kline>): seq<real> { seq(|bars|, i requires 0 <= i < |bars| => bars[i].high) }

  function Lows(bars: seq<Kline>): seq<real> { seq(|bars|, i requires 0 <= i < |bars| => bars[i].low) }

  lemma {:induction false} RangeAddsUp(f: Field, bars: seq<Kline>, lo: nat, hi: nat, prices: seq<real>)
    requires lo <= hi <= |bars| && |prices| == |bars| && forall i | 0 <= i < |bars| :: prices[i] == f(bars[i])
    ensures SumOf(f, bars, hi) - SumOf(f, bars, lo) == AddUp(prices[lo..hi])
    decreases hi - lo
  {
    if lo < hi {
      RangeAddsUp(f, bars, lo + 1, hi, prices);
      assert prices[lo..hi][1..] == prices[lo + 1..hi];
    }
  }

  /** The tail average read from an exact cache is the mean of the last closes, and zero when there are fewer. */
  lemma TailIsMean(c: Cache, bars: seq<Kline>, period: int)
    requires Exact(c, bars)
    ensures SmaCloseTail(c, |bars|, period) ==
            if 0 < period <= |bars| then AddUp(Closes(bars)[|bars| - period..]) / period as real else 0.0
  {
    if 0 < period <= |bars| {
      RangeAddsUp(Close, bars, |bars| - period, |bars|, Closes(bars));
      assert Closes(bars)[|bars| - period..|bars|] == Closes(bars)[|bars| - period..];
    }
  }

  /** The range averages are the means of the highs and of the lows of the range, and zero for an empty one. */
  lemma RangesAreMeans(c: Cache, bars: seq<Kline>, startIdx: int, endIdx: int)
    requires Exact(c, bars) && endIdx < |bars|
    ensures if 0 <= startIdx <= endIdx then
              && SmaRange(c.high, startIdx, endIdx) == AddUp(Highs(bars)[startIdx..endIdx + 1]) / (endIdx - startIdx + 1) as real
              && SmaRange(c.low, startIdx, endIdx) == AddUp(Lows(bars)[startIdx..endIdx + 1]) / (endIdx - startIdx + 1) as real
            else SmaRange(c.high, startIdx, endIdx) == SmaRange(c.low, startIdx, endIdx) == 0.0
  {
    if 0 <= startIdx <= endIdx {
      RangeAddsUp(High, bars, startIdx, endIdx + 1, Highs(bars));
      RangeAddsUp(Low, bars, startIdx, endIdx + 1, Lows(bars));
    }
  }

  /** A last bar that changes in place goes unnoticed: the cached average stays the old price. */
  lemma RewrittenBarIsMissed(address: int, bar: Kline, before: real, after: real)
    requires before != after
    ensures var a, b := Buffer(address, [bar.(close := before)]), Buffer(address, [bar.(close := after)]);
            var c := EnsuredAll([a, b]);
            |c.close| == 2 && SmaCloseTail(c, 1, 1) == before && !WellUsed([a, b])
  {
    var a, b := Buffer(address, [bar.(close := before)]), Buffer(address, [bar.(close := after)]);
    assert [a, b][..1] == [a] && [a][..0] == [];
    ResetExact(EMPTY, a);
    assert EnsuredAll([a]) == Ensured(EMPTY, a);
    var c := EnsuredAll([a]);
    assert c.close[1] == SumOf(Close, a.bars, 1) == before && c.close[0] == 0.0;
    assert EnsuredAll([a, b]) == Ensured(c, b);
    assert Close(a.bars[0]) != Close(b.bars[0]);
    assert Continues([a, b][0], [a, b][1]);
    assert !SameField(Close, a.bars, b.bars, 1);
  }
}
