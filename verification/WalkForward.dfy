/** Partitioning a window and cutting walk-forward folds from it (src/backtest/walk_forward.cpp). */
module WalkForward {
  import opened Common

  datatype Partitions<T> = Partitions(prompt: seq<T>, calibration: seq<T>, signal: Option<T>, valid: bool)

  datatype Fold<T> = Fold(inSample: seq<T>, outOfSample: seq<T>)

  // ----- Prompt, calibration, signal -----

  function Clamp01(x: real): real { if x < 0.0 then 0.0 else if x > 1.0 then 1.0 else x }

  // The prompt's share of the bars before the signal.
  function Share(available: nat, fraction: real): int { (available as real * Clamp01(fraction)).Floor }

  lemma ShareBounds(available: nat, fraction: real)
    ensures 0 <= Share(available, fraction) <= available
  {
    var share := available as real * Clamp01(fraction);
    assert 0.0 <= share;
    assert share <= available as real * 1.0;
  }

  /** The share is that fraction of the bars, rounded down; no bars for a fraction below zero, all of them above one. */
  lemma ShareIsFraction(available: nat, fraction: real)
    ensures fraction <= 0.0 ==> Share(available, fraction) == 0
    ensures fraction >= 1.0 ==> Share(available, fraction) == available
    ensures 0.0 <= fraction <= 1.0 ==>
              Share(available, fraction) as real <= available as real * fraction < Share(available, fraction) as real + 1.0
  {}

  method PromptSize(available: nat, fraction: real) returns (size: nat)
    requires available > 0
    ensures available == 1 ==> size == 0
    ensures available >= 2 ==> 1 <= size < available
    ensures 1 <= Share(available, fraction) < available ==> size == Share(available, fraction)
    ensures available >= 2 && Share(available, fraction) < 1 ==> size == 1
    ensures available >= 2 && Share(available, fraction) >= available ==> size == available - 1
  {
    ShareBounds(available, fraction);
    size := Share(available, fraction);
    if size == 0 && available >= 2 {
      size := 1;
    }
    if size >= available {
      size := available - 1;
    }
  }

  /** The parts are valid exactly from three bars on, and then concatenate to the input; the prompt takes its share of the
      bars before the signal, at least one and not all. */
  method Build<T>(closed: seq<T>, fraction: real) returns (p: Partitions<T>)
    ensures p.valid <==> |closed| >= 3
    ensures p.valid ==> p.signal.Some? && p.prompt + p.calibration + [p.signal.value] == closed
    ensures p.valid ==> p.prompt != [] && p.calibration != []
    ensures p.valid ==>
              var share := Share(|closed| - 1, fraction);
              |p.prompt| == if share < 1 then 1 else if share > |closed| - 2 then |closed| - 2 else share
  {
    p := Partitions([], [], None, false);
    if closed == [] {
      return;
    }
    var signalIdx := |closed| - 1;
    p := p.(signal := Some(closed[signalIdx]));
    if signalIdx == 0 {
      return;
    }
    var promptSize := PromptSize(signalIdx, fraction);
    var prompt, calibration: seq<T> := [], [];
    for i := 0 to promptSize
      invariant prompt == closed[..i]
    {
      prompt := prompt + [closed[i]];
    }
    for i := promptSize to signalIdx
      invariant calibration == closed[promptSize..i]
    {
      calibration := calibration + [closed[i]];
    }
    PartsJoin(closed, promptSize);
    p := Partitions(prompt, calibration, p.signal, calibration != [] && prompt != []);
  }

  lemma PartsJoin<T>(closed: seq<T>, promptSize: nat)
    requires promptSize < |closed|
    ensures closed[..promptSize] + closed[promptSize..|closed| - 1] + [closed[|closed| - 1]] == closed
  {}

  // ----- Folds -----

  // Bars skipped at the front, blocks in the first in-sample slice, bars in a block.
  datatype Cut = Cut(start: nat, blocks: nat, size: nat)

  // Rounded half up, and at least one.
  function Blocks(isFraction: real): nat
    requires 0.0 < isFraction < 1.0
  {
    var n := (isFraction / (1.0 - isFraction) + 0.5).Floor;
    if n < 1 then 1 else n
  }

  /** The first in-sample slice is the nearest whole number of out-of-sample slices, at least one, to its fraction of the two:
      isFraction : (1 - isFraction). */
  lemma BlocksNearest(isFraction: real)
    requires 0.0 < isFraction < 1.0
    ensures var b, rest := Blocks(isFraction), 1.0 - isFraction;
            && b >= 1 && 2.0 * isFraction < (2 * b + 1) as real * rest
            && (b > 1 || 2.0 * isFraction >= rest ==> (2 * b - 1) as real * rest <= 2.0 * isFraction)
  {
    var rest, b := 1.0 - isFraction, Blocks(isFraction);
    var q := isFraction / rest;
    assert q * rest == isFraction;
    var n := (q + 0.5).Floor;
    assert n as real - 0.5 <= q < n as real + 0.5;
    Scales(n as real - 0.5, q, rest);
    ScalesStrictly(q, b as real + 0.5, rest);
    if 2.0 * isFraction >= rest {
      assert q >= 0.5 by {
        if q < 0.5 {
          ScalesStrictly(q, 0.5, rest);
        }
      }
    }
  }

  lemma Scales(a: real, b: real, c: real)
    requires a <= b && c > 0.0
    ensures a * c <= b * c
  {}

  lemma ScalesStrictly(a: real, b: real, c: real)
    requires a < b && c > 0.0
    ensures a * c < b * c
  {}

  function End(c: Cut, k: nat): nat { c.start + Bars(c.blocks + k, c.size) }

  function Bars(blocks: nat, size: nat): nat { blocks * size }

  ghost predicate IsFold<T>(window: seq<T>, c: Cut, k: nat, fold: Fold<T>) {
    && c.start <= End(c, k) <= End(c, k + 1) <= |window|
    && fold.inSample == window[c.start..End(c, k)] && fold.outOfSample == window[End(c, k)..End(c, k + 1)]
  }

  // The folds of a cut that ends with the window.
  ghost predicate AreFolds<T>(window: seq<T>, c: Cut, folds: seq<Fold<T>>) {
    && c.blocks >= 1 && c.size >= 1 && End(c, |folds|) == |window|
    && forall k | 0 <= k < |folds| :: IsFold(window, c, k, folds[k])
  }

  predicate CanSplit(n: nat, numFolds: int, isFraction: real) {
    n > 0 && numFolds > 0 && 0.0 < isFraction < 1.0 && Blocks(isFraction) + numFolds <= n
  }

  /** Either no folds, or exactly the number asked for, cut from the end of the window; folds come out exactly when there is
      at least one bar for each block. */
  method Split<T>(window: seq<T>, numFolds: int, isFraction: real) returns (folds: seq<Fold<T>>, cut: Cut)
    ensures folds == [] <==> !CanSplit(|window|, numFolds, isFraction)
    ensures folds != [] ==> |folds| == numFolds && AreFolds(window, cut, folds) && cut.blocks == Blocks(isFraction)
    ensures folds != [] ==> cut.size == |window| / (cut.blocks + numFolds) && cut.start < cut.blocks + numFolds
  {
    folds, cut := [], Cut(0, 0, 0);
    if window == [] || numFolds <= 0 || isFraction <= 0.0 || isFraction >= 1.0 {
      return;
    }
    var n, blocks := |window|, Blocks(isFraction);
    var size := if n / (blocks + numFolds) < 1 then 1 else n / (blocks + numFolds);
    BlocksFit(n, blocks + numFolds, size);
    if Bars(blocks + numFolds, size) > n {
      return;
    }
    cut := Cut(n - Bars(blocks + numFolds, size), blocks, size);
    for k := 0 to numFolds
      invariant |folds| == k
      invariant forall j | 0 <= j < k :: IsFold(window, cut, j, folds[j])
    {
      BarsMonotone(blocks + k, blocks + k + 1, size);
      BarsMonotone(blocks + k + 1, blocks + numFolds, size);
      folds := folds + [Fold(window[cut.start..End(cut, k)], window[End(cut, k)..End(cut, k + 1)])];
    }
  }

  lemma BlocksFit(n: nat, parts: nat, size: nat)
    requires parts >= 1 && size == if n / parts < 1 then 1 else n / parts
    ensures Bars(parts, size) <= n <==> parts <= n
    ensures parts <= n ==> size == n / parts && n - Bars(parts, size) < parts
  {
    assert parts * (n / parts) + n % parts == n;
    if parts <= n {
      assert n / parts >= 1;
    } else {
      assert n / parts == 0;
      assert Bars(parts, 1) == parts;
    }
  }

  lemma BarsNext(blocks: nat, size: nat)
    ensures Bars(blocks + 1, size) == Bars(blocks, size) + size
  {}

  lemma BarsMonotone(a: nat, b: nat, size: nat)
    requires a <= b
    ensures Bars(a, size) <= Bars(b, size)
  {
    assert b * size == a * size + (b - a) * size;
  }

  // ----- Properties -----

  /** Each fold's in-sample slice is the previous one with the previous out-of-sample slice added. */
  lemma InSampleGrows<T>(window: seq<T>, c: Cut, folds: seq<Fold<T>>, k: nat)
    requires AreFolds(window, c, folds) && k + 1 < |folds|
    ensures folds[k + 1].inSample == folds[k].inSample + folds[k].outOfSample
  {
    assert IsFold(window, c, k, folds[k]) && IsFold(window, c, k + 1, folds[k + 1]);
  }

  function OutOfSample<T>(folds: seq<Fold<T>>): seq<T> {
    if folds == [] then [] else OutOfSample(folds[..|folds| - 1]) + folds[|folds| - 1].outOfSample
  }

  /** The out-of-sample slices, in order, are the tail of the window, each of the same size. */
  lemma {:induction false} SlicesTileTail<T>(window: seq<T>, c: Cut, folds: seq<Fold<T>>)
    requires AreFolds(window, c, folds)
    ensures OutOfSample(folds) == window[End(c, 0)..]
    ensures forall k | 0 <= k < |folds| :: |folds[k].outOfSample| == c.size
  {
    TilesUpTo(window, c, folds, |folds|);
    assert folds[..|folds|] == folds;
    forall k | 0 <= k < |folds|
      ensures |folds[k].outOfSample| == c.size
    {
      assert IsFold(window, c, k, folds[k]);
      BarsNext(c.blocks + k, c.size);
    }
  }

  lemma {:induction false} TilesUpTo<T>(window: seq<T>, c: Cut, folds: seq<Fold<T>>, n: nat)
    requires AreFolds(window, c, folds) && n <= |folds|
    ensures End(c, 0) <= End(c, n) <= |window| && OutOfSample(folds[..n]) == window[End(c, 0)..End(c, n)]
  {
    BarsMonotone(c.blocks, c.blocks + n, c.size);
    BarsMonotone(c.blocks + n, c.blocks + |folds|, c.size);
    if n > 0 {
      TilesUpTo(window, c, folds, n - 1);
      assert IsFold(window, c, n - 1, folds[n - 1]);
      assert folds[..n][..n - 1] == folds[..n - 1];
      SliceJoin(window, End(c, 0), End(c, n - 1), End(c, n));
    }
  }

  lemma SliceJoin<T>(s: seq<T>, i: nat, j: nat, k: nat)
    requires i <= j <= k <= |s|
    ensures s[i..j] + s[j..k] == s[i..k]
  {}

  /** No fold trains on bars it or a later fold is judged on: in-sample slice k lies wholly before out-of-sample slice j >= k. */
  lemma TrainsOnlyOnThePast<T>(window: seq<T>, c: Cut, folds: seq<Fold<T>>, k: nat, j: nat)
    requires AreFolds(window, c, folds) && k <= j < |folds|
    ensures folds[k].inSample == window[c.start..End(c, k)] && folds[j].outOfSample == window[End(c, j)..End(c, j + 1)]
    ensures c.start < End(c, k) <= End(c, j) < End(c, j + 1)
  {
    assert IsFold(window, c, k, folds[k]) && IsFold(window, c, j, folds[j]);
    BarsMonotone(c.blocks + k, c.blocks + j, c.size);
    BarsNext(c.blocks + j, c.size);
    BarsMonotone(1, c.blocks + k, c.size);
  }

  /** Later folds do train on earlier out-of-sample slices: slice j sits inside the in-sample slice of every k > j. */
  lemma LaterInSampleAbsorbs<T>(window: seq<T>, c: Cut, folds: seq<Fold<T>>, j: nat, k: nat)
    requires AreFolds(window, c, folds) && j < k < |folds|
    ensures var at := End(c, j) - c.start;
            at + c.size <= |folds[k].inSample| && folds[k].inSample[at..at + c.size] == folds[j].outOfSample
    ensures folds[j].outOfSample != []
  {
    assert IsFold(window, c, k, folds[k]) && IsFold(window, c, j, folds[j]);
    BarsMonotone(c.blocks + j + 1, c.blocks + k, c.size);
    BarsNext(c.blocks + j, c.size);
    SliceWithin(window, c.start, End(c, k), End(c, j), End(c, j + 1));
  }

  lemma SliceWithin<T>(s: seq<T>, lo: nat, end: nat, i: nat, j: nat)
    requires lo <= i <= j <= end <= |s|
    ensures s[lo..end][i - lo..j - lo] == s[i..j]
  {
    var part := s[lo..end][i - lo..j - lo];
    assert |part| == j - i && forall k | 0 <= k < j - i :: part[k] == s[i + k];
  }

  /** Folds of a valid partition's calibration window see neither prompt nor signal bars: in the whole input their slices
      start after the prompt and end before the signal. */
  lemma FoldsAvoidPromptAndSignal<T>(closed: seq<T>, p: Partitions<T>, c: Cut, folds: seq<Fold<T>>, k: nat)
    requires p.signal.Some? && p.prompt + p.calibration + [p.signal.value] == closed
    requires AreFolds(p.calibration, c, folds) && k < |folds|
    ensures var offset := |p.prompt|;
            && offset + End(c, k + 1) <= |closed| - 1
            && folds[k].inSample == closed[offset + c.start..offset + End(c, k)]
            && folds[k].outOfSample == closed[offset + End(c, k)..offset + End(c, k + 1)]
  {
    assert IsFold(p.calibration, c, k, folds[k]);
    SliceInside(closed, p.prompt, p.calibration, p.signal.value, c.start, End(c, k));
    SliceInside(closed, p.prompt, p.calibration, p.signal.value, End(c, k), End(c, k + 1));
  }

  lemma SliceInside<T>(closed: seq<T>, prompt: seq<T>, calibration: seq<T>, signal: T, lo: nat, hi: nat)
    requires closed == prompt + calibration + [signal] && lo <= hi <= |calibration|
    ensures |prompt| + hi <= |closed| - 1 && calibration[lo..hi] == closed[|prompt| + lo..|prompt| + hi]
  {}
}
