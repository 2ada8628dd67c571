/**
 The playback jitter buffer of src/client.rs: a bounded ring that overwrites its oldest samples, a
 30-bin histogram of buffered levels that `try_shrink` sweeps in place every 12 seconds, and the
 amount it then drops. The ring itself is foreign code and is modelled as a sequence.
 */
module AudioBuffer {
  import opened Common

  const AUDIO_BUFFER_MS := 3000
  const SHRINK_INTERVAL_MS := 12000
  const BINS := 30

  /** Durations of the audio device are in nanoseconds. */
  const MILLI := 1_000_000

  // ---------------------------------------------------------------------------
  // The histogram sweep
  // ---------------------------------------------------------------------------

  /** Number of empty bins before the first used one. */
  function LeadingZeros(h: seq<nat>): (n: nat)
    ensures n <= |h| && (forall i :: 0 <= i < n ==> h[i] == 0) && (n < |h| ==> h[n] != 0)
  {
    if h == [] || h[0] != 0 then 0 else 1 + LeadingZeros(h[1..])
  }

  /** `m` is the first bin with the largest count among bins 1 to n - 1, or 0 if these are all empty. */
  ghost predicate IsFirstArgmax(h: seq<nat>, n: nat, m: nat)
    requires n <= |h|
  {
    && (m == 0 ==> forall j :: 1 <= j < n ==> h[j] == 0)
    && (m != 0 ==>
          && m < n && h[m] > 0
          && (forall j :: 1 <= j < n ==> h[j] <= h[m])
          && (forall j :: 1 <= j < m ==> h[j] < h[m]))
  }

  /** The bin the code calls `max`: bin 0 takes no part, because the sweep clears it first. */
  function FirstArgmax(h: seq<nat>, n: nat): (m: nat)
    requires n <= |h|
    ensures IsFirstArgmax(h, n, m)
  {
    if n <= 1 then 0
    else
      var m := FirstArgmax(h, n - 1);
      if h[n - 1] > (if m == 0 then 0 else h[m]) then n - 1 else m
  }

  /** What the sweep leaves behind after bins 0 to i - 1. */
  ghost predicate Swept(before: seq<nat>, now: seq<nat>, i: nat, max: nat)
    requires i <= |before|
  {
    && |now| == |before| && (i == 0 ==> max == 0)
    && IsFirstArgmax(before, i, max)
    && (forall j :: 0 <= j < i && j != max ==> now[j] == 0)
    && (forall j :: i <= j < |now| ==> now[j] == before[j])
    && (0 < i && max == 0 ==> now[0] == 0)
    && (max != 0 ==> now[max] == before[max])
  }

  method Sweep(h: array<nat>) returns (zero: nat, max: nat)
    requires h.Length == BINS
    modifies h
    ensures zero == LeadingZeros(old(h[..]))
    ensures max == FirstArgmax(old(h[..]), BINS)
    ensures forall i :: 0 <= i < BINS ==> h[i] == 0
  {
    zero, max := 0, 0;
    for i := 0 to BINS
      invariant zero <= i && (forall j :: 0 <= j < zero ==> old(h[..])[j] == 0)
      invariant zero < i ==> old(h[..])[zero] != 0
      invariant Swept(old(h[..]), h[..], i, max)
    {
      if h[i] == 0 && zero == i {
        zero := zero + 1;
      }
      if h[i] > h[max] {
        h[max] := 0;
        max := i;
      } else {
        h[i] := 0;
      }
    }
    h[max] := 0;
  }

  // ---------------------------------------------------------------------------
  // What the histogram says about the levels, and how much may be dropped
  // ---------------------------------------------------------------------------

  /** One recorded level, with the samples per second in force when it was recorded. */
  datatype Level = Level(having: nat, rate: nat)

  function Bin(having: nat, rate: nat): nat
    requires rate > 0
  {
    var i := having * 10 / rate;
    if i > 29 then 29 else i
  }

  function CountBin(window: seq<Level>, b: nat): nat
    requires forall w :: w in window ==> w.rate > 0
  {
    if window == [] then 0
    else
      var last := window[|window| - 1];
      CountBin(window[..|window| - 1], b) + if Bin(last.having, last.rate) == b then 1 else 0
  }

  ghost predicate PositiveRates(window: seq<Level>) {
    forall w :: w in window ==> w.rate > 0
  }

  /** `h` counts the levels of the window. */
  ghost predicate Counts(h: seq<nat>, window: seq<Level>) {
    && |h| == BINS
    && PositiveRates(window)
    && forall b :: 0 <= b < BINS ==> h[b] == CountBin(window, b)
  }

  ghost function HistogramOf(window: seq<Level>): (h: seq<nat>)
    requires PositiveRates(window)
    ensures Counts(h, window) && forall g :: Counts(g, window) ==> g == h
  {
    seq(BINS, b requires 0 <= b => CountBin(window, b))
  }

  lemma CountAppend(window: seq<Level>, w: Level, b: nat)
    requires PositiveRates(window) && w.rate > 0
    ensures PositiveRates(window + [w])
    ensures CountBin(window + [w], b) == CountBin(window, b) + if Bin(w.having, w.rate) == b then 1 else 0
  {
    assert (window + [w])[..|window|] == window;
  }

  lemma RecordLevel(h: seq<nat>, window: seq<Level>, w: Level)
    requires Counts(h, window) && w.rate > 0
    ensures var i := Bin(w.having, w.rate);
            Counts(h[i := h[i] + 1], window + [w])
  {
    var i := Bin(w.having, w.rate);
    assert forall v :: v in window + [w] ==> v in window || v == w;
    forall b | 0 <= b < BINS ensures h[i := h[i] + 1][b] == CountBin(window + [w], b) {
      CountAppend(window, w, b);
    }
  }

  lemma {:induction false} RecordedBinIsUsed(window: seq<Level>, k: nat)
    requires PositiveRates(window) && k < |window|
    ensures CountBin(window, Bin(window[k].having, window[k].rate)) > 0
    decreases |window|
  {
    if k < |window| - 1 {
      assert window[..|window| - 1][k] == window[k];
      RecordedBinIsUsed(window[..|window| - 1], k);
    }
  }

  /** No recorded level lies in a bin below the leading-zero prefix. */
  lemma LevelsAboveZeros(h: seq<nat>, window: seq<Level>, w: Level)
    requires Counts(h, window) && w in window
    ensures LeadingZeros(h) <= Bin(w.having, w.rate) <= 29
  {
    var k :| 0 <= k < |window| && window[k] == w;
    RecordedBinIsUsed(window, k);
  }

  /** `(x + 1) & !1`. */
  function RoundUpEven(x: nat): nat {
    x + 1 - (x + 1) % 2
  }

  /** The amount `try_shrink` wants to skip, from the two water marks of the sweep. */
  function DropSize(capacity: nat, zero: nat, max: nat): nat {
    var z := zero * 2 / 3;
    if max < 6 then 0
    else RoundUpEven(capacity * (if max > z * 4 then z * 4 else max) / (30 * 4))
  }

  /** The amount it does skip: nothing unless more than three times as much is buffered. */
  ghost function ActualDrop(capacity: nat, buffered: nat, window: seq<Level>): nat
    requires PositiveRates(window)
  {
    var h := HistogramOf(window);
    var drop := DropSize(capacity, LeadingZeros(h), FirstArgmax(h, BINS));
    if buffered > drop * 3 then drop else 0
  }

  /** Before rounding, the drop is at most 2/30 of a second of playback per empty bin. */
  lemma DropBelowZeros(rate: nat, zero: nat, m: nat)
    requires m <= zero * 2 / 3 * 4
    ensures 30 * (3 * rate * m / 120) <= 2 * zero * rate
  {
    var z := zero * 2 / 3;
    calc <= {
      3 * rate * m;
      { MulMono(m, z * 4, 3 * rate); assert 3 * rate * m == m * (3 * rate); }
      z * 4 * (3 * rate);
      12 * (z * rate);
    }
    calc <= {
      3 * (z * rate);
      (3 * z) * rate;
      { MulMono(3 * z, 2 * zero, rate); }
      2 * zero * rate;
    }
  }

  lemma CancelRate(a: int, b: int, rate: nat)
    requires a * rate <= b * rate && rate > 0
    ensures a <= b
  {
    if a > b {
      MulMono(b + 1, a, rate);
    }
  }

  /** No level lies below the leading empty bins. */
  lemma ZerosBelowLevel(zero: nat, w: Level)
    requires w.rate > 0 && zero <= Bin(w.having, w.rate)
    ensures zero * w.rate <= w.having * 10
  {
    var q := w.having * 10 / w.rate;
    assert q * w.rate <= w.having * 10;
    MulMono(zero, q, w.rate);
  }

  lemma Regroup(a: nat, b: nat, c: nat)
    ensures 2 * a * b * c == a * c * (2 * b)
  {
  }

  lemma Tenths(a: int, b: int, tenA: int, tenB: int)
    requires tenA == 10 * a && tenB == 10 * b && tenA <= tenB
    ensures a <= b
  {
  }

  lemma BoundFromBins(x: nat, rate: nat, zero: nat, w: Level)
    requires w.rate > 0 && zero <= Bin(w.having, w.rate) && 30 * x <= 2 * zero * rate
    ensures 3 * x * w.rate <= 2 * w.having * rate
  {
    ZerosBelowLevel(zero, w);
    var zr, r, h := zero * w.rate, rate, w.having;
    calc <= {
      30 * x * w.rate;
      { MulMono(30 * x, 2 * zero * rate, w.rate); }
      2 * zero * rate * w.rate;
      == { Regroup(zero, rate, w.rate); }
      zr * (2 * r);
      { MulMono(zr, h * 10, 2 * r); }
      h * 10 * (2 * r);
    }
    Tenths(3 * x * w.rate, 2 * w.having * rate, 30 * x * w.rate, h * 10 * (2 * r)) by {
      assert 30 * x * w.rate == 10 * (3 * x * w.rate);
      assert h * 10 * (2 * r) == 10 * (2 * h * r);
    }
  }

  lemma LessOne(drop: int, x: nat, r: nat, bound: int)
    requires drop - 1 <= x && 3 * x * r <= bound
    ensures 3 * (drop - 1) * r <= bound
  {
    MulMono(3 * (drop - 1), 3 * x, r);
  }

  lemma EvenDrop(capacity: nat, zero: nat, max: nat)
    ensures DropSize(capacity, zero, max) % 2 == 0
  {
  }

  lemma DropWithinLevel(zero: nat, rate: nat, max: nat, w: Level)
    requires w.rate > 0 && zero <= Bin(w.having, w.rate)
    ensures var drop: int := DropSize(3 * rate, zero, max);
            drop % 2 == 0 && 3 * (drop - 1) * w.rate <= 2 * w.having * rate
  {
    EvenDrop(3 * rate, zero, max);
    var drop, bound := DropSize(3 * rate, zero, max), 2 * w.having * rate;
    if max < 6 {
      LessOne(drop, 0, w.rate, bound);
    } else {
      var z := zero * 2 / 3;
      var m := if max > z * 4 then z * 4 else max;
      var x := 3 * rate * m / 120;
      DropBelowZeros(rate, zero, m);
      BoundFromBins(x, rate, zero, w);
      LessOne(drop, x, w.rate, bound);
    }
  }

  /** A drop, less one sample, plays for at most two thirds of the time any level of the window plays for. */
  ghost predicate WithinLevels(drop: int, rate: nat, window: seq<Level>) {
    forall w :: w in window ==>
                  && 3 * (drop - 1) * w.rate <= 2 * w.having * rate
                  && (w.rate == rate ==> 3 * drop <= 2 * w.having + 3)
  }

  /**
   The drop bound. The histogram counts every level of the window, so no drop, less the one sample of
   rounding, lasts longer than two thirds of any playback time that was buffered in the window. For a window
   without a resize `w.rate == rate` and this reads `drop <= 2/3 * w.having + 1`; stated in playing time it
   also covers windows with a resize, whose histogram is kept.
   */
  lemma DropBound(window: seq<Level>, rate: nat, buffered: nat)
    requires PositiveRates(window)
    ensures var drop := ActualDrop(3 * rate, buffered, window);
            && drop % 2 == 0 && WithinLevels(drop, rate, window)
            && (drop > 0 ==> buffered - drop > 2 * drop)
  {
    var drop: int := ActualDrop(3 * rate, buffered, window);
    var h := HistogramOf(window);
    var max := if drop == 0 then 0 else FirstArgmax(h, BINS);
    assert drop == DropSize(3 * rate, LeadingZeros(h), max);
    forall w | w in window
      ensures 3 * (drop - 1) * w.rate <= 2 * w.having * rate
      ensures w.rate == rate ==> 3 * drop <= 2 * w.having + 3
    {
      LevelsAboveZeros(h, window, w);
      DropWithinLevel(LeadingZeros(h), rate, max, w);
      if w.rate == rate {
        CancelRate(3 * (drop - 1), 2 * w.having, rate);
      }
    }
  }

  /** The drop when the level `buffered` is recorded after `levels` and the 12 seconds are over. */
  ghost function DropAfter(levels: seq<Level>, buffered: nat, rate: nat): nat
    requires PositiveRates(levels) && rate > 0
  {
    var window := levels + [Level(buffered, rate)];
    assert forall w :: w in window ==> w in levels || w == Level(buffered, rate);
    ActualDrop(3 * rate, buffered, window)
  }

  /** The drop bound for a level recorded when it was the buffered one. */
  lemma DropAfterBound(levels: seq<Level>, buffered: nat, rate: nat)
    requires PositiveRates(levels) && rate > 0
    ensures var drop := DropAfter(levels, buffered, rate);
            && drop % 2 == 0 && WithinLevels(drop, rate, levels + [Level(buffered, rate)])
            && (drop > 0 ==> buffered - drop > 2 * drop)
  {
    var window := levels + [Level(buffered, rate)];
    assert forall w :: w in window ==> w in levels || w == Level(buffered, rate);
    DropBound(window, rate, buffered);
  }

  // ---------------------------------------------------------------------------
  // How much exactly is dropped
  // ---------------------------------------------------------------------------

  /** The level plays for at least `b` and less than `b` + 1 tenths of a second; the last bin has no upper end. */
  ghost predicate PlaysTenths(w: Level, b: nat) {
    b * w.rate <= 10 * w.having && (b == 29 || 10 * w.having < (b + 1) * w.rate) && b <= 29
  }

  lemma QuotientAtLeast(x: nat, r: nat, b: nat)
    requires r > 0
    ensures b * r <= x <==> b <= x / r
  {
    var q := x / r;
    assert r * q <= x < r * q + r;
    MulStrict(q, b, r);
    if b <= q {
      MulMono(b, q, r);
    }
  }

  lemma BinIsTenths(w: Level, b: nat)
    requires w.rate > 0
    ensures Bin(w.having, w.rate) == b <==> PlaysTenths(w, b)
  {
    QuotientAtLeast(w.having * 10, w.rate, b);
    QuotientAtLeast(w.having * 10, w.rate, b + 1);
  }

  /** How many levels of the window play for `b` tenths of a second. */
  ghost function Frequency(window: seq<Level>, b: nat): nat {
    if window == [] then 0
    else Frequency(window[..|window| - 1], b) + if PlaysTenths(window[|window| - 1], b) then 1 else 0
  }

  lemma {:induction false} FrequencyIsCount(window: seq<Level>, b: nat)
    requires PositiveRates(window)
    ensures Frequency(window, b) == CountBin(window, b)
    decreases |window|
  {
    if window != [] {
      FrequencyIsCount(window[..|window| - 1], b);
      BinIsTenths(window[|window| - 1], b);
    }
  }

  /** No level plays for less than `b` tenths of a second, and some level for no more. */
  ghost predicate IsLowest(window: seq<Level>, b: nat) {
    Frequency(window, b) > 0 && forall j: nat :: j < b ==> Frequency(window, j) == 0
  }

  /** The first of the most frequent durations from one tenth of a second up, or 0 if there are none. */
  ghost predicate IsCommonest(window: seq<Level>, b: nat) {
    && b <= 29
    && (b == 0 ==> forall j: nat :: 1 <= j <= 29 ==> Frequency(window, j) == 0)
    && (b > 0 ==>
          && Frequency(window, b) > 0
          && (forall j: nat :: 1 <= j <= 29 ==> Frequency(window, j) <= Frequency(window, b))
          && (forall j: nat :: 1 <= j < b ==> Frequency(window, j) < Frequency(window, b)))
  }

  lemma WaterMarksOfWindow(window: seq<Level>, lowest: nat, commonest: nat)
    requires PositiveRates(window) && IsLowest(window, lowest) && lowest <= 29 && IsCommonest(window, commonest)
    ensures LeadingZeros(HistogramOf(window)) == lowest && FirstArgmax(HistogramOf(window), BINS) == commonest
  {
    var h := HistogramOf(window);
    forall b: nat | b < BINS ensures h[b] == Frequency(window, b) {
      FrequencyIsCount(window, b);
    }
    assert IsFirstArgmax(h, BINS, commonest);
  }

  /** `amount` is `m` fortieths of a second at this rate, cut to whole samples and rounded up to an even number. */
  ghost predicate IsFortieths(amount: nat, m: nat, rate: nat) {
    amount % 2 == 0 && 40 * (amount - 1) <= m * rate < 40 * (amount + 1)
  }

  lemma FortiethsOf(m: nat, rate: nat, amount: nat)
    requires IsFortieths(amount, m, rate)
    ensures RoundUpEven(3 * rate * m / 120) == amount
  {
    var y := m * rate;
    assert 3 * rate * m == 3 * y;
    var x := 3 * y / 120;
    assert 40 * x <= y < 40 * x + 40;
    assert x == amount || x + 1 == amount;
  }

  /** Nothing is dropped while the commonest duration is below 600 ms. */
  lemma NoDropBelowFloor(window: seq<Level>, rate: nat, buffered: nat, lowest: nat, commonest: nat)
    requires PositiveRates(window) && IsLowest(window, lowest) && lowest <= 29 && IsCommonest(window, commonest)
    requires commonest < 6
    ensures ActualDrop(3 * rate, buffered, window) == 0
  {
    WaterMarksOfWindow(window, lowest, commonest);
  }

  /**
   Otherwise the amount is the commonest duration, but at most four times two thirds of the lowest one, in
   fortieths of a second, and it is dropped exactly when more than three times as much is buffered.
   */
  lemma ExactDrop(window: seq<Level>, rate: nat, buffered: nat, lowest: nat, commonest: nat, amount: nat)
    requires PositiveRates(window) && IsLowest(window, lowest) && lowest <= 29 && IsCommonest(window, commonest)
    requires commonest >= 6
    requires IsFortieths(amount, Min(commonest, 4 * (2 * lowest / 3)), rate)
    ensures ActualDrop(3 * rate, buffered, window) == if buffered > 3 * amount then amount else 0
  {
    WaterMarksOfWindow(window, lowest, commonest);
    FortiethsOf(Min(commonest, 4 * (2 * lowest / 3)), rate, amount);
  }

  lemma {:induction false} FrequencyOfShort(window: seq<Level>, b: nat)
    requires PositiveRates(window) && b >= 6 && forall w :: w in window ==> 10 * w.having < 6 * w.rate
    ensures Frequency(window, b) == 0
    decreases |window|
  {
    if window != [] {
      var w := window[|window| - 1];
      MulMono(6, b, w.rate);
      FrequencyOfShort(window[..|window| - 1], b);
    }
  }

  /** In particular nothing is dropped if no level of the window plays for 600 ms. */
  lemma NoDropOfShortLevels(window: seq<Level>, rate: nat, buffered: nat)
    requires PositiveRates(window) && forall w :: w in window ==> 10 * w.having < 6 * w.rate
    ensures ActualDrop(3 * rate, buffered, window) == 0
  {
    var h := HistogramOf(window);
    var max := FirstArgmax(h, BINS);
    if max >= 6 {
      FrequencyOfShort(window, max);
      FrequencyIsCount(window, max);
      assert false;
    }
  }

  // ---------------------------------------------------------------------------
  // Which formats keep whole frames
  // ---------------------------------------------------------------------------

  /** One or two channels, or a sample rate divisible by 40 with an even number of samples in 1/40 of a second. */
  predicate KeepsFrames(sampleRate: nat, channels: nat) {
    0 < channels <= 2 || (channels > 0 && sampleRate % 40 == 0 && sampleRate / 40 * channels % 2 == 0)
  }

  /** `y` frames, an even number of samples. */
  lemma EvenFrames(channels: nat, y: nat)
    requires channels > 0 && channels * y % 2 == 0
    ensures RoundUpEven(channels * y) % channels == 0
  {
    DivMod(channels, y, 0);
  }

  lemma EvenMultiple(x: nat, m: nat)
    requires x % 2 == 0
    ensures x * m % 2 == 0
  {
    var h := x / 2;
    assert x * m == 2 * (h * m);
  }

  lemma Reorder(a: nat, channels: nat, m: nat)
    ensures 3 * (40 * a * channels) * m == 120 * (channels * (a * m))
    ensures channels * (a * m) == a * channels * m
  {
  }

  lemma WholeFortieths(a: nat, channels: nat, m: nat)
    requires channels > 0 && a * channels % 2 == 0
    ensures RoundUpEven(3 * (40 * a * channels) * m / 120) % channels == 0
  {
    var y := a * m;
    Reorder(a, channels, m);
    EvenMultiple(a * channels, m);
    EvenFrames(channels, y);
    var x := channels * y;
    assert 120 * x / 120 == x;
  }

  lemma EvenIsWhole(x: nat, channels: nat)
    requires 0 < channels <= 2
    ensures RoundUpEven(x) % channels == 0
  {
  }

  lemma WholeRounded(sampleRate: nat, channels: nat, m: nat)
    requires KeepsFrames(sampleRate, channels)
    ensures RoundUpEven(3 * (sampleRate * channels) * m / 120) % channels == 0
  {
    if channels <= 2 {
      EvenIsWhole(3 * (sampleRate * channels) * m / 120, channels);
    } else {
      assert sampleRate == 40 * (sampleRate / 40);
      WholeFortieths(sampleRate / 40, channels, m);
    }
  }

  /** A good format drops whole frames for all water marks. */
  lemma DropIsWhole(sampleRate: nat, channels: nat, zero: nat, max: nat)
    requires KeepsFrames(sampleRate, channels)
    ensures DropSize(3 * (sampleRate * channels), zero, max) % channels == 0
  {
    if max < 6 {
      DivMod(channels, 0, 0);
    } else {
      var z := zero * 2 / 3;
      WholeRounded(sampleRate, channels, if max > z * 4 then z * 4 else max);
    }
  }

  lemma ActualDropIsWhole(sampleRate: nat, channels: nat, buffered: nat, window: seq<Level>)
    requires KeepsFrames(sampleRate, channels) && PositiveRates(window)
    ensures ActualDrop(3 * (sampleRate * channels), buffered, window) % channels == 0
  {
    var h := HistogramOf(window);
    DropIsWhole(sampleRate, channels, LeadingZeros(h), FirstArgmax(h, BINS));
    DivMod(channels, 0, 0);
  }

  /** A part of a frame, and one sample more, is not a whole number of frames. */
  lemma SplitsFrame(channels: nat, t: nat, y: nat)
    requires 1 <= y && y + 1 < channels
    ensures RoundUpEven(channels * t + y) % channels != 0
  {
    DivMod(channels, t, y);
    DivMod(channels, t, y + 1);
  }

  lemma OddFrameSplits(channels: nat, t: nat)
    requires channels >= 3 && channels * t % 2 == 1
    ensures RoundUpEven(channels * t) % channels != 0
  {
    DivMod(channels, t, 1);
  }

  /** What the two sweeps find when bin `b` is the first used one and the fullest. */
  lemma WaterMarks(h: seq<nat>, b: nat)
    requires |h| == BINS && 1 <= b < BINS && h[b] > 0
    requires forall j :: 0 <= j < b ==> h[j] == 0
    requires forall j :: b < j < BINS ==> h[j] < h[b]
    ensures LeadingZeros(h) == b && FirstArgmax(h, BINS) == b
  {
  }

  lemma OneLevelCounts(w: Level, j: nat)
    requires w.rate > 0
    ensures CountBin([w], j) == if j == Bin(w.having, w.rate) then 1 else 0
  {
    assert [w] == [] + [w] && CountBin([], j) == 0;
    CountAppend([], w, j);
  }

  lemma OneLevelDrop(w: Level, capacity: nat, b: nat)
    requires w.rate > 0 && Bin(w.having, w.rate) == b >= 1 && w.having > 3 * DropSize(capacity, b, b)
    ensures ActualDrop(capacity, w.having, [w]) == DropSize(capacity, b, b)
  {
    var h := HistogramOf([w]);
    forall j | 0 <= j < BINS ensures h[j] == if j == b then 1 else 0 {
      OneLevelCounts(w, j);
    }
    WaterMarks(h, b);
  }

  /** The smallest level of bin `b`. */
  function LevelOf(b: nat, rate: nat): Level {
    Level((b * rate + 9) / 10, rate)
  }

  lemma LevelOfBin(b: nat, rate: nat)
    requires b < 29 && rate >= 10
    ensures var w := LevelOf(b, rate); Bin(w.having, w.rate) == b && w.having <= 3 * rate
  {
    var x, h := b * rate, (b * rate + 9) / 10;
    assert x <= 10 * h < x + 10;
    DivMod(rate, b, 10 * h - x);
    MulMono(b, 29, rate);
  }

  lemma FullBin(rate: nat)
    requires rate > 0
    ensures Bin(3 * rate, rate) == 29
  {
    assert 3 * rate * 10 == rate * 30;
    DivMod(rate, 30, 0);
  }

  /** Two levels in bin `b`, before the buffer is full. */
  ghost function WitnessLevels(b: nat, rate: nat): seq<Level> {
    [LevelOf(b, rate), LevelOf(b, rate)]
  }

  lemma WitnessCounts(b: nat, rate: nat, j: nat)
    requires 6 <= b < 29 && rate >= 10 && j < BINS
    ensures var window := WitnessLevels(b, rate) + [Level(3 * rate, rate)];
            PositiveRates(window) && CountBin(window, j) == if j == b then 2 else if j == 29 then 1 else 0
  {
    var w := LevelOf(b, rate);
    LevelOfBin(b, rate);
    OneLevelCounts(w, j);
    assert WitnessLevels(b, rate) == [w] + [w];
    CountAppend([w], w, j);
    CountAppend(WitnessLevels(b, rate), Level(3 * rate, rate), j);
    FullBin(rate);
  }

  /** With those levels a full buffer drops `b` fortieths of a second, rounded up to even. */
  lemma WitnessDrop(b: nat, rate: nat)
    requires 6 <= b <= 25 && rate >= 10
    ensures var window := WitnessLevels(b, rate) + [Level(3 * rate, rate)];
            PositiveRates(window) && ActualDrop(3 * rate, 3 * rate, window) == RoundUpEven(3 * rate * b / 120)
  {
    var window := WitnessLevels(b, rate) + [Level(3 * rate, rate)];
    WitnessCounts(b, rate, 0);
    var h := HistogramOf(window);
    forall j | 0 <= j < BINS ensures h[j] == if j == b then 2 else if j == 29 then 1 else 0 {
      WitnessCounts(b, rate, j);
    }
    WaterMarks(h, b);
    MulMono(b, 25, 3 * rate);
    assert 3 * rate * b == b * (3 * rate);
  }

  /** The levels of a window without a resize. */
  ghost predicate OneFormat(levels: seq<Level>, rate: nat) {
    forall w :: w in levels ==> w.rate == rate && w.having <= 3 * rate
  }

  /** Some levels of this format, none above the capacity, make `try_shrink` leave part of a frame. */
  ghost predicate SplitsSomewhere(sampleRate: nat, channels: nat)
    requires sampleRate * channels > 0 && channels > 0
  {
    exists levels, buffered: nat ::
      && OneFormat(levels, sampleRate * channels) && PositiveRates(levels) && buffered <= 3 * (sampleRate * channels)
      && DropAfter(levels, buffered, sampleRate * channels) % channels != 0
  }

  lemma SplitWitness(sampleRate: nat, channels: nat, b: nat)
    requires channels >= 3 && 6 <= b <= 25 && sampleRate * channels >= 10
    requires RoundUpEven(3 * (sampleRate * channels) * b / 120) % channels != 0
    ensures SplitsSomewhere(sampleRate, channels)
  {
    var rate := sampleRate * channels;
    WitnessDrop(b, rate);
    LevelOfBin(b, rate);
    assert OneFormat(WitnessLevels(b, rate), rate) && PositiveRates(WitnessLevels(b, rate));
    assert DropAfter(WitnessLevels(b, rate), 3 * rate, rate) % channels != 0;
  }

  lemma OneLevelSplits(sampleRate: nat, channels: nat, having: nat, b: nat)
    requires channels > 0 && sampleRate * channels > 0 && having <= 3 * (sampleRate * channels)
    requires Bin(having, sampleRate * channels) == b >= 1
    requires having > 3 * DropSize(3 * (sampleRate * channels), b, b)
    requires DropSize(3 * (sampleRate * channels), b, b) % channels != 0
    ensures SplitsSomewhere(sampleRate, channels)
  {
    var rate := sampleRate * channels;
    OneLevelDrop(Level(having, rate), 3 * rate, b);
    assert [] + [Level(having, rate)] == [Level(having, rate)];
    assert OneFormat([], rate) && PositiveRates([]) && DropAfter([], having, rate) % channels != 0;
  }

  lemma SmallDrop(sampleRate: nat, channels: nat, rate: nat)
    requires channels >= 3 && rate == sampleRate * channels && 3 <= rate < 10 && (rate == 9 ==> channels != 3)
    ensures DropSize(3 * rate, 29, 29) % channels != 0 && 3 * rate > 3 * DropSize(3 * rate, 29, 29)
  {
    MulMono(3, channels, sampleRate);
    assert DropSize(3 * rate, 29, 29) == RoundUpEven(3 * rate * 29 / 120);
    if sampleRate >= 2 {
      assert sampleRate == 2 || sampleRate == 3;
    }
  }

  /** Fewer than ten samples a second: a single level does. */
  lemma SmallRateSplits(sampleRate: nat, channels: nat)
    requires channels >= 3 && 3 <= sampleRate * channels < 10
    ensures SplitsSomewhere(sampleRate, channels)
  {
    var rate := sampleRate * channels;
    if rate == 9 && channels == 3 {
      OneLevelSplits(sampleRate, channels, 18, 20);
    } else {
      SmallDrop(sampleRate, channels, rate);
      FullBin(rate);
      OneLevelSplits(sampleRate, channels, 3 * rate, 29);
    }
  }

  /** `t` frames and a half. */
  lemma HalfFrame(channels: nat, t: nat, p: nat, x: nat)
    requires channels >= 3 && p == channels * t && x == p + channels / 2
    ensures RoundUpEven(x) % channels != 0
  {
    SplitsFrame(channels, t, channels / 2);
  }

  /** A sample rate that leaves `r` when divided by `m`, in samples of all channels. */
  lemma RateSplit(sampleRate: nat, m: nat, a: nat, r: nat, channels: nat) returns (p: nat)
    requires sampleRate == m * a + r
    ensures p == channels * a && sampleRate * channels == m * p + r * channels
  {
    p := channels * a;
    Distribute(m * a, r, channels);
    assert m * a * channels == m * p;
  }

  lemma OddRateSplits(sampleRate: nat, channels: nat)
    requires channels >= 3 && sampleRate % 2 == 1 && sampleRate * channels >= 10
    ensures SplitsSomewhere(sampleRate, channels)
  {
    var a, rate := sampleRate / 2, sampleRate * channels;
    var p := RateSplit(sampleRate, 2, a, 1, channels);
    HalfFrame(channels, a, p, 3 * rate * 20 / 120);
    SplitWitness(sampleRate, channels, 20);
  }

  lemma OddHalfRateSplits(sampleRate: nat, channels: nat)
    requires channels >= 3 && sampleRate % 4 == 2 && sampleRate * channels >= 10
    ensures SplitsSomewhere(sampleRate, channels)
  {
    var a, rate := sampleRate / 4, sampleRate * channels;
    var p := RateSplit(sampleRate, 4, a, 2, channels);
    HalfFrame(channels, a, p, 3 * rate * 10 / 120);
    SplitWitness(sampleRate, channels, 10);
  }

  lemma OddQuarterRateSplits(sampleRate: nat, channels: nat)
    requires channels >= 3 && sampleRate % 8 == 4 && sampleRate * channels >= 10
    ensures SplitsSomewhere(sampleRate, channels)
  {
    var a, rate := sampleRate / 8, sampleRate * channels;
    var p := RateSplit(sampleRate, 8, a, 4, channels);
    assert channels * (3 * a + 1) == 3 * p + channels;
    HalfFrame(channels, 3 * a + 1, 3 * p + channels, 3 * rate * 15 / 120);
    SplitWitness(sampleRate, channels, 15);
  }

  /** The water mark `b` for which s * b leaves 2 fifths. */
  function TwoFifths(s: nat): (b: nat)
    requires s % 5 != 0
    ensures 6 <= b <= 9 && s % 5 * b % 5 == 2
  {
    match s % 5 case 1 => 7 case 2 => 6 case 3 => 9 case _ => 8
  }

  lemma TwoFifthsLeft(s: nat) returns (t: nat)
    requires s % 5 != 0
    ensures s * TwoFifths(s) == 5 * t + 2
  {
    var b, a, r := TwoFifths(s), s / 5, s % 5;
    t := a * b + r * b / 5;
    Distribute(5 * a, r, b);
    assert 5 * a * b == 5 * (a * b);
  }

  lemma FifthOfFrames(s: nat, b: nat, t: nat, channels: nat)
    requires s * b == 5 * t + 2
    ensures 3 * (8 * s * channels) * b / 120 == channels * t + 2 * channels / 5
  {
    var y, p := s * b * channels, channels * t;
    assert 3 * (8 * s * channels) * b == 24 * y;
    Distribute(5 * t, 2, channels);
    assert 5 * t * channels == 5 * p;
    assert y == 5 * p + 2 * channels;
  }

  lemma FifthSplits(sampleRate: nat, channels: nat)
    requires channels >= 3 && sampleRate % 8 == 0 && sampleRate / 8 % 5 != 0 && sampleRate * channels >= 10
    ensures SplitsSomewhere(sampleRate, channels)
  {
    var s := sampleRate / 8;
    var b := TwoFifths(s);
    var t := TwoFifthsLeft(s);
    FifthOfFrames(s, b, t, channels);
    SplitsFrame(channels, t, 2 * channels / 5);
    assert sampleRate == 8 * s;
    SplitWitness(sampleRate, channels, b);
  }

  lemma OddDropSplits(channels: nat, a: nat, p: nat, rate: nat)
    requires channels >= 3 && p == channels * a && p % 2 == 1 && rate == 40 * p
    ensures RoundUpEven(3 * rate * 7 / 120) % channels != 0
  {
    assert 7 * p % 2 == 1;
    OddFrameSplits(channels, 7 * a);
  }

  lemma OddFortiethSplits(sampleRate: nat, channels: nat)
    requires channels >= 3 && sampleRate % 40 == 0 && sampleRate / 40 * channels % 2 == 1 && sampleRate * channels >= 10
    ensures SplitsSomewhere(sampleRate, channels)
  {
    var p := RateSplit(sampleRate, 40, sampleRate / 40, 0, channels);
    OddDropSplits(channels, sampleRate / 40, p, sampleRate * channels);
    SplitWitness(sampleRate, channels, 7);
  }

  lemma BadRateSplits(sampleRate: nat, channels: nat)
    requires channels >= 3 && sampleRate % 8 != 0 && sampleRate * channels >= 10
    ensures SplitsSomewhere(sampleRate, channels)
  {
    if sampleRate % 2 == 1 {
      OddRateSplits(sampleRate, channels);
    } else if sampleRate % 4 == 2 {
      OddHalfRateSplits(sampleRate, channels);
    } else {
      OddQuarterRateSplits(sampleRate, channels);
    }
  }

  lemma BadFormatSplits(sampleRate: nat, channels: nat)
    requires channels >= 3 && !KeepsFrames(sampleRate, channels) && sampleRate * channels >= 3
    ensures SplitsSomewhere(sampleRate, channels)
  {
    if sampleRate * channels < 10 {
      SmallRateSplits(sampleRate, channels);
    } else if sampleRate % 8 != 0 {
      BadRateSplits(sampleRate, channels);
    } else if sampleRate / 8 % 5 != 0 {
      FifthSplits(sampleRate, channels);
    } else {
      OddFortiethSplits(sampleRate, channels);
    }
  }

  /**
   A format keeps whole frames through every drop exactly if it has at most two channels, or its sample rate is
   divisible by 40 and 1/40 of a second holds an even number of samples. Otherwise levels of that very format split one.
   */
  lemma DropsWholeFramesIff(sampleRate: nat, channels: nat)
    requires sampleRate > 0 && channels > 0
    ensures sampleRate * channels > 0
    ensures SplitsSomewhere(sampleRate, channels) <==> !KeepsFrames(sampleRate, channels)
  {
    MulMono(1, sampleRate, channels);
    if KeepsFrames(sampleRate, channels) {
      var rate := sampleRate * channels;
      forall levels, buffered: nat | PositiveRates(levels)
        ensures DropAfter(levels, buffered, rate) % channels == 0
      {
        ActualDropIsWhole(sampleRate, channels, buffered, levels + [Level(buffered, rate)]);
      }
    } else {
      BadFormatSplits(sampleRate, channels);
    }
  }

  /** Six channels at 44100 Hz with 0.7 seconds buffered: the drop leaves four samples of a frame. */
  lemma SurroundDropSplitsFrame(sampleRate: nat, channels: nat, w: Level)
    requires sampleRate == 44100 && channels == 6 && w == Level(185220, sampleRate * channels)
    ensures ActualDrop(3 * (sampleRate * channels), w.having, [w]) % channels == 4
  {
    var capacity := 3 * (sampleRate * channels);
    assert DropSize(capacity, 7, 7) == 46306;
    OneLevelDrop(w, capacity, 7);
  }

  // ---------------------------------------------------------------------------
  // The buffer
  // ---------------------------------------------------------------------------

  /** The last `n` elements of `s`. */
  function Last<T>(s: seq<T>, n: nat): seq<T> {
    if |s| <= n then s else s[|s| - n..]
  }

  /** `append_pcm2` on the locked ring: both branches keep exactly the newest `capacity` samples. */
  method PushRing<T>(ring: seq<T>, buffer: seq<T>, capacity: nat) returns (ring': seq<T>, having: nat)
    requires |ring| <= capacity
    ensures ring' == Last(ring + buffer, capacity) && having == |ring'|
  {
    if |buffer| > capacity {
      return Last(ring + buffer, capacity), capacity;
    }
    ring' := ring;
    having := |ring| + |buffer|;
    if having > capacity {
      ring' := ring[having - capacity..];
    }
    ring' := Last(ring' + buffer, capacity);
    having := |ring'|;
  }

  /** `n` samples are whole frames. */
  predicate WholeFrames(n: int, channels: nat) {
    channels > 0 && n % channels == 0
  }

  /**
   Everything ever appended, how much of it was played and how much thrown away, where the stream in the
   current format starts, and whether that stream came and went in whole frames so far.
   */
  datatype History<T> = History(
    appended: seq<T>, popped: nat, dropped: nat, sampleRate: nat, channels: nat, formatStart: nat, framed: bool)

  /** The ring is the newest part of the stream and every sample is accounted for. */
  ghost predicate Accounted<T>(h: History<T>, ring: seq<T>) {
    && h.popped + h.dropped + |ring| == |h.appended|
    && ring == h.appended[|h.appended| - |ring|..]
  }

  /** With `n` samples in the ring, both its ends lie on frame boundaries of the current format's stream. */
  ghost predicate FramesIntact<T>(h: History<T>, n: nat, capacity: nat) {
    h.framed ==>
      && h.formatStart + n <= |h.appended|
      && WholeFrames(capacity, h.channels) && WholeFrames(n, h.channels)
      && WholeFrames(|h.appended| - h.formatStart, h.channels)
  }

  ghost predicate StreamIntact<T>(h: History<T>, ring: seq<T>, capacity: nat) {
    |ring| <= capacity && Accounted(h, ring) && FramesIntact(h, |ring|, capacity)
  }

  ghost function Appended<T>(h: History<T>, ring: seq<T>, buffer: seq<T>, capacity: nat): History<T>
    requires StreamIntact(h, ring, capacity)
  {
    h.(appended := h.appended + buffer,
    dropped := h.dropped + (|ring + buffer| - |Last(ring + buffer, capacity)|),
    framed := h.framed && WholeFrames(|buffer|, h.channels))
  }

  lemma FramesOf(n: int, channels: nat) returns (frames: int)
    requires WholeFrames(n, channels)
    ensures n == channels * frames
  {
    frames := n / channels;
  }

  lemma FramesAreWhole(frames: int, channels: nat)
    requires channels > 0
    ensures WholeFrames(channels * frames, channels)
  {
    DivMod(channels, frames, 0);
  }

  lemma AddFrames(a: int, b: int, x: int, y: int, channels: nat)
    requires a == channels * x && b == channels * y
    ensures a + b == channels * (x + y) && a - b == channels * (x - y)
  {
  }

  lemma WholeFramesAdd(a: int, b: int, channels: nat)
    requires WholeFrames(a, channels) && WholeFrames(b, channels)
    ensures WholeFrames(a + b, channels) && WholeFrames(a - b, channels)
  {
    var x := FramesOf(a, channels);
    var y := FramesOf(b, channels);
    AddFrames(a, b, x, y, channels);
    FramesAreWhole(x + y, channels);
    FramesAreWhole(x - y, channels);
  }

  lemma AppendAccounted<T>(h: History<T>, ring: seq<T>, buffer: seq<T>, capacity: nat)
    requires StreamIntact(h, ring, capacity)
    ensures Accounted(Appended(h, ring, buffer, capacity), Last(ring + buffer, capacity))
  {
  }

  lemma AppendFrames<T>(h: History<T>, ring: seq<T>, buffer: seq<T>, capacity: nat)
    requires StreamIntact(h, ring, capacity)
    ensures FramesIntact(Appended(h, ring, buffer, capacity), |Last(ring + buffer, capacity)|, capacity)
  {
    if h.framed && WholeFrames(|buffer|, h.channels) {
      WholeFramesAdd(|ring|, |buffer|, h.channels);
      WholeFramesAdd(|h.appended| - h.formatStart, |buffer|, h.channels);
      assert |h.appended + buffer| - h.formatStart == (|h.appended| - h.formatStart) + |buffer|;
    }
  }

  lemma AppendKeepsStream<T>(h: History<T>, ring: seq<T>, buffer: seq<T>, capacity: nat)
    requires StreamIntact(h, ring, capacity)
    ensures StreamIntact(Appended(h, ring, buffer, capacity), Last(ring + buffer, capacity), capacity)
  {
    AppendAccounted(h, ring, buffer, capacity);
    AppendFrames(h, ring, buffer, capacity);
  }

  ghost function Skipped<T>(h: History<T>, n: nat): History<T> {
    h.(dropped := h.dropped + n, framed := h.framed && WholeFrames(n, h.channels))
  }

  ghost function Popped<T>(h: History<T>, n: nat): History<T> {
    h.(popped := h.popped + n, framed := h.framed && WholeFrames(n, h.channels))
  }

  lemma SkipKeepsStream<T>(h: History<T>, ring: seq<T>, n: nat, capacity: nat)
    requires StreamIntact(h, ring, capacity) && n <= |ring|
    ensures StreamIntact(Skipped(h, n), ring[n..], capacity)
    ensures StreamIntact(Popped(h, n), ring[n..], capacity)
  {
    if h.framed && WholeFrames(n, h.channels) {
      WholeFramesAdd(|ring|, n, h.channels);
    }
    assert ring[n..] == h.appended[|h.appended| - |ring[n..]|..];
  }

  /** Three seconds of samples. */
  function CapacityFor(rate: nat): (capacity: nat)
    ensures capacity == 3 * rate
  {
    rate * AUDIO_BUFFER_MS / 1000
  }

  lemma WholeCapacity(sampleRate: nat, channels: nat)
    requires channels > 0
    ensures WholeFrames(3 * (sampleRate * channels), channels) && WholeFrames(0, channels)
  {
    DivMod(channels, 3 * sampleRate, 0);
    DivMod(channels, 0, 0);
    assert 3 * (sampleRate * channels) == channels * (3 * sampleRate);
  }

  // ---------------------------------------------------------------------------
  // How often the histogram is swept
  // ---------------------------------------------------------------------------

  /** The first call starts the clock; later ones act when 12 seconds have passed. */
  predicate ShrinkDue(tms: int, now: int) {
    tms != 0 && now >= tms + SHRINK_INTERVAL_MS
  }

  /** What `tms` is after calls at these times. */
  function ClockAfter(times: seq<int>): int {
    if times == [] then 0
    else
      var n := |times| - 1;
      var tms := ClockAfter(times[..n]);
      if tms == 0 || ShrinkDue(tms, times[n]) then times[n] else tms
  }

  /** The `n`-th call sweeps. */
  ghost predicate SweepsAt(times: seq<int>, n: nat)
    requires n < |times|
  {
    ShrinkDue(ClockAfter(times[..n]), times[n])
  }

  /** A clock that does not go back, and is past its origin. */
  ghost predicate Forward(times: seq<int>) {
    (forall i :: 0 <= i < |times| ==> times[i] > 0) && forall i, j :: 0 <= i < j < |times| ==> times[i] <= times[j]
  }

  /** The clock shows the time of some call `m`, and nothing was swept since. */
  lemma {:induction false} ClockIsLastSweep(times: seq<int>, n: nat) returns (m: nat)
    requires Forward(times) && 0 < n <= |times|
    ensures m < n && ClockAfter(times[..n]) == times[m] && (m == 0 || SweepsAt(times, m))
    ensures forall k :: m < k < n ==> !SweepsAt(times, k)
    decreases n
  {
    assert times[..n][..n - 1] == times[..n - 1];
    if n == 1 {
      m := 0;
    } else {
      m := ClockIsLastSweep(times, n - 1);
      if SweepsAt(times, n - 1) {
        m := n - 1;
      }
    }
  }

  /** Two sweeps are at least 12 seconds apart. */
  lemma SweepsAreApart(times: seq<int>, i: nat, j: nat)
    requires Forward(times) && i < j < |times| && (i == 0 || SweepsAt(times, i)) && SweepsAt(times, j)
    ensures times[j] >= times[i] + 12000
  {
    var m := ClockIsLastSweep(times, j);
    assert i <= m;
  }

  /** In any 12 seconds between two calls there is a sweep. */
  lemma SweptWithinInterval(times: seq<int>, i: nat, j: nat)
    requires Forward(times) && i < j < |times| && times[j] >= times[i] + 12000
    ensures exists k :: i < k <= j && SweepsAt(times, k)
  {
    var m := ClockIsLastSweep(times, j);
    if m <= i {
      assert SweepsAt(times, j);
    }
  }

  /** The stream in a new format starts here; what is buffered is thrown away. */
  ghost function NewFormat<T>(h: History<T>, buffered: nat, sampleRate: nat, channels: nat): History<T> {
    History(h.appended, h.popped, h.dropped + buffered, sampleRate, channels, |h.appended|, channels > 0)
  }

  lemma NewFormatIsIntact<T>(h: History<T>, ring: seq<T>, capacity: nat, sampleRate: nat, channels: nat)
    requires StreamIntact(h, ring, capacity)
    ensures StreamIntact(NewFormat(h, |ring|, sampleRate, channels), [], 3 * (sampleRate * channels))
  {
    if channels > 0 {
      WholeCapacity(sampleRate, channels);
    }
  }

  /** A format of the same capacity continues the stream. */
  ghost function NextFormat<T>(h: History<T>, sampleRate: nat, channels: nat): History<T> {
    h.(sampleRate := sampleRate, channels := channels, framed := h.framed && h.channels == channels)
  }

  lemma NextFormatIsIntact<T>(h: History<T>, ring: seq<T>, capacity: nat, sampleRate: nat, channels: nat)
    requires StreamIntact(h, ring, capacity)
    ensures StreamIntact(NextFormat(h, sampleRate, channels), ring, capacity)
  {
  }

  /** How much `try_shrink` wants to skip. */
  method WantedDrop(capacity: nat, zero: nat, max: nat) returns (skip: nat)
    ensures skip == DropSize(capacity, zero, max)
  {
    var z := zero * 2 / 3;
    var m := max;
    if max < 6 {
      return 0;
    } else if max > z * 4 {
      m := z * 4;
    }
    skip := RoundUpEven(capacity * m / (30 * 4));
  }

  class Buffer<T> {
    var data: seq<T>
    var capacity: nat
    var rate: nat
    const hist: array<nat>
    var tms: int
    ghost var history: History<T>
    /** The levels recorded since the histogram was last cleared. */
    ghost var window: seq<Level>

    ghost predicate Valid()
      reads this, hist
    {
      && capacity == 3 * rate && rate == history.sampleRate * history.channels
      && StreamIntact(history, data, capacity)
      && Counts(hist[..], window)
    }

    constructor ()
      ensures Valid() && fresh(hist) && data == [] && capacity == 288000 && tms == 0
      ensures history == History([], 0, 0, 48000, 2, 0, true) && window == []
    {
      data, capacity, rate, tms := [], 48000 * 2 * AUDIO_BUFFER_MS / 1000, 48000 * 2, 0;
      hist := new nat[BINS](_ => 0);
      history, window := History([], 0, 0, 48000, 2, 0, true), [];
    }

    /** A new capacity discards the ring but keeps the histogram. */
    method Resize(sampleRate: nat, channels: nat)
      requires Valid()
      modifies this`data, this`capacity, this`rate, this`history
      ensures Valid() && rate == sampleRate * channels
      ensures data == if rate == old(rate) then old(data) else []
      ensures history == if rate == old(rate) then NextFormat(old(history), sampleRate, channels)
                         else NewFormat(old(history), |old(data)|, sampleRate, channels)
    {
      var newRate := sampleRate * channels;
      var newCapacity := CapacityFor(newRate);
      if newCapacity != capacity {
        NewFormatIsIntact(history, data, capacity, sampleRate, channels);
        history := NewFormat(history, |data|, sampleRate, channels);
        data := [];
        capacity := newCapacity;
        rate := newRate;
      } else {
        NextFormatIsIntact(history, data, capacity, sampleRate, channels);
        history := NextFormat(history, sampleRate, channels);
      }
    }

    method AppendPcm2(buffer: seq<T>) returns (having: nat)
      requires Valid()
      modifies this`data, this`history
      ensures Valid() && data == Last(old(data) + buffer, capacity) && having == |data|
      ensures history == Appended(old(history), old(data), buffer, capacity)
    {
      AppendKeepsStream(history, data, buffer, capacity);
      history := Appended(history, data, buffer, capacity);
      data, having := PushRing(data, buffer, capacity);
    }

    /** Takes at most `want` samples off the ring and fills up with silence. */
    method Fill(want: nat, silence: T) returns (out: seq<T>)
      requires Valid()
      modifies this`data, this`history
      ensures Valid() && |out| == want
      ensures var n := Min(want, |old(data)|);
              && data == old(data)[n..] && history == Popped(old(history), n)
              && out[..n] == old(data)[..n]
              && forall i :: n <= i < want ==> out[i] == silence
    {
      var n := want;
      if |data| < n {
        n := |data|;
      }
      SkipKeepsStream(history, data, n, capacity);
      var elems := data[..n];
      data := data[n..];
      history := Popped(history, n);
      out := [];
      for i := 0 to want
        invariant |out| == i
        invariant forall j :: 0 <= j < i ==> out[j] == if j < n then elems[j] else silence
      {
        out := out + [if i < n then elems[i] else silence];
      }
    }

    /**
     The device callback: looks at the ring, waits if it runs short and there is time, looks again, and plays what
     is buffered, in order, then silence. `arrived` is what the decoder appends while the callback sleeps.
     */
    method Play(want: nat, silence: T, howLong: int, arrived: seq<T>) returns (out: seq<T>)
      requires Valid()
      modifies this`data, this`history
      ensures Valid() && |out| == want
      ensures var waits := |old(data)| < want && 6_000_000 < howLong < 3_000_000_000;
              var ring := if waits then Last(old(data) + arrived, capacity) else old(data);
              var past := if waits then Appended(old(history), old(data), arrived, capacity) else old(history);
              var n := Min(want, |ring|);
              && data == ring[n..] && history == Popped(past, n)
              && out[..n] == ring[..n]
              && forall i :: n <= i < want ==> out[i] == silence
    {
      if |data| < want && 6 * MILLI < howLong && howLong < AUDIO_BUFFER_MS * MILLI {
        var _ := AppendPcm2(arrived);
      }
      out := Fill(want, silence);
    }

    /** The histogram update at the head of `try_shrink`, which divides by the rate. */
    method Record(having: nat)
      requires Valid() && rate > 0
      modifies this`window, hist
      ensures Valid() && window == old(window) + [Level(having, rate)]
    {
      var i := having * 10 / rate;
      if i > 29 {
        i := 29;
      }
      RecordLevel(hist[..], window, Level(having, rate));
      hist[i] := hist[i] + 1;
      window := window + [Level(having, rate)];
      assert hist[..] == old(hist[..])[i := old(hist[..])[i] + 1];
    }

    /** The sweep of `try_shrink`, and how much it wants to drop. */
    method SweepHistogram() returns (skip: nat)
      requires Valid()
      modifies this`window, hist
      ensures Valid() && window == []
      ensures var h := HistogramOf(old(window));
              skip == DropSize(capacity, LeadingZeros(h), FirstArgmax(h, BINS))
    {
      assert hist[..] == HistogramOf(window);
      var zero, max := Sweep(hist);
      window := [];
      skip := WantedDrop(capacity, zero, max);
    }

    /** The drop of `try_shrink`, once its 12 seconds are over. */
    method DropByHistogram() returns (skipped: nat)
      requires Valid()
      modifies this`data, this`history, this`window, hist
      ensures Valid() && window == [] && skipped <= |old(data)| && data == old(data)[skipped..]
      ensures history == Skipped(old(history), skipped)
      ensures PositiveRates(old(window)) && skipped == ActualDrop(capacity, |old(data)|, old(window))
    {
      var skip := SweepHistogram();
      skipped := 0;
      if |data| > skip * 3 && skip > 0 {
        skipped := skip;
      }
      SkipKeepsStream(history, data, skipped, capacity);
      data := data[skipped..];
      history := Skipped(history, skipped);
    }

    /**
     Records the level `having`; at most every 12 seconds it sweeps the histogram and may drop samples.
     A drop is bounded by every level recorded since the last sweep, this one included, leaves more than
     twice as much buffered, and keeps frames whole in the formats that allow it.
     */
    method TryShrink(having: nat, now: int) returns (skipped: nat)
      requires Valid() && rate > 0
      modifies this`data, this`history, this`tms, this`window, hist
      ensures Valid() && skipped <= |old(data)| && data == old(data)[skipped..]
      ensures history == if ShrinkDue(old(tms), now) then Skipped(old(history), skipped) else old(history)
      ensures KeepsFrames(history.sampleRate, history.channels) ==> history.framed == old(history).framed
      ensures var due := old(tms) != 0 && now >= old(tms) + 12000;
              var levels := old(window) + [Level(having, rate)];
              && tms == (if old(tms) == 0 || due then now else old(tms))
              && window == (if due then [] else levels)
              && PositiveRates(levels)
              && skipped == (if due then ActualDrop(capacity, |old(data)|, levels) else 0)
              && (due ==> skipped % 2 == 0 && WithinLevels(skipped, rate, levels))
              && (skipped > 0 ==> |data| > 2 * skipped)
    {
      Record(having);
      skipped := 0;
      if tms == 0 {
        tms := now;
        return;
      } else if now < tms + SHRINK_INTERVAL_MS {
        return;
      }
      tms := now;
      DropBound(window, rate, |data|);
      if KeepsFrames(history.sampleRate, history.channels) {
        ActualDropIsWhole(history.sampleRate, history.channels, |data|, window);
      }
      skipped := DropByHistogram();
    }

    /** `append_pcm` without a callback in between: the recorded level is what is buffered after the append. */
    method AppendPcm(buffer: seq<T>, now: int) returns (skipped: nat)
      requires Valid() && rate > 0
      modifies this`data, this`history, this`tms, this`window, hist
      ensures Valid() && PositiveRates(old(window))
      ensures var ring := Last(old(data) + buffer, capacity);
              && skipped == (if ShrinkDue(old(tms), now) then DropAfter(old(window), |ring|, rate) else 0)
              && skipped <= |ring| && data == ring[skipped..]
              && window == (if ShrinkDue(old(tms), now) then [] else old(window) + [Level(|ring|, rate)])
      ensures KeepsFrames(history.sampleRate, history.channels) && WholeFrames(|buffer|, history.channels) ==>
                history.framed == old(history).framed
    {
      var having := AppendPcm2(buffer);
      skipped := TryShrink(having, now);
    }
  }
}
