/**
 The two chunked file scanners of build.py. A file is a byte sequence; `read(chunk)` returns full chunks
 until the last one. Each scanner is a loop over chunks that carries the tail of the previous chunk, and
 is compared with a search of the whole file.
 */
module FileScan {
  import opened Common

  /** `f.read(chunk)` at offset `pos`. */
  function Read(file: seq<Byte>, pos: nat, chunk: nat): seq<Byte>
    requires pos <= |file|
  {
    if pos + chunk <= |file| then file[pos..pos + chunk] else file[pos..]
  }

  /** The Python slice `s[-n:]`: `n == 0` is the whole sequence, a negative `n` counts from the front. */
  function SliceFromEnd(s: seq<Byte>, n: int): seq<Byte> {
    if n > 0 then if n >= |s| then s else s[|s| - n..]
    else if -n <= |s| then s[-n..] else []
  }

  // ---------------------------------------------------------------------------
  // _carries_drmtap_marker
  // ---------------------------------------------------------------------------

  predicate OccursAt(s: seq<Byte>, marker: seq<Byte>, i: nat) {
    i + |marker| <= |s| && s[i..i + |marker|] == marker
  }

  /** `marker in s`. */
  predicate Occurs(s: seq<Byte>, marker: seq<Byte>) {
    exists i :: 0 <= i <= |s| && OccursAt(s, marker, i)
  }

  /** The rest of the scan, from offset `pos` with `tail` carried over. */
  function CarriesFrom(file: seq<Byte>, marker: seq<Byte>, chunk: nat, pos: nat, tail: seq<Byte>): bool
    requires pos <= |file| && chunk > 0
    decreases |file| - pos
  {
    var c := Read(file, pos, chunk);
    c != [] &&
    (Occurs(tail + c, marker) || CarriesFrom(file, marker, chunk, pos + |c|, SliceFromEnd(c, |marker| - 1)))
  }

  lemma SliceOfSlice(s: seq<Byte>, lo: nat, hi: nat, a: nat, b: nat)
    requires lo <= hi <= |s| && a <= b <= hi - lo
    ensures s[lo..hi][a..b] == s[lo + a..lo + b]
  {
    assert forall k :: 0 <= k < b - a ==> s[lo..hi][a..b][k] == s[lo + a..lo + b][k];
  }

  /** Occurrences in a slice are the occurrences of the whole that lie inside it. */
  lemma OccursInSlice(file: seq<Byte>, marker: seq<Byte>, lo: nat, hi: nat, k: nat)
    requires lo <= hi <= |file|
    ensures OccursAt(file[lo..hi], marker, k) <==> OccursAt(file, marker, lo + k) && lo + k + |marker| <= hi
  {
    if lo + k + |marker| <= hi {
      SliceOfSlice(file, lo, hi, k, k + |marker|);
    }
  }

  ghost predicate NoneBefore(file: seq<Byte>, marker: seq<Byte>, end: nat) {
    forall i: nat :: i + |marker| <= end ==> !OccursAt(file, marker, i)
  }

  /** A window that starts early enough shows every occurrence that ends inside it. */
  lemma WindowShowsAll(file: seq<Byte>, marker: seq<Byte>, lo: nat, pos: nat, hi: nat)
    requires 0 < |marker| && lo <= pos <= hi <= |file|
    requires lo == 0 || lo + |marker| - 1 <= pos
    requires NoneBefore(file, marker, pos)
    ensures Occurs(file[lo..hi], marker) ==> Occurs(file, marker)
    ensures !Occurs(file[lo..hi], marker) ==> NoneBefore(file, marker, hi)
  {
    if Occurs(file[lo..hi], marker) {
      var k :| 0 <= k <= |file[lo..hi]| && OccursAt(file[lo..hi], marker, k);
      OccursInSlice(file, marker, lo, hi, k);
    } else {
      forall i: nat | i + |marker| <= hi ensures !OccursAt(file, marker, i) {
        if i + |marker| > pos {
          OccursInSlice(file, marker, lo, hi, i - lo);
          assert !OccursAt(file[lo..hi], marker, i - lo);
        }
      }
    }
  }

  lemma NextWindow(file: seq<Byte>, pos: nat, chunk: nat, n: nat) returns (lo: nat)
    requires pos < |file| && 0 < chunk && n <= chunk
    ensures var c := Read(file, pos, chunk);
            var hi := pos + |c|;
            && pos <= lo <= hi <= |file|
            && SliceFromEnd(c, n) == file[lo..hi]
            && (hi < |file| ==> lo + n <= hi)
  {
    var c := Read(file, pos, chunk);
    lo := if n == 0 || n >= |c| then pos else pos + |c| - n;
  }

  /** The carried tail and the next chunk are one window of the file. */
  lemma WindowIsSlice(file: seq<Byte>, lo: nat, pos: nat, chunk: nat)
    requires lo <= pos <= |file|
    ensures var c := Read(file, pos, chunk); file[lo..pos] + c == file[lo..pos + |c|]
  {
    var c := Read(file, pos, chunk);
    var hi := pos + |c|;
    assert c == file[pos..hi];
  }

  /** With nothing found before `pos` and the right tail, the rest of the scan finds what is there. */
  lemma {:induction false} ScanFromIsExact(file: seq<Byte>, marker: seq<Byte>, chunk: nat, pos: nat, lo: nat)
    requires 0 < |marker| <= chunk + 1 && chunk > 0
    requires lo <= pos <= |file|
    requires pos < |file| ==> lo == 0 || lo + |marker| - 1 <= pos
    requires NoneBefore(file, marker, pos)
    ensures CarriesFrom(file, marker, chunk, pos, file[lo..pos]) <==> Occurs(file, marker)
    decreases |file| - pos
  {
    if pos < |file| {
      var c := Read(file, pos, chunk);
      var hi := pos + |c|;
      WindowIsSlice(file, lo, pos, chunk);
      WindowShowsAll(file, marker, lo, pos, hi);
      if !Occurs(file[lo..hi], marker) {
        var lo' := NextWindow(file, pos, chunk, |marker| - 1);
        ScanFromIsExact(file, marker, chunk, hi, lo');
      }
    }
  }

  lemma MarkerScanIsExact(file: seq<Byte>, marker: seq<Byte>, chunk: nat)
    requires 0 < |marker| <= chunk + 1 && chunk > 0
    ensures CarriesFrom(file, marker, chunk, 0, []) <==> Occurs(file, marker)
  {
    assert file[0..0] == [];
    ScanFromIsExact(file, marker, chunk, 0, 0);
  }

  method CarriesMarker(file: seq<Byte>, marker: seq<Byte>, chunk: nat) returns (found: bool)
    requires chunk > 0
    ensures found == CarriesFrom(file, marker, chunk, 0, [])
    ensures 0 < |marker| <= chunk + 1 ==> (found <==> Occurs(file, marker))
  {
    if 0 < |marker| <= chunk + 1 {
      MarkerScanIsExact(file, marker, chunk);
    }
    var pos := 0;
    var tail := [];
    while true
      invariant pos <= |file|
      invariant CarriesFrom(file, marker, chunk, 0, []) == CarriesFrom(file, marker, chunk, pos, tail)
      decreases |file| - pos
    {
      var c := Read(file, pos, chunk);
      if c == [] {
        return false;
      }
      if Occurs(tail + c, marker) {
        return true;
      }
      tail := SliceFromEnd(c, |marker| - 1);
      pos := pos + |c|;
    }
  }

  lemma {:induction false} MissesFrom(file: seq<Byte>, marker: seq<Byte>, chunk: nat, pos: nat, lo: nat)
    requires 0 < chunk && chunk + 1 < |marker|
    requires forall i: nat :: OccursAt(file, marker, i) ==> i == chunk - 1
    requires lo <= pos <= |file|
    requires pos == |file| || (lo == 0 && (pos == 0 || pos == chunk)) || lo >= chunk
    ensures !CarriesFrom(file, marker, chunk, pos, file[lo..pos])
    decreases |file| - pos
  {
    if pos < |file| {
      var c := Read(file, pos, chunk);
      var hi := pos + |c|;
      WindowIsSlice(file, lo, pos, chunk);
      forall k: nat ensures !OccursAt(file[lo..hi], marker, k) {
        OccursInSlice(file, marker, lo, hi, k);
      }
      assert SliceFromEnd(c, |marker| - 1) == file[pos..hi];
      MissesFrom(file, marker, chunk, hi, pos);
    }
  }

  /** A marker split so that its first byte ends one chunk and the next chunk cannot hold the rest is missed. */
  lemma ShortChunksMissMarker(marker: seq<Byte>, chunk: nat) returns (file: seq<Byte>)
    requires 0 < chunk && chunk + 1 < |marker|
    ensures Occurs(file, marker) && !CarriesFrom(file, marker, chunk, 0, [])
  {
    var filler: Byte := if marker[0] == 0 then 1 else 0;
    file := seq(chunk - 1, _ => filler) + marker;
    assert OccursAt(file, marker, chunk - 1);
    assert file[0..0] == [];
    MissesFrom(file, marker, chunk, 0, 0);
  }

  /** The scan agrees with a whole-file search for every file iff the marker is not empty and its overlap fits a chunk. */
  lemma MarkerScanExactIff(marker: seq<Byte>, chunk: nat)
    requires chunk > 0
    ensures (forall file :: CarriesFrom(file, marker, chunk, 0, []) <==> Occurs(file, marker))
       <==> 0 < |marker| <= chunk + 1
  {
    if 0 < |marker| <= chunk + 1 {
      forall file: seq<Byte> ensures CarriesFrom(file, marker, chunk, 0, []) <==> Occurs(file, marker) {
        MarkerScanIsExact(file, marker, chunk);
      }
    } else if marker == [] {
      assert OccursAt([], marker, 0);
      assert !CarriesFrom([], marker, chunk, 0, []);
    } else {
      var file := ShortChunksMissMarker(marker, chunk);
      assert !(CarriesFrom(file, marker, chunk, 0, []) <==> Occurs(file, marker));
    }
  }

  // ---------------------------------------------------------------------------
  // _max_glibc_minor
  // ---------------------------------------------------------------------------

  /** "GLIBC_2." */
  const PREFIX: seq<Byte> := [71, 76, 73, 66, 67, 95, 50, 46]
  const OVERLAP := 16

  predicate IsDigit(b: Byte) { 48 <= b <= 57 }

  /** A match of GLIBC_2\.(\d+) starts at `i`. */
  predicate MatchAt(s: seq<Byte>, i: nat) {
    i + 8 < |s| && s[i..i + 8] == PREFIX && IsDigit(s[i + 8])
  }

  /** The end of the digit run that starts at `j`. */
  function DigitsEnd(s: seq<Byte>, j: nat): (e: nat)
    requires j <= |s|
    ensures j <= e <= |s| && (forall k :: j <= k < e ==> IsDigit(s[k])) && (e < |s| ==> !IsDigit(s[e]))
    decreases |s| - j
  {
    if j < |s| && IsDigit(s[j]) then DigitsEnd(s, j + 1) else j
  }

  function Number(s: seq<Byte>, lo: nat, hi: nat): nat
    requires lo <= hi <= |s| && forall k :: lo <= k < hi ==> IsDigit(s[k])
  {
    if lo == hi then 0
    else
      assert IsDigit(s[hi - 1]);
      Number(s, lo, hi - 1) * 10 + (s[hi - 1] - 48) as nat
  }

  function ValueAt(s: seq<Byte>, i: nat): nat
    requires MatchAt(s, i)
  {
    Number(s, i + 8, DigitsEnd(s, i + 8))
  }

  function Max(a: nat, b: nat): nat { if a >= b then a else b }

  /** The largest number matched at an offset below `n`, or 0. */
  function MaxBelow(s: seq<Byte>, n: nat): nat
    requires n <= |s|
  {
    if n == 0 then 0
    else Max(MaxBelow(s, n - 1), if MatchAt(s, n - 1) then ValueAt(s, n - 1) else 0)
  }

  /** The whole-file answer: the largest number after any "GLIBC_2.", or 0. */
  function MaxMinor(s: seq<Byte>): nat { MaxBelow(s, |s|) }

  lemma {:induction false} MaxBelowIsUpperBound(s: seq<Byte>, n: nat, i: nat)
    requires i < n <= |s| && MatchAt(s, i)
    ensures ValueAt(s, i) <= MaxBelow(s, n)
  {
    if i < n - 1 {
      MaxBelowIsUpperBound(s, n - 1, i);
    }
  }

  lemma {:induction false} MaxBelowIsLeast(s: seq<Byte>, n: nat, bound: nat)
    requires n <= |s| && forall i: nat :: i < n && MatchAt(s, i) ==> ValueAt(s, i) <= bound
    ensures MaxBelow(s, n) <= bound
  {
    if n > 0 {
      MaxBelowIsLeast(s, n - 1, bound);
    }
  }

  /** Only the first byte of a match is a 'G', so matches never overlap. */
  lemma NoMatchInsideMatch(s: seq<Byte>, i: nat, j: nat)
    requires MatchAt(s, i) && i < j < DigitsEnd(s, i + 8)
    ensures !MatchAt(s, j)
  {
    assert forall k :: 0 <= k < 8 ==> s[i + k] == s[i..i + 8][k] == PREFIX[k];
    assert s[j] != 71;
  }

  lemma {:induction false} SkipMatch(s: seq<Byte>, i: nat, n: nat)
    requires MatchAt(s, i) && i < n <= DigitsEnd(s, i + 8)
    ensures MaxBelow(s, n) == Max(MaxBelow(s, i), ValueAt(s, i))
  {
    if n > i + 1 {
      NoMatchInsideMatch(s, i, n - 1);
      SkipMatch(s, i, n - 1);
    }
  }

  /** `re.finditer` over one window: it resumes after each match, yet misses none. */
  method MaxOfMatches(s: seq<Byte>, best0: nat) returns (best: nat)
    ensures best == Max(best0, MaxMinor(s))
  {
    best := best0;
    var pos := 0;
    while pos < |s|
      invariant pos <= |s| && best == Max(best0, MaxBelow(s, pos))
    {
      if MatchAt(s, pos) {
        var end := DigitsEnd(s, pos + 8);
        SkipMatch(s, pos, end);
        best := Max(best, Number(s, pos + 8, end));
        pos := end;
      } else {
        pos := pos + 1;
      }
    }
  }

  /** The rest of the version scan, from offset `pos`. */
  function MaxMinorFrom(file: seq<Byte>, chunk: nat, pos: nat, tail: seq<Byte>, best: nat): nat
    requires pos <= |file| && chunk > 0
    decreases |file| - pos
  {
    var c := Read(file, pos, chunk);
    if c == [] then best
    else MaxMinorFrom(file, chunk, pos + |c|, SliceFromEnd(c, OVERLAP), Max(best, MaxMinor(tail + c)))
  }

  /** Every version number of the file has at most `n` digits. */
  ghost predicate ShortNumbers(file: seq<Byte>, n: nat) {
    forall i: nat :: MatchAt(file, i) ==> DigitsEnd(file, i + 8) - (i + 8) <= n
  }

  lemma MatchInSlice(file: seq<Byte>, lo: nat, hi: nat, k: nat)
    requires lo <= hi <= |file|
    ensures MatchAt(file[lo..hi], k) <==> MatchAt(file, lo + k) && lo + k + 8 < hi
  {
    if lo + k + 8 < hi {
      SliceOfSlice(file, lo, hi, k, k + 8);
    }
  }

  lemma {:induction false} NumberInSlice(file: seq<Byte>, lo: nat, hi: nat, a: nat, b: nat)
    requires lo <= hi <= |file| && a <= b <= hi - lo
    requires forall k :: lo + a <= k < lo + b ==> IsDigit(file[k])
    ensures forall k :: a <= k < b ==> IsDigit(file[lo..hi][k])
    ensures Number(file[lo..hi], a, b) == Number(file, lo + a, lo + b)
    decreases b
  {
    assert forall k :: a <= k < b ==> file[lo..hi][k] == file[lo + k];
    if a < b {
      NumberInSlice(file, lo, hi, a, b - 1);
    }
  }

  lemma {:induction false} LongerNumberIsLarger(s: seq<Byte>, lo: nat, mid: nat, hi: nat)
    requires lo <= mid <= hi <= |s| && forall k :: lo <= k < hi ==> IsDigit(s[k])
    ensures Number(s, lo, mid) <= Number(s, lo, hi)
  {
    if mid < hi {
      LongerNumberIsLarger(s, lo, mid, hi - 1);
    }
  }

  /** A digit run cut off by the end of the window is read as its prefix. */
  lemma DigitsEndInSlice(file: seq<Byte>, lo: nat, hi: nat, j: nat)
    requires lo <= lo + j <= hi <= |file|
    ensures var e := DigitsEnd(file, lo + j);
            DigitsEnd(file[lo..hi], j) == (if e <= hi then e else hi) - lo
  {
    var w := file[lo..hi];
    assert forall k :: 0 <= k < |w| ==> w[k] == file[lo + k];
    assert DigitsEnd(file, lo + j) <= hi ==> DigitsEnd(w, j) <= DigitsEnd(file, lo + j) - lo;
  }

  /** What a window reads at a match: the whole number if the run ends inside it, else something no larger. */
  lemma ValueInSlice(file: seq<Byte>, lo: nat, hi: nat, k: nat)
    requires lo <= hi <= |file| && MatchAt(file[lo..hi], k)
    ensures MatchAt(file, lo + k) && ValueAt(file[lo..hi], k) <= ValueAt(file, lo + k)
    ensures DigitsEnd(file, lo + k + 8) <= hi ==> ValueAt(file[lo..hi], k) == ValueAt(file, lo + k)
  {
    MatchInSlice(file, lo, hi, k);
    DigitsEndInSlice(file, lo, hi, k + 8);
    var e := DigitsEnd(file, lo + k + 8);
    var cut := if e <= hi then e else hi;
    NumberInSlice(file, lo, hi, k + 8, cut - lo);
    LongerNumberIsLarger(file, lo + k + 8, cut, e);
  }

  lemma WindowMaxIsSound(file: seq<Byte>, lo: nat, hi: nat)
    requires lo <= hi <= |file|
    ensures MaxMinor(file[lo..hi]) <= MaxMinor(file)
  {
    var w := file[lo..hi];
    forall k: nat | k < |w| && MatchAt(w, k) ensures ValueAt(w, k) <= MaxMinor(file) {
      ValueInSlice(file, lo, hi, k);
      MaxBelowIsUpperBound(file, |file|, lo + k);
    }
    MaxBelowIsLeast(w, |w|, MaxMinor(file));
  }

  /** The start of the chunk in which the number matched at `i` ends. */
  function LastChunkOf(file: seq<Byte>, chunk: nat, i: nat): nat
    requires MatchAt(file, i) && chunk > 0
  {
    var last := DigitsEnd(file, i + 8) - 1;
    last - last % chunk
  }

  /** The match at `i` starts no further than the overlap before the chunk in which its number ends. */
  ghost predicate Fits(file: seq<Byte>, chunk: nat, i: nat)
    requires MatchAt(file, i) && chunk > 0
  {
    LastChunkOf(file, chunk, i) <= i + OVERLAP
  }

  lemma ChunkStart(chunk: nat, q: nat, x: nat)
    requires chunk > 0 && chunk * q <= x < chunk * q + chunk
    ensures x - x % chunk == chunk * q
  {
    DivMod(chunk, q, x - chunk * q);
  }

  /** The scan stands at the start of chunk `q` with the overlap from `lo` on carried over. */
  ghost predicate AtChunk(file: seq<Byte>, chunk: nat, q: nat, pos: nat, lo: nat) {
    && lo <= pos <= |file|
    && (pos < |file| ==> pos == chunk * q && (if q == 0 then lo == 0 else lo + OVERLAP == pos))
  }

  lemma NextChunk(file: seq<Byte>, chunk: nat, q: nat, pos: nat, lo: nat) returns (lo': nat)
    requires OVERLAP <= chunk && pos < |file| && AtChunk(file, chunk, q, pos, lo)
    ensures var c := Read(file, pos, chunk);
            AtChunk(file, chunk, q + 1, pos + |c|, lo') && SliceFromEnd(c, OVERLAP) == file[lo'..pos + |c|]
  {
    var c := Read(file, pos, chunk);
    lo' := if OVERLAP >= |c| then pos else pos + |c| - OVERLAP;
    assert chunk * (q + 1) == chunk * q + chunk;
  }

  /** `best` covers every fitting number that ends at or before `end`. */
  ghost predicate Covers(file: seq<Byte>, chunk: nat, end: nat, best: nat)
    requires chunk > 0
  {
    forall i: nat :: MatchAt(file, i) && Fits(file, chunk, i) && DigitsEnd(file, i + 8) <= end ==> ValueAt(file, i) <= best
  }

  lemma FittingStartsInside(file: seq<Byte>, chunk: nat, q: nat, lo: nat, pos: nat, i: nat)
    requires OVERLAP <= chunk && pos < |file| && AtChunk(file, chunk, q, pos, lo)
    requires MatchAt(file, i) && Fits(file, chunk, i) && pos < DigitsEnd(file, i + 8) <= pos + chunk
    ensures lo <= i
  {
    ChunkStart(chunk, q, DigitsEnd(file, i + 8) - 1);
  }

  lemma FittingNumberIsRead(file: seq<Byte>, chunk: nat, q: nat, lo: nat, pos: nat, hi: nat, i: nat)
    requires OVERLAP <= chunk && pos < hi <= |file| && hi <= pos + chunk && AtChunk(file, chunk, q, pos, lo)
    requires MatchAt(file, i) && Fits(file, chunk, i) && pos < DigitsEnd(file, i + 8) <= hi
    ensures ValueAt(file, i) <= MaxMinor(file[lo..hi])
  {
    FittingStartsInside(file, chunk, q, lo, pos, i);
    MatchInSlice(file, lo, hi, i - lo);
    ValueInSlice(file, lo, hi, i - lo);
    MaxBelowIsUpperBound(file[lo..hi], hi - lo, i - lo);
  }

  lemma WindowCoversNewNumbers(file: seq<Byte>, chunk: nat, q: nat, lo: nat, pos: nat, hi: nat, best: nat)
    requires OVERLAP <= chunk && pos < hi <= |file| && hi <= pos + chunk && AtChunk(file, chunk, q, pos, lo)
    requires Covers(file, chunk, pos, best)
    ensures Covers(file, chunk, hi, Max(best, MaxMinor(file[lo..hi])))
  {
    forall i: nat | MatchAt(file, i) && Fits(file, chunk, i) && pos < DigitsEnd(file, i + 8) <= hi
      ensures ValueAt(file, i) <= MaxMinor(file[lo..hi])
    {
      FittingNumberIsRead(file, chunk, q, lo, pos, hi, i);
    }
  }

  /** The whole-file maximum is 0 or the value of a number that fits. */
  ghost predicate MaximumFits(file: seq<Byte>, chunk: nat)
    requires chunk > 0
  {
    MaxMinor(file) == 0
    || exists i: nat :: MatchAt(file, i) && Fits(file, chunk, i) && ValueAt(file, i) == MaxMinor(file)
  }

  lemma {:induction false} MaxBelowIsAttained(s: seq<Byte>, n: nat) returns (i: nat)
    requires n <= |s| && MaxBelow(s, n) > 0
    ensures i < n && MatchAt(s, i) && ValueAt(s, i) == MaxBelow(s, n)
  {
    if MatchAt(s, n - 1) && ValueAt(s, n - 1) == MaxBelow(s, n) {
      i := n - 1;
    } else {
      i := MaxBelowIsAttained(s, n - 1);
    }
  }

  lemma LongerIsStrictlyLarger(s: seq<Byte>, lo: nat, mid: nat, hi: nat)
    requires lo <= mid < hi <= |s| && forall k :: lo <= k < hi ==> IsDigit(s[k])
    requires Number(s, lo, mid) > 0
    ensures Number(s, lo, mid) < Number(s, lo, hi)
  {
    LongerNumberIsLarger(s, lo, mid, hi - 1);
  }

  /** A window that reads a positive number to its full value holds all its digits. */
  lemma FullValueEndsInside(file: seq<Byte>, lo: nat, hi: nat, k: nat)
    requires lo <= hi <= |file| && MatchAt(file[lo..hi], k) && MatchAt(file, lo + k)
    requires 0 < ValueAt(file[lo..hi], k) == ValueAt(file, lo + k)
    ensures DigitsEnd(file, lo + k + 8) <= hi
  {
    var e := DigitsEnd(file, lo + k + 8);
    if e > hi {
      MatchInSlice(file, lo, hi, k);
      DigitsEndInSlice(file, lo, hi, k + 8);
      NumberInSlice(file, lo, hi, k + 8, hi - lo);
      LongerIsStrictlyLarger(file, lo + k + 8, hi, e);
    }
  }

  /** A number that lies inside a window fits. */
  lemma InsideWindowFits(file: seq<Byte>, chunk: nat, q: nat, lo: nat, pos: nat, hi: nat, i: nat)
    requires OVERLAP <= chunk && pos < hi <= |file| && hi <= pos + chunk && AtChunk(file, chunk, q, pos, lo)
    requires lo <= i && MatchAt(file, i) && DigitsEnd(file, i + 8) <= hi
    ensures Fits(file, chunk, i)
  {
    if DigitsEnd(file, i + 8) > pos {
      ChunkStart(chunk, q, DigitsEnd(file, i + 8) - 1);
    }
  }

  /** A window that reads the whole-file maximum holds a number that attains it and fits. */
  lemma WindowMaximumFits(file: seq<Byte>, chunk: nat, q: nat, lo: nat, pos: nat, hi: nat)
    requires OVERLAP <= chunk && pos < hi <= |file| && hi <= pos + chunk && AtChunk(file, chunk, q, pos, lo)
    requires MaxMinor(file[lo..hi]) == MaxMinor(file)
    ensures MaximumFits(file, chunk)
  {
    if MaxMinor(file) > 0 {
      var w := file[lo..hi];
      var k := MaxBelowIsAttained(w, |w|);
      ValueInSlice(file, lo, hi, k);
      MaxBelowIsUpperBound(file, |file|, lo + k);
      FullValueEndsInside(file, lo, hi, k);
      InsideWindowFits(file, chunk, q, lo, pos, hi, lo + k);
    }
  }

  lemma CoversEnough(file: seq<Byte>, chunk: nat, best: nat)
    requires chunk > 0 && Covers(file, chunk, |file|, best) && best <= MaxMinor(file) && MaximumFits(file, chunk)
    ensures best == MaxMinor(file)
  {
    if MaxMinor(file) > 0 {
      var i: nat :| MatchAt(file, i) && Fits(file, chunk, i) && ValueAt(file, i) == MaxMinor(file);
    }
  }

  lemma {:induction false} VersionScanFrom(file: seq<Byte>, chunk: nat, q: nat, pos: nat, lo: nat, best: nat)
    requires OVERLAP <= chunk && AtChunk(file, chunk, q, pos, lo)
    requires Covers(file, chunk, pos, best) && best <= MaxMinor(file)
    requires best == MaxMinor(file) ==> MaximumFits(file, chunk)
    ensures MaxMinorFrom(file, chunk, pos, file[lo..pos], best) <= MaxMinor(file)
    ensures MaxMinorFrom(file, chunk, pos, file[lo..pos], best) == MaxMinor(file) <==> MaximumFits(file, chunk)
    decreases |file| - pos
  {
    if pos == |file| {
      if MaximumFits(file, chunk) {
        CoversEnough(file, chunk, best);
      }
    } else {
      var c := Read(file, pos, chunk);
      var hi := pos + |c|;
      WindowIsSlice(file, lo, pos, chunk);
      WindowCoversNewNumbers(file, chunk, q, lo, pos, hi, best);
      WindowMaxIsSound(file, lo, hi);
      if MaxMinor(file[lo..hi]) == MaxMinor(file) {
        WindowMaximumFits(file, chunk, q, lo, pos, hi);
      }
      var lo' := NextChunk(file, chunk, q, pos, lo);
      VersionScanFrom(file, chunk, q + 1, hi, lo', Max(best, MaxMinor(file[lo..hi])));
    }
  }

  /**
   For every file: the chunked maximum is never too large, and it is the whole-file maximum exactly when that
   maximum is 0 or some number that attains it starts at most the overlap before the chunk in which it ends.
   */
  lemma VersionScanIsExactIff(file: seq<Byte>, chunk: nat)
    requires OVERLAP <= chunk
    ensures MaxMinorFrom(file, chunk, 0, [], 0) <= MaxMinor(file)
    ensures MaxMinorFrom(file, chunk, 0, [], 0) == MaxMinor(file) <==> MaximumFits(file, chunk)
  {
    assert file[0..0] == [];
    VersionScanFrom(file, chunk, 0, 0, 0, 0);
  }

  /** With numbers of at most nine digits the chunked maximum is the whole-file maximum. */
  lemma VersionScanIsExact(file: seq<Byte>, chunk: nat)
    requires OVERLAP <= chunk && ShortNumbers(file, 9)
    ensures MaxMinorFrom(file, chunk, 0, [], 0) == MaxMinor(file)
  {
    if MaxMinor(file) > 0 {
      var i := MaxBelowIsAttained(file, |file|);
      assert Fits(file, chunk, i);
    }
    VersionScanIsExactIff(file, chunk);
  }

  method MaxGlibcMinor(file: seq<Byte>, chunk: nat) returns (best: nat)
    requires chunk > 0
    ensures best == MaxMinorFrom(file, chunk, 0, [], 0)
    ensures OVERLAP <= chunk ==> (best == MaxMinor(file) <==> MaximumFits(file, chunk))
    ensures OVERLAP <= chunk && ShortNumbers(file, 9) ==> best == MaxMinor(file)
  {
    if OVERLAP <= chunk {
      VersionScanIsExactIff(file, chunk);
      if ShortNumbers(file, 9) {
        VersionScanIsExact(file, chunk);
      }
    }
    best := 0;
    var pos := 0;
    var tail := [];
    while true
      invariant pos <= |file|
      invariant MaxMinorFrom(file, chunk, 0, [], 0) == MaxMinorFrom(file, chunk, pos, tail, best)
      decreases |file| - pos
    {
      var c := Read(file, pos, chunk);
      if c == [] {
        return best;
      }
      best := MaxOfMatches(tail + c, best);
      tail := SliceFromEnd(c, OVERLAP);
      pos := pos + |c|;
    }
  }

  // The numbers are read as they are written.

  /** The decimal digits of `n`. */
  function Digits(n: nat): (d: seq<Byte>)
    ensures d != [] && forall i :: 0 <= i < |d| ==> 48 <= d[i] <= 57
  {
    var last := [(48 + n % 10) as Byte];
    if n < 10 then last else Digits(n / 10) + last
  }

  /** The bytes of an ASCII text. */
  function Ascii(text: string): seq<Byte>
    requires forall i :: 0 <= i < |text| ==> text[i] as int < 128
  {
    seq(|text|, i requires 0 <= i < |text| => text[i] as Byte)
  }

  /** A version as it stands in the file, and what follows it: nothing, or a byte that cannot belong to a version. */
  function Entry(n: nat, rest: seq<Byte>): seq<Byte> {
    Ascii("GLIBC_2.") + Digits(n) + rest
  }

  predicate Separates(b: Byte) {
    (b < 48 || 57 < b) && b !in PREFIX
  }

  predicate EndsEntry(rest: seq<Byte>) {
    rest == [] || (|rest| == 1 && Separates(rest[0]))
  }

  lemma {:induction false} DigitsRoundTrip(s: seq<Byte>, lo: nat, n: nat)
    requires lo + |Digits(n)| <= |s| && s[lo..lo + |Digits(n)|] == Digits(n)
    ensures forall k :: lo <= k < lo + |Digits(n)| ==> IsDigit(s[k])
    ensures Number(s, lo, lo + |Digits(n)|) == n
    decreases n
  {
    var d, hi := Digits(n), lo + |Digits(n)|;
    assert forall k :: lo <= k < hi ==> s[k] == s[lo..hi][k - lo] == d[k - lo];
    if n >= 10 {
      var e := Digits(n / 10);
      assert s[lo..hi - 1] == e by {
        assert s[lo..hi - 1] == d[..|e|];
      }
      DigitsRoundTrip(s, lo, n / 10);
    } else {
      assert Number(s, lo, lo) == 0;
    }
  }

  lemma EntryBytes(n: nat, rest: seq<Byte>)
    ensures var f, d := Entry(n, rest), Digits(n);
            && f[0..8] == PREFIX && f[8..8 + |d|] == d
            && (forall i :: 0 <= i < 8 ==> f[i] == PREFIX[i])
            && (forall i :: 8 <= i < 8 + |d| ==> f[i] == d[i - 8])
            && (forall i :: 8 + |d| <= i < |f| ==> f[i] == rest[i - 8 - |d|])
  {
    assert Ascii("GLIBC_2.") == PREFIX;
  }

  lemma EntryDigits(n: nat, rest: seq<Byte>)
    requires EndsEntry(rest)
    ensures var f := Entry(n, rest);
            MatchAt(f, 0) && DigitsEnd(f, 8) == 8 + |Digits(n)| && ValueAt(f, 0) == n
  {
    var f := Entry(n, rest);
    EntryBytes(n, rest);
    DigitsRoundTrip(f, 8, n);
    assert IsDigit(f[8]);
  }

  lemma EntryHasOneStart(n: nat, rest: seq<Byte>, i: nat)
    requires EndsEntry(rest) && 0 < i < |Entry(n, rest)|
    ensures Entry(n, rest)[i] != 71
  {
    EntryBytes(n, rest);
  }

  lemma EntryMaximum(n: nat, rest: seq<Byte>)
    requires EndsEntry(rest)
    ensures MaxMinor(Entry(n, rest)) == n
    ensures |Digits(n)| <= 9 ==> ShortNumbers(Entry(n, rest), 9)
  {
    var f := Entry(n, rest);
    EntryDigits(n, rest);
    MaxBelowIsUpperBound(f, |f|, 0);
    forall i: nat | MatchAt(f, i) ensures i == 0 {
      assert f[i] == f[i..i + 8][0] == 71;
      if i > 0 {
        EntryHasOneStart(n, rest, i);
      }
    }
    MaxBelowIsLeast(f, |f|, n);
  }

  /** No number crosses from a file that ends in a separator to what follows it. */
  lemma MatchStaysLeft(a: seq<Byte>, b: seq<Byte>, i: nat)
    requires a != [] && Separates(a[|a| - 1]) && i < |a| && MatchAt(a + b, i)
    ensures MatchAt(a, i) && DigitsEnd(a + b, i + 8) <= |a|
  {
    var f, last := a + b, |a| - 1;
    assert f[last] == a[last] && f[0..|a|] == a;
    assert forall k :: 0 <= k < 8 ==> f[i + k] == f[i..i + 8][k] == PREFIX[k];
    assert i + 8 < |a|;
    MatchInSlice(f, 0, |a|, i);
    assert !IsDigit(f[last]);
  }

  lemma JoinedMatch(a: seq<Byte>, b: seq<Byte>, i: nat)
    requires (a == [] || Separates(a[|a| - 1])) && MatchAt(a + b, i)
    ensures i < |a| ==> MatchAt(a, i) && ValueAt(a + b, i) == ValueAt(a, i)
                        && DigitsEnd(a + b, i + 8) == DigitsEnd(a, i + 8)
    ensures i >= |a| ==> MatchAt(b, i - |a|) && ValueAt(a + b, i) == ValueAt(b, i - |a|)
                         && DigitsEnd(a + b, i + 8) == |a| + DigitsEnd(b, i - |a| + 8)
  {
    var f := a + b;
    assert f[0..|a|] == a && f[|a|..|f|] == b;
    if i < |a| {
      MatchStaysLeft(a, b, i);
      ValueInSlice(f, 0, |a|, i);
      DigitsEndInSlice(f, 0, |a|, i + 8);
    } else {
      MatchInSlice(f, |a|, |f|, i - |a|);
      ValueInSlice(f, |a|, |f|, i - |a|);
      DigitsEndInSlice(f, |a|, |f|, i - |a| + 8);
    }
  }

  /** The numbers of two files, the first of which ends in a separator, are the numbers of both. */
  lemma MaximumOfJoined(a: seq<Byte>, b: seq<Byte>)
    requires a == [] || Separates(a[|a| - 1])
    ensures MaxMinor(a + b) == Max(MaxMinor(a), MaxMinor(b))
    ensures ShortNumbers(a, 9) && ShortNumbers(b, 9) ==> ShortNumbers(a + b, 9)
  {
    var f := a + b;
    forall i: nat | MatchAt(f, i)
      ensures ValueAt(f, i) <= Max(MaxMinor(a), MaxMinor(b))
      ensures ShortNumbers(a, 9) && ShortNumbers(b, 9) ==> DigitsEnd(f, i + 8) - (i + 8) <= 9
    {
      JoinedMatch(a, b, i);
      if i < |a| {
        MaxBelowIsUpperBound(a, |a|, i);
      } else {
        MaxBelowIsUpperBound(b, |b|, i - |a|);
      }
    }
    MaxBelowIsLeast(f, |f|, Max(MaxMinor(a), MaxMinor(b)));
    assert f[0..|a|] == a && f[|a|..|f|] == b;
    WindowMaxIsSound(f, 0, |a|);
    WindowMaxIsSound(f, |a|, |f|);
  }

  /** A file that lists versions, each followed by the same separator. */
  function Listing(versions: seq<nat>, separator: Byte): seq<Byte> {
    if versions == [] then []
    else Listing(versions[..|versions| - 1], separator) + Entry(versions[|versions| - 1], [separator])
  }

  function Largest(versions: seq<nat>): (m: nat)
    ensures forall i :: 0 <= i < |versions| ==> versions[i] <= m
    ensures if versions == [] then m == 0 else m in versions
  {
    if versions == [] then 0 else Max(Largest(versions[..|versions| - 1]), versions[|versions| - 1])
  }

  lemma {:induction false} ListingMaximum(versions: seq<nat>, separator: Byte)
    requires Separates(separator)
    ensures var f := Listing(versions, separator);
            && MaxMinor(f) == Largest(versions)
            && (f != [] ==> Separates(f[|f| - 1]))
            && ((forall i :: 0 <= i < |versions| ==> |Digits(versions[i])| <= 9) ==> ShortNumbers(f, 9))
    decreases |versions|
  {
    if versions != [] {
      var n := |versions| - 1;
      ListingMaximum(versions[..n], separator);
      EntryMaximum(versions[n], [separator]);
      MaximumOfJoined(Listing(versions[..n], separator), Entry(versions[n], [separator]));
    }
  }

  function Power(k: nat): nat { if k == 0 then 1 else 10 * Power(k - 1) }

  lemma {:induction false} DigitCount(n: nat, k: nat, power: nat)
    requires k > 0 && n < power && power == Power(k)
    ensures |Digits(n)| <= k
    decreases k
  {
    if n >= 10 {
      assert Power(k) == 10 * Power(k - 1);
      DigitCount(n / 10, k - 1, Power(k - 1));
    }
  }

  lemma NineDigits(n: nat)
    requires n < 1_000_000_000
    ensures |Digits(n)| <= 9
  {
    DigitCount(n, 9, 1_000_000_000);
  }

  /**
   The scan reads decimal numbers: of a file that lists versions below one billion, with any separator, it returns
   the largest one, for every chunk of at least the overlap; and of a file that is one version, that version.
   */
  lemma ScanReadsDecimals(versions: seq<nat>, separator: Byte, n: nat, chunk: nat)
    requires OVERLAP <= chunk && Separates(separator) && n < 1_000_000_000
    requires forall i :: 0 <= i < |versions| ==> versions[i] < 1_000_000_000
    ensures MaxMinorFrom(Listing(versions, separator), chunk, 0, [], 0) == Largest(versions)
    ensures MaxMinorFrom(Entry(n, []), chunk, 0, [], 0) == n
  {
    forall i | 0 <= i < |versions| ensures |Digits(versions[i])| <= 9 {
      NineDigits(versions[i]);
    }
    ListingMaximum(versions, separator);
    VersionScanIsExact(Listing(versions, separator), chunk);
    NineDigits(n);
    EntryMaximum(n, []);
    VersionScanIsExact(Entry(n, []), chunk);
  }

  // The bound of nine digits is tight for every chunk of at least the overlap.

  /** `file` ends in a ten-digit number at `i`, its only one, whose last digit starts a new chunk. */
  ghost predicate TenDigitFile(file: seq<Byte>, chunk: nat, i: nat) {
    && i == 2 * chunk - 17 && |file| == 2 * chunk + 1
    && MatchAt(file, i) && DigitsEnd(file, i + 8) == |file| && file[i + 8] != 48
    && forall k :: 0 <= k < |file| && file[k] == 71 ==> k == i
  }

  lemma TenDigitFileExists(chunk: nat) returns (file: seq<Byte>)
    requires OVERLAP <= chunk
    ensures TenDigitFile(file, chunk, 2 * chunk - 17)
  {
    var i := 2 * chunk - 17;
    file := seq(i, _ => 0) + PREFIX + seq(10, _ => 49);
    assert |file| == 2 * chunk + 1;
    assert forall k :: i + 8 <= k < |file| ==> file[k] == 49;
    assert file[i..i + 8] == PREFIX;
    assert forall k :: 0 <= k < 8 ==> file[i + k] == PREFIX[k];
  }

  lemma OnlyMatch(file: seq<Byte>, chunk: nat, i: nat, k: nat)
    requires TenDigitFile(file, chunk, i) && MatchAt(file, k)
    ensures k == i
  {
    assert file[k] == file[k..k + 8][0] == 71;
  }

  lemma TenDigitsDoNotFit(file: seq<Byte>, chunk: nat, i: nat)
    requires OVERLAP <= chunk && TenDigitFile(file, chunk, i)
    ensures !MaximumFits(file, chunk)
  {
    assert Number(file, i + 8, i + 9) > 0;
    LongerNumberIsLarger(file, i + 8, i + 9, |file|);
    MaxBelowIsUpperBound(file, |file|, i);
    ChunkStart(chunk, 2, 2 * chunk);
    forall k: nat | MatchAt(file, k) ensures !Fits(file, chunk, k) {
      OnlyMatch(file, chunk, i, k);
    }
  }

  /** A ten-digit number whose last digit starts a chunk is read without that digit, and never again. */
  lemma TenDigitsAreMisread(chunk: nat) returns (file: seq<Byte>)
    requires OVERLAP <= chunk
    ensures ShortNumbers(file, 10) && MaxMinorFrom(file, chunk, 0, [], 0) < MaxMinor(file)
  {
    file := TenDigitFileExists(chunk);
    var i := 2 * chunk - 17;
    TenDigitsDoNotFit(file, chunk, i);
    VersionScanIsExactIff(file, chunk);
    forall k: nat | MatchAt(file, k) ensures k == i {
      OnlyMatch(file, chunk, i, k);
    }
  }

  /** Nine is the largest number of digits for which the scan is exact on every file, for any chunk of 16 or more. */
  lemma NineDigitsIsTight(n: nat, chunk: nat)
    requires OVERLAP <= chunk
    ensures (forall file :: ShortNumbers(file, n) ==> MaxMinorFrom(file, chunk, 0, [], 0) == MaxMinor(file))
       <==> n <= 9
  {
    if n <= 9 {
      forall file | ShortNumbers(file, n) ensures MaxMinorFrom(file, chunk, 0, [], 0) == MaxMinor(file) {
        VersionScanIsExact(file, chunk);
      }
    } else {
      var file := TenDigitsAreMisread(chunk);
      assert ShortNumbers(file, n);
    }
  }
}
