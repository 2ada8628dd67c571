/**
 The budgeted diagnostic export of src/diagnostics.rs: discovery of log files in a directory tree, the
 newest-first selection, the bounded read of each file's tail, and line-wise redaction. Redaction of a single
 line, ZIP encoding and the manifest are foreign or left out.
 */
module LogExport {
  import opened Common

  const NEWLINE: Byte := 10
  const FILE_LIMIT := 2 * 1024 * 1024
  const TOTAL_LIMIT := 32 * 1024 * 1024
  const MAX_FILES := 64
  const MAX_DEPTH := 4
  const ENTRY_BUDGET := 4096
  const MAX_AGE := 7 * 86400

  // ---------------------------------------------------------------------------
  // Discovery
  // ---------------------------------------------------------------------------

  /** A log file: modification time (in seconds), content, and whether it can still be opened. */
  datatype LogFile = LogFile(time: int, content: seq<Byte>, opens: bool)

  datatype Entry =
    | Unreadable
    | NoMetadata
    | Symlink
    | SubDir(dir: Dir)
    | Log(file: LogFile)
    | LogWithoutTime
    | OtherFile

  datatype Dir = Dir(readable: bool, entries: seq<Entry>)

  datatype Warning = LimitReached | DirUnreadable | EntryUnreadable | MetadataUnreadable | UnknownTime

  predicate Recent(f: LogFile, now: int) { now - f.time <= MAX_AGE }

  /** What an examined entry contributes. */
  function LogOf(e: Entry, now: int): seq<LogFile> {
    if e.Log? && Recent(e.file, now) then [e.file] else []
  }

  function LogsOf(es: seq<Entry>, now: int): seq<LogFile> {
    if es == [] then [] else LogsOf(es[..|es| - 1], now) + LogOf(es[|es| - 1], now)
  }

  /** The entries of the tree in the order of a depth-first walk that enters directories down to depth 4. */
  function Walk(dir: Dir, depth: nat): seq<Entry>
    decreases dir, 1
  {
    if depth > MAX_DEPTH || !dir.readable then [] else WalkEntries(dir.entries, depth)
  }

  function WalkEntries(es: seq<Entry>, depth: nat): seq<Entry>
    decreases es, 0
  {
    if es == [] then [] else WalkEntries(es[..|es| - 1], depth) + Visit(es[|es| - 1], depth)
  }

  /** An entry, followed by what lies below it. */
  function Visit(e: Entry, depth: nat): seq<Entry>
    decreases e, 2
  {
    [e] + if e.SubDir? then Walk(e.dir, depth + 1) else []
  }

  /** The same walk without the depth limit. */
  function FullWalk(dir: Dir): seq<Entry>
    decreases dir, 1
  {
    if !dir.readable then [] else FullWalkEntries(dir.entries)
  }

  function FullWalkEntries(es: seq<Entry>): seq<Entry>
    decreases es, 0
  {
    if es == [] then [] else FullWalkEntries(es[..|es| - 1]) + FullVisit(es[|es| - 1])
  }

  function FullVisit(e: Entry): seq<Entry>
    decreases e, 2
  {
    [e] + if e.SubDir? then FullWalk(e.dir) else []
  }

  lemma {:induction false} LogsConcat(a: seq<Entry>, b: seq<Entry>, now: int)
    ensures LogsOf(a + b, now) == LogsOf(a, now) + LogsOf(b, now)
    decreases |b|
  {
    if b == [] {
      assert a + b == a;
    } else {
      var n := |b| - 1;
      var all := a + b;
      assert all[..|all| - 1] == a + b[..n] && all[|all| - 1] == b[n];
      LogsConcat(a, b[..n], now);
      assert LogsOf(all, now) == LogsOf(a + b[..n], now) + LogOf(b[n], now);
      assert LogsOf(b, now) == LogsOf(b[..n], now) + LogOf(b[n], now);
    }
  }

  /** A log among the entries is found exactly if it was modified within the last seven days, or later. */
  lemma {:induction false} FoundIff(es: seq<Entry>, now: int, f: LogFile)
    ensures f in LogsOf(es, now) <==> Log(f) in es && now - f.time <= 604_800
    decreases |es|
  {
    if es != [] {
      var n := |es| - 1;
      FoundIff(es[..n], now, f);
      assert es == es[..n] + [es[n]];
    }
  }

  // ---------------------------------------------------------------------------
  // What the walk reaches
  // ---------------------------------------------------------------------------

  /** The entry that a path of positions leads to, through readable directories. */
  function EntryAt(dir: Dir, path: seq<nat>): Option<Entry>
    decreases dir
  {
    if path == [] || !dir.readable || path[0] >= |dir.entries| then None
    else
      var e := dir.entries[path[0]];
      if |path| == 1 then Some(e)
      else if e.SubDir? then EntryAt(e.dir, path[1..])
      else None
  }

  lemma {:induction false} InWalkEntries(es: seq<Entry>, depth: nat, i: nat, e: Entry)
    requires i < |es| && e in Visit(es[i], depth)
    ensures e in WalkEntries(es, depth)
    decreases |es|
  {
    var n := |es| - 1;
    if i < n {
      InWalkEntries(es[..n], depth, i, e);
    }
  }

  lemma {:induction false} FromWalkEntries(es: seq<Entry>, depth: nat, e: Entry) returns (i: nat)
    requires e in WalkEntries(es, depth)
    ensures i < |es| && e in Visit(es[i], depth)
    decreases |es|
  {
    var n := |es| - 1;
    if e in Visit(es[n], depth) {
      i := n;
    } else {
      i := FromWalkEntries(es[..n], depth, e);
    }
  }

  lemma {:induction false} PathIsWalked(dir: Dir, depth: nat, path: seq<nat>)
    requires EntryAt(dir, path).Some? && depth + |path| <= 5
    ensures EntryAt(dir, path).value in Walk(dir, depth)
    decreases dir
  {
    var e := dir.entries[path[0]];
    if |path| > 1 {
      PathIsWalked(e.dir, depth + 1, path[1..]);
    }
    InWalkEntries(dir.entries, depth, path[0], EntryAt(dir, path).value);
  }

  lemma {:induction false} WalkedHasPath(dir: Dir, depth: nat, e: Entry) returns (path: seq<nat>)
    requires e in Walk(dir, depth)
    ensures EntryAt(dir, path) == Some(e) && depth + |path| <= 5
    decreases dir
  {
    var i := FromWalkEntries(dir.entries, depth, e);
    var at := dir.entries[i];
    if e == at {
      path := [i];
    } else {
      var below := WalkedHasPath(at.dir, depth + 1, e);
      path := [i] + below;
      assert path[1..] == below;
    }
  }

  /** The walk reaches exactly the entries that lie at most five names deep, behind readable directories only. */
  lemma WalkReachesIff(root: Dir, e: Entry)
    ensures e in Walk(root, 0) <==> exists path :: |path| <= 5 && EntryAt(root, path) == Some(e)
  {
    if e in Walk(root, 0) {
      var path := WalkedHasPath(root, 0, e);
    } else if path :| |path| <= 5 && EntryAt(root, path) == Some(e) {
      PathIsWalked(root, 0, path);
    }
  }

  /** What a collection with a given budget adds: the logs among the first entries of the walk. */
  ghost predicate Collected(walk: seq<Entry>, budget: nat, budget': nat, files: seq<LogFile>, files': seq<LogFile>,
                            now: int)
  {
    var n := Min(budget, |walk|);
    budget' == budget - n && files' == files + LogsOf(walk[..n], now)
  }

  lemma FilesAssoc(a: seq<LogFile>, b: seq<LogFile>, c: seq<LogFile>)
    ensures a + b + c == a + (b + c)
  {
  }

  lemma CollectedConcat(a: seq<Entry>, b: seq<Entry>, b0: nat, b1: nat, b2: nat,
                        f0: seq<LogFile>, f1: seq<LogFile>, f2: seq<LogFile>, now: int)
    requires Collected(a, b0, b1, f0, f1, now) && Collected(b, b1, b2, f1, f2, now)
    ensures Collected(a + b, b0, b2, f0, f2, now)
  {
    var x, y := a[..Min(b0, |a|)], b[..Min(b1, |b|)];
    assert (a + b)[..Min(b0, |a + b|)] == x + y;
    LogsConcat(x, y, now);
    FilesAssoc(f0, LogsOf(x, now), LogsOf(y, now));
  }

  /** Without a reported limit, the walk was complete: no depth cut and no budget cut. */
  ghost predicate CompleteUnlessReported(walk: seq<Entry>, full: seq<Entry>, budget: nat,
                                         warnings: seq<Warning>, warnings': seq<Warning>)
  {
    && warnings <= warnings'
    && (LimitReached !in warnings'[|warnings|..] ==> walk == full && |walk| <= budget)
  }

  lemma CompleteConcat(a: seq<Entry>, fa: seq<Entry>, b: seq<Entry>, fb: seq<Entry>, b0: nat, b1: nat,
                       w0: seq<Warning>, w1: seq<Warning>, w2: seq<Warning>)
    requires CompleteUnlessReported(a, fa, b0, w0, w1) && CompleteUnlessReported(b, fb, b1, w1, w2)
    requires b1 == b0 - Min(b0, |a|)
    ensures CompleteUnlessReported(a + b, fa + fb, b0, w0, w2)
  {
    assert w2[|w0|..] == w1[|w0|..] + w2[|w1|..];
  }

  lemma {:induction false} WalkOfPrefix(es: seq<Entry>, i: nat, depth: nat)
    requires i <= |es|
    ensures WalkEntries(es[..i], depth) <= WalkEntries(es, depth)
    decreases |es|
  {
    if i == |es| {
      assert es[..i] == es;
    } else {
      var n := |es| - 1;
      WalkOfPrefix(es[..n], i, depth);
      assert es[..n][..i] == es[..i];
    }
  }

  lemma NoBudgetLeft(walk: seq<Entry>, all: seq<Entry>, budget: nat, files: seq<LogFile>, files': seq<LogFile>,
                     now: int)
    requires walk <= all && Collected(walk, budget, 0, files, files', now)
    ensures Collected(all, budget, 0, files, files', now)
  {
    assert walk[..budget] == all[..budget];
  }

  /**
   `collect`. With a budget of `budget` entries it examines exactly the first `budget` entries of the walk, in
   that order, opens no directory below depth 4, and if it never reports the limit it has seen the whole tree.
   */
  method Collect(dir: Dir, depth: nat, files: seq<LogFile>, warnings: seq<Warning>, budget: nat, now: int)
    returns (files': seq<LogFile>, warnings': seq<Warning>, budget': nat, depths: seq<nat>)
    ensures Collected(Walk(dir, depth), budget, budget', files, files', now)
    ensures CompleteUnlessReported(Walk(dir, depth), FullWalk(dir), budget, warnings, warnings')
    ensures forall d :: d in depths ==> d <= MAX_DEPTH
    decreases dir, 1
  {
    files', warnings', budget', depths := files, warnings, budget, [];
    assert LogsOf([], now) == [];
    if depth > MAX_DEPTH || budget == 0 {
      warnings' := warnings + [LimitReached];
      assert warnings'[|warnings|..] == [LimitReached];
      return;
    }
    if !dir.readable {
      warnings' := warnings + [DirUnreadable];
      return;
    }
    depths := [depth];
    var es := dir.entries;
    for i := 0 to |es|
      invariant forall d :: d in depths ==> d <= MAX_DEPTH
      invariant Collected(WalkEntries(es[..i], depth), budget, budget', files, files', now)
      invariant CompleteUnlessReported(WalkEntries(es[..i], depth), FullWalkEntries(es[..i]), budget, warnings, warnings')
    {
      if budget' == 0 {
        warnings' := warnings' + [LimitReached];
        assert warnings'[|warnings|..][|warnings'| - 1 - |warnings|] == LimitReached;
        WalkOfPrefix(es, i, depth);
        NoBudgetLeft(WalkEntries(es[..i], depth), WalkEntries(es, depth), budget, files, files', now);
        return;
      }
      assert es[..i + 1][..i] == es[..i];
      ghost var f1, w1, b1 := files', warnings', budget';
      var below;
      files', warnings', budget', below := CollectEntry(es[i], depth, files', warnings', budget', now);
      depths := depths + below;
      CollectedConcat(WalkEntries(es[..i], depth), Visit(es[i], depth), budget, b1, budget', files, f1, files', now);
      CompleteConcat(WalkEntries(es[..i], depth), FullWalkEntries(es[..i]), Visit(es[i], depth), FullVisit(es[i]),
                     budget, b1, warnings, w1, warnings');
    }
    assert es[..|es|] == es;
  }

  /** The body of the loop in `collect`: one entry, and the directory it may be. */
  method CollectEntry(e: Entry, depth: nat, files: seq<LogFile>, warnings: seq<Warning>, budget: nat, now: int)
    returns (files': seq<LogFile>, warnings': seq<Warning>, budget': nat, depths: seq<nat>)
    requires budget > 0
    ensures Collected(Visit(e, depth), budget, budget', files, files', now)
    ensures CompleteUnlessReported(Visit(e, depth), FullVisit(e), budget, warnings, warnings')
    ensures forall d :: d in depths ==> d <= MAX_DEPTH
    decreases e, 2
  {
    files', warnings', budget', depths := files, warnings, budget - 1, [];
    match e {
      case Unreadable =>
        warnings' := warnings + [EntryUnreadable];
      case NoMetadata =>
        warnings' := warnings + [MetadataUnreadable];
      case Symlink =>
      case SubDir(dir) =>
        files', warnings', budget', depths := Collect(dir, depth + 1, files, warnings, budget', now);
        CollectedConcat([e], Walk(dir, depth + 1), budget, budget - 1, budget', files, files, files', now);
        CompleteConcat([e], [e], Walk(dir, depth + 1), FullWalk(dir), budget, budget - 1, warnings, warnings, warnings');
      case Log(file) =>
        if Recent(file, now) {
          files' := files + [file];
        }
      case LogWithoutTime =>
        warnings' := warnings + [UnknownTime];
      case OtherFile =>
    }
  }

  // ---------------------------------------------------------------------------
  // Newest first
  // ---------------------------------------------------------------------------

  ghost predicate NewestFirst(fs: seq<LogFile>) {
    forall i, j :: 0 <= i < j < |fs| ==> fs[i].time >= fs[j].time
  }

  lemma InsertCounts(sorted: seq<LogFile>, k: nat, f: LogFile)
    requires k <= |sorted|
    ensures multiset(sorted[..k] + [f] + sorted[k..]) == multiset(sorted) + multiset{f}
  {
    assert sorted == sorted[..k] + sorted[k..];
  }

  function OneOfTime(f: LogFile, time: int): seq<LogFile> {
    if f.time == time then [f] else []
  }

  /** The files of one modification time, in order. */
  function OfTime(fs: seq<LogFile>, time: int): seq<LogFile> {
    if fs == [] then [] else OfTime(fs[..|fs| - 1], time) + OneOfTime(fs[|fs| - 1], time)
  }

  lemma {:induction false} OfTimeConcat(a: seq<LogFile>, b: seq<LogFile>, time: int)
    ensures OfTime(a + b, time) == OfTime(a, time) + OfTime(b, time)
    decreases |b|
  {
    if b == [] {
      assert a + b == a;
    } else {
      var before, f := b[..|b| - 1], b[|b| - 1];
      assert a + b == (a + before) + [f] && b == before + [f];
      OfTimeConcat(a, before, time);
      FilesAssoc(OfTime(a, time), OfTime(before, time), OneOfTime(f, time));
    }
  }

  lemma {:induction false} NoneOfTime(fs: seq<LogFile>, time: int)
    requires forall i :: 0 <= i < |fs| ==> fs[i].time != time
    ensures OfTime(fs, time) == []
    decreases |fs|
  {
    if fs != [] {
      NoneOfTime(fs[..|fs| - 1], time);
    }
  }

  lemma OfTimeOne(f: LogFile, time: int)
    ensures OfTime([f], time) == OneOfTime(f, time)
  {
    assert [f][..0] == [] && OfTime([], time) == [];
  }

  lemma SwapEmpty(a: seq<LogFile>, b: seq<LogFile>, c: seq<LogFile>)
    requires b == [] || c == []
    ensures a + b + c == a + c + b
  {
    assert a + [] == a;
  }

  lemma OfTimeInserted(a: seq<LogFile>, f: LogFile, b: seq<LogFile>, time: int)
    ensures OfTime(a + [f] + b, time) == OfTime(a, time) + OneOfTime(f, time) + OfTime(b, time)
  {
    OfTimeConcat(a + [f], b, time);
    OfTimeConcat(a, [f], time);
    OfTimeOne(f, time);
  }

  lemma OfTimeSplit(s: seq<LogFile>, k: nat, time: int)
    requires k <= |s|
    ensures OfTime(s, time) == OfTime(s[..k], time) + OfTime(s[k..], time)
  {
    OfTimeConcat(s[..k], s[k..], time);
    assert s == s[..k] + s[k..];
  }

  /** Files of equal time keep their order, the inserted one behind. */
  lemma InsertIsStable(sorted: seq<LogFile>, k: nat, f: LogFile, time: int)
    requires k <= |sorted| && forall j :: k <= j < |sorted| ==> sorted[j].time < f.time
    ensures OfTime(sorted[..k] + [f] + sorted[k..], time) == OfTime(sorted, time) + OneOfTime(f, time)
  {
    var a, b := sorted[..k], sorted[k..];
    if f.time == time {
      NoneOfTime(b, time);
    }
    OfTimeInserted(a, f, b, time);
    OfTimeSplit(sorted, k, time);
    SwapEmpty(OfTime(a, time), OneOfTime(f, time), OfTime(b, time));
  }

  /** Every file keeps its place among those of its time. */
  ghost predicate Stable(fs: seq<LogFile>, sorted: seq<LogFile>) {
    forall time :: OfTime(sorted, time) == OfTime(fs, time)
  }

  /** Inserts behind all files that are at least as new. */
  method InsertNewest(sorted: seq<LogFile>, f: LogFile) returns (sorted': seq<LogFile>)
    requires NewestFirst(sorted)
    ensures NewestFirst(sorted') && multiset(sorted') == multiset(sorted) + multiset{f}
    ensures forall time :: OfTime(sorted', time) == OfTime(sorted, time) + OneOfTime(f, time)
  {
    var k := |sorted|;
    while k > 0 && sorted[k - 1].time < f.time
      invariant 0 <= k <= |sorted|
      invariant forall j :: k <= j < |sorted| ==> sorted[j].time < f.time
    {
      k := k - 1;
    }
    InsertCounts(sorted, k, f);
    sorted' := sorted[..k] + [f] + sorted[k..];
    forall time ensures OfTime(sorted', time) == OfTime(sorted, time) + OneOfTime(f, time) {
      InsertIsStable(sorted, k, f, time);
    }
  }

  /** The stable sort of the found files by falling modification time. */
  method SortNewestFirst(files: seq<LogFile>) returns (sorted: seq<LogFile>)
    ensures NewestFirst(sorted) && multiset(sorted) == multiset(files) && Stable(files, sorted)
  {
    sorted := [];
    for i := 0 to |files|
      invariant NewestFirst(sorted) && multiset(sorted) == multiset(files[..i])
      invariant Stable(files[..i], sorted)
    {
      assert files[..i + 1] == files[..i] + [files[i]];
      assert files[..i + 1][..i] == files[..i];
      sorted := InsertNewest(sorted, files[i]);
    }
    assert files[..|files|] == files;
  }

  // ---------------------------------------------------------------------------
  // Whole lines
  // ---------------------------------------------------------------------------

  /** Position of the first newline at or after `from`, or the length. */
  function NewlineFrom(s: seq<Byte>, from: nat): (i: nat)
    requires from <= |s|
    ensures from <= i <= |s| && (forall j :: from <= j < i ==> s[j] != NEWLINE) && (i < |s| ==> s[i] == NEWLINE)
    decreases |s| - from
  {
    if from == |s| || s[from] == NEWLINE then from else NewlineFrom(s, from + 1)
  }

  datatype Lines = End | More(line: seq<Byte>, rest: Lines)

  /** The lines of the text from position `from` on. */
  function LinesFrom(s: seq<Byte>, from: nat): Lines
    requires from <= |s|
    decreases |s| - from
  {
    if from == |s| then End
    else
      var i := NewlineFrom(s, from);
      More(s[from..i], if i == |s| then End else LinesFrom(s, i + 1))
  }

  /** `tail` are the last so many of `lines`. */
  ghost predicate IsTail(tail: Lines, lines: Lines) {
    tail == lines || (lines.More? && IsTail(tail, lines.rest))
  }

  /** `t` is `s` from position `k` on. */
  ghost predicate IsSuffix(t: seq<Byte>, s: seq<Byte>, k: nat) {
    k + |t| == |s| && forall n :: 0 <= n < |t| ==> t[n] == s[k + n]
  }

  lemma {:induction false} NewlineOfSuffix(t: seq<Byte>, s: seq<Byte>, k: nat, from: nat)
    requires IsSuffix(t, s, k) && from <= |t|
    ensures k + NewlineFrom(t, from) == NewlineFrom(s, k + from)
    decreases |t| - from
  {
    if from < |t| && t[from] != NEWLINE {
      NewlineOfSuffix(t, s, k, from + 1);
    }
  }

  lemma SliceOfSuffix(t: seq<Byte>, s: seq<Byte>, k: nat, lo: nat, hi: nat)
    requires IsSuffix(t, s, k) && lo <= hi <= |t|
    ensures t[lo..hi] == s[k + lo..k + hi]
  {
  }

  /** The lines of a suffix are the lines from there on. */
  lemma {:induction false} LinesOfSuffix(t: seq<Byte>, s: seq<Byte>, k: nat, from: nat)
    requires IsSuffix(t, s, k) && from <= |t|
    ensures LinesFrom(t, from) == LinesFrom(s, k + from)
    decreases |t| - from
  {
    if from < |t| {
      var i := NewlineFrom(t, from);
      NewlineOfSuffix(t, s, k, from);
      SliceOfSuffix(t, s, k, from, i);
      if i < |t| {
        LinesOfSuffix(t, s, k, i + 1);
      }
    }
  }

  /** From a line start on, a text has its last so many lines. */
  lemma {:induction false} LinesFromLineStart(s: seq<Byte>, from: nat, start: nat)
    requires from <= start <= |s|
    requires from < start ==> s[start - 1] == NEWLINE
    ensures IsTail(LinesFrom(s, start), LinesFrom(s, from))
    decreases start - from
  {
    if from < start {
      LinesFromLineStart(s, NewlineFrom(s, from) + 1, start);
    }
  }

  lemma {:induction false} EndIsTail(lines: Lines)
    ensures IsTail(End, lines)
  {
    if lines.More? {
      EndIsTail(lines.rest);
    }
  }

  /** Where the exported part of a file starts when at most `take` bytes are read from its end. */
  function ExportStart(content: seq<Byte>, take: nat): (start: nat)
    requires take <= |content|
    ensures start <= |content| && (take == |content| ==> start == 0)
    ensures take < |content| ==>
              var cut := |content| - take;
              && cut <= start && (start < |content| ==> content[start - 1] == NEWLINE)
              && forall j :: cut <= j < start - 1 ==> content[j] != NEWLINE
  {
    if take == |content| then 0
    else
      var i := NewlineFrom(content, |content| - take);
      if i == |content| then i else i + 1
  }

  lemma ExportStartsALine(content: seq<Byte>, start: nat)
    requires start <= |content| && (0 < start < |content| ==> content[start - 1] == NEWLINE)
    ensures IsTail(LinesFrom(content, start), LinesFrom(content, 0))
  {
    if start < |content| {
      LinesFromLineStart(content, 0, start);
    } else {
      EndIsTail(LinesFrom(content, 0));
    }
  }

  /** Every line that is exported is a whole line of the file: a split line cannot slip past the redaction. */
  lemma ExportedLinesAreWhole(content: seq<Byte>, take: nat)
    requires take <= |content|
    ensures var start := ExportStart(content, take);
            && LinesFrom(content[start..], 0) == LinesFrom(content, start)
            && IsTail(LinesFrom(content, start), LinesFrom(content, 0))
            && (take == |content| ==> start == 0)
  {
    var start := ExportStart(content, take);
    assert 0 < start < |content| ==> content[start - 1] == NEWLINE;
    ExportStartsALine(content, start);
    LinesOfSuffix(content[start..], content, start, 0);
  }

  /** The bounded read of one file. */
  method ReadTail(content: seq<Byte>, remaining: nat) returns (body: seq<Byte>, truncated: bool, consumed: nat)
    ensures consumed == Min(Min(|content|, FILE_LIMIT), remaining)
    ensures truncated == (consumed < |content|)
    ensures body == content[ExportStart(content, consumed)..]
  {
    var len := |content|;
    var take := Min(Min(len, FILE_LIMIT), remaining);
    body := content[len - take..];
    consumed := |body|;
    truncated := len > take;
    if truncated {
      var end := 0;
      while end < |body| && body[end] != NEWLINE
        invariant 0 <= end <= |body| && forall j :: len - take <= j < len - take + end ==> content[j] != NEWLINE
      {
        end := end + 1;
      }
      assert len - take + end == NewlineFrom(content, len - take);
      if end < |body| {
        body := body[end + 1..];
      } else {
        body := [];
      }
    }
  }

  // ---------------------------------------------------------------------------
  // The bundle
  // ---------------------------------------------------------------------------

  /** What redaction makes of one line, both without their newline. */
  type LineRedactor = seq<Byte> -> seq<Byte>

  function RedactLines(redact: LineRedactor, lines: Lines): seq<Byte> {
    match lines
    case End => []
    case More(line, rest) => redact(line) + [NEWLINE] + RedactLines(redact, rest)
  }

  /** Redaction makes one line of one line. */
  ghost predicate LineByLine(redact: LineRedactor) {
    forall line :: NEWLINE !in line ==> NEWLINE !in redact(line)
  }

  /** The second list holds the redaction of each line of the first, one for one. */
  ghost predicate Redacted(redact: LineRedactor, lines: Lines, out: Lines) {
    match lines
    case End => out.End?
    case More(line, rest) => out.More? && out.line == redact(line) && Redacted(redact, rest, out.rest)
  }

  ghost predicate Unbroken(lines: Lines) {
    lines.More? ==> NEWLINE !in lines.line && Unbroken(lines.rest)
  }

  lemma {:induction false} LinesAreUnbroken(s: seq<Byte>, from: nat)
    requires from <= |s|
    ensures Unbroken(LinesFrom(s, from))
    decreases |s| - from
  {
    var i := if from == |s| then from else NewlineFrom(s, from);
    if i < |s| {
      LinesAreUnbroken(s, i + 1);
    }
  }

  lemma FirstLine(line: seq<Byte>, rest: seq<Byte>)
    requires NEWLINE !in line
    ensures LinesFrom(line + [NEWLINE] + rest, 0) == More(line, LinesFrom(rest, 0))
  {
    var s := line + [NEWLINE] + rest;
    assert s[|line|] == NEWLINE && forall j :: 0 <= j < |line| ==> s[j] == line[j] && s[j] in line;
    assert NewlineFrom(s, 0) == |line|;
    LinesOfSuffix(rest, s, |line| + 1, 0);
    assert s[0..|line|] == line;
  }

  /** The lines of the redacted text are the redacted lines. */
  lemma {:induction false} RedactedLines(redact: LineRedactor, lines: Lines)
    requires LineByLine(redact) && Unbroken(lines)
    ensures Redacted(redact, lines, LinesFrom(RedactLines(redact, lines), 0))
    decreases lines
  {
    if lines.More? {
      RedactedLines(redact, lines.rest);
      FirstLine(redact(lines.line), RedactLines(redact, lines.rest));
    }
  }

  ghost predicate Every(lines: Lines, ok: seq<Byte> -> bool) {
    lines.More? ==> ok(lines.line) && Every(lines.rest, ok)
  }

  lemma {:induction false} RedactedAreClean(redact: LineRedactor, lines: Lines, out: Lines, clean: seq<Byte> -> bool)
    requires Redacted(redact, lines, out) && forall line :: clean(redact(line))
    ensures Every(out, clean)
    decreases lines
  {
    if lines.More? {
      RedactedAreClean(redact, lines.rest, out.rest, clean);
    }
  }

  datatype Exported = Exported(file: LogFile, text: seq<Byte>, truncated: bool, consumed: nat)

  function Consumed(logs: seq<Exported>): nat {
    if logs == [] then 0 else Consumed(logs[..|logs| - 1]) + logs[|logs| - 1].consumed
  }

  function FilesOf(logs: seq<Exported>): (fs: seq<LogFile>)
    ensures |fs| == |logs| && forall i :: 0 <= i < |fs| ==> fs[i] == logs[i].file
  {
    seq(|logs|, i requires 0 <= i < |logs| => logs[i].file)
  }

  /** The files that open, in order. */
  function Openable(fs: seq<LogFile>): (r: seq<LogFile>)
    ensures forall f :: f in r <==> f in fs && f.opens
  {
    if fs == [] then []
    else
      var n := |fs| - 1;
      assert fs == fs[..n] + [fs[n]];
      Openable(fs[..n]) + if fs[n].opens then [fs[n]] else []
  }

  /**
   With `remaining` bytes of the total left, as much of the end of the file is read as the limits allow, and the
   exported text is the line-wise redaction of the whole lines of the file that start in it.
   */
  ghost predicate FaithfulExport(redact: LineRedactor, log: Exported, remaining: int) {
    var content := log.file.content;
    && remaining >= 0
    && log.consumed == Min(Min(|content|, FILE_LIMIT), remaining)
    && log.truncated == (log.consumed < |content|)
    && var lines := LinesFrom(content, ExportStart(content, log.consumed));
    IsTail(lines, LinesFrom(content, 0)) && log.text == RedactLines(redact, lines)
  }

  /** Redaction of a text, line by line. */
  method RedactText(redact: LineRedactor, text: seq<Byte>) returns (out: seq<Byte>)
    ensures out == RedactLines(redact, LinesFrom(text, 0))
  {
    var lines := LinesFrom(text, 0);
    out := [];
    while lines.More?
      invariant out + RedactLines(redact, lines) == RedactLines(redact, LinesFrom(text, 0))
      decreases lines
    {
      out := out + (redact(lines.line) + [NEWLINE]);
      lines := lines.rest;
    }
  }

  lemma ExportIsFaithful(redact: LineRedactor, log: Exported, remaining: nat)
    requires log.consumed == Min(Min(|log.file.content|, FILE_LIMIT), remaining)
    requires log.truncated == (log.consumed < |log.file.content|)
    requires log.text == RedactLines(redact, LinesFrom(log.file.content[ExportStart(log.file.content, log.consumed)..], 0))
    ensures FaithfulExport(redact, log, remaining)
  {
    ExportedLinesAreWhole(log.file.content, log.consumed);
  }

  /**
   No line gets past the redaction: the lines of an exported text are, one for one, the redactions of whole lines of
   its file, so whatever redaction guarantees of every line holds of every exported line.
   */
  lemma NoLineEscapes(redact: LineRedactor, log: Exported, remaining: int, clean: seq<Byte> -> bool)
    requires FaithfulExport(redact, log, remaining) && LineByLine(redact) && forall line :: clean(redact(line))
    ensures var content := log.file.content;
            Redacted(redact, LinesFrom(content, ExportStart(content, log.consumed)), LinesFrom(log.text, 0))
    ensures Every(LinesFrom(log.text, 0), clean)
  {
    var content := log.file.content;
    var lines := LinesFrom(content, ExportStart(content, log.consumed));
    LinesAreUnbroken(content, ExportStart(content, log.consumed));
    RedactedLines(redact, lines);
    RedactedAreClean(redact, lines, LinesFrom(log.text, 0), clean);
  }

  /** Each exported log is faithful with what the ones before it left of the total. */
  ghost predicate Packed(redact: LineRedactor, logs: seq<Exported>) {
    if logs == [] then true
    else
      var before, log := logs[..|logs| - 1], logs[|logs| - 1];
      Packed(redact, before) && FaithfulExport(redact, log, TOTAL_LIMIT - Consumed(before))
  }

  lemma PackOne(redact: LineRedactor, logs: seq<Exported>, log: Exported)
    requires Packed(redact, logs) && FaithfulExport(redact, log, TOTAL_LIMIT - Consumed(logs))
    ensures Packed(redact, logs + [log]) && Consumed(logs + [log]) == Consumed(logs) + log.consumed
  {
    assert (logs + [log])[..|logs|] == logs;
  }

  lemma {:induction false} PackedLimits(redact: LineRedactor, logs: seq<Exported>)
    requires Packed(redact, logs)
    ensures forall i :: 0 <= i < |logs| ==> logs[i].consumed <= 2 * 1_048_576
    decreases |logs|
  {
    if logs != [] {
      PackedLimits(redact, logs[..|logs| - 1]);
    }
  }

  lemma FilesOfOneMore(logs: seq<Exported>, log: Exported)
    ensures FilesOf(logs + [log]) == FilesOf(logs) + [log.file]
  {
  }

  lemma {:induction false} OpenablePrefix(fs: seq<LogFile>, i: nat)
    requires i <= |fs|
    ensures Openable(fs[..i]) <= Openable(fs)
    decreases |fs|
  {
    if i == |fs| {
      assert fs[..i] == fs;
    } else {
      OpenablePrefix(fs[..|fs| - 1], i);
      assert fs[..|fs| - 1][..i] == fs[..i];
    }
  }

  /** The export of one file that opens. */
  method ExportLog(redact: LineRedactor, f: LogFile, remaining: nat) returns (log: Exported)
    ensures FaithfulExport(redact, log, remaining) && log.file == f && log.consumed <= remaining
  {
    var body, truncated, consumed := ReadTail(f.content, remaining);
    var text := RedactText(redact, body);
    log := Exported(f, text, truncated, consumed);
    ExportIsFaithful(redact, log, remaining);
  }

  lemma OpenableSnoc(fs: seq<LogFile>, i: nat)
    requires i < |fs|
    ensures Openable(fs[..i + 1]) == Openable(fs[..i]) + if fs[i].opens then [fs[i]] else []
  {
    assert fs[..i + 1][..i] == fs[..i];
  }

  /** The export loop over the selected files. */
  method PackLogs(redact: LineRedactor, selected: seq<LogFile>) returns (logs: seq<Exported>, remaining: nat)
    ensures Packed(redact, logs) && Consumed(logs) + remaining == TOTAL_LIMIT
    ensures FilesOf(logs) <= Openable(selected)
    ensures remaining > 0 ==> FilesOf(logs) == Openable(selected)
  {
    logs, remaining := [], TOTAL_LIMIT;
    for i := 0 to |selected|
      invariant Packed(redact, logs) && Consumed(logs) + remaining == TOTAL_LIMIT
      invariant FilesOf(logs) == Openable(selected[..i])
    {
      if remaining == 0 {
        OpenablePrefix(selected, i);
        return;
      }
      OpenableSnoc(selected, i);
      var f := selected[i];
      if !f.opens {
        assert Openable(selected[..i]) + [] == Openable(selected[..i]);
        continue;
      }
      var log := ExportLog(redact, f, remaining);
      PackOne(redact, logs, log);
      FilesOfOneMore(logs, log);
      logs := logs + [log];
      remaining := remaining - log.consumed;
    }
    assert selected[..|selected|] == selected;
  }

  /** Of `found`, `selected` are the newest 64, newest first. */
  ghost predicate NewestSelected(found: seq<LogFile>, selected: seq<LogFile>) {
    && NewestFirst(selected) && |selected| == Min(MAX_FILES, |found|)
    && multiset(selected) <= multiset(found)
    && forall f, g :: f in multiset(found) - multiset(selected) && g in selected ==> g.time >= f.time
  }

  lemma CutIsNewer(sorted: seq<LogFile>, n: nat, f: LogFile, g: LogFile)
    requires NewestFirst(sorted) && n <= |sorted| && f in sorted[n..] && g in sorted[..n]
    ensures g.time >= f.time
  {
    var j :| 0 <= j < |sorted[n..]| && sorted[n..][j] == f;
    var i :| 0 <= i < n && sorted[..n][i] == g;
    assert sorted[n + j] == f && sorted[i] == g;
  }

  lemma CutCounts(sorted: seq<LogFile>, n: nat)
    requires n <= |sorted|
    ensures multiset(sorted) - multiset(sorted[..n]) == multiset(sorted[n..])
    ensures multiset(sorted[..n]) <= multiset(sorted)
  {
    assert sorted == sorted[..n] + sorted[n..];
  }

  lemma TakeNewest(found: seq<LogFile>, sorted: seq<LogFile>)
    requires NewestFirst(sorted) && multiset(sorted) == multiset(found)
    ensures NewestSelected(found, sorted[..Min(MAX_FILES, |sorted|)])
  {
    var n := Min(MAX_FILES, |sorted|);
    assert |sorted| == |multiset(sorted)| == |multiset(found)| == |found|;
    CutCounts(sorted, n);
    forall f, g | f in multiset(found) - multiset(sorted[..n]) && g in sorted[..n] ensures g.time >= f.time {
      CutIsNewer(sorted, n, f, g);
    }
  }

  lemma {:induction false} OpenableIsShorter(fs: seq<LogFile>)
    ensures |Openable(fs)| <= |fs|
    decreases |fs|
  {
    if fs != [] {
      OpenableIsShorter(fs[..|fs| - 1]);
    }
  }

  /**
   `build_bundle`: among the logs found in the first 4096 entries of the walk, the newest 64 are exported, newest
   first and skipping those that do not open, until 32 MiB have been read; each export is faithful.
   */
  method BuildBundle(root: Dir, now: int, redact: LineRedactor)
    returns (logs: seq<Exported>, warnings: seq<Warning>, selected: seq<LogFile>)
    ensures var walk := Walk(root, 0);
            var found := LogsOf(walk[..Min(4096, |walk|)], now);
            NewestSelected(found, selected)
    ensures |logs| <= 64 && Consumed(logs) <= 32 * 1_048_576
    ensures Packed(redact, logs) && forall i :: 0 <= i < |logs| ==> logs[i].consumed <= 2 * 1_048_576
    ensures FilesOf(logs) <= Openable(selected)
    ensures Consumed(logs) < TOTAL_LIMIT ==> FilesOf(logs) == Openable(selected)
    ensures LimitReached !in warnings ==> Walk(root, 0) == FullWalk(root) && |Walk(root, 0)| <= 4096
  {
    var files, budget, depths;
    files, warnings, budget, depths := Collect(root, 0, [], [], ENTRY_BUDGET, now);
    assert warnings[0..] == warnings;
    var sorted := SortNewestFirst(files);
    TakeNewest(files, sorted);
    selected := sorted[..Min(MAX_FILES, |sorted|)];
    var remaining;
    logs, remaining := PackLogs(redact, selected);
    PackedLimits(redact, logs);
    OpenableIsShorter(selected);
  }
}
