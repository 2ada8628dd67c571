/**
 Pressed-key bookkeeping of src/keyboard.rs in Map mode: TO_RELEASE, MODIFIERS_STATE, the long-press
 filter and `release_remote_keys`, with the controlled peer as the set of key codes it sees held down. In this
 module one session stays current; KeyRouting adds the change of sessions and states the results for whole runs.

 `process_event` consists of four sections that lock separately: the long-press filter, the modifier bit,
 TO_RELEASE, and sending the message. Any number of threads run it, for the user's keys or to release the keys
 of a taken map, and their sections interleave freely. `layout` is the Map-mode translation of a local key to
 the peer's key code; keys outside it produce no message but are still tracked.
 */
module PressedKeys {
  import opened Common

  datatype Key =
    | ShiftLeft | ShiftRight | ControlLeft | ControlRight
    | Alt | AltGr | MetaLeft | MetaRight
    | Plain(code: nat)

  const MODIFIERS: set<Key> :=
    {ShiftLeft, ShiftRight, ControlLeft, ControlRight, Alt, AltGr, MetaLeft, MetaRight}

  predicate IsModifier(k: Key) { !k.Plain? }

  /** MODIFIERS_STATE has a bit for every modifier and for nothing else. */
  ghost predicate FullTable(modifiers: map<Key, bool>) {
    forall k :: k in modifiers <==> IsModifier(k)
  }

  type Layout = map<Key, nat>

  ghost predicate Injective(layout: Layout) {
    forall k, l :: k in layout && l in layout && layout[k] == layout[l] ==> k == l
  }

  datatype KeyInput = Press(key: Key) | Release(key: Key)

  type ThreadId = nat

  datatype Section = Filter | SetBit | Track | Send

  /** A thread inside `process_event`: the section it enters next, the input, and the inputs it handles afterwards. */
  datatype Thread = Thread(next: Section, input: KeyInput, rest: seq<KeyInput>)

  type Threads = map<ThreadId, Thread>

  datatype Shared = Shared(toRelease: set<Key>, modifiers: map<Key, bool>, peerDown: set<nat>)

  datatype State = State(shared: Shared, threads: Threads)

  /** `TakeRemoteKeys` lists the taken map in the order in which the thread will go through it. */
  datatype Event =
    | UserKey(thread: ThreadId, input: KeyInput)
    | TakeRemoteKeys(thread: ThreadId, order: seq<Key>)
    | Advance(thread: ThreadId)

  function Init(): State {
    State(Shared({}, map k | k in MODIFIERS :: false, {}), map[])
  }

  // ---------------------------------------------------------------------------
  // The sections of process_event
  // ---------------------------------------------------------------------------

  predicate IsLongPress(s: Shared, i: KeyInput) {
    i.Press? && i.key in s.modifiers && s.modifiers[i.key]
  }

  function AfterBit(s: Shared, i: KeyInput): Shared {
    if i.key in s.modifiers then s.(modifiers := s.modifiers[i.key := i.Press?]) else s
  }

  function AfterTrack(s: Shared, i: KeyInput): Shared {
    s.(toRelease := if i.Press? then s.toRelease + {i.key} else s.toRelease - {i.key})
  }

  function PeerAfter(layout: Layout, down: set<nat>, i: KeyInput): set<nat> {
    if i.key !in layout then down
    else if i.Press? then down + {layout[i.key]} else down - {layout[i.key]}
  }

  function AfterSend(layout: Layout, s: Shared, i: KeyInput): Shared {
    s.(peerDown := PeerAfter(layout, s.peerDown, i))
  }

  /** A call that nobody interrupts. */
  function Process(layout: Layout, s: Shared, i: KeyInput): Shared {
    if IsLongPress(s, i) then s else AfterSend(layout, AfterTrack(AfterBit(s, i), i), i)
  }

  /** What the release loop feeds to `process_event` for one key: a release, and a stroke more for either Alt. */
  function Strokes(key: Key): seq<KeyInput> {
    [Release(key)] + if key == Alt || key == AltGr then [Press(key), Release(key)] else []
  }

  function AllStrokes(order: seq<Key>): seq<KeyInput> {
    if order == [] then [] else Strokes(order[0]) + AllStrokes(order[1..])
  }

  /** The thread goes on with `inputs`, or is done. */
  function GoOn(threads: Threads, t: ThreadId, inputs: seq<KeyInput>): Threads {
    if inputs == [] then threads - {t} else threads[t := Thread(Filter, inputs[0], inputs[1..])]
  }

  function AdvanceStep(layout: Layout, s: State, t: ThreadId): State
    requires t in s.threads
  {
    var th := s.threads[t];
    match th.next
    case Filter =>
      if IsLongPress(s.shared, th.input) then State(s.shared, GoOn(s.threads, t, th.rest))
      else State(s.shared, s.threads[t := th.(next := SetBit)])
    case SetBit => State(AfterBit(s.shared, th.input), s.threads[t := th.(next := Track)])
    case Track => State(AfterTrack(s.shared, th.input), s.threads[t := th.(next := Send)])
    case Send => State(AfterSend(layout, s.shared, th.input), GoOn(s.threads, t, th.rest))
  }

  ghost predicate Lists(order: seq<Key>, keys: set<Key>) {
    NoDuplicates(order) && forall k :: k in order <==> k in keys
  }

  ghost function Step(layout: Layout, s: State, e: Event): State {
    match e
    case UserKey(t, input) =>
      if t in s.threads then s else State(s.shared, s.threads[t := Thread(Filter, input, [])])
    case TakeRemoteKeys(t, order) =>
      if t in s.threads || !Lists(order, s.shared.toRelease) then s
      else State(s.shared.(toRelease := {}), GoOn(s.threads, t, AllStrokes(order)))
    case Advance(t) => if t in s.threads then AdvanceStep(layout, s, t) else s
  }

  ghost function Exec(layout: Layout, s: State, es: seq<Event>): State
    decreases |es|
  {
    if es == [] then s else Exec(layout, Step(layout, s, es[0]), es[1..])
  }

  // ---------------------------------------------------------------------------
  // What the accounts are, and which runs keep them
  // ---------------------------------------------------------------------------

  function Codes(layout: Layout, keys: set<Key>): set<nat> {
    set k | k in keys && k in layout :: layout[k]
  }

  /** Modifier bits are membership in TO_RELEASE, and the peer holds exactly the tracked keys. */
  ghost predicate Accounted(layout: Layout, s: Shared) {
    && FullTable(s.modifiers)
    && (forall k :: IsModifier(k) ==> (s.modifiers[k] <==> k in s.toRelease))
    && s.peerDown == Codes(layout, s.toRelease)
  }

  ghost predicate AccountedAtRest(layout: Layout, s: State) {
    s.threads == map[] ==> Accounted(layout, s.shared)
  }

  /** The thread is past the filter with an input for `k`. */
  predicate InCall(th: Thread, k: Key) {
    th.next != Filter && th.input.key == k
  }

  /** One thread is in the middle of pressing `k` while another is in the middle of releasing it. */
  ghost predicate Opposed(threads: Threads, k: Key) {
    exists t, u :: t in threads && u in threads && InCall(threads[t], k) && InCall(threads[u], k)
                   && threads[t].input != threads[u].input
  }

  /** All along the run, opposed calls overlap only for the given keys. */
  ghost predicate OverlapsOnly(layout: Layout, s: State, es: seq<Event>, keys: set<Key>)
    decreases |es|
  {
    && (forall k :: Opposed(s.threads, k) ==> k in keys)
    && (es != [] ==> OverlapsOnly(layout, Step(layout, s, es[0]), es[1..], keys))
  }

  /** The modifier table or the peer knows the key. */
  predicate Relevant(layout: Layout, k: Key) {
    k in layout || IsModifier(k)
  }

  // ---------------------------------------------------------------------------
  // The invariant of one key
  // ---------------------------------------------------------------------------

  /** The thread has yet to take `k` out of TO_RELEASE. */
  predicate WillRelease(th: Thread, k: Key) {
    (th.next != Send && th.input == Release(k)) || Release(k) in th.rest
  }

  ghost predicate ReleasePending(threads: Threads, k: Key) {
    exists t :: t in threads && WillRelease(threads[t], k)
  }

  ghost predicate Agrees(layout: Layout, s: Shared, k: Key, pending: bool)
    requires FullTable(s.modifiers)
  {
    && (IsModifier(k) ==>
          && (k in s.toRelease ==> s.modifiers[k])
          && (s.modifiers[k] ==> k in s.toRelease || pending))
    && (k in layout ==>
          && (k in s.toRelease ==> layout[k] in s.peerDown)
          && (layout[k] in s.peerDown ==> k in s.toRelease || pending))
  }

  /** What a call for `k` has achieved so far still stands. */
  ghost predicate CallStands(s: Shared, th: Thread, k: Key, pending: bool)
    requires FullTable(s.modifiers)
  {
    InCall(th, k) ==>
      && (th.next != SetBit && IsModifier(k) ==> s.modifiers[k] == th.input.Press?)
      && (th.next == Send ==> if th.input.Press? then k in s.toRelease || pending else k !in s.toRelease)
  }

  ghost predicate NobodyInCall(threads: Threads, k: Key) {
    forall t :: t in threads ==> !InCall(threads[t], k)
  }

  ghost predicate KeyInv(layout: Layout, s: State, k: Key) {
    && FullTable(s.shared.modifiers)
    && (NobodyInCall(s.threads, k) ==> Agrees(layout, s.shared, k, ReleasePending(s.threads, k)))
    && (forall t :: t in s.threads ==> CallStands(s.shared, s.threads[t], k, ReleasePending(s.threads, k)))
  }

  /** A finished call leaves the pending releases as they are. */
  lemma GoOnKeepsPending(threads: Threads, t: ThreadId, k: Key)
    requires t in threads && (threads[t].next == Send || threads[t].input.Press?)
    ensures ReleasePending(GoOn(threads, t, threads[t].rest), k) == ReleasePending(threads, k)
  {
    var th := threads[t];
    var after := GoOn(threads, t, th.rest);
    assert WillRelease(th, k) == (Release(k) in th.rest);
    if th.rest != [] {
      assert th.rest == [th.rest[0]] + th.rest[1..];
      assert WillRelease(after[t], k) == WillRelease(th, k);
    }
    assert forall u :: u in threads && u != t ==> u in after && after[u] == threads[u];
    assert forall u :: u in after && u != t ==> u in threads && after[u] == threads[u];
  }

  /** Entering the next section keeps the pending releases, unless it is the section that carries one out. */
  lemma MoveKeepsPending(threads: Threads, t: ThreadId, next: Section, k: Key)
    requires t in threads && threads[t].next != Send
    requires next != Send || threads[t].input != Release(k)
    ensures ReleasePending(threads[t := threads[t].(next := next)], k) == ReleasePending(threads, k)
  {
    var after := threads[t := threads[t].(next := next)];
    assert WillRelease(after[t], k) == WillRelease(threads[t], k);
    assert forall u :: u in threads && u != t ==> u in after && after[u] == threads[u];
    assert forall u :: u in after && u != t ==> u in threads && after[u] == threads[u];
  }

  /** The shared state says the same about `k`. */
  ghost predicate SameFor(layout: Layout, s: Shared, s': Shared, k: Key)
    requires FullTable(s.modifiers)
  {
    && FullTable(s'.modifiers)
    && (k in s'.toRelease <==> k in s.toRelease)
    && (IsModifier(k) ==> s'.modifiers[k] == s.modifiers[k])
    && (k in layout ==> (layout[k] in s'.peerDown <==> layout[k] in s.peerDown))
  }

  ghost predicate SameButFor(threads: Threads, threads': Threads, t: ThreadId) {
    forall u :: u != t ==> (u in threads' <==> u in threads) && (u in threads ==> threads'[u] == threads[u])
  }

  /** A step for another key, or one that the filter stops, does not concern `k`. */
  lemma UnconcernedKeepsInv(layout: Layout, s: State, s': State, t: ThreadId, k: Key)
    requires KeyInv(layout, s, k) && SameFor(layout, s.shared, s'.shared, k) && SameButFor(s.threads, s'.threads, t)
    requires ReleasePending(s'.threads, k) == ReleasePending(s.threads, k)
    requires t in s.threads ==> !InCall(s.threads[t], k)
    requires t in s'.threads ==> !InCall(s'.threads[t], k)
    ensures KeyInv(layout, s', k)
  {
    if NobodyInCall(s'.threads, k) {
      assert NobodyInCall(s.threads, k);
    }
  }

  lemma OtherBitIsSame(layout: Layout, s: Shared, i: KeyInput, k: Key)
    requires FullTable(s.modifiers) && i.key != k
    ensures SameFor(layout, s, AfterBit(s, i), k) && SameFor(layout, s, AfterTrack(s, i), k)
  {
  }

  lemma OtherSendIsSame(layout: Layout, s: Shared, i: KeyInput, k: Key)
    requires Injective(layout) && FullTable(s.modifiers) && i.key != k
    ensures SameFor(layout, s, AfterSend(layout, s, i), k)
  {
  }

  lemma OtherKeyKeepsPending(layout: Layout, s: State, t: ThreadId, k: Key)
    requires t in s.threads && s.threads[t].input.key != k
    ensures ReleasePending(AdvanceStep(layout, s, t).threads, k) == ReleasePending(s.threads, k)
  {
    var th := s.threads[t];
    if th.next == Send || (th.next == Filter && IsLongPress(s.shared, th.input)) {
      GoOnKeepsPending(s.threads, t, k);
    } else {
      MoveKeepsPending(s.threads, t, AdvanceStep(layout, s, t).threads[t].next, k);
    }
  }

  lemma OtherKeyKeepsInv(layout: Layout, s: State, t: ThreadId, k: Key)
    requires Injective(layout) && KeyInv(layout, s, k) && t in s.threads && s.threads[t].input.key != k
    ensures KeyInv(layout, AdvanceStep(layout, s, t), k)
  {
    var s' := AdvanceStep(layout, s, t);
    assert SameFor(layout, s.shared, s'.shared, k) by {
      OtherBitIsSame(layout, s.shared, s.threads[t].input, k);
      OtherSendIsSame(layout, s.shared, s.threads[t].input, k);
    }
    OtherKeyKeepsPending(layout, s, t, k);
    UnconcernedKeepsInv(layout, s, s', t, k);
  }

  lemma FilterKeepsInv(layout: Layout, s: State, t: ThreadId, k: Key)
    requires KeyInv(layout, s, k) && t in s.threads && s.threads[t].next == Filter && s.threads[t].input.key == k
    ensures KeyInv(layout, AdvanceStep(layout, s, t), k)
  {
    var s' := AdvanceStep(layout, s, t);
    if IsLongPress(s.shared, s.threads[t].input) {
      GoOnKeepsPending(s.threads, t, k);
      UnconcernedKeepsInv(layout, s, s', t, k);
    } else {
      MoveKeepsPending(s.threads, t, SetBit, k);
      assert InCall(s'.threads[t], k);
    }
  }

  lemma SetBitKeepsInv(layout: Layout, s: State, t: ThreadId, k: Key)
    requires KeyInv(layout, s, k) && t in s.threads && s.threads[t].next == SetBit && s.threads[t].input.key == k
    requires !Opposed(s.threads, k)
    ensures KeyInv(layout, AdvanceStep(layout, s, t), k)
  {
    var s' := AdvanceStep(layout, s, t);
    MoveKeepsPending(s.threads, t, Track, k);
    assert InCall(s'.threads[t], k);
    forall u | u in s'.threads && u != t && InCall(s'.threads[u], k)
      ensures s.threads[u].input == s.threads[t].input
    {
    }
  }

  lemma TrackKeepsInv(layout: Layout, s: State, t: ThreadId, k: Key)
    requires KeyInv(layout, s, k) && t in s.threads && s.threads[t].next == Track && s.threads[t].input.key == k
    requires !Opposed(s.threads, k)
    ensures KeyInv(layout, AdvanceStep(layout, s, t), k)
  {
    var s' := AdvanceStep(layout, s, t);
    assert InCall(s'.threads[t], k);
    if s.threads[t].input.Press? {
      MoveKeepsPending(s.threads, t, Send, k);
    }
    forall u | u in s'.threads && u != t && InCall(s'.threads[u], k)
      ensures s.threads[u].input == s.threads[t].input
    {
    }
  }

  lemma SendKeepsInv(layout: Layout, s: State, t: ThreadId, k: Key)
    requires KeyInv(layout, s, k) && t in s.threads && s.threads[t].next == Send && s.threads[t].input.key == k
    requires !Opposed(s.threads, k)
    ensures KeyInv(layout, AdvanceStep(layout, s, t), k)
  {
    var s' := AdvanceStep(layout, s, t);
    GoOnKeepsPending(s.threads, t, k);
    assert CallStands(s.shared, s.threads[t], k, ReleasePending(s.threads, k));
    assert forall u :: u in s'.threads && u != t ==> u in s.threads && s'.threads[u] == s.threads[u];
    assert t in s'.threads ==> s'.threads[t].next == Filter;
  }

  lemma {:induction false} StrokesRelease(order: seq<Key>, k: Key)
    ensures Release(k) in AllStrokes(order) <==> k in order
    decreases |order|
  {
    if order != [] {
      StrokesRelease(order[1..], k);
      assert order == [order[0]] + order[1..];
    }
  }

  /** A thread that begins keeps the invariant if it will release what it took out of TO_RELEASE. */
  lemma BeginKeepsInv(layout: Layout, s: State, t: ThreadId, th: Thread, toRelease: set<Key>, k: Key)
    requires KeyInv(layout, s, k) && t !in s.threads && th.next == Filter
    requires k in toRelease ==> k in s.shared.toRelease
    requires k in s.shared.toRelease ==> k in toRelease || WillRelease(th, k)
    ensures KeyInv(layout, State(s.shared.(toRelease := toRelease), s.threads[t := th]), k)
  {
    var s' := State(s.shared.(toRelease := toRelease), s.threads[t := th]);
    var pending, pending' := ReleasePending(s.threads, k), ReleasePending(s'.threads, k);
    assert pending ==> pending' by {
      assert forall u :: u in s.threads ==> u in s'.threads && s'.threads[u] == s.threads[u];
    }
    assert WillRelease(s'.threads[t], k) ==> pending';
    if NobodyInCall(s'.threads, k) {
      assert forall u :: u in s.threads ==> s'.threads[u] == s.threads[u];
      assert NobodyInCall(s.threads, k);
    }
    forall u | u in s'.threads ensures CallStands(s'.shared, s'.threads[u], k, pending') {
      if u != t {
        assert CallStands(s.shared, s.threads[u], k, pending);
      }
    }
  }

  lemma TakeKeepsInv(layout: Layout, s: State, t: ThreadId, order: seq<Key>, k: Key)
    requires KeyInv(layout, s, k) && t !in s.threads && Lists(order, s.shared.toRelease)
    ensures KeyInv(layout, Step(layout, s, TakeRemoteKeys(t, order)), k)
  {
    var strokes := AllStrokes(order);
    StrokesRelease(order, k);
    if strokes == [] {
      assert order == [];
      assert s.shared.toRelease == {} && s.threads - {t} == s.threads;
    } else {
      assert strokes == [strokes[0]] + strokes[1..];
      BeginKeepsInv(layout, s, t, Thread(Filter, strokes[0], strokes[1..]), {}, k);
    }
  }

  lemma StepKeepsInv(layout: Layout, s: State, e: Event, k: Key)
    requires Injective(layout) && KeyInv(layout, s, k) && !Opposed(s.threads, k)
    ensures KeyInv(layout, Step(layout, s, e), k)
  {
    if Step(layout, s, e) != s {
      match e {
        case UserKey(t, input) => BeginKeepsInv(layout, s, t, Thread(Filter, input, []), s.shared.toRelease, k);
        case TakeRemoteKeys(t, order) => TakeKeepsInv(layout, s, t, order, k);
        case Advance(t) =>
          if s.threads[t].input.key != k {
            OtherKeyKeepsInv(layout, s, t, k);
          } else {
            match s.threads[t].next
            case Filter => FilterKeepsInv(layout, s, t, k);
            case SetBit => SetBitKeepsInv(layout, s, t, k);
            case Track => TrackKeepsInv(layout, s, t, k);
            case Send => SendKeepsInv(layout, s, t, k);
          }
      }
    }
  }

  /** The peer only ever sees codes of the layout. */
  ghost predicate KnownCodes(layout: Layout, s: State) {
    forall c :: c in s.shared.peerDown ==> exists k :: k in layout && layout[k] == c
  }

  lemma RestIsAccounted(layout: Layout, s: State)
    requires s.threads == map[] && KnownCodes(layout, s)
    requires forall k :: Relevant(layout, k) ==> KeyInv(layout, s, k)
    ensures Accounted(layout, s.shared)
  {
    assert Relevant(layout, Alt) && KeyInv(layout, s, Alt);
    forall k | Relevant(layout, k)
      ensures IsModifier(k) ==> (s.shared.modifiers[k] <==> k in s.shared.toRelease)
      ensures k in layout ==> (layout[k] in s.shared.peerDown <==> k in s.shared.toRelease)
    {
    }
    forall c | c in s.shared.peerDown ensures c in Codes(layout, s.shared.toRelease) {
      var k :| k in layout && layout[k] == c;
      assert Relevant(layout, k);
    }
  }

  // ---------------------------------------------------------------------------
  // Runs that spoil the accounts
  // ---------------------------------------------------------------------------

  lemma {:induction false} ExecConcat(layout: Layout, s: State, a: seq<Event>, b: seq<Event>)
    ensures Exec(layout, s, a + b) == Exec(layout, Exec(layout, s, a), b)
    decreases |a|
  {
    if a == [] {
      assert a + b == b;
    } else {
      assert (a + b)[0] == a[0] && (a + b)[1..] == a[1..] + b;
      ExecConcat(layout, Step(layout, s, a[0]), a[1..], b);
    }
  }

  /** `n` sections of one thread. */
  function Advances(t: ThreadId, n: nat): seq<Event> {
    if n == 0 then [] else [Advance(t)] + Advances(t, n - 1)
  }

  lemma ExecAdvances(layout: Layout, s: State, t: ThreadId, n: nat)
    requires n > 0
    ensures Exec(layout, s, Advances(t, n)) == Exec(layout, Step(layout, s, Advance(t)), Advances(t, n - 1))
  {
    assert Advances(t, n)[1..] == Advances(t, n - 1);
  }

  /** The user's key with the first `n` sections of its call. */
  function Begin(t: ThreadId, i: KeyInput, n: nat): seq<Event> {
    [UserKey(t, i)] + Advances(t, n)
  }

  /** The first two sections of a call that passes the filter. */
  lemma BegunCall(layout: Layout, s: State, t: ThreadId, i: KeyInput, n: nat)
    requires t !in s.threads && !IsLongPress(s.shared, i) && n >= 2
    ensures Exec(layout, s, Begin(t, i, n))
         == Exec(layout, State(AfterBit(s.shared, i), s.threads[t := Thread(Track, i, [])]), Advances(t, n - 2))
  {
    var s0 := State(s.shared, s.threads[t := Thread(Filter, i, [])]);
    var s1 := State(s.shared, s.threads[t := Thread(SetBit, i, [])]);
    var s2 := State(AfterBit(s.shared, i), s.threads[t := Thread(Track, i, [])]);
    assert Step(layout, s0, Advance(t)) == s1;
    assert Step(layout, s1, Advance(t)) == s2;
    ExecAdvances(layout, s0, t, n);
    ExecAdvances(layout, s1, t, n - 1);
  }

  /** The sections of a call that passes the filter. */
  lemma PassedCall(layout: Layout, s: State, t: ThreadId, i: KeyInput)
    requires t !in s.threads && !IsLongPress(s.shared, i)
    ensures Exec(layout, s, Begin(t, i, 2)) == State(AfterBit(s.shared, i), s.threads[t := Thread(Track, i, [])])
    ensures Exec(layout, s, Begin(t, i, 3))
         == State(AfterTrack(AfterBit(s.shared, i), i), s.threads[t := Thread(Send, i, [])])
    ensures Exec(layout, s, Begin(t, i, 4)) == State(Process(layout, s.shared, i), s.threads)
  {
    var s2 := State(AfterBit(s.shared, i), s.threads[t := Thread(Track, i, [])]);
    var s3 := State(AfterTrack(s2.shared, i), s.threads[t := Thread(Send, i, [])]);
    var s4 := State(AfterSend(layout, s3.shared, i), s.threads);
    assert Step(layout, s2, Advance(t)) == s3;
    assert Step(layout, s3, Advance(t)) == s4 by {
      assert s3.threads - {t} == s.threads;
    }
    BegunCall(layout, s, t, i, 2);
    BegunCall(layout, s, t, i, 3);
    BegunCall(layout, s, t, i, 4);
    ExecAdvances(layout, s2, t, 1);
    ExecAdvances(layout, s2, t, 2);
    ExecAdvances(layout, s3, t, 1);
    assert Exec(layout, s2, Advances(t, 0)) == s2 && Exec(layout, s3, Advances(t, 0)) == s3;
    assert Exec(layout, s4, Advances(t, 0)) == s4;
  }

  lemma {:induction false} IdleThread(layout: Layout, s: State, t: ThreadId, n: nat)
    requires t !in s.threads
    ensures Exec(layout, s, Advances(t, n)) == s
  {
    if n > 0 {
      ExecAdvances(layout, s, t, n);
      IdleThread(layout, s, t, n - 1);
    }
  }

  /** A call that nobody interrupts, whatever the other threads are doing, is `Process`. */
  lemma WholeCall(layout: Layout, s: State, t: ThreadId, i: KeyInput)
    requires t !in s.threads
    ensures Exec(layout, s, Begin(t, i, 4)) == State(Process(layout, s.shared, i), s.threads)
  {
    if IsLongPress(s.shared, i) {
      var s0 := State(s.shared, s.threads[t := Thread(Filter, i, [])]);
      ExecAdvances(layout, s0, t, 4);
      assert s0.threads - {t} == s.threads;
      IdleThread(layout, s, t, 3);
    } else {
      PassedCall(layout, s, t, i);
    }
  }

  /** Every thread handles only `k`, and so do the events. */
  ghost predicate OnlyKey(threads: Threads, es: seq<Event>, k: Key) {
    && (forall t :: t in threads ==> threads[t].input.key == k && threads[t].rest == [])
    && (forall i :: 0 <= i < |es| ==> !es[i].TakeRemoteKeys? && (es[i].UserKey? ==> es[i].input.key == k))
  }

  lemma {:induction false} OnlyKeyOverlaps(layout: Layout, s: State, es: seq<Event>, k: Key)
    requires OnlyKey(s.threads, es, k)
    ensures OverlapsOnly(layout, s, es, {k})
    decreases |es|
  {
    forall l | Opposed(s.threads, l) ensures l == k {
      var t, u :| t in s.threads && u in s.threads && InCall(s.threads[t], l) && InCall(s.threads[u], l)
        && s.threads[t].input != s.threads[u].input;
    }
    if es != [] {
      assert OnlyKey(Step(layout, s, es[0]).threads, es[1..], k);
      OnlyKeyOverlaps(layout, Step(layout, s, es[0]), es[1..], k);
    }
  }

  lemma OnlyKeyConcat(threads: Threads, a: seq<Event>, b: seq<Event>, k: Key)
    requires OnlyKey(threads, a, k) && OnlyKey(map[], b, k)
    ensures OnlyKey(threads, a + b, k)
  {
  }

  lemma {:induction false} OnlyAdvances(t: ThreadId, n: nat)
    ensures forall i :: 0 <= i < |Advances(t, n)| ==> Advances(t, n)[i] == Advance(t)
  {
    if n > 0 {
      OnlyAdvances(t, n - 1);
    }
  }

  lemma OnlyKeyBegin(t: ThreadId, i: KeyInput, n: nat)
    ensures OnlyKey(map[], Begin(t, i, n), i.key)
  {
    OnlyAdvances(t, n);
  }

  /** After `k` was pressed, a second press falls into a release: between its `n`-th section and its last ones. */
  function Collision(k: Key, n: nat): seq<Event>
    requires n <= 4
  {
    Begin(0, Press(k), 4) + (Begin(1, Release(k), n) + (Begin(0, Press(k), 4) + Advances(1, 4 - n)))
  }

  lemma CollisionOverlaps(layout: Layout, k: Key, n: nat)
    requires n <= 4
    ensures OverlapsOnly(layout, Init(), Collision(k, n), {k})
  {
    OnlyKeyBegin(0, Press(k), 4);
    OnlyKeyBegin(1, Release(k), n);
    OnlyAdvances(1, 4 - n);
    var last := Begin(0, Press(k), 4) + Advances(1, 4 - n);
    OnlyKeyConcat(map[], Begin(0, Press(k), 4), Advances(1, 4 - n), k);
    OnlyKeyConcat(map[], Begin(1, Release(k), n), last, k);
    OnlyKeyConcat(map[], Begin(0, Press(k), 4), Begin(1, Release(k), n) + last, k);
    OnlyKeyOverlaps(layout, Init(), Collision(k, n), k);
  }

  /** The state in the middle of the release, and what the second press makes of it. */
  lemma CollisionState(layout: Layout, k: Key, n: nat) returns (s: State)
    requires 2 <= n <= 3
    ensures var one := Process(layout, Init().shared, Press(k));
            var bit := AfterBit(one, Release(k));
            var middle := if n == 2 then bit else AfterTrack(bit, Release(k));
            s == State(Process(layout, middle, Press(k)),
                       map[1 := Thread(if n == 2 then Track else Send, Release(k), [])])
    ensures Exec(layout, Init(), Collision(k, n)) == Exec(layout, s, Advances(1, 4 - n))
  {
    var press, release := Begin(0, Press(k), 4), Begin(1, Release(k), n);
    var s1 := State(Process(layout, Init().shared, Press(k)), map[]);
    WholeCall(layout, Init(), 0, Press(k));
    PassedCall(layout, s1, 1, Release(k));
    var s2 := Exec(layout, s1, release);
    WholeCall(layout, s2, 0, Press(k));
    s := Exec(layout, s2, press);
    ExecConcat(layout, Init(), press, release + (press + Advances(1, 4 - n)));
    ExecConcat(layout, s1, release, press + Advances(1, 4 - n));
    ExecConcat(layout, s2, press, Advances(1, 4 - n));
  }

  /** A press between untracking and sending: the key is tracked, and the peer sees it up. */
  lemma PressBeforeSend(layout: Layout, k: Key)
    requires k in layout
    ensures var s := Exec(layout, Init(), Collision(k, 3));
            s.threads == map[] && k in s.shared.toRelease && layout[k] !in s.shared.peerDown
  {
    var s := CollisionState(layout, k, 3);
    ExecAdvances(layout, s, 1, 1);
    var s' := Step(layout, s, Advance(1));
    assert s'.threads == map[];
    assert Exec(layout, s', Advances(1, 0)) == s';
  }

  /**
   A press between clearing the bit and untracking: the modifier bit stays set for a key that is not tracked, so
   later presses of it are dropped and later releases pass it over.
   */
  lemma PressBeforeTrack(layout: Layout, k: Key)
    requires IsModifier(k)
    ensures var s := Exec(layout, Init(), Collision(k, 2));
            s.threads == map[] && k !in s.shared.toRelease && IsLongPress(s.shared, Press(k))
  {
    var s := CollisionState(layout, k, 2);
    ExecAdvances(layout, s, 1, 2);
    var s1 := Step(layout, s, Advance(1));
    ExecAdvances(layout, s1, 1, 1);
    var s2 := Step(layout, s1, Advance(1));
    assert s2.threads == map[];
    assert Exec(layout, s2, Advances(1, 0)) == s2;
  }

  /** Every key that the peer or the modifier table knows has a run that spoils its accounts by one overlap. */
  lemma OverlapLosesAccount(layout: Layout, k: Key) returns (es: seq<Event>)
    requires Relevant(layout, k)
    ensures OverlapsOnly(layout, Init(), es, {k}) && !AccountedAtRest(layout, Exec(layout, Init(), es))
  {
    if k in layout {
      es := Collision(k, 3);
      PressBeforeSend(layout, k);
      assert layout[k] in Codes(layout, Exec(layout, Init(), es).shared.toRelease);
    } else {
      es := Collision(k, 2);
      PressBeforeTrack(layout, k);
    }
    CollisionOverlaps(layout, k, if k in layout then 3 else 2);
  }

  ghost predicate OnlyThread(threads: Threads, es: seq<Event>, t: ThreadId) {
    threads.Keys <= {t} && forall i :: 0 <= i < |es| ==> es[i].thread == t
  }

  lemma {:induction false} OneThreadNeverOverlaps(layout: Layout, s: State, es: seq<Event>, t: ThreadId)
    requires OnlyThread(s.threads, es, t)
    ensures OverlapsOnly(layout, s, es, {})
    decreases |es|
  {
    if es != [] {
      assert OnlyThread(Step(layout, s, es[0]).threads, es[1..], t);
      OneThreadNeverOverlaps(layout, Step(layout, s, es[0]), es[1..], t);
    }
  }

  /** Three calls of one thread in a row. */
  function ThreeCalls(a: KeyInput, b: KeyInput, c: KeyInput): seq<Event> {
    Begin(0, a, 4) + (Begin(0, b, 4) + Begin(0, c, 4))
  }

  lemma ExecThreeCalls(layout: Layout, a: KeyInput, b: KeyInput, c: KeyInput)
    ensures OverlapsOnly(layout, Init(), ThreeCalls(a, b, c), {})
    ensures Exec(layout, Init(), ThreeCalls(a, b, c))
         == State(Process(layout, Process(layout, Process(layout, Init().shared, a), b), c), map[])
  {
    OnlyAdvances(0, 4);
    OneThreadNeverOverlaps(layout, Init(), ThreeCalls(a, b, c), 0);
    var s1 := State(Process(layout, Init().shared, a), map[]);
    var s2 := State(Process(layout, s1.shared, b), map[]);
    ExecConcat(layout, Init(), Begin(0, a, 4), Begin(0, b, 4) + Begin(0, c, 4));
    WholeCall(layout, Init(), 0, a);
    ExecConcat(layout, s1, Begin(0, b, 4), Begin(0, c, 4));
    WholeCall(layout, s1, 0, b);
    WholeCall(layout, s2, 0, c);
  }

  lemma SharedCodeGoesUp(layout: Layout, s: Shared, k: Key, l: Key)
    requires k != l && k in layout && l in layout && layout[k] == layout[l] && l in s.toRelease
    ensures !Accounted(layout, Process(layout, s, Release(k)))
  {
    var s' := Process(layout, s, Release(k));
    assert layout[l] in Codes(layout, s'.toRelease) && layout[l] !in s'.peerDown;
  }

  /** Any two keys that share a code give a run of one thread with a wrong peer view. */
  lemma SharedCodeLosesAccount(layout: Layout, k: Key, l: Key) returns (es: seq<Event>)
    requires k != l && k in layout && l in layout && layout[k] == layout[l]
    ensures OverlapsOnly(layout, Init(), es, {}) && !AccountedAtRest(layout, Exec(layout, Init(), es))
  {
    es := ThreeCalls(Press(k), Press(l), Release(k));
    ExecThreeCalls(layout, Press(k), Press(l), Release(k));
    var s2 := Process(layout, Process(layout, Init().shared, Press(k)), Press(l));
    assert l in s2.toRelease;
    SharedCodeGoesUp(layout, s2, k, l);
  }

  // ---------------------------------------------------------------------------
  // What TO_RELEASE can hold after a release
  // ---------------------------------------------------------------------------

  /** The keys of single presses under way. */
  function PressesUnderWay(threads: Threads): set<Key> {
    set t | t in threads && threads[t].input.Press? && threads[t].rest == [] :: threads[t].input.key
  }

  /** Every press among the inputs is of an allowed key or is followed by a release. */
  predicate Closed(inputs: seq<KeyInput>, allowed: set<Key>) {
    inputs == [] ||
    ((inputs[0].Press? ==> inputs[0].key in allowed || Release(inputs[0].key) in inputs[1..])
     && Closed(inputs[1..], allowed))
  }

  ghost predicate ThreadClosed(th: Thread, allowed: set<Key>) {
    && (th.input.Press? ==> th.input.key in allowed || Release(th.input.key) in th.rest)
    && Closed(th.rest, allowed)
  }

  /** TO_RELEASE holds only allowed keys and keys that some thread will take out, and so it stays. */
  ghost predicate HoldsOnly(s: State, allowed: set<Key>) {
    && (forall k :: k in s.shared.toRelease ==> k in allowed || ReleasePending(s.threads, k))
    && (forall t :: t in s.threads ==> ThreadClosed(s.threads[t], allowed))
  }

  lemma {:induction false} ClosedMono(inputs: seq<KeyInput>, allowed: set<Key>, more: set<Key>)
    requires Closed(inputs, allowed) && allowed <= more
    ensures Closed(inputs, more)
    decreases |inputs|
  {
    if inputs != [] {
      ClosedMono(inputs[1..], allowed, more);
    }
  }

  lemma HoldsOnlyMono(s: State, allowed: set<Key>, more: set<Key>)
    requires HoldsOnly(s, allowed) && allowed <= more
    ensures HoldsOnly(s, more)
  {
    forall t | t in s.threads ensures ThreadClosed(s.threads[t], more) {
      ClosedMono(s.threads[t].rest, allowed, more);
    }
  }

  lemma StrokesAreClosed(key: Key, rest: seq<KeyInput>)
    requires Closed(rest, {})
    ensures Closed(Strokes(key) + rest, {})
  {
    var all := Strokes(key) + rest;
    if key == Alt || key == AltGr {
      assert all[1..] == [Press(key), Release(key)] + rest;
      assert all[1..][1..] == [Release(key)] + rest;
      assert all[1..][1..][1..] == rest;
      assert Closed(all[1..][1..], {});
      assert Closed(all[1..], {});
    } else {
      assert all[1..] == rest;
    }
  }

  lemma {:induction false} AllStrokesAreClosed(order: seq<Key>)
    ensures Closed(AllStrokes(order), {})
    decreases |order|
  {
    if order != [] {
      AllStrokesAreClosed(order[1..]);
      StrokesAreClosed(order[0], AllStrokes(order[1..]));
    }
  }

  lemma GoOnIsClosed(s: State, t: ThreadId, allowed: set<Key>)
    requires t in s.threads && Closed(s.threads[t].rest, allowed)
    requires forall u :: u in s.threads ==> ThreadClosed(s.threads[u], allowed)
    ensures var after := GoOn(s.threads, t, s.threads[t].rest);
            forall u :: u in after ==> ThreadClosed(after[u], allowed)
  {
  }

  lemma TrackHoldsOnly(layout: Layout, s: State, t: ThreadId, allowed: set<Key>)
    requires HoldsOnly(s, allowed) && t in s.threads && s.threads[t].next == Track
    ensures HoldsOnly(AdvanceStep(layout, s, t), allowed)
  {
    var th, s' := s.threads[t], AdvanceStep(layout, s, t);
    forall k | k in s'.shared.toRelease ensures k in allowed || ReleasePending(s'.threads, k) {
      if th.input == Press(k) {
        assert k in allowed || WillRelease(s'.threads[t], k);
      } else {
        assert k in s.shared.toRelease && th.input != Release(k);
        MoveKeepsPending(s.threads, t, Send, k);
      }
    }
  }

  lemma AdvanceHoldsOnly(layout: Layout, s: State, t: ThreadId, allowed: set<Key>)
    requires HoldsOnly(s, allowed) && t in s.threads
    ensures HoldsOnly(AdvanceStep(layout, s, t), allowed)
  {
    var th, s' := s.threads[t], AdvanceStep(layout, s, t);
    if th.next == Track {
      TrackHoldsOnly(layout, s, t, allowed);
    } else if th.next == Send || (th.next == Filter && IsLongPress(s.shared, th.input)) {
      GoOnIsClosed(s, t, allowed);
      forall k | k in s'.shared.toRelease ensures k in allowed || ReleasePending(s'.threads, k) {
        GoOnKeepsPending(s.threads, t, k);
      }
    } else {
      forall k | k in s'.shared.toRelease ensures k in allowed || ReleasePending(s'.threads, k) {
        MoveKeepsPending(s.threads, t, s'.threads[t].next, k);
      }
    }
  }

  lemma TakeHoldsOnly(layout: Layout, s: State, t: ThreadId, order: seq<Key>, allowed: set<Key>)
    requires forall u :: u in s.threads ==> ThreadClosed(s.threads[u], allowed)
    requires t !in s.threads && Lists(order, s.shared.toRelease)
    ensures HoldsOnly(Step(layout, s, TakeRemoteKeys(t, order)), allowed)
  {
    AllStrokesAreClosed(order);
    ClosedMono(AllStrokes(order), {}, allowed);
  }

  lemma UserKeyHoldsOnly(layout: Layout, s: State, t: ThreadId, i: KeyInput, allowed: set<Key>)
    requires HoldsOnly(s, allowed) && t !in s.threads && (i.Press? ==> i.key in allowed)
    ensures HoldsOnly(Step(layout, s, UserKey(t, i)), allowed)
  {
    var s' := Step(layout, s, UserKey(t, i));
    assert forall u :: u in s.threads ==> u in s'.threads && s'.threads[u] == s.threads[u];
    assert forall k :: ReleasePending(s.threads, k) ==> ReleasePending(s'.threads, k);
  }

  /** The key of a user's press. */
  function UserPress(e: Event): set<Key> {
    if e.UserKey? && e.input.Press? then {e.input.key} else {}
  }

  lemma StepHoldsOnly(layout: Layout, s: State, e: Event, allowed: set<Key>)
    requires HoldsOnly(s, allowed)
    ensures HoldsOnly(Step(layout, s, e), allowed + UserPress(e))
  {
    var more := allowed + UserPress(e);
    HoldsOnlyMono(s, allowed, more);
    if Step(layout, s, e) != s {
      match e {
        case UserKey(t, input) => UserKeyHoldsOnly(layout, s, t, input, more);
        case TakeRemoteKeys(t, order) => TakeHoldsOnly(layout, s, t, order, more);
        case Advance(t) => AdvanceHoldsOnly(layout, s, t, more);
      }
    }
  }

  /** A thread handles one user key, or a list of strokes that ends every press it starts. */
  ghost predicate WellFormedThreads(threads: Threads) {
    forall t :: t in threads ==> threads[t].rest == [] || ThreadClosed(threads[t], {})
  }

  lemma StepKeepsThreads(layout: Layout, s: State, e: Event)
    requires WellFormedThreads(s.threads)
    ensures WellFormedThreads(Step(layout, s, e).threads)
  {
    if e.TakeRemoteKeys? {
      AllStrokesAreClosed(e.order);
    }
  }

  lemma WellFormedIsClosed(threads: Threads, t: ThreadId)
    requires WellFormedThreads(threads) && t in threads
    ensures ThreadClosed(threads[t], PressesUnderWay(threads))
  {
    if threads[t].rest != [] {
      ClosedMono(threads[t].rest, {}, PressesUnderWay(threads));
    }
  }

  // ---------------------------------------------------------------------------
  // The code
  // ---------------------------------------------------------------------------

  datatype Message = Message(code: nat, down: bool)

  /** The key message `map_keyboard_mode` produces for an input that passed the filter. */
  function MapMode(layout: Layout, i: KeyInput): seq<Message> {
    if i.key in layout then [Message(layout[i.key], i.Press?)] else []
  }

  /** What one turn of the release loop sends: a release, and one more stroke for either Alt key. */
  function ReleaseMessages(layout: Layout, key: Key): seq<Message> {
    MapMode(layout, Release(key)) +
    if key == Alt || key == AltGr then MapMode(layout, Press(key)) + MapMode(layout, Release(key)) else []
  }

  function AllReleaseMessages(layout: Layout, order: seq<Key>): seq<Message> {
    if order == [] then []
    else AllReleaseMessages(layout, order[..|order| - 1]) + ReleaseMessages(layout, order[|order| - 1])
  }

  /** The messages for a list of inputs that all pass the filter. */
  function MessagesFor(layout: Layout, inputs: seq<KeyInput>): seq<Message> {
    if inputs == [] then []
    else MessagesFor(layout, inputs[..|inputs| - 1]) + MapMode(layout, inputs[|inputs| - 1])
  }

  /**
   A released key goes up, and either Alt goes down and up once more: the peer may have kept its Alt state after a
   switch of windows. These are the messages of the strokes that the release loop feeds in.
   */
  lemma AltGetsAnotherStroke(layout: Layout, key: Key)
    requires key in layout
    ensures var up, down := Message(layout[key], false), Message(layout[key], true);
            && ReleaseMessages(layout, key) == (if key == Alt || key == AltGr then [up, down, up] else [up])
            && ReleaseMessages(layout, key) == MessagesFor(layout, Strokes(key))
  {
    var strokes := Strokes(key);
    assert [strokes[0]][..0] == [] && MessagesFor(layout, []) == [];
    assert MessagesFor(layout, [strokes[0]]) == MapMode(layout, strokes[0]);
    if |strokes| == 3 {
      assert strokes[..2][..1] == [strokes[0]];
      assert MessagesFor(layout, strokes[..2]) == MapMode(layout, strokes[0]) + MapMode(layout, strokes[1]);
    } else {
      assert strokes == [strokes[0]];
    }
  }

  /** Input `j` is the last one for `k` among the first `n`, and a press. */
  ghost predicate LastIsPress(inputs: seq<KeyInput>, j: nat, n: nat, k: Key)
    requires n <= |inputs|
  {
    j < n && inputs[j] == Press(k) && forall l :: j < l < n ==> inputs[l].key != k
  }

  /** The latest input for `k` among the first `n` was a press. */
  ghost predicate HeldBefore(inputs: seq<KeyInput>, n: nat, k: Key)
    requires n <= |inputs|
  {
    exists j: nat :: LastIsPress(inputs, j, n, k)
  }

  /** Input `n` repeats the press of a modifier that is held. */
  ghost predicate Repeats(inputs: seq<KeyInput>, n: nat)
    requires n < |inputs|
  {
    inputs[n].Press? && IsModifier(inputs[n].key) && HeldBefore(inputs, n, inputs[n].key)
  }

  /** What the peer is to be sent for a history of inputs: every key message except the repeats of held modifiers. */
  ghost function Wanted(layout: Layout, inputs: seq<KeyInput>): seq<Message> {
    if inputs == [] then []
    else
      var n := |inputs| - 1;
      Wanted(layout, inputs[..n]) + if Repeats(inputs, n) then [] else MapMode(layout, inputs[n])
  }

  /** The modifier bits are those of the history. */
  ghost predicate BitsOf(modifiers: map<Key, bool>, inputs: seq<KeyInput>) {
    FullTable(modifiers) && forall k :: IsModifier(k) ==> (modifiers[k] <==> HeldBefore(inputs, |inputs|, k))
  }

  /** Where the histories agree and what follows is for other keys, the same press is the last one. */
  lemma LastPressMoves(a: seq<KeyInput>, n: nat, b: seq<KeyInput>, m: nat, j: nat, k: Key)
    requires n <= |a| && m <= |b| && LastIsPress(a, j, n, k) && j < m
    requires forall l :: 0 <= l < n && l < m ==> a[l] == b[l]
    requires forall l :: n <= l < m ==> b[l].key != k
    ensures HeldBefore(b, m, k)
  {
    assert LastIsPress(b, j, m, k);
  }

  lemma SameHeldBefore(inputs: seq<KeyInput>, i: KeyInput, k: Key)
    ensures HeldBefore(inputs + [i], |inputs|, k) <==> HeldBefore(inputs, |inputs|, k)
  {
    var more, n := inputs + [i], |inputs|;
    if j: nat :| LastIsPress(more, j, n, k) {
      LastPressMoves(more, n, inputs, n, j, k);
    } else if j: nat :| LastIsPress(inputs, j, n, k) {
      LastPressMoves(inputs, n, more, n, j, k);
    }
  }

  lemma HeldAfterOwn(inputs: seq<KeyInput>, i: KeyInput)
    ensures HeldBefore(inputs + [i], |inputs| + 1, i.key) <==> i.Press?
  {
    var more, n := inputs + [i], |inputs|;
    assert more[n] == i;
    if i.Press? {
      assert LastIsPress(more, n, n + 1, i.key);
    }
  }

  lemma HeldAfterOther(inputs: seq<KeyInput>, i: KeyInput, k: Key)
    requires i.key != k
    ensures HeldBefore(inputs + [i], |inputs| + 1, k) <==> HeldBefore(inputs, |inputs|, k)
  {
    var more, n := inputs + [i], |inputs|;
    var m := n + 1;
    if j: nat :| LastIsPress(more, j, m, k) {
      LastPressMoves(more, m, inputs, n, j, k);
    } else if j: nat :| LastIsPress(inputs, j, n, k) {
      LastPressMoves(inputs, n, more, m, j, k);
    }
  }

  /** One call: the bits follow the history, and exactly what the history asks for is sent. */
  lemma CallFollowsHistory(layout: Layout, s: Shared, inputs: seq<KeyInput>, i: KeyInput)
    requires BitsOf(s.modifiers, inputs)
    ensures BitsOf(Process(layout, s, i).modifiers, inputs + [i])
    ensures Wanted(layout, inputs + [i])
         == Wanted(layout, inputs) + if IsLongPress(s, i) then [] else MapMode(layout, i)
  {
    var more := inputs + [i];
    assert more[..|inputs|] == inputs;
    SameHeldBefore(inputs, i, i.key);
    forall k | IsModifier(k) ensures Process(layout, s, i).modifiers[k] <==> HeldBefore(more, |more|, k) {
      if k == i.key {
        HeldAfterOwn(inputs, i);
      } else {
        HeldAfterOther(inputs, i, k);
      }
    }
  }

  /** The calls for a history of inputs, one after the other: the state, and the messages sent. */
  function Typed(layout: Layout, inputs: seq<KeyInput>): (Shared, seq<Message>) {
    if inputs == [] then (Init().shared, [])
    else
      var n := |inputs| - 1;
      var (s, sent) := Typed(layout, inputs[..n]);
      (Process(layout, s, inputs[n]), sent + if IsLongPress(s, inputs[n]) then [] else MapMode(layout, inputs[n]))
  }

  /** For every history: exactly its wanted messages are sent, in order. */
  lemma {:induction false} TypedIsSent(layout: Layout, inputs: seq<KeyInput>)
    ensures Typed(layout, inputs).1 == Wanted(layout, inputs) && BitsOf(Typed(layout, inputs).0.modifiers, inputs)
    decreases |inputs|
  {
    if inputs != [] {
      var n := |inputs| - 1;
      TypedIsSent(layout, inputs[..n]);
      CallFollowsHistory(layout, Typed(layout, inputs[..n]).0, inputs[..n], inputs[n]);
      assert inputs[..n] + [inputs[n]] == inputs;
    }
  }

  /** A history without modifiers, a held letter for instance, is sent press by press. */
  lemma {:induction false} PlainKeysRepeat(layout: Layout, inputs: seq<KeyInput>)
    requires forall i :: 0 <= i < |inputs| ==> inputs[i].key.Plain? && inputs[i].key in layout
    ensures var sent := Typed(layout, inputs).1;
            |sent| == |inputs| && forall i :: 0 <= i < |inputs| ==> sent[i] == Message(layout[inputs[i].key], inputs[i].Press?)
    decreases |inputs|
  {
    TypedIsSent(layout, inputs);
    if inputs != [] {
      PlainKeysRepeat(layout, inputs[..|inputs| - 1]);
      TypedIsSent(layout, inputs[..|inputs| - 1]);
    }
  }

  /** The bits with those of `keys` cleared. */
  function Cleared(modifiers: map<Key, bool>, keys: set<Key>): map<Key, bool> {
    map k | k in modifiers :: modifiers[k] && k !in keys
  }

  lemma TakeOne(layout: Layout, order: seq<Key>, key: Key, base: seq<Message>)
    ensures base + AllReleaseMessages(layout, order) + ReleaseMessages(layout, key)
         == base + AllReleaseMessages(layout, order + [key])
  {
    assert (order + [key])[..|order|] == order;
  }

  /** The taken keys in `done` are up everywhere, and nothing else has changed. */
  function Released(layout: Layout, s: Shared, done: set<Key>): Shared {
    Shared({}, Cleared(s.modifiers, done), s.peerDown - Codes(layout, done))
  }

  function ReleasedKey(layout: Layout, s: Shared, key: Key): Shared {
    Shared(s.toRelease - {key}, Cleared(s.modifiers, {key}), PeerAfter(layout, s.peerDown, Release(key)))
  }

  lemma NothingReleased(layout: Layout, s: Shared)
    ensures Released(layout, s, {}) == s.(toRelease := {})
  {
    assert Cleared(s.modifiers, {}) == s.modifiers;
    assert Codes(layout, {}) == {};
  }

  lemma CodesOfOneMore(layout: Layout, done: set<Key>, key: Key)
    ensures Codes(layout, done + {key}) == Codes(layout, done) + if key in layout then {layout[key]} else {}
  {
  }

  lemma ReleaseOneMore(layout: Layout, s: Shared, done: set<Key>, key: Key)
    ensures ReleasedKey(layout, Released(layout, s, done), key) == Released(layout, s, done + {key})
  {
    CodesOfOneMore(layout, done, key);
    assert Cleared(Cleared(s.modifiers, done), {key}) == Cleared(s.modifiers, done + {key});
  }

  lemma AccountedReleaseClearsAll(layout: Layout, s: Shared)
    requires Accounted(layout, s)
    ensures Released(layout, s, s.toRelease) == Init().shared
  {
  }

  lemma MoveOne(done: set<Key>, taken: set<Key>, key: Key)
    requires key in taken && done !! taken
    ensures (done + {key}) + (taken - {key}) == done + taken && (done + {key}) !! (taken - {key})
  {
  }

  lemma ListOneMore(order: seq<Key>, done: set<Key>, key: Key)
    requires Lists(order, done) && key !in done
    ensures Lists(order + [key], done + {key})
  {
  }

  class KeyTracker {
    const layout: Layout
    var toRelease: set<Key>
    var modifiers: map<Key, bool>
    /** What the peer sees held down after the messages sent so far. */
    var peerDown: set<nat>
    var sent: seq<Message>
    /** All inputs so far. */
    ghost var inputs: seq<KeyInput>

    /** Exactly what the history of inputs asks for has been sent. */
    ghost predicate FollowsHistory()
      reads this
    {
      BitsOf(modifiers, inputs) && sent == Wanted(layout, inputs)
    }

    ghost function View(): Shared
      reads this
    {
      Shared(toRelease, modifiers, peerDown)
    }

    constructor (layout: Layout)
      ensures this.layout == layout && View() == Init().shared && sent == [] && inputs == [] && FollowsHistory()
    {
      this.layout := layout;
      toRelease, peerDown, sent, inputs := {}, {}, [], [];
      modifiers := map k | k in MODIFIERS :: false;
    }

    /** `process_event`: long-press filter, bookkeeping of `event_to_key_events`, then the message. */
    method ProcessEvent(i: KeyInput)
      modifies this
      ensures View() == Process(layout, old(View()), i)
      ensures sent == old(sent) + if old(IsLongPress(View(), i)) then [] else MapMode(layout, i)
      ensures inputs == old(inputs) + [i] && (old(FollowsHistory()) ==> FollowsHistory())
    {
      if BitsOf(modifiers, inputs) {
        CallFollowsHistory(layout, View(), inputs, i);
      }
      inputs := inputs + [i];
      if i.Press? && i.key in modifiers && modifiers[i.key] {
        return;
      }
      if i.key in modifiers {
        modifiers := modifiers[i.key := i.Press?];
      }
      match i {
        case Press(k) =>
          toRelease := toRelease + {k};
        case Release(k) =>
          toRelease := toRelease - {k};
      }
      if i.key in layout {
        sent := sent + [Message(layout[i.key], i.Press?)];
        peerDown := if i.Press? then peerDown + {layout[i.key]} else peerDown - {layout[i.key]};
      }
    }

    /** The body of the release loop for one key; the bounce gets past the long-press filter. */
    method ReleaseOne(key: Key)
      modifies this
      ensures View() == ReleasedKey(layout, old(View()), key)
      ensures sent == old(sent) + ReleaseMessages(layout, key)
      ensures old(FollowsHistory()) ==> FollowsHistory()
    {
      ProcessEvent(Release(key));
      if key == Alt || key == AltGr {
        ProcessEvent(Press(key));
        ProcessEvent(Release(key));
      }
    }

    /**
     `release_remote_keys`, for any iteration order of the taken map and from any state: exactly the taken keys go
     up, everywhere. If the accounts were right, nothing is down afterwards.
     */
    method ReleaseRemoteKeys() returns (order: seq<Key>)
      modifies this
      ensures View() == Released(layout, old(View()), old(toRelease))
      ensures old(Accounted(layout, View())) ==> View() == Init().shared
      ensures Lists(order, old(toRelease)) && sent == old(sent) + AllReleaseMessages(layout, order)
      ensures old(FollowsHistory()) ==> FollowsHistory()
    {
      ghost var before, messages := View(), sent;
      if Accounted(layout, before) {
        AccountedReleaseClearsAll(layout, before);
      }
      NothingReleased(layout, before);
      var taken := toRelease;
      toRelease := {};
      order := [];
      ghost var done: set<Key> := {};
      while taken != {}
        invariant done + taken == before.toRelease && done !! taken && Lists(order, done)
        invariant View() == Released(layout, before, done)
        invariant sent == messages + AllReleaseMessages(layout, order)
        invariant old(FollowsHistory()) ==> FollowsHistory()
        decreases |taken|
      {
        var key :| key in taken;
        TakeOne(layout, order, key, messages);
        ListOneMore(order, done, key);
        MoveOne(done, taken, key);
        ReleaseOneMore(layout, before, done, key);
        ReleaseOne(key);
        taken := taken - {key};
        done := done + {key};
        order := order + [key];
      }
      assert done == before.toRelease;
    }
  }
}
