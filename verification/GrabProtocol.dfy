/**
 The keyboard-grab ownership protocol of src/keyboard.rs (Linux build).

 Windows race through `change_grab_status(Run/Wait)`. Every critical section under GRAB_STATE is one
 atomic event. The operating-system calls made after unlocking are separate events that hold
 GRAB_OP_LOCK from `Lock` to the last `Act`, so a check can be stale by the time its action happens.
 An event whose guard does not hold is skipped, hence every event sequence is a run.
 */
module GrabProtocol {
  import opened Common

  type SessionId = nat

  /** Instants and durations are in nanoseconds. */
  const MILLI := 1_000_000
  const GRAB_DEBOUNCE_MS := 300
  const DEFERRED_SLACK_MS := 50

  datatype GrabOp =
    | ApplyRunIfOwner(session: SessionId, disableFirst: bool)
    | DisableIfReleased

  /** What the holder of GRAB_OP_LOCK still has to do. */
  datatype Phase =
    | Idle
    | Locked(op: GrabOp)
    | MustDisable(thenEnable: bool)
    | MustEnable

  /** A sleeping deferred-release thread. */
  datatype Timer = Timer(session: SessionId, snapshot: int, due: int)

  datatype State = State(
    now: int,
    rdevEnabled: bool,
    owner: Option<SessionId>,
    lastGrab: Option<int>,
    deferredPending: bool,
    hooked: bool,
    osGrab: bool,
    phase: Phase,
    pending: multiset<GrabOp>,
    timers: multiset<Timer>)

  datatype Event =
    | Tick(elapsed: nat)
    | SetRdevEnabled(on: bool)
    | Run(session: SessionId)
    | Wait(session: SessionId)
    | Fire(timer: Timer)
    | Lock(op: GrabOp)
    | Check
    | Act

  function Init(): State {
    State(0, false, None, None, false, false, false, Idle, multiset{}, multiset{})
  }

  // ---------------------------------------------------------------------------
  // Specification of the atomic steps
  // ---------------------------------------------------------------------------

  function RunStep(s: State, session: SessionId): State {
    if !s.rdevEnabled then s
    else if s.owner == Some(session) then
      s.(lastGrab := Some(s.now), deferredPending := false)
    else
      s.(owner := Some(session), lastGrab := Some(s.now), deferredPending := false, hooked := true,
      pending := s.pending + multiset{ApplyRunIfOwner(session, s.owner.Some?)})
  }

  function Released(s: State): State {
    s.(owner := None, lastGrab := None, deferredPending := false, hooked := false,
    pending := s.pending + multiset{DisableIfReleased})
  }

  function ElapsedMs(s: State): int
    requires s.lastGrab.Some?
  {
    (s.now - s.lastGrab.value) / MILLI
  }

  function ScheduledTimer(s: State, session: SessionId): Timer
    requires s.lastGrab.Some?
  {
    Timer(session, s.lastGrab.value,
          s.now + (GRAB_DEBOUNCE_MS - ElapsedMs(s) + DEFERRED_SLACK_MS) * MILLI)
  }

  function WaitStep(s: State, session: SessionId): State {
    if !s.rdevEnabled || s.owner != Some(session) then s
    else if s.lastGrab.Some? && ElapsedMs(s) < GRAB_DEBOUNCE_MS then
      if s.deferredPending then s
      else s.(deferredPending := true, timers := s.timers + multiset{ScheduledTimer(s, session)})
    else Released(s)
  }

  predicate Matches(s: State, t: Timer) {
    s.owner == Some(t.session) && s.lastGrab == Some(t.snapshot)
  }

  function FireStep(s: State, t: Timer): State {
    if t !in s.timers || s.now < t.due then s
    else
      var awake := s.(timers := s.timers - multiset{t});
      if Matches(s, t) then Released(awake) else awake
  }

  function LockStep(s: State, op: GrabOp): State {
    if op !in s.pending || !s.phase.Idle? then s
    else s.(pending := s.pending - multiset{op}, phase := Locked(op))
  }

  function CheckStep(s: State): State {
    match s.phase
    case Locked(ApplyRunIfOwner(session, disableFirst)) =>
      s.(phase := if s.owner != Some(session) then Idle
                  else if disableFirst then MustDisable(true) else MustEnable)
    case Locked(DisableIfReleased) =>
      s.(phase := if s.owner.None? && s.lastGrab.None? then MustDisable(false) else Idle)
    case _ => s
  }

  function ActStep(s: State): State {
    match s.phase
    case MustDisable(thenEnable) => s.(osGrab := false, phase := if thenEnable then MustEnable else Idle)
    case MustEnable => s.(osGrab := true, phase := Idle)
    case _ => s
  }

  function Step(s: State, e: Event): State {
    match e
    case Tick(elapsed) => s.(now := s.now + elapsed)
    case SetRdevEnabled(on) => s.(rdevEnabled := on)
    case Run(session) => RunStep(s, session)
    case Wait(session) => WaitStep(s, session)
    case Fire(timer) => FireStep(s, timer)
    case Lock(op) => LockStep(s, op)
    case Check => CheckStep(s)
    case Act => ActStep(s)
  }

  function Exec(s: State, es: seq<Event>): State
    decreases |es|
  {
    if es == [] then s else Exec(Step(s, es[0]), es[1..])
  }

  // ---------------------------------------------------------------------------
  // Invariants
  // ---------------------------------------------------------------------------

  /** Some queued, locked or checked operation will switch the grab on for `session`. */
  ghost predicate EnablesFor(s: State, session: SessionId) {
    || ApplyRunIfOwner(session, true) in s.pending
    || ApplyRunIfOwner(session, false) in s.pending
    || (s.phase.Locked? && s.phase.op.ApplyRunIfOwner? && s.phase.op.session == session)
    || s.phase == MustDisable(true)
    || s.phase.MustEnable?
  }

  /** Some queued, locked or checked operation will switch the grab off. */
  ghost predicate Disables(s: State) {
    || DisableIfReleased in s.pending
    || s.phase == Locked(DisableIfReleased)
    || s.phase == MustDisable(false)
  }

  ghost predicate OwnershipAgrees(s: State) {
    && s.hooked == s.owner.Some? == s.lastGrab.Some?
    && (s.lastGrab.Some? ==> s.lastGrab.value <= s.now)
  }

  ghost predicate GrabFollowsOwner(s: State) {
    match s.owner
    case Some(session) => EnablesFor(s, session) || (s.osGrab && s.phase != MustDisable(false))
    case None => Disables(s) || (!s.osGrab && s.phase != MustDisable(true) && !s.phase.MustEnable?)
  }

  /** The flag is never set without a timer that will honour it. */
  ghost predicate LeaveIsScheduled(s: State) {
    s.deferredPending ==> exists t :: t in s.timers && Matches(s, t)
  }

  /** Timers wake 350 ms (and less than 351 ms) after the grab instant they remember. */
  ghost predicate TimersAreLate(s: State) {
    forall t :: t in s.timers ==>
                  && t.snapshot <= s.now
                  && t.snapshot + 350 * MILLI <= t.due < t.snapshot + 351 * MILLI
  }

  ghost predicate Inv(s: State) {
    OwnershipAgrees(s) && GrabFollowsOwner(s) && LeaveIsScheduled(s) && TimersAreLate(s)
  }

  /** No grab operation is queued or in flight. */
  ghost predicate Quiescent(s: State) {
    s.pending == multiset{} && s.phase.Idle?
  }

  // ---------------------------------------------------------------------------
  // Every step keeps the invariant
  // ---------------------------------------------------------------------------

  lemma WaitKeepsInv(s: State, session: SessionId)
    requires Inv(s)
    ensures Inv(WaitStep(s, session))
  {
    var s' := WaitStep(s, session);
    if s.rdevEnabled && s.owner == Some(session) && ElapsedMs(s) < GRAB_DEBOUNCE_MS && !s.deferredPending {
      assert ScheduledTimer(s, session) in s'.timers && Matches(s', ScheduledTimer(s, session));
    }
  }

  lemma FireKeepsInv(s: State, t: Timer)
    requires Inv(s)
    ensures Inv(FireStep(s, t))
  {
    var s' := FireStep(s, t);
    assert forall u :: u in s'.timers ==> u in s.timers;
    if s'.deferredPending && s' != s {
      var w :| w in s.timers && Matches(s, w);
      assert w in s'.timers && Matches(s', w);
    }
  }

  /** A step that keeps the flag, the owner and the timers keeps the scheduled leave. */
  lemma SameTimersKeepLeave(s: State, s': State)
    requires LeaveIsScheduled(s)
    requires s'.deferredPending ==>
               s.deferredPending && s'.owner == s.owner && s'.lastGrab == s.lastGrab && s'.timers == s.timers
    ensures LeaveIsScheduled(s')
  {
    if s'.deferredPending {
      var w :| w in s.timers && Matches(s, w);
      assert w in s'.timers && Matches(s', w);
    }
  }

  lemma RunKeepsInv(s: State, session: SessionId)
    requires Inv(s)
    ensures Inv(RunStep(s, session))
  {
    SameTimersKeepLeave(s, RunStep(s, session));
  }

  lemma LockKeepsInv(s: State, op: GrabOp)
    requires Inv(s)
    ensures Inv(LockStep(s, op))
  {
    SameTimersKeepLeave(s, LockStep(s, op));
  }

  lemma CheckKeepsInv(s: State)
    requires Inv(s)
    ensures Inv(CheckStep(s))
  {
    SameTimersKeepLeave(s, CheckStep(s));
  }

  lemma ActKeepsInv(s: State)
    requires Inv(s)
    ensures Inv(ActStep(s))
  {
    SameTimersKeepLeave(s, ActStep(s));
  }

  lemma StepKeepsInv(s: State, e: Event)
    requires Inv(s)
    ensures Inv(Step(s, e))
  {
    match e
    case Tick(_) => SameTimersKeepLeave(s, Step(s, e));
    case SetRdevEnabled(_) => SameTimersKeepLeave(s, Step(s, e));
    case Run(session) => RunKeepsInv(s, session);
    case Wait(session) => WaitKeepsInv(s, session);
    case Fire(timer) => FireKeepsInv(s, timer);
    case Lock(op) => LockKeepsInv(s, op);
    case Check => CheckKeepsInv(s);
    case Act => ActKeepsInv(s);
  }

  lemma {:induction false} ExecKeepsInv(s: State, es: seq<Event>)
    requires Inv(s)
    ensures Inv(Exec(s, es))
    decreases |es|
  {
    if es != [] {
      StepKeepsInv(s, es[0]);
      ExecKeepsInv(Step(s, es[0]), es[1..]);
    }
  }

  /** For every interleaving: once no operation is left, the OS grab is on exactly when there is an owner. */
  lemma Convergence(es: seq<Event>)
    ensures var s := Exec(Init(), es);
            && (Quiescent(s) ==> (s.osGrab <==> s.owner.Some?))
            && s.hooked == s.owner.Some? == s.lastGrab.Some?
  {
    ExecKeepsInv(Init(), es);
  }

  predicate IsGrabOp(e: Event) { e.Lock? || e.Check? || e.Act? }

  function PhaseRank(p: Phase): nat {
    match p
    case Idle => 0
    case MustEnable => 1
    case MustDisable(_) => 2
    case Locked(_) => 3
  }

  /** How many steps the operations can still take. */
  function Work(s: State): nat {
    4 * |s.pending| + PhaseRank(s.phase)
  }

  /** Only steps of grab operations, and each of them does something. */
  ghost predicate EffectiveOps(s: State, es: seq<Event>)
    decreases |es|
  {
    es != [] ==> IsGrabOp(es[0]) && Step(s, es[0]) != s && EffectiveOps(Step(s, es[0]), es[1..])
  }

  lemma EffectiveOpWorks(s: State, e: Event)
    requires IsGrabOp(e) && Step(s, e) != s
    ensures Work(Step(s, e)) < Work(s) && Step(s, e).owner == s.owner
  {
    match e
    case Lock(op) => assert |s.pending - multiset{op}| == |s.pending| - 1;
    case Check => assert Step(s, e).pending == s.pending;
    case Act => assert Step(s, e).pending == s.pending;
  }

  /** Some step of a grab operation does something, unless all of them are done. */
  lemma NextOp(s: State) returns (e: Event)
    requires !Quiescent(s)
    ensures IsGrabOp(e) && Step(s, e) != s
  {
    if s.phase.Idle? {
      var op :| op in s.pending;
      e := Lock(op);
    } else {
      e := if s.phase.Locked? then Check else Act;
    }
  }

  lemma NothingToDo(s: State, e: Event)
    requires Quiescent(s) && IsGrabOp(e)
    ensures Step(s, e) == s
  {
  }

  /**
   In whatever order the operations run, they come to an end: every sequence of their effective steps is bounded by
   the work left, leaves the owner as it is, and cannot be continued exactly when it has reached quiescence.
   */
  lemma {:induction false} OperationsDrain(s: State, es: seq<Event>)
    requires EffectiveOps(s, es)
    ensures var s' := Exec(s, es);
            && |es| + Work(s') <= Work(s) && s'.owner == s.owner
            && (Quiescent(s') <==> forall e :: IsGrabOp(e) ==> Step(s', e) == s')
    decreases |es|
  {
    if es != [] {
      EffectiveOpWorks(s, es[0]);
      OperationsDrain(Step(s, es[0]), es[1..]);
    } else if Quiescent(s) {
      forall e | IsGrabOp(e) ensures Step(s, e) == s {
        NothingToDo(s, e);
      }
    } else {
      var e := NextOp(s);
    }
  }

  /** In particular, from every state some sequence of effective steps reaches quiescence. */
  lemma {:induction false} DrainingSchedule(s: State) returns (es: seq<Event>)
    ensures EffectiveOps(s, es) && Quiescent(Exec(s, es))
    decreases Work(s)
  {
    es := [];
    if !Quiescent(s) {
      var e := NextOp(s);
      EffectiveOpWorks(s, e);
      var rest := DrainingSchedule(Step(s, e));
      es := [e] + rest;
      assert es[1..] == rest;
    }
  }

  // ---------------------------------------------------------------------------
  // A genuine leave is never lost
  // ---------------------------------------------------------------------------

  ghost predicate NoRun(es: seq<Event>) {
    forall i :: 0 <= i < |es| ==> !es[i].Run?
  }

  /** Some sleeping timer will release the present grab. */
  ghost predicate WillRelease(s: State) {
    exists t :: t in s.timers && Matches(s, t)
  }

  lemma FireKeepsMatch(s: State, u: Timer, t: Timer)
    requires t in s.timers && Matches(s, t)
    ensures var s' := FireStep(s, u); s'.owner.None? || (t in s'.timers && Matches(s', t))
  {
    if !Matches(s, u) {
      assert u != t;
    }
  }

  lemma WaitKeepsMatch(s: State, session: SessionId, t: Timer)
    requires t in s.timers && Matches(s, t)
    ensures var s' := WaitStep(s, session); s'.owner.None? || (t in s'.timers && Matches(s', t))
  {
  }

  /** A timer that matches stays, and matches, until the grab is released. */
  lemma MatchStays(s: State, e: Event, t: Timer)
    requires t in s.timers && Matches(s, t) && !e.Run?
    ensures var s' := Step(s, e); s'.owner.None? || (t in s'.timers && Matches(s', t))
  {
    if e.Fire? {
      FireKeepsMatch(s, e.timer, t);
    } else if e.Wait? {
      WaitKeepsMatch(s, e.session, t);
    }
  }

  lemma StepKeepsRelease(s: State, e: Event)
    requires (s.owner.None? || WillRelease(s)) && !e.Run?
    ensures Step(s, e).owner.None? || WillRelease(Step(s, e))
  {
    if s.owner.Some? {
      var t :| t in s.timers && Matches(s, t);
      MatchStays(s, e, t);
    }
  }

  /** Without a `Run`, a leave that is done or will be done by a timer stays so. */
  lemma {:induction false} LeaveStaysScheduled(s: State, es: seq<Event>)
    requires Inv(s) && (s.owner.None? || WillRelease(s)) && NoRun(es)
    ensures var s' := Exec(s, es); Inv(s') && (s'.owner.None? || WillRelease(s'))
    decreases |es|
  {
    if es != [] {
      assert !es[0].Run?;
      StepKeepsInv(s, es[0]);
      StepKeepsRelease(s, es[0]);
      LeaveStaysScheduled(Step(s, es[0]), es[1..]);
    }
  }

  /** What a done or scheduled leave means in one state. */
  lemma ScheduledLeaveFires(s: State)
    requires Inv(s) && (s.owner.None? || WillRelease(s))
    ensures s.timers == multiset{} ==> s.owner.None?
    ensures s.owner.Some? ==>
              && s.lastGrab.Some?
              && exists t :: t in s.timers && t.due < s.lastGrab.value + 351 * MILLI
                             && (t.due <= s.now ==> Step(s, Fire(t)).owner.None?)
  {
    if s.owner.Some? {
      var t :| t in s.timers && Matches(s, t);
      assert t.due <= s.now ==> Step(s, Fire(t)).owner.None?;
    }
  }

  /** A `Wait` that the flag lets through is carried out or scheduled. */
  lemma WaitSchedulesLeave(s: State, session: SessionId)
    requires Inv(s) && s.owner == Some(session) && (s.rdevEnabled || WillRelease(s))
    ensures var s' := Step(s, Wait(session)); Inv(s') && (s'.owner.None? || WillRelease(s'))
  {
    StepKeepsInv(s, Wait(session));
    if !s.rdevEnabled {
      assert Step(s, Wait(session)) == s;
    }
  }

  /**
   After the owner's `Wait`, with no later `Run` from anyone: nobody owns the grab once all timers have
   fired, the OS grab is then off once the operations have drained, and as long as somebody still owns it
   some sleeping timer is due within 351 ms of the grab and its firing releases the grab. The `Wait` must find the
   `rdev` flag on, or a timer that will release the grab anyway.
   */
  lemma LeaveIsNeverLost(es: seq<Event>, session: SessionId, later: seq<Event>)
    requires NoRun(later)
    requires var s := Exec(Init(), es); s.owner == Some(session) && (s.rdevEnabled || WillRelease(s))
    ensures var s' := Exec(Step(Exec(Init(), es), Wait(session)), later);
            && (s'.timers == multiset{} ==> s'.owner.None?)
            && (s'.timers == multiset{} && Quiescent(s') ==> !s'.osGrab)
            && (s'.owner.Some? ==>
                  && s'.lastGrab.Some?
                  && exists t :: t in s'.timers && t.due < s'.lastGrab.value + 351 * MILLI
                                 && (t.due <= s'.now ==> Step(s', Fire(t)).owner.None?))
  {
    var s := Exec(Init(), es);
    ExecKeepsInv(Init(), es);
    WaitSchedulesLeave(s, session);
    LeaveStaysScheduled(Step(s, Wait(session)), later);
    ScheduledLeaveFires(Exec(Step(s, Wait(session)), later));
  }

  lemma ExecTwo(s: State, a: Event, b: Event)
    ensures Exec(s, [a, b]) == Step(Step(s, a), b)
  {
    var es := [a, b];
    assert es[1..] == [b] && [b][1..] == [];
    assert Exec(Step(s, a), [b]) == Exec(Step(Step(s, a), b), []);
  }

  lemma {:induction false} ExecConcat(s: State, a: seq<Event>, b: seq<Event>)
    ensures Exec(s, a + b) == Exec(Exec(s, a), b)
    decreases |a|
  {
    if a == [] {
      assert a + b == b;
    } else {
      assert (a + b)[0] == a[0] && (a + b)[1..] == a[1..] + b;
      ExecConcat(Step(s, a[0]), a[1..], b);
    }
  }

  /** One timer that does not match sleeps out and changes nothing else. */
  lemma FireOne(s: State, t: Timer) returns (es: seq<Event>)
    requires t in s.timers && !Matches(s, t)
    ensures NoRun(es)
    ensures var s' := Exec(s, es);
            s'.owner == s.owner && s'.lastGrab == s.lastGrab && s'.timers == s.timers - multiset{t}
  {
    var elapsed: nat := if t.due <= s.now then 0 else t.due - s.now;
    es := [Tick(elapsed), Fire(t)];
    ExecTwo(s, Tick(elapsed), Fire(t));
    assert Step(s, Tick(elapsed)) == s.(now := s.now + elapsed);
  }

  /** If no timer matches, all of them can sleep out without releasing the grab. */
  lemma {:induction false} TimersSleepOut(s: State) returns (es: seq<Event>)
    requires !WillRelease(s)
    ensures NoRun(es)
    ensures var s' := Exec(s, es); s'.owner == s.owner && s'.timers == multiset{}
    decreases |s.timers|
  {
    es := [];
    if s.timers != multiset{} {
      var t :| t in s.timers;
      var first := FireOne(s, t);
      var s1 := Exec(s, first);
      assert forall u :: u in s1.timers ==> u in s.timers;
      assert |s1.timers| < |s.timers|;
      var rest := TimersSleepOut(s1);
      ExecConcat(s, first, rest);
      es := first + rest;
    }
  }

  ghost predicate GoneAtRest(s: State) {
    s.timers == multiset{} ==> s.owner.None?
  }

  /**
   An owner's leave gets through in every continuation without a `Run` exactly if its `Wait` finds the `rdev` flag on,
   or a sleeping timer that will release the grab anyway.
   */
  lemma LeaveIsNeverLostIff(es: seq<Event>, session: SessionId)
    requires Exec(Init(), es).owner == Some(session)
    ensures var s := Exec(Init(), es);
            (forall later :: NoRun(later) ==> GoneAtRest(Exec(Step(s, Wait(session)), later)))
            <==> s.rdevEnabled || WillRelease(s)
  {
    var s := Exec(Init(), es);
    if s.rdevEnabled || WillRelease(s) {
      forall later | NoRun(later) ensures GoneAtRest(Exec(Step(s, Wait(session)), later)) {
        LeaveIsNeverLost(es, session, later);
      }
    } else {
      assert Step(s, Wait(session)) == s;
      var later := TimersSleepOut(s);
      assert !GoneAtRest(Exec(s, later));
    }
  }

  /** A window that leaves while the flag is off keeps the grab for good: there is not even a timer. */
  lemma DisabledFlagLosesLeave(session: SessionId)
    ensures var es := [SetRdevEnabled(true), Run(session)] + [SetRdevEnabled(false), Wait(session)];
            var s := Exec(Init(), es);
            s.owner == Some(session) && s.timers == multiset{}
  {
    var s1 := Step(Step(Init(), SetRdevEnabled(true)), Run(session));
    ExecConcat(Init(), [SetRdevEnabled(true), Run(session)], [SetRdevEnabled(false), Wait(session)]);
    ExecTwo(Init(), SetRdevEnabled(true), Run(session));
    ExecTwo(s1, SetRdevEnabled(false), Wait(session));
    assert s1.owner == Some(session) && s1.timers == multiset{};
  }

  // ---------------------------------------------------------------------------
  // Timer safety and minimum hold
  // ---------------------------------------------------------------------------

  /** The grab, if held, was taken or refreshed at `instant` or later. */
  ghost predicate GrabbedSince(s: State, instant: int) {
    instant <= s.now && (s.lastGrab.Some? ==> instant <= s.lastGrab.value)
  }

  lemma StepGrabbedSince(s: State, e: Event, instant: int)
    requires GrabbedSince(s, instant)
    ensures GrabbedSince(Step(s, e), instant)
  {
  }

  lemma {:induction false} GrabInstantsDoNotGoBack(s: State, es: seq<Event>, instant: int)
    requires GrabbedSince(s, instant)
    ensures GrabbedSince(Exec(s, es), instant)
    decreases |es|
  {
    if es != [] {
      StepGrabbedSince(s, es[0], instant);
      GrabInstantsDoNotGoBack(Step(s, es[0]), es[1..], instant);
    }
  }

  /** Waking `t` leaves everything but the set of sleeping timers as it is. */
  ghost predicate Harmless(s: State, t: Timer) {
    var s' := Step(s, Fire(t));
    s' == s || s' == s.(timers := s.timers - multiset{t})
  }

  /**
   A timer scheduled for an earlier grab instant than a `Run` never releases anything after that `Run`,
   whoever issued it and whatever happens in between. Every timer already asleep remembers an instant no
   later than that of the `Run`, so only a clock that stood still can make the two equal.
   */
  lemma TimerNeverReleasesRefreshedGrab(es: seq<Event>, session: SessionId, later: seq<Event>, t: Timer)
    requires Exec(Init(), es).rdevEnabled
    ensures var s := Exec(Init(), es);
            var s' := Exec(Step(s, Run(session)), later);
            && (t in s.timers ==> t.snapshot <= s.now)
            && (t.snapshot < s.now ==> Harmless(s', t))
  {
    var s := Exec(Init(), es);
    ExecKeepsInv(Init(), es);
    StepKeepsInv(s, Run(session));
    GrabInstantsDoNotGoBack(Step(s, Run(session)), later, s.now);
  }

  lemma ExecThree(s: State, a: Event, b: Event, c: Event)
    ensures Exec(s, [a, b, c]) == Step(Step(Step(s, a), b), c)
  {
    var es := [a, b, c];
    assert es[1..] == [b, c] && [b, c][1..] == [c] && [c][1..] == [];
    assert Exec(Step(Step(s, a), b), [c]) == Exec(Step(Step(Step(s, a), b), c), []);
  }

  /** The strict inequality above is needed: with a clock that stood still the old timer does release. */
  lemma StoppedClockDefeatsRefresh()
    ensures var s := Exec(Init(), [SetRdevEnabled(true), Run(7), Wait(7)]);
            exists t :: t in s.timers && t.snapshot == s.now
                        && Step(Step(Step(s, Run(7)), Tick(350 * MILLI)), Fire(t)).owner.None?
  {
    var s1 := Step(Step(Init(), SetRdevEnabled(true)), Run(7));
    assert s1 == State(0, true, Some(7), Some(0), false, true, false, Idle,
                       multiset{ApplyRunIfOwner(7, false)}, multiset{});
    ExecThree(Init(), SetRdevEnabled(true), Run(7), Wait(7));
    var t := Timer(7, 0, 350 * MILLI);
    var s2 := Step(s1, Wait(7));
    assert s2 == s1.(deferredPending := true, timers := multiset{t});
    assert Step(Step(s2, Run(7)), Tick(350 * MILLI)) == s2.(deferredPending := false, now := 350 * MILLI);
    assert t in s2.timers;
  }

  lemma DueMatchIsHarmful(s: State, t: Timer)
    requires t in s.timers && t.due <= s.now && Matches(s, t)
    ensures !Harmless(s, t)
  {
    assert Step(s, Fire(t)).owner.None?;
  }

  /** The run that a stopped clock spoils: the timer's session runs at the same instant, and the timer wakes. */
  lemma StoppedClockRun(s: State, t: Timer)
    requires s.rdevEnabled && t in s.timers && t.snapshot == s.now && t.due < s.now + 351 * MILLI
    ensures !Harmless(Step(Step(s, Run(t.session)), Tick(351 * MILLI)), t)
  {
    var s1 := RunStep(s, t.session);
    assert Matches(s1, t) && s1.timers == s.timers;
    DueMatchIsHarmful(s1.(now := s1.now + 351 * MILLI), t);
  }

  /** A sleeping timer is harmless in every continuation after a `Run` exactly when the clock has moved since its grab. */
  lemma RefreshIsSafeIffClockMoved(es: seq<Event>, session: SessionId, t: Timer)
    requires Exec(Init(), es).rdevEnabled && t in Exec(Init(), es).timers
    ensures var s := Exec(Init(), es);
            (forall later :: Harmless(Exec(Step(s, Run(session)), later), t)) <==> t.snapshot < s.now
  {
    var s := Exec(Init(), es);
    ExecKeepsInv(Init(), es);
    if t.snapshot < s.now {
      forall later ensures Harmless(Exec(Step(s, Run(session)), later), t) {
        TimerNeverReleasesRefreshedGrab(es, session, later, t);
      }
    } else {
      var s1 := Step(s, Run(session));
      ExecTwo(s1, Run(t.session), Tick(351 * MILLI));
      StoppedClockRun(s1, t);
    }
  }

  ghost predicate OnlyRunsOf(es: seq<Event>, session: SessionId) {
    forall i :: 0 <= i < |es| && es[i].Run? ==> es[i].session == session
  }

  /** `session` took or refreshed the grab at `instant` or later, or the debounce time has passed. */
  ghost predicate Holds(s: State, session: SessionId, instant: int) {
    && instant <= s.now
    && (s.now < instant + GRAB_DEBOUNCE_MS * MILLI ==>
          s.owner == Some(session) && s.lastGrab.Some? && instant <= s.lastGrab.value)
  }

  lemma StepHolds(s: State, e: Event, session: SessionId, instant: int)
    requires OwnershipAgrees(s) && TimersAreLate(s) && Holds(s, session, instant)
    requires e.Run? ==> e.session == session
    ensures Holds(Step(s, e), session, instant)
  {
  }

  lemma {:induction false} HoldsUntilDebounced(s: State, es: seq<Event>, session: SessionId, instant: int)
    requires Inv(s) && OnlyRunsOf(es, session) && Holds(s, session, instant)
    ensures var s' := Exec(s, es);
            && Inv(s')
            && (s'.now < instant + GRAB_DEBOUNCE_MS * MILLI ==> s'.owner == Some(session))
    decreases |es|
  {
    if es != [] {
      StepKeepsInv(s, es[0]);
      StepHolds(s, es[0], session, instant);
      HoldsUntilDebounced(Step(s, es[0]), es[1..], session, instant);
    }
  }

  /**
   A session not displaced by another session's `Run` keeps the grab for 300 ms after its own `Run`, through
   any `Wait`s and timer wake-ups; in that time the OS grab is on whenever the operations have drained.
   */
  lemma MinimumHold(es: seq<Event>, session: SessionId, later: seq<Event>)
    requires Exec(Init(), es).rdevEnabled && OnlyRunsOf(later, session)
    ensures var s := Exec(Init(), es);
            var s' := Exec(Step(s, Run(session)), later);
            s'.now < s.now + 300 * MILLI ==>
              && s'.owner == Some(session)
              && (Quiescent(s') ==> s'.osGrab)
  {
    var s := Exec(Init(), es);
    ExecKeepsInv(Init(), es);
    StepKeepsInv(s, Run(session));
    HoldsUntilDebounced(Step(s, Run(session)), later, session, s.now);
  }

  // ---------------------------------------------------------------------------
  // What each window's calls do to the grab
  // ---------------------------------------------------------------------------

  /** A late `Wait` of a window that does not own the grab changes nothing at all. */
  lemma StaleWaitIsIgnored(s: State, session: SessionId)
    requires s.owner != Some(session)
    ensures Step(s, Wait(session)) == s
  {
  }

  /** The owner's `Wait` releases at once exactly from 300 ms after its last `Run` on; before that it only sets a timer. */
  lemma OwnersWait(es: seq<Event>, session: SessionId)
    requires var s := Exec(Init(), es); s.rdevEnabled && s.owner == Some(session)
    ensures var s := Exec(Init(), es);
            var s' := Step(s, Wait(session));
            && s.lastGrab.Some?
            && (s'.owner.None? <==> s.now >= s.lastGrab.value + 300 * MILLI)
            && (s'.owner.Some? ==> s'.owner == s.owner && s'.lastGrab == s.lastGrab && WillRelease(s'))
  {
    var s := Exec(Init(), es);
    ExecKeepsInv(Init(), es);
    WaitSchedulesLeave(s, session);
    var elapsed := s.now - s.lastGrab.value;
    assert elapsed / MILLI < GRAB_DEBOUNCE_MS <==> elapsed < GRAB_DEBOUNCE_MS * MILLI;
  }

  ghost predicate StaysIn(es: seq<Event>, session: SessionId) {
    forall i :: 0 <= i < |es| ==> es[i] != Wait(session) && (es[i].Run? ==> es[i].session == session)
  }

  /** `session` has the grab, since `instant` or later, and none of its timers remembers such an instant. */
  ghost predicate Settled(s: State, session: SessionId, instant: int) {
    && instant <= s.now && s.owner == Some(session)
    && s.lastGrab.Some? && instant <= s.lastGrab.value
    && forall t :: t in s.timers && t.session == session ==> t.snapshot < instant
  }

  lemma FireStaysSettled(s: State, t: Timer, session: SessionId, instant: int)
    requires Settled(s, session, instant)
    ensures Settled(FireStep(s, t), session, instant)
  {
    assert forall u :: u in FireStep(s, t).timers ==> u in s.timers;
  }

  lemma StepStaysSettled(s: State, e: Event, session: SessionId, instant: int)
    requires Settled(s, session, instant) && e != Wait(session) && (e.Run? ==> e.session == session)
    ensures Settled(Step(s, e), session, instant)
  {
    if e.Wait? {
      StaleWaitIsIgnored(s, e.session);
    } else if e.Fire? {
      FireStaysSettled(s, e.timer, session, instant);
    } else {
      assert Step(s, e).timers == s.timers;
    }
  }

  lemma {:induction false} ExecStaysSettled(s: State, es: seq<Event>, session: SessionId, instant: int)
    requires Settled(s, session, instant) && StaysIn(es, session)
    ensures Settled(Exec(s, es), session, instant)
    decreases |es|
  {
    if es != [] {
      StepStaysSettled(s, es[0], session, instant);
      ExecStaysSettled(Step(s, es[0]), es[1..], session, instant);
    }
  }

  /** `session` owns the grab, and the OS grab is on once the operations have drained. */
  ghost predicate Has(s: State, session: SessionId) {
    s.owner == Some(session) && (Quiescent(s) ==> s.osGrab)
  }

  lemma InsideKeepsGrab(s: State, session: SessionId, later: seq<Event>)
    requires Inv(s) && s.rdevEnabled && StaysIn(later, session)
    requires forall t :: t in s.timers && t.session == session ==> t.snapshot != s.now
    ensures Has(Exec(Step(s, Run(session)), later), session)
  {
    var s1 := Step(s, Run(session));
    StepKeepsInv(s, Run(session));
    assert Settled(s1, session, s.now);
    ExecStaysSettled(s1, later, session, s.now);
    ExecKeepsInv(s1, later);
  }

  /** The timer of an earlier `Run` at the same instant wakes and releases. */
  lemma SameInstantReleases(s: State, t: Timer)
    requires Inv(s) && s.rdevEnabled && t in s.timers && t.snapshot == s.now
    ensures Exec(Step(s, Run(t.session)), [Tick(351 * MILLI), Fire(t)]).owner.None?
  {
    var s1 := RunStep(s, t.session);
    ExecTwo(s1, Tick(351 * MILLI), Fire(t));
    assert Matches(s1, t) && s1.timers == s.timers;
  }

  /**
   After its `Run`, a window keeps the grab through every continuation in which it never waits and no other window
   runs, however much time passes and whatever the others' late `Wait`s do, exactly if no sleeping timer of its own
   remembers that very instant; the OS grab is on whenever the operations have drained.
   */
  lemma KeepsGrabWhileInside(es: seq<Event>, session: SessionId)
    requires Exec(Init(), es).rdevEnabled
    ensures var s := Exec(Init(), es);
            (forall later :: StaysIn(later, session) ==> Has(Exec(Step(s, Run(session)), later), session))
            <==> forall t :: t in s.timers && t.session == session ==> t.snapshot != s.now
  {
    var s := Exec(Init(), es);
    ExecKeepsInv(Init(), es);
    if t :| t in s.timers && t.session == session && t.snapshot == s.now {
      var later := [Tick(351 * MILLI), Fire(t)];
      SameInstantReleases(s, t);
      assert StaysIn(later, session) && !Has(Exec(Step(s, Run(session)), later), session);
    } else {
      forall later | StaysIn(later, session) ensures Has(Exec(Step(s, Run(session)), later), session) {
        InsideKeepsGrab(s, session, later);
      }
    }
  }

  // ---------------------------------------------------------------------------
  // One timer per grab
  // ---------------------------------------------------------------------------

  /** No two of the timers are for the same grab. */
  ghost predicate Apart(timers: multiset<Timer>) {
    && (forall t :: t in timers ==> timers[t] == 1)
    && (forall t, u :: t in timers && u in timers && t.session == u.session && t.snapshot == u.snapshot ==> t == u)
  }

  /** At most one timer sleeps for each grab, and for the present one only while the flag is set. */
  ghost predicate OneTimerPerGrab(s: State) {
    Apart(s.timers) && (!s.deferredPending ==> !WillRelease(s))
  }

  /** Every `Run` happens at an instant that no sleeping timer of its window remembers. */
  ghost predicate RunsAtNewInstants(s: State, es: seq<Event>)
    decreases |es|
  {
    es != [] ==>
      && (es[0].Run? ==> forall t :: t in s.timers && t.session == es[0].session ==> t.snapshot != s.now)
      && RunsAtNewInstants(Step(s, es[0]), es[1..])
  }

  lemma OneMoreApart(timers: multiset<Timer>, t: Timer)
    requires Apart(timers) && forall u :: u in timers ==> u.session != t.session || u.snapshot != t.snapshot
    ensures Apart(timers + multiset{t})
  {
  }

  lemma OneLessApart(timers: multiset<Timer>, t: Timer)
    requires Apart(timers)
    ensures Apart(timers - multiset{t})
  {
    assert forall u :: u in timers - multiset{t} ==> u in timers && (timers - multiset{t})[u] == timers[u];
  }

  lemma WaitKeepsOneTimer(s: State, session: SessionId)
    requires OneTimerPerGrab(s)
    ensures OneTimerPerGrab(WaitStep(s, session))
  {
    var s' := WaitStep(s, session);
    if s'.timers != s.timers {
      OneMoreApart(s.timers, ScheduledTimer(s, session));
    }
  }

  lemma FireKeepsOneTimer(s: State, t: Timer)
    requires OneTimerPerGrab(s)
    ensures OneTimerPerGrab(FireStep(s, t))
  {
    OneLessApart(s.timers, t);
    var s' := FireStep(s, t);
    assert forall u :: u in s'.timers && Matches(s', u) ==> u in s.timers && Matches(s, u);
  }

  lemma RunKeepsOneTimer(s: State, session: SessionId)
    requires OneTimerPerGrab(s) && forall t :: t in s.timers && t.session == session ==> t.snapshot != s.now
    ensures OneTimerPerGrab(RunStep(s, session))
  {
    assert RunStep(s, session).timers == s.timers;
  }

  lemma SameGrabKeepsOneTimer(s: State, s': State)
    requires OneTimerPerGrab(s) && s'.timers == s.timers && s'.owner == s.owner && s'.lastGrab == s.lastGrab
    requires s'.deferredPending == s.deferredPending
    ensures OneTimerPerGrab(s')
  {
    assert forall t :: Matches(s', t) == Matches(s, t);
  }

  lemma StepKeepsOneTimer(s: State, e: Event)
    requires OneTimerPerGrab(s)
    requires e.Run? ==> forall t :: t in s.timers && t.session == e.session ==> t.snapshot != s.now
    ensures OneTimerPerGrab(Step(s, e))
  {
    match e
    case Wait(session) => WaitKeepsOneTimer(s, session);
    case Fire(timer) => FireKeepsOneTimer(s, timer);
    case Run(session) => RunKeepsOneTimer(s, session);
    case Tick(_) => SameGrabKeepsOneTimer(s, Step(s, e));
    case SetRdevEnabled(_) => SameGrabKeepsOneTimer(s, Step(s, e));
    case Lock(op) => SameGrabKeepsOneTimer(s, LockStep(s, op));
    case Check => SameGrabKeepsOneTimer(s, CheckStep(s));
    case Act => SameGrabKeepsOneTimer(s, ActStep(s));
  }

  /** The flag does what it is for: however often a window waits, at most one timer thread sleeps for each grab. */
  lemma {:induction false} NoRedundantTimers(s: State, es: seq<Event>)
    requires OneTimerPerGrab(s) && RunsAtNewInstants(s, es)
    ensures OneTimerPerGrab(Exec(s, es))
    decreases |es|
  {
    if es != [] {
      StepKeepsOneTimer(s, es[0]);
      NoRedundantTimers(Step(s, es[0]), es[1..]);
    }
  }

  /** The condition is needed: a `Run` at the instant a timer of its window remembers lets the next `Wait` set another. */
  lemma SameInstantDoublesTimer(s: State, t: Timer)
    requires s.rdevEnabled && t in s.timers && t.snapshot == s.now
    ensures !OneTimerPerGrab(Step(Step(s, Run(t.session)), Wait(t.session)))
  {
    var s1 := Step(s, Run(t.session));
    var s2 := Step(s1, Wait(t.session));
    assert s1.owner == Some(t.session) && s1.lastGrab == Some(s.now) && s1.timers == s.timers && !s1.deferredPending;
    var u := ScheduledTimer(s1, t.session);
    assert s2.timers == s.timers + multiset{u} && t in s2.timers && u in s2.timers;
  }

  /** So one more `Run` and `Wait` of a window keep one timer per grab exactly at a new instant. */
  lemma OneTimerIffNewInstant(s: State, session: SessionId)
    requires OneTimerPerGrab(s) && s.rdevEnabled
    ensures OneTimerPerGrab(Step(Step(s, Run(session)), Wait(session)))
       <==> forall t :: t in s.timers && t.session == session ==> t.snapshot != s.now
  {
    if t :| t in s.timers && t.session == session && t.snapshot == s.now {
      SameInstantDoublesTimer(s, t);
    } else {
      RunKeepsOneTimer(s, session);
      WaitKeepsOneTimer(RunStep(s, session), session);
    }
  }

  // ---------------------------------------------------------------------------
  // Handing the grab over
  // ---------------------------------------------------------------------------

  lemma ExecFour(s: State, a: Event, b: Event, c: Event, d: Event)
    ensures Exec(s, [a, b, c, d]) == Step(Step(Step(Step(s, a), b), c), d)
  {
    ExecTwo(s, a, b);
    ExecTwo(Step(Step(s, a), b), c, d);
    ExecConcat(s, [a, b], [c, d]);
    assert [a, b] + [c, d] == [a, b, c, d];
  }

  /**
   A window that takes the grab over from another one first lets go of the OS grab and then takes it again; a window
   that finds nobody takes it directly.
   */
  lemma HandoffRegrabs(s: State, session: SessionId)
    requires s.rdevEnabled && s.owner != Some(session) && Quiescent(s)
    ensures var op := ApplyRunIfOwner(session, s.owner.Some?);
            var s' := Exec(s, [Run(session), Lock(op), Check, Act]);
            && s'.owner == Some(session)
            && (s.owner.Some? ==> !s'.osGrab && Step(s', Act).osGrab && Quiescent(Step(s', Act)))
            && (s.owner.None? ==> s'.osGrab && Quiescent(s'))
  {
    var op := ApplyRunIfOwner(session, s.owner.Some?);
    ExecFour(s, Run(session), Lock(op), Check, Act);
    var s1 := Step(s, Run(session));
    assert s1.pending == multiset{op};
    var s2 := Step(s1, Lock(op));
    assert s2.pending == multiset{} && s2.phase == Locked(op) && s2.owner == Some(session);
  }

  // ---------------------------------------------------------------------------
  // The code, critical section by critical section
  // ---------------------------------------------------------------------------

  class GrabController {
    var now: int
    var rdevEnabled: bool
    var owner: Option<SessionId>
    var lastGrab: Option<int>
    var deferredPending: bool
    var hooked: bool
    var osGrab: bool
    var phase: Phase
    var pending: multiset<GrabOp>
    var timers: multiset<Timer>

    ghost function View(): State
      reads this
    {
      State(now, rdevEnabled, owner, lastGrab, deferredPending, hooked, osGrab, phase, pending, timers)
    }

    constructor ()
      ensures View() == Init()
    {
      now, rdevEnabled, owner, lastGrab := 0, false, None, None;
      deferredPending, hooked, osGrab := false, false, false;
      phase, pending, timers := Idle, multiset{}, multiset{};
    }

    /** `change_grab_status(Run)`; the grab call after unlocking is queued. */
    method ChangeToRun(session: SessionId)
      modifies this`owner, this`lastGrab, this`deferredPending, this`hooked, this`pending
      ensures View() == Step(old(View()), Run(session))
    {
      if !rdevEnabled {
        return;
      }
      if owner == Some(session) {
        lastGrab := Some(now);
        deferredPending := false;
        return;
      }
      hooked := true;
      var hadOwner := owner.Some?;
      owner := Some(session);
      lastGrab := Some(now);
      deferredPending := false;
      pending := pending + multiset{ApplyRunIfOwner(session, hadOwner)};
    }

    /** What the immediate and the deferred release share; the ungrab call after unlocking is queued. */
    method ReleaseOwner()
      modifies this`owner, this`lastGrab, this`deferredPending, this`hooked, this`pending
      ensures View() == Released(old(View()))
    {
      hooked := false;
      owner := None;
      lastGrab := None;
      deferredPending := false;
      pending := pending + multiset{DisableIfReleased};
    }

    /** `change_grab_status(Wait)`: ignored, debounced into a timer, or an immediate release. */
    method ChangeToWait(session: SessionId)
      modifies this`owner, this`lastGrab, this`deferredPending, this`hooked, this`pending, this`timers
      ensures View() == WaitStep(old(View()), session)
    {
      if !rdevEnabled || owner != Some(session) {
        return;
      }
      if lastGrab.Some? {
        var elapsed := (now - lastGrab.value) / MILLI;
        if elapsed < GRAB_DEBOUNCE_MS {
          if !deferredPending {
            deferredPending := true;
            var remaining := (GRAB_DEBOUNCE_MS - elapsed) + DEFERRED_SLACK_MS;
            timers := timers + multiset{Timer(session, lastGrab.value, now + remaining * MILLI)};
          }
          return;
        }
      }
      ReleaseOwner();
    }

    /** A deferred-release thread wakes up. */
    method DeferredRelease(t: Timer)
      requires t in timers && t.due <= now
      modifies this`owner, this`lastGrab, this`deferredPending, this`hooked, this`pending, this`timers
      ensures View() == FireStep(old(View()), t)
    {
      timers := timers - multiset{t};
      if owner == Some(t.session) && lastGrab == Some(t.snapshot) {
        ReleaseOwner();
      }
    }

    /** `apply_run_grab_if_owner` / `disable_grab_if_released` up to the ownership check. */
    method LockAndCheck(op: GrabOp)
      requires op in pending && phase.Idle?
      modifies this`pending, this`phase
      ensures View() == CheckStep(LockStep(old(View()), op))
    {
      pending := pending - multiset{op};
      match op {
        case ApplyRunIfOwner(session, disableFirst) =>
          if owner != Some(session) {
            return;
          }
          phase := if disableFirst then MustDisable(true) else MustEnable;
        case DisableIfReleased =>
          var shouldDisable := owner.None? && lastGrab.None?;
          if shouldDisable {
            phase := MustDisable(false);
          }
      }
    }

    /** The `rdev` calls made after the check, with GRAB_STATE unlocked. */
    method CallRdev()
      requires (phase.MustDisable? || phase.MustEnable?)
      modifies this`osGrab, this`phase
      ensures View() == Step(old(View()), Act)
    {
      match phase {
        case MustDisable(thenEnable) =>
          osGrab := false;
          phase := if thenEnable then MustEnable else Idle;
        case MustEnable =>
          osGrab := true;
          phase := Idle;
      }
    }
  }
}
