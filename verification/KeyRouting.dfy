/**
 Which peer a key message reaches (src/keyboard.rs). `process_event` translates a key for the platform of the session
 that is current when it looks, and sends the message to the session that is current when it sends. The current
 session changes whenever the cursor enters another window. `process_event_with_session` names its session instead.
 All of this interleaves with the sections of PressedKeys. A closed session is a peer without a layout.
 */
module KeyRouting {
  import opened Common
  import opened PressedKeys

  type Peer = nat

  /** The layouts of the connected peers, and the one used when there is no session. */
  datatype World = World(layouts: map<Peer, Layout>, fallback: Layout)

  /** The session a call was made for, if it names one, and the layout it has looked up. */
  datatype Route = Route(target: Option<Peer>, via: Option<Layout>)

  datatype Net = Net(
    toRelease: set<Key>,
    modifiers: map<Key, bool>,
    threads: Threads,
    routes: map<ThreadId, Route>,
    current: Peer,
    down: map<Peer, set<nat>>)

  datatype Action =
    | Switch(peer: Peer)
    | UserInput(thread: ThreadId, input: KeyInput, target: Option<Peer>)
    | Take(thread: ThreadId, order: seq<Key>)
    | Go(thread: ThreadId)

  function Start(peer: Peer): Net {
    Net({}, Init().shared.modifiers, map[], map[], peer, map[])
  }

  // ---------------------------------------------------------------------------
  // The steps
  // ---------------------------------------------------------------------------

  /** The layout of the platform a call sees. */
  function Platform(w: World, p: Peer): Layout {
    if p in w.layouts then w.layouts[p] else w.fallback
  }

  /** The keys that can reach a peer. */
  function Effective(w: World, p: Peer): Layout {
    if p in w.layouts then w.layouts[p] else map[]
  }

  function DownAt(s: Net, p: Peer): set<nat> {
    if p in s.down then s.down[p] else {}
  }

  function RouteOf(s: Net, t: ThreadId): Route {
    if t in s.routes then s.routes[t] else Route(None, None)
  }

  /** Where a message of the thread goes now. */
  function Dest(s: Net, t: ThreadId): Peer {
    match RouteOf(s, t).target case Some(p) => p case None => s.current
  }

  /** The bookkeeping of PressedKeys, with the current peer as the peer. */
  function View(s: Net): State {
    State(Shared(s.toRelease, s.modifiers, DownAt(s, s.current)), s.threads)
  }

  function Deliver(w: World, s: Net, p: Peer, via: Option<Layout>, i: KeyInput): map<Peer, set<nat>> {
    if p in w.layouts && via.Some? && i.key in via.value then s.down[p := PeerAfter(via.value, DownAt(s, p), i)]
    else s.down
  }

  function GoStep(w: World, s: Net, t: ThreadId): Net
    requires t in s.threads
  {
    var th, r := s.threads[t], RouteOf(s, t);
    match th.next
    case Filter =>
      var reset := s.(routes := s.routes[t := r.(via := None)]);
      if IsLongPress(View(s).shared, th.input) then reset.(threads := GoOn(s.threads, t, th.rest))
      else reset.(threads := s.threads[t := th.(next := SetBit)])
    case SetBit =>
      if r.via.None? then s.(routes := s.routes[t := r.(via := Some(Platform(w, Dest(s, t))))])
      else s.(modifiers := AfterBit(View(s).shared, th.input).modifiers, threads := s.threads[t := th.(next := Track)])
    case Track =>
      s.(toRelease := AfterTrack(View(s).shared, th.input).toRelease, threads := s.threads[t := th.(next := Send)])
    case Send =>
      s.(down := Deliver(w, s, Dest(s, t), r.via, th.input), threads := GoOn(s.threads, t, th.rest))
  }

  ghost function Do(w: World, s: Net, a: Action): Net {
    match a
    case Switch(p) => s.(current := p)
    case UserInput(t, input, target) =>
      if t in s.threads then s
      else s.(threads := s.threads[t := Thread(Filter, input, [])], routes := s.routes[t := Route(target, None)])
    case Take(t, order) =>
      if t in s.threads || !Lists(order, s.toRelease) then s
      else s.(toRelease := {}, threads := GoOn(s.threads, t, AllStrokes(order)),
              routes := s.routes[t := Route(None, None)])
    case Go(t) => if t in s.threads then GoStep(w, s, t) else s
  }

  ghost function Perform(w: World, s: Net, acts: seq<Action>): Net
    decreases |acts|
  {
    if acts == [] then s else Perform(w, Do(w, s, acts[0]), acts[1..])
  }

  // ---------------------------------------------------------------------------
  // The accounts, and which runs keep them
  // ---------------------------------------------------------------------------

  /** Bits agree with TO_RELEASE, the current peer holds exactly the tracked keys, and no other peer holds any. */
  ghost predicate AllAccounted(w: World, s: Net) {
    && Accounted(Effective(w, s.current), View(s).shared)
    && forall p :: p != s.current ==> DownAt(s, p) == {}
  }

  ghost predicate RightAtRest(w: World, s: Net) {
    s.threads == map[] ==> AllAccounted(w, s)
  }

  /** No key is tracked, no thread is past the filter, and none has a release to do. */
  ghost predicate Idle(s: Net) {
    && s.toRelease == {}
    && (forall t :: t in s.threads ==> s.threads[t].next == Filter)
    && forall k :: !ReleasePending(s.threads, k)
  }

  /** A way from the current peer to another one. */
  datatype Way = Way(from: Peer, to: Peer)

  /** Opposed calls overlap only for `keys`, and calls for another peer than the current one only go such ways. */
  ghost predicate StateAllowed(s: Net, keys: set<Key>, ways: set<Way>) {
    && (forall k :: Opposed(s.threads, k) ==> k in keys)
    && (forall t :: t in s.threads && s.threads[t].next != Filter ==>
                      Dest(s, t) == s.current || Way(s.current, Dest(s, t)) in ways)
  }

  /** The current peer changes in the middle of something only along such ways. */
  ghost predicate ActionAllowed(s: Net, a: Action, ways: set<Way>) {
    a.Switch? ==> a.peer == s.current || Idle(s) || Way(s.current, a.peer) in ways
  }

  ghost predicate Allowed(w: World, s: Net, acts: seq<Action>, keys: set<Key>, ways: set<Way>)
    decreases |acts|
  {
    && StateAllowed(s, keys, ways)
    && (acts != [] ==> ActionAllowed(s, acts[0], ways) && Allowed(w, Do(w, s, acts[0]), acts[1..], keys, ways))
  }

  ghost predicate Reliable(w: World, keys: set<Key>, ways: set<Way>) {
    forall start, acts ::
      Allowed(w, Start(start), acts, keys, ways) ==> RightAtRest(w, Perform(w, Start(start), acts))
  }

  /** The modifier table or some peer knows the key. */
  ghost predicate Known(w: World, k: Key) {
    IsModifier(k) || exists p :: p in w.layouts && k in w.layouts[p]
  }

  ghost predicate AllInjective(w: World) {
    forall p :: p in w.layouts ==> Injective(w.layouts[p])
  }

  /** Some key reaches the peer. */
  predicate Speaks(w: World, p: Peer) { Effective(w, p) != map[] }

  /** Nothing can go wrong on the way: no key reaches either end, and none looked up at the one is sent to the other. */
  predicate Harmless(w: World, from: Peer, to: Peer) {
    from == to ||
    (!Speaks(w, from) && !Speaks(w, to) && (to in w.layouts ==> Platform(w, from) == map[]))
  }

  ghost predicate AllHarmless(w: World, ways: set<Way>) {
    forall way :: way in ways ==> Harmless(w, way.from, way.to)
  }

  // ---------------------------------------------------------------------------
  // The bookkeeping follows PressedKeys
  // ---------------------------------------------------------------------------

  function CoreEvent(a: Action): Event
    requires !a.Switch?
  {
    match a
    case UserInput(t, input, _) => UserKey(t, input)
    case Take(t, order) => TakeRemoteKeys(t, order)
    case Go(t) => Advance(t)
  }

  /** A call past the filter has looked up the layout of its destination, or none reaches it anyway. */
  predicate RouteOk(w: World, s: Net, t: ThreadId)
    requires t in s.threads
  {
    s.threads[t].next != Filter ==>
      && var via := RouteOf(s, t).via;
      && (s.threads[t].next != SetBit ==> via.Some?)
      && (via.Some? ==> via.value == Platform(w, Dest(s, t)) || (via.value == map[] && !Speaks(w, Dest(s, t))))
  }

  ghost predicate RoutesOk(w: World, s: Net) {
    forall t :: t in s.threads ==> RouteOk(w, s, t)
  }

  /** A call past the filter is for the current peer, or no key reaches either of the two. */
  ghost predicate Straight(w: World, s: Net) {
    forall t :: t in s.threads && s.threads[t].next != Filter ==>
                  Dest(s, t) == s.current || (!Speaks(w, Dest(s, t)) && !Speaks(w, s.current))
  }

  /** What a message does: it reaches the current peer in that peer's code, or nobody. */
  lemma SendSimulates(w: World, s: Net, t: ThreadId)
    requires RoutesOk(w, s) && Straight(w, s) && t in s.threads && s.threads[t].next == Send
    ensures var s' := GoStep(w, s, t);
            && DownAt(s', s.current) == PeerAfter(Effective(w, s.current), DownAt(s, s.current), s.threads[t].input)
            && forall p :: p != s.current ==> DownAt(s', p) == DownAt(s, p)
  {
    assert RouteOk(w, s, t);
  }

  lemma GoSimulates(w: World, s: Net, t: ThreadId)
    requires RoutesOk(w, s) && Straight(w, s) && t in s.threads
    ensures var s' := GoStep(w, s, t);
            && s'.current == s.current && (forall p :: p != s.current ==> DownAt(s', p) == DownAt(s, p))
            && (View(s') == View(s) || View(s') == AdvanceStep(Effective(w, s.current), View(s), t))
  {
    if s.threads[t].next == Send {
      SendSimulates(w, s, t);
    }
  }

  lemma DoSimulates(w: World, s: Net, a: Action)
    requires RoutesOk(w, s) && Straight(w, s) && !a.Switch?
    ensures var s' := Do(w, s, a);
            && s'.current == s.current && (forall p :: p != s.current ==> DownAt(s', p) == DownAt(s, p))
            && (View(s') == View(s) || View(s') == Step(Effective(w, s.current), View(s), CoreEvent(a)))
  {
    if a.Go? && a.thread in s.threads {
      GoSimulates(w, s, a.thread);
    }
  }

  lemma GoKeepsRoutes(w: World, s: Net, t: ThreadId)
    requires RoutesOk(w, s) && t in s.threads
    ensures RoutesOk(w, GoStep(w, s, t))
  {
    var s' := GoStep(w, s, t);
    forall u | u in s'.threads ensures RouteOk(w, s', u) {
      if u != t {
        assert u in s.threads && RouteOk(w, s, u);
        assert RouteOf(s', u) == RouteOf(s, u) && s'.threads[u] == s.threads[u];
      } else {
        assert RouteOk(w, s, t);
      }
    }
  }

  lemma BeginKeepsRoutes(w: World, s: Net, a: Action)
    requires RoutesOk(w, s) && (a.UserInput? || a.Take?)
    ensures RoutesOk(w, Do(w, s, a))
  {
    var s' := Do(w, s, a);
    forall u | u in s'.threads ensures RouteOk(w, s', u) {
      if u != a.thread || s' == s {
        assert u in s.threads && RouteOk(w, s, u);
      }
    }
  }

  // ---------------------------------------------------------------------------
  // The invariant
  // ---------------------------------------------------------------------------

  ghost predicate Elsewhere(s: Net) {
    forall p :: p != s.current ==> DownAt(s, p) == {}
  }

  ghost predicate KeysOk(w: World, s: Net, keys: set<Key>) {
    forall k :: k !in keys ==> KeyInv(Effective(w, s.current), View(s), k)
  }

  ghost predicate NetInv(w: World, s: Net, keys: set<Key>) {
    RoutesOk(w, s) && Elsewhere(s) && KnownCodes(Effective(w, s.current), View(s)) && KeysOk(w, s, keys)
  }

  lemma DoKeepsInv(w: World, s: Net, a: Action, keys: set<Key>)
    requires AllInjective(w) && NetInv(w, s, keys) && Straight(w, s) && !a.Switch?
    requires forall k :: Opposed(s.threads, k) ==> k in keys
    ensures NetInv(w, Do(w, s, a), keys)
  {
    var s', layout := Do(w, s, a), Effective(w, s.current);
    assert RoutesOk(w, s') by {
      if a.Go? {
        if a.thread in s.threads {
          GoKeepsRoutes(w, s, a.thread);
        }
      } else {
        BeginKeepsRoutes(w, s, a);
      }
    }
    DoSimulates(w, s, a);
    forall k | k !in keys ensures KeyInv(layout, View(s'), k) {
      StepKeepsInv(layout, View(s), CoreEvent(a), k);
    }
  }

  /** Nothing is down at a peer that is left in an idle moment. */
  lemma IdleIsUp(w: World, s: Net, keys: set<Key>)
    requires NetInv(w, s, keys) && Idle(s) && forall k :: k in keys ==> !Known(w, k)
    ensures DownAt(s, s.current) == {}
  {
    var layout := Effective(w, s.current);
    forall k | k in layout ensures layout[k] !in View(s).shared.peerDown {
      assert Known(w, k);
    }
    assert View(s).shared.peerDown == {};
  }

  lemma IdleSwitchKeepsKey(w: World, s: Net, p: Peer, k: Key)
    requires KeyInv(Effective(w, s.current), View(s), k) && Idle(s) && DownAt(s, p) == {}
    ensures KeyInv(Effective(w, p), View(s.(current := p)), k)
  {
    assert NobodyInCall(s.threads, k) && !ReleasePending(s.threads, k);
  }

  lemma IdleSwitchKeepsInv(w: World, s: Net, p: Peer, keys: set<Key>)
    requires NetInv(w, s, keys) && Idle(s) && p != s.current && forall k :: k in keys ==> !Known(w, k)
    ensures NetInv(w, Do(w, s, Switch(p)), keys)
  {
    var s' := Do(w, s, Switch(p));
    IdleIsUp(w, s, keys);
    assert forall q :: DownAt(s', q) == DownAt(s, q);
    forall k | k !in keys ensures KeyInv(Effective(w, p), View(s'), k) {
      IdleSwitchKeepsKey(w, s, p, k);
    }
    assert RoutesOk(w, s');
  }

  lemma HarmlessSwitchKeepsRoute(w: World, s: Net, p: Peer, t: ThreadId)
    requires t in s.threads && RouteOk(w, s, t) && Harmless(w, s.current, p)
    ensures RouteOk(w, Do(w, s, Switch(p)), t)
  {
  }

  lemma HarmlessSwitchKeepsKey(w: World, s: Net, p: Peer, k: Key)
    requires KeyInv(map[], View(s), k)
    ensures KeyInv(map[], View(s.(current := p)), k)
  {
    var s' := s.(current := p);
    if NobodyInCall(s'.threads, k) {
      assert NobodyInCall(s.threads, k);
    }
  }

  lemma HarmlessSwitchKeepsInv(w: World, s: Net, p: Peer, keys: set<Key>)
    requires NetInv(w, s, keys) && p != s.current && Harmless(w, s.current, p)
    ensures NetInv(w, Do(w, s, Switch(p)), keys)
  {
    var s' := Do(w, s, Switch(p));
    assert Effective(w, s.current) == map[] && Effective(w, p) == map[];
    assert View(s).shared.peerDown == {};
    assert forall q :: DownAt(s', q) == DownAt(s, q);
    forall t | t in s'.threads ensures RouteOk(w, s', t) {
      HarmlessSwitchKeepsRoute(w, s, p, t);
    }
    forall k | k !in keys ensures KeyInv(map[], View(s'), k) {
      HarmlessSwitchKeepsKey(w, s, p, k);
    }
  }

  lemma StepKeepsNetInv(w: World, s: Net, a: Action, keys: set<Key>, ways: set<Way>)
    requires AllInjective(w) && AllHarmless(w, ways) && forall k :: k in keys ==> !Known(w, k)
    requires NetInv(w, s, keys) && StateAllowed(s, keys, ways) && ActionAllowed(s, a, ways)
    ensures NetInv(w, Do(w, s, a), keys)
  {
    if !a.Switch? {
      DoKeepsInv(w, s, a, keys);
    } else if a.peer == s.current {
      assert Do(w, s, a) == s;
    } else if Idle(s) {
      IdleSwitchKeepsInv(w, s, a.peer, keys);
    } else {
      assert Harmless(w, Way(s.current, a.peer).from, Way(s.current, a.peer).to);
      HarmlessSwitchKeepsInv(w, s, a.peer, keys);
    }
  }

  lemma {:induction false} PerformKeepsInv(w: World, s: Net, acts: seq<Action>, keys: set<Key>, ways: set<Way>)
    requires AllInjective(w) && AllHarmless(w, ways) && forall k :: k in keys ==> !Known(w, k)
    requires NetInv(w, s, keys) && Allowed(w, s, acts, keys, ways)
    ensures NetInv(w, Perform(w, s, acts), keys)
    decreases |acts|
  {
    if acts != [] {
      StepKeepsNetInv(w, s, acts[0], keys, ways);
      PerformKeepsInv(w, Do(w, s, acts[0]), acts[1..], keys, ways);
    }
  }

  lemma RestIsRight(w: World, s: Net, keys: set<Key>)
    requires NetInv(w, s, keys) && s.threads == map[] && forall k :: k in keys ==> !Known(w, k)
    ensures AllAccounted(w, s)
  {
    var layout := Effective(w, s.current);
    forall k | Relevant(layout, k) ensures KeyInv(layout, View(s), k) {
      assert Known(w, k);
    }
    RestIsAccounted(layout, View(s));
  }

  /**
   For every interleaving of the sections of user keys, releases and session changes on any number of threads: if the
   layouts are injective, opposed calls overlap only for keys nobody knows, and the current peer changes only in idle
   moments or harmlessly, then whenever no thread is active each modifier bit equals membership in TO_RELEASE, the
   current peer holds exactly the tracked keys, and no other peer holds any.
   */
  lemma PressedKeysAccounted(w: World, start: Peer, acts: seq<Action>, keys: set<Key>, ways: set<Way>)
    requires AllInjective(w) && AllHarmless(w, ways) && forall k :: k in keys ==> !Known(w, k)
    requires Allowed(w, Start(start), acts, keys, ways)
    ensures RightAtRest(w, Perform(w, Start(start), acts))
  {
    PerformKeepsInv(w, Start(start), acts, keys, ways);
    var s := Perform(w, Start(start), acts);
    if s.threads == map[] {
      RestIsRight(w, s, keys);
    }
  }

  // ---------------------------------------------------------------------------
  // Runs that spoil the accounts
  // ---------------------------------------------------------------------------

  lemma {:induction false} PerformConcat(w: World, s: Net, a: seq<Action>, b: seq<Action>)
    ensures Perform(w, s, a + b) == Perform(w, Perform(w, s, a), b)
    decreases |a|
  {
    if a == [] {
      assert a + b == b;
    } else {
      assert (a + b)[0] == a[0] && (a + b)[1..] == a[1..] + b;
      PerformConcat(w, Do(w, s, a[0]), a[1..], b);
    }
  }

  lemma {:induction false} AllowedConcat(w: World, s: Net, a: seq<Action>, b: seq<Action>, keys: set<Key>, ways: set<Way>)
    requires Allowed(w, s, a, keys, ways) && Allowed(w, Perform(w, s, a), b, keys, ways)
    ensures Allowed(w, s, a + b, keys, ways)
    decreases |a|
  {
    if a == [] {
      assert a + b == b;
    } else {
      assert (a + b)[0] == a[0] && (a + b)[1..] == a[1..] + b;
      AllowedConcat(w, Do(w, s, a[0]), a[1..], b, keys, ways);
    }
  }

  lemma {:induction false} AllowedMono(w: World, s: Net, acts: seq<Action>, keys: set<Key>, ways: set<Way>,
                                       keys': set<Key>, ways': set<Way>)
    requires Allowed(w, s, acts, keys, ways) && keys <= keys' && ways <= ways'
    ensures Allowed(w, s, acts, keys', ways')
    decreases |acts|
  {
    if acts != [] {
      AllowedMono(w, Do(w, s, acts[0]), acts[1..], keys, ways, keys', ways');
    }
  }

  /** Every call is for the current peer. */
  ghost predicate Untargeted(s: Net) {
    forall t :: RouteOf(s, t).target == None
  }

  /** The same moment, up to the peers that are not current. */
  ghost predicate Undisturbed(w: World, s: Net, s': Net) {
    && s'.current == s.current && RoutesOk(w, s') && Untargeted(s')
    && forall p :: p != s.current ==> DownAt(s', p) == DownAt(s, p)
  }

  function ActionOf(e: Event): Action {
    match e
    case UserKey(t, input) => UserInput(t, input, None)
    case TakeRemoteKeys(t, order) => Take(t, order)
    case Advance(t) => Go(t)
  }

  /** The thread is about to look up its layout. */
  predicate LooksUp(s: Net, e: Event) {
    e.Advance? && e.thread in s.threads && s.threads[e.thread].next == SetBit && RouteOf(s, e.thread).via.None?
  }

  lemma DoKeepsUntargeted(w: World, s: Net, a: Action)
    requires Untargeted(s) && (a.UserInput? ==> a.target == None)
    ensures Untargeted(Do(w, s, a))
  {
    var s' := Do(w, s, a);
    forall t ensures RouteOf(s', t).target == None {
      assert RouteOf(s, t).target == None;
    }
  }

  lemma LookUpStep(w: World, s: Net, e: Event)
    requires RoutesOk(w, s) && Untargeted(s) && LooksUp(s, e)
    ensures var s' := Do(w, s, ActionOf(e));
            View(s') == View(s) && s'.threads == s.threads && Undisturbed(w, s, s') && !LooksUp(s', e)
  {
    GoKeepsRoutes(w, s, e.thread);
    DoKeepsUntargeted(w, s, ActionOf(e));
  }

  lemma LiftOne(w: World, s: Net, e: Event)
    requires RoutesOk(w, s) && Untargeted(s) && !LooksUp(s, e)
    ensures var s' := Do(w, s, ActionOf(e));
            View(s') == Step(Effective(w, s.current), View(s), e) && Undisturbed(w, s, s')
  {
    DoKeepsUntargeted(w, s, ActionOf(e));
    if e.Advance? {
      if e.thread in s.threads {
        GoKeepsRoutes(w, s, e.thread);
        if s.threads[e.thread].next == Send {
          SendSimulates(w, s, e.thread);
        }
      }
    } else {
      BeginKeepsRoutes(w, s, ActionOf(e));
    }
  }

  ghost predicate OverlapsOnlyHere(threads: Threads, keys: set<Key>) {
    forall k :: Opposed(threads, k) ==> k in keys
  }

  /** Every step of PressedKeys is a step or two here. */
  lemma LiftStep(w: World, s: Net, e: Event, keys: set<Key>) returns (acts: seq<Action>)
    requires RoutesOk(w, s) && Untargeted(s) && OverlapsOnlyHere(s.threads, keys)
    requires OverlapsOnlyHere(Step(Effective(w, s.current), View(s), e).threads, keys)
    ensures var s' := Perform(w, s, acts);
            View(s') == Step(Effective(w, s.current), View(s), e) && Undisturbed(w, s, s')
    ensures Allowed(w, s, acts, keys, {})
  {
    var a := ActionOf(e);
    if LooksUp(s, e) {
      LookUpStep(w, s, e);
      var s1 := Do(w, s, a);
      LiftOne(w, s1, e);
      PerformConcat(w, s, [a], [a]);
      AllowedConcat(w, s, [a], [a], keys, {});
      acts := [a] + [a];
    } else {
      LiftOne(w, s, e);
      acts := [a];
    }
  }

  /** Every run of PressedKeys is a run here during which the current peer does not change. */
  lemma {:induction false} LiftRun(w: World, s: Net, es: seq<Event>, keys: set<Key>) returns (acts: seq<Action>)
    requires RoutesOk(w, s) && Untargeted(s) && OverlapsOnly(Effective(w, s.current), View(s), es, keys)
    ensures var s' := Perform(w, s, acts);
            View(s') == Exec(Effective(w, s.current), View(s), es) && Undisturbed(w, s, s')
    ensures Allowed(w, s, acts, keys, {})
    decreases |es|
  {
    acts := [];
    if es != [] {
      var first := LiftStep(w, s, es[0], keys);
      var s1 := Perform(w, s, first);
      var rest := LiftRun(w, s1, es[1..], keys);
      PerformConcat(w, s, first, rest);
      AllowedConcat(w, s, first, rest, keys, {});
      acts := first + rest;
    }
  }

  /** So a run of PressedKeys that spoils the accounts is one here, too. */
  lemma LiftFailure(w: World, p: Peer, es: seq<Event>, few: set<Key>, keys: set<Key>, ways: set<Way>)
    requires OverlapsOnly(Effective(w, p), Init(), es, few) && few <= keys
    requires !AccountedAtRest(Effective(w, p), Exec(Effective(w, p), Init(), es))
    ensures !Reliable(w, keys, ways)
  {
    var s := Start(p);
    assert View(s) == Init();
    var acts := LiftRun(w, s, es, few);
    AllowedMono(w, s, acts, few, {}, keys, ways);
    assert !RightAtRest(w, Perform(w, s, acts));
  }

  /** The user's key, handled without interruption for the current peer. */
  lemma Handle(w: World, s: Net, i: KeyInput) returns (acts: seq<Action>)
    requires RoutesOk(w, s) && Untargeted(s) && s.threads == map[]
    ensures var s' := Perform(w, s, acts);
            && View(s') == State(Process(Effective(w, s.current), View(s).shared, i), map[])
            && Undisturbed(w, s, s')
    ensures Allowed(w, s, acts, {}, {})
  {
    var layout := Effective(w, s.current);
    OnlyAdvances(0, 4);
    OneThreadNeverOverlaps(layout, View(s), Begin(0, i, 4), 0);
    acts := LiftRun(w, s, Begin(0, i, 4), {});
    WholeCall(layout, View(s), 0, i);
  }

  /** One key is handled at `p`, and then `q` becomes current. */
  lemma HandleThenSwitch(w: World, p: Peer, q: Peer, i: KeyInput) returns (acts: seq<Action>)
    ensures var s := Perform(w, Start(p), acts);
            && s.current == q && s.threads == map[] && RoutesOk(w, s) && Untargeted(s)
            && s.toRelease == Process(Effective(w, p), Init().shared, i).toRelease
            && s.modifiers == Process(Effective(w, p), Init().shared, i).modifiers
            && DownAt(s, p) == Process(Effective(w, p), Init().shared, i).peerDown
            && forall r :: r != p ==> DownAt(s, r) == {}
    ensures Allowed(w, Start(p), acts, {}, {Way(p, q)})
  {
    var s0 := Start(p);
    assert View(s0) == Init();
    var first := Handle(w, s0, i);
    var s1 := Perform(w, s0, first);
    DoKeepsUntargeted(w, s1, Switch(q));
    assert forall r :: DownAt(Do(w, s1, Switch(q)), r) == DownAt(s1, r);
    AllowedMono(w, s0, first, {}, {}, {}, {Way(p, q)});
    AllowedConcat(w, s0, first, [Switch(q)], {}, {Way(p, q)});
    PerformConcat(w, s0, first, [Switch(q)]);
    acts := first + [Switch(q)];
  }

  /**
   A key is pressed at one peer and released after the cursor has entered another one's window: the release goes to
   the second peer, and the first one holds the key although nothing is tracked any more.
   */
  lemma SwitchStrandsKey(w: World, p: Peer, q: Peer, k: Key) returns (acts: seq<Action>)
    requires p != q && k in Effective(w, p)
    ensures var s := Perform(w, Start(p), acts);
            s.threads == map[] && s.toRelease == {} && DownAt(s, p) == {Effective(w, p)[k]}
    ensures Allowed(w, Start(p), acts, {}, {Way(p, q)})
  {
    var first := HandleThenSwitch(w, p, q, Press(k));
    var s1 := Perform(w, Start(p), first);
    var second := Handle(w, s1, Release(k));
    AllowedMono(w, s1, second, {}, {}, {}, {Way(p, q)});
    AllowedConcat(w, Start(p), first, second, {}, {Way(p, q)});
    PerformConcat(w, Start(p), first, second);
    acts := first + second;
  }

  /** A switch between two peers one of which some key reaches. */
  lemma BusySwitchFails(w: World, p: Peer, q: Peer) returns (acts: seq<Action>)
    requires p != q && (Speaks(w, p) || Speaks(w, q))
    ensures Allowed(w, Start(p), acts, {}, {Way(p, q)}) && !RightAtRest(w, Perform(w, Start(p), acts))
  {
    var at := if Speaks(w, p) then p else q;
    var k :| k in Effective(w, at);
    acts := HandleThenSwitch(w, p, q, Press(k));
    var s := Perform(w, Start(p), acts);
    assert s.toRelease == {k};
    if at == p {
      assert Effective(w, p)[k] in DownAt(s, p);
    } else {
      assert Effective(w, q)[k] in Codes(Effective(w, q), s.toRelease);
    }
  }

  /** A run given by its states. */
  lemma {:induction false} PerformRun(w: World, s: Net, acts: seq<Action>, states: seq<Net>, keys: set<Key>, ways: set<Way>)
    requires |states| == |acts| + 1 && states[0] == s
    requires forall i :: 0 <= i < |acts| ==>
                           Do(w, states[i], acts[i]) == states[i + 1] && ActionAllowed(states[i], acts[i], ways)
    requires forall i :: 0 <= i < |states| ==> StateAllowed(states[i], keys, ways)
    ensures Perform(w, s, acts) == states[|acts|] && Allowed(w, s, acts, keys, ways)
    decreases |acts|
  {
    if acts != [] {
      PerformRun(w, states[1], acts[1..], states[1..], keys, ways);
    }
  }

  /** A press without a session looks up the fallback layout, and then `q` becomes current. */
  function StaleLookUp(k: Key, q: Peer): seq<Action> {
    [UserInput(0, Press(k), None), Go(0), Go(0), Switch(q)]
  }

  /** The press is at this section, with the fallback layout looked up. */
  function StaleCall(w: World, next: Section, k: Key): Net {
    Start(0).(threads := map[0 := Thread(next, Press(k), [])], routes := map[0 := Route(None, Some(w.fallback))])
  }

  lemma StaleLookUpState(w: World, p: Peer, q: Peer, k: Key)
    requires p !in w.layouts
    ensures Perform(w, Start(p), StaleLookUp(k, q)) == StaleCall(w, SetBit, k).(current := q)
    ensures Allowed(w, Start(p), StaleLookUp(k, q), {}, {Way(p, q)})
  {
    var run, s0 := StaleLookUp(k, q), Start(p);
    var threads, routes := map[0 := Thread(Filter, Press(k), [])], map[0 := Route(None, None)];
    var s1 := s0.(threads := threads, routes := routes);
    var s2 := s1.(threads := map[0 := Thread(SetBit, Press(k), [])]);
    var s3 := StaleCall(w, SetBit, k).(current := p);
    var s4 := StaleCall(w, SetBit, k).(current := q);
    assert Do(w, s0, run[0]) == s1;
    assert Do(w, s1, run[1]) == s2;
    assert Do(w, s2, run[2]) == s3;
    PerformRun(w, s0, run, [s0, s1, s2, s3, s4], {}, {Way(p, q)});
  }

  /** The press is about to be sent with the fallback layout. */
  ghost predicate StaleSend(w: World, s: Net, q: Peer, k: Key) {
    && s.threads == map[0 := Thread(Send, Press(k), [])] && s.routes == map[0 := Route(None, Some(w.fallback))]
    && s.current == q && s.down == map[]
  }

  lemma StaleTrackState(w: World, q: Peer, k: Key, ways: set<Way>)
    ensures StaleSend(w, Perform(w, StaleCall(w, SetBit, k).(current := q), [Go(0), Go(0)]), q, k)
    ensures Allowed(w, StaleCall(w, SetBit, k).(current := q), [Go(0), Go(0)], {}, ways)
  {
    var s4 := StaleCall(w, SetBit, k).(current := q);
    var s5 := Do(w, s4, Go(0));
    assert s5.threads == map[0 := Thread(Track, Press(k), [])] && s5.routes == s4.routes;
    var s6 := Do(w, s5, Go(0));
    assert StaleSend(w, s6, q, k);
    PerformRun(w, s4, [Go(0), Go(0)], [s4, s5, s6], {}, ways);
  }

  lemma StaleSendState(w: World, s: Net, q: Peer, k: Key, ways: set<Way>)
    requires StaleSend(w, s, q, k) && q in w.layouts && k in w.fallback
    ensures var s' := Perform(w, s, [Go(0)]);
            s'.threads == map[] && s'.current == q && w.fallback[k] in DownAt(s', q)
    ensures Allowed(w, s, [Go(0)], {}, ways)
  {
  }

  lemma StaleRun(w: World, p: Peer, q: Peer, k: Key) returns (acts: seq<Action>)
    requires p !in w.layouts && q in w.layouts && w.layouts[q] == map[] && k in w.fallback
    ensures Allowed(w, Start(p), acts, {}, {Way(p, q)}) && !RightAtRest(w, Perform(w, Start(p), acts))
  {
    var s4 := StaleCall(w, SetBit, k).(current := q);
    var s6 := Perform(w, s4, [Go(0), Go(0)]);
    StaleLookUpState(w, p, q, k);
    StaleTrackState(w, q, k, {Way(p, q)});
    StaleSendState(w, s6, q, k, {Way(p, q)});
    PerformConcat(w, s4, [Go(0), Go(0)], [Go(0)]);
    AllowedConcat(w, s4, [Go(0), Go(0)], [Go(0)], {}, {Way(p, q)});
    acts := StaleLookUp(k, q) + ([Go(0), Go(0)] + [Go(0)]);
    PerformConcat(w, Start(p), StaleLookUp(k, q), [Go(0), Go(0)] + [Go(0)]);
    AllowedConcat(w, Start(p), StaleLookUp(k, q), [Go(0), Go(0)] + [Go(0)], {}, {Way(p, q)});
    var s := Perform(w, Start(p), acts);
    assert Effective(w, q) == map[] && w.fallback[k] in View(s).shared.peerDown;
  }

  lemma HarmfulWayFails(w: World, p: Peer, q: Peer) returns (acts: seq<Action>)
    requires !Harmless(w, p, q)
    ensures Allowed(w, Start(p), acts, {}, {Way(p, q)}) && !RightAtRest(w, Perform(w, Start(p), acts))
  {
    if Speaks(w, p) || Speaks(w, q) {
      acts := BusySwitchFails(w, p, q);
    } else {
      var k :| k in w.fallback;
      acts := StaleRun(w, p, q, k);
    }
  }

  lemma KnownKeyFails(w: World, k: Key, keys: set<Key>, ways: set<Way>)
    requires k in keys && Known(w, k)
    ensures !Reliable(w, keys, ways)
  {
    var p: Peer := 0;
    if !IsModifier(k) {
      p :| p in w.layouts && k in w.layouts[p];
    }
    var es := OverlapLosesAccount(Effective(w, p), k);
    LiftFailure(w, p, es, {k}, keys, ways);
  }

  /**
   The accounts are right at rest in every run exactly when no layout gives two keys one code, a press and a release
   overlap at most for keys that neither a peer nor the modifier table knows, and the current peer changes in idle
   moments only, except between peers that no key reaches.
   */
  lemma AccountedIff(w: World, keys: set<Key>, ways: set<Way>)
    ensures Reliable(w, keys, ways) <==>
            AllInjective(w) && (forall k :: k in keys ==> !Known(w, k)) && AllHarmless(w, ways)
  {
    if !AllInjective(w) {
      var p :| p in w.layouts && !Injective(w.layouts[p]);
      var layout := w.layouts[p];
      var k, l :| k in layout && l in layout && layout[k] == layout[l] && k != l;
      var es := SharedCodeLosesAccount(layout, k, l);
      LiftFailure(w, p, es, {}, keys, ways);
    } else if k :| k in keys && Known(w, k) {
      KnownKeyFails(w, k, keys, ways);
    } else if way :| way in ways && !Harmless(w, way.from, way.to) {
      var acts := HarmfulWayFails(w, way.from, way.to);
      assert Way(way.from, way.to) == way;
      AllowedMono(w, Start(way.from), acts, {}, {way}, keys, ways);
    } else {
      forall start, acts | Allowed(w, Start(start), acts, keys, ways)
        ensures RightAtRest(w, Perform(w, Start(start), acts))
      {
        PressedKeysAccounted(w, start, acts, keys, ways);
      }
    }
  }

  // ---------------------------------------------------------------------------
  // Where calls send to
  // ---------------------------------------------------------------------------

  /** No action begins a call on this thread. */
  ghost predicate LeavesThread(acts: seq<Action>, t: ThreadId) {
    forall i :: 0 <= i < |acts| && (acts[i].UserInput? || acts[i].Take?) ==> acts[i].thread != t
  }

  lemma StepKeepsTarget(w: World, s: Net, a: Action, t: ThreadId)
    requires a.UserInput? || a.Take? ==> a.thread != t
    ensures RouteOf(Do(w, s, a), t).target == RouteOf(s, t).target
  {
  }

  lemma {:induction false} RunKeepsTarget(w: World, s: Net, acts: seq<Action>, t: ThreadId)
    requires LeavesThread(acts, t)
    ensures RouteOf(Perform(w, s, acts), t).target == RouteOf(s, t).target
    decreases |acts|
  {
    if acts != [] {
      StepKeepsTarget(w, s, acts[0], t);
      RunKeepsTarget(w, Do(w, s, acts[0]), acts[1..], t);
    }
  }

  /** A release sends each message to the session that is current when it is sent, whatever that is by then. */
  lemma ReleaseFollowsCurrent(w: World, s: Net, t: ThreadId, order: seq<Key>, acts: seq<Action>)
    requires t !in s.threads && Lists(order, s.toRelease) && LeavesThread(acts, t)
    ensures var s' := Perform(w, Do(w, s, Take(t, order)), acts); Dest(s', t) == s'.current
  {
    RunKeepsTarget(w, Do(w, s, Take(t, order)), acts, t);
  }

  /** A user's key is sent to the session it names, or else to the one that is current when it is sent. */
  lemma KeyFollowsTarget(w: World, s: Net, t: ThreadId, i: KeyInput, target: Option<Peer>, acts: seq<Action>)
    requires t !in s.threads && LeavesThread(acts, t)
    ensures var s' := Perform(w, Do(w, s, UserInput(t, i, target)), acts);
            Dest(s', t) == if target.Some? then target.value else s'.current
  {
    RunKeepsTarget(w, Do(w, s, UserInput(t, i, target)), acts, t);
  }

  // ---------------------------------------------------------------------------
  // After a release
  // ---------------------------------------------------------------------------

  function UserPressOf(a: Action): set<Key> {
    if a.UserInput? && a.input.Press? then {a.input.key} else {}
  }

  function UserPresses(acts: seq<Action>): set<Key> {
    if acts == [] then {}
    else UserPressOf(acts[0]) + UserPresses(acts[1..])
  }

  /** The bookkeeping alone. */
  function Bare(s: Net): State {
    State(Shared(s.toRelease, s.modifiers, {}), s.threads)
  }

  /** Whatever the peers are, the bookkeeping takes the steps of PressedKeys. */
  lemma BareStep(w: World, s: Net, a: Action)
    ensures Bare(Do(w, s, a)) == Bare(s) || (!a.Switch? && Bare(Do(w, s, a)) == Step(map[], Bare(s), CoreEvent(a)))
  {
  }

  lemma {:induction false} PerformHoldsOnly(w: World, s: Net, acts: seq<Action>, allowed: set<Key>)
    requires HoldsOnly(Bare(s), allowed)
    ensures HoldsOnly(Bare(Perform(w, s, acts)), allowed + UserPresses(acts))
    decreases |acts|
  {
    if acts == [] {
      assert allowed + UserPresses(acts) == allowed;
    } else {
      var a, more := acts[0], allowed + UserPressOf(acts[0]);
      BareStep(w, s, a);
      HoldsOnlyMono(Bare(s), allowed, more);
      if !a.Switch? {
        StepHoldsOnly(map[], Bare(s), CoreEvent(a), allowed);
        assert UserPress(CoreEvent(a)) == UserPressOf(a);
      }
      PerformHoldsOnly(w, Do(w, s, a), acts[1..], more);
      assert more + UserPresses(acts[1..]) == allowed + UserPresses(acts);
    }
  }

  lemma {:induction false} PerformKeepsThreads(w: World, s: Net, acts: seq<Action>)
    requires WellFormedThreads(s.threads)
    ensures WellFormedThreads(Perform(w, s, acts).threads)
    decreases |acts|
  {
    if acts != [] {
      BareStep(w, s, acts[0]);
      if !acts[0].Switch? {
        StepKeepsThreads(map[], Bare(s), CoreEvent(acts[0]));
      }
      PerformKeepsThreads(w, Do(w, s, acts[0]), acts[1..]);
    }
  }

  /**
   After a release takes the map, and whatever users, other releases and session changes do while its loop runs,
   section by section and in any order: once no thread is active, TO_RELEASE holds only keys that were pressed since
   then, or whose press was under way. This needs no condition on overlaps or on the current peer.
   */
  lemma ReleaseLeavesOnlyNewPresses(w: World, start: Peer, acts: seq<Action>, t: ThreadId, order: seq<Key>, later: seq<Action>)
    requires var s := Perform(w, Start(start), acts); t !in s.threads && Lists(order, s.toRelease)
    ensures var s := Perform(w, Start(start), acts);
            var s' := Perform(w, Do(w, s, Take(t, order)), later);
            s'.threads == map[] ==> s'.toRelease <= PressesUnderWay(s.threads) + UserPresses(later)
  {
    var s := Perform(w, Start(start), acts);
    var allowed := PressesUnderWay(s.threads);
    PerformKeepsThreads(w, Start(start), acts);
    forall u | u in s.threads ensures ThreadClosed(s.threads[u], allowed) {
      WellFormedIsClosed(s.threads, u);
    }
    TakeHoldsOnly(map[], Bare(s), t, order, allowed);
    var s1 := Do(w, s, Take(t, order));
    assert Bare(s1) == Step(map[], Bare(s), TakeRemoteKeys(t, order));
    PerformHoldsOnly(w, s1, later, allowed);
    var s' := Perform(w, s1, later);
    if s'.threads == map[] {
      assert forall k :: !ReleasePending(s'.threads, k);
    }
  }

  /**
   The same for the peers and the modifier table, in runs that keep the accounts: only those keys are down, only on
   the current peer, and only their bits are set.
   */
  lemma ReleasedEverywhere(w: World, start: Peer, acts: seq<Action>, t: ThreadId, order: seq<Key>, later: seq<Action>,
                           keys: set<Key>, ways: set<Way>)
    requires var s := Perform(w, Start(start), acts); t !in s.threads && Lists(order, s.toRelease)
    requires AllInjective(w) && AllHarmless(w, ways) && forall k :: k in keys ==> !Known(w, k)
    requires Allowed(w, Start(start), acts + ([Take(t, order)] + later), keys, ways)
    ensures var s := Perform(w, Start(start), acts);
            var s' := Perform(w, Do(w, s, Take(t, order)), later);
            var pressed := PressesUnderWay(s.threads) + UserPresses(later);
            s'.threads == map[] ==>
              && (forall p :: DownAt(s', p) <= if p == s'.current then Codes(Effective(w, p), pressed) else {})
              && FullTable(s'.modifiers)
              && forall k :: IsModifier(k) && s'.modifiers[k] ==> k in pressed
  {
    var s := Perform(w, Start(start), acts);
    var take := [Take(t, order)];
    PerformConcat(w, Start(start), acts, take + later);
    PerformConcat(w, s, take, later);
    PressedKeysAccounted(w, start, acts + (take + later), keys, ways);
    ReleaseLeavesOnlyNewPresses(w, start, acts, t, order, later);
  }
}
