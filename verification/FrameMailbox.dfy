/**
 The single-slot frame mailbox between the video threads and the UI windows (src/flutter.rs).
 `on_rgba_soft_render` holds its locks in sections: it stores the frame, counts the windows, notifies
 them, and takes the frame back if nobody was told. Other events may fall between the sections. There is one
 video thread per display.
 */
module FrameMailbox {
  import opened Common

  type Display = nat
  type WindowId = nat
  type Bytes = seq<Byte>

  datatype Slot = Slot(data: Bytes, valid: bool)
  datatype Window = Window(displays: seq<Display>, hasStream: bool)

  /** Where the video thread of a display is inside `on_rgba_soft_render`. */
  datatype Phase = Stored | Counted(multi: bool) | Notified(sent: bool)

  /** `told` lists the windows notified of the frame a slot holds. */
  datatype State = State(
    slots: map<Display, Slot>,
    raw: map<Display, Bytes>,
    windows: map<WindowId, Window>,
    phases: map<Display, Phase>,
    told: map<Display, set<WindowId>>)

  datatype Event =
    | Decode(display: Display, bytes: Bytes)
    | Offer(display: Display)
    | CountWindows(display: Display)
    | NotifyWindows(display: Display)
    | Finish(display: Display)
    | NextRgba(display: Display)
    | ClearSlots
    | SetWindows(windows: map<WindowId, Window>)

  function Init(): State { State(map[], map[], map[], map[], map[]) }

  predicate Full(s: State, d: Display) { d in s.slots && s.slots[d].valid }

  function Raw(s: State, d: Display): Bytes { if d in s.raw then s.raw[d] else [] }

  // ---------------------------------------------------------------------------
  // Specification of the sections
  // ---------------------------------------------------------------------------

  /** Multi-display windows use the texture renderer; of several windows only those showing the display count. */
  predicate Eligible(w: Window, d: Display, multi: bool) {
    |w.displays| <= 1 && (multi ==> d in w.displays) && w.hasStream
  }

  function Recipients(windows: map<WindowId, Window>, d: Display, multi: bool): set<WindowId> {
    set w | w in windows && Eligible(windows[w], d, multi)
  }

  /** The swap under the write lock; a full slot turns the frame away. */
  function OfferStep(s: State, d: Display): State {
    if d in s.phases || Full(s, d) then s
    else
      var former := if d in s.slots then s.slots[d].data else [];
      s.(slots := s.slots[d := Slot(Raw(s, d), true)],
      raw := s.raw[d := former],
      phases := s.phases[d := Stored],
      told := s.told[d := {}])
  }

  function NotifyStep(s: State, d: Display): State {
    if d in s.phases && s.phases[d].Counted? then
      var to := Recipients(s.windows, d, s.phases[d].multi);
      s.(phases := s.phases[d := Notified(to != {})], told := s.told[d := to])
    else s
  }

  function Emptied(slots: map<Display, Slot>, d: Display): map<Display, Slot> {
    if d in slots then slots[d := slots[d].(valid := false)] else slots
  }

  function FinishStep(s: State, d: Display): State {
    if d in s.phases && s.phases[d].Notified? then
      s.(phases := s.phases - {d}, slots := if s.phases[d].sent then s.slots else Emptied(s.slots, d))
    else s
  }

  function Step(s: State, e: Event): State {
    match e
    case Decode(d, bytes) => if d in s.phases then s else s.(raw := s.raw[d := bytes])
    case Offer(d) => OfferStep(s, d)
    case CountWindows(d) =>
      if d in s.phases && s.phases[d].Stored? then s.(phases := s.phases[d := Counted(|s.windows| > 1)]) else s
    case NotifyWindows(d) => NotifyStep(s, d)
    case Finish(d) => FinishStep(s, d)
    case NextRgba(d) => s.(slots := Emptied(s.slots, d))
    case ClearSlots => s.(slots := map[])
    case SetWindows(windows) => s.(windows := windows)
  }

  function Exec(s: State, es: seq<Event>): State
    decreases |es|
  {
    if es == [] then s else Exec(Step(s, es[0]), es[1..])
  }

  // ---------------------------------------------------------------------------
  // A full slot is never left with nobody told
  // ---------------------------------------------------------------------------

  /** Some window was notified of the frame in the slot of `d`. */
  predicate Told(s: State, d: Display) { d in s.told && s.told[d] != {} }

  ghost predicate Announced(s: State, d: Display) {
    && (Full(s, d) && d !in s.phases ==> Told(s, d))
    && (d in s.phases && s.phases[d] == Notified(true) ==> Told(s, d))
  }

  /** A step that fills no slot of `d` and leaves its delivery and its notifications alone. */
  lemma UntouchedKeepsAnnounced(s: State, s': State, d: Display)
    requires Announced(s, d) && (Full(s', d) ==> Full(s, d))
    requires (d in s'.phases <==> d in s.phases) && (d in s.phases ==> s'.phases[d] == s.phases[d])
    requires Told(s', d) <==> Told(s, d)
    ensures Announced(s', d)
  {
  }

  lemma OtherDisplayKeepsAnnounced(s: State, e: Event, d: Display)
    requires e.Offer? || e.CountWindows? || e.NotifyWindows? || e.Finish?
    requires Announced(s, d) && e.display != d
    ensures Announced(Step(s, e), d)
  {
    UntouchedKeepsAnnounced(s, Step(s, e), d);
  }

  lemma OwnDisplayKeepsAnnounced(s: State, e: Event, d: Display)
    requires e == Offer(d) || e == CountWindows(d) || e == NotifyWindows(d) || e == Finish(d)
    requires Announced(s, d)
    ensures Announced(Step(s, e), d)
  {
    assert e == Finish(d) ==> Step(s, e).told == s.told;
  }

  lemma StepKeepsAnnounced(s: State, e: Event, d: Display)
    requires Announced(s, d)
    ensures Announced(Step(s, e), d)
  {
    if e.Offer? || e.CountWindows? || e.NotifyWindows? || e.Finish? {
      if e.display == d {
        OwnDisplayKeepsAnnounced(s, e, d);
      } else {
        OtherDisplayKeepsAnnounced(s, e, d);
      }
    } else {
      UntouchedKeepsAnnounced(s, Step(s, e), d);
    }
  }

  lemma {:induction false} ExecKeepsAnnounced(s: State, es: seq<Event>, d: Display)
    requires Announced(s, d)
    ensures Announced(Exec(s, es), d)
    decreases |es|
  {
    if es != [] {
      StepKeepsAnnounced(s, es[0], d);
      ExecKeepsAnnounced(Step(s, es[0]), es[1..], d);
    }
  }

  /** For every interleaving: a slot that is full with no delivery under way has a window that was told of its frame. */
  lemma FullSlotWasAnnounced(es: seq<Event>, d: Display)
    ensures var s := Exec(Init(), es); Full(s, d) && d !in s.phases ==> Told(s, d)
  {
    ExecKeepsAnnounced(Init(), es, d);
  }

  // ---------------------------------------------------------------------------
  // The bytes handed to the UI do not move
  // ---------------------------------------------------------------------------

  /** `e` gives the slot back: the UI takes the next frame, the slots are cleared, or nobody was told. */
  ghost predicate Releases(s: State, e: Event, d: Display) {
    || e == NextRgba(d)
    || e.ClearSlots?
    || (e == Finish(d) && d in s.phases && s.phases[d] == Notified(false))
  }

  ghost predicate NeverReleased(s: State, es: seq<Event>, d: Display)
    decreases |es|
  {
    es != [] ==> !Releases(s, es[0], d) && NeverReleased(Step(s, es[0]), es[1..], d)
  }

  /**
   From the moment a slot is full until it is given back, its bytes stay the same, and a frame offered
   meanwhile changes nothing at all, neither the slot nor the video thread's own buffer.
   */
  lemma {:induction false} FullSlotKeepsBytes(s: State, es: seq<Event>, d: Display)
    requires Full(s, d) && NeverReleased(s, es, d)
    ensures var s' := Exec(s, es);
            Full(s', d) && s'.slots[d] == s.slots[d] && Step(s', Offer(d)) == s'
    decreases |es|
  {
    if es != [] {
      FullSlotKeepsBytes(Step(s, es[0]), es[1..], d);
    }
  }

  // ---------------------------------------------------------------------------
  // The code
  // ---------------------------------------------------------------------------

  /** The loop over the session handlers, in any order. */
  method NotifyAll(windows: map<WindowId, Window>, d: Display, multi: bool) returns (sent: set<WindowId>)
    ensures sent == Recipients(windows, d, multi)
  {
    sent := {};
    var todo := windows.Keys;
    while todo != {}
      invariant todo <= windows.Keys
      invariant sent == set w | w in windows && w !in todo && Eligible(windows[w], d, multi)
      decreases todo
    {
      var w :| w in todo;
      todo := todo - {w};
      if |windows[w].displays| > 1 {
        continue;
      }
      if multi && d !in windows[w].displays {
        continue;
      }
      if windows[w].hasStream {
        sent := sent + {w};
      }
    }
  }

  /** The four sections in a row. */
  function Delivered(s: State, d: Display): State {
    FinishStep(NotifyStep(Step(OfferStep(s, d), CountWindows(d)), d), d)
  }

  lemma UpdateTwice<K, V>(m: map<K, V>, k: K, v: V, w: V)
    ensures m[k := v][k := w] == m[k := w]
  {
  }

  /** Up to the last section: the frame is stored and its windows are told. */
  lemma StoredAndTold(s: State, d: Display)
    requires d !in s.phases && !Full(s, d)
    ensures var to := Recipients(s.windows, d, |s.windows| > 1);
            NotifyStep(Step(OfferStep(s, d), CountWindows(d)), d) == State(
              s.slots[d := Slot(Raw(s, d), true)],
              s.raw[d := if d in s.slots then s.slots[d].data else []],
              s.windows, s.phases[d := Notified(to != {})], s.told[d := to])
  {
    var multi := |s.windows| > 1;
    var to := Recipients(s.windows, d, multi);
    UpdateTwice(s.phases, d, Stored, Counted(multi));
    UpdateTwice(s.phases, d, Counted(multi), Notified(to != {}));
    UpdateTwice(s.told, d, {}, to);
  }

  /** A whole delivery keeps the frame only if the slot was free and some window is told. */
  lemma DeliveredCases(s: State, d: Display)
    requires d !in s.phases
    ensures Full(s, d) ==> Delivered(s, d) == s
    ensures !Full(s, d) ==>
              var to := Recipients(s.windows, d, |s.windows| > 1);
              Delivered(s, d) == State(
                s.slots[d := Slot(Raw(s, d), to != {})],
                s.raw[d := if d in s.slots then s.slots[d].data else []],
                s.windows, s.phases, s.told[d := to])
  {
    if !Full(s, d) {
      StoredAndTold(s, d);
      var to := Recipients(s.windows, d, |s.windows| > 1);
      UpdateTwice(s.slots, d, Slot(Raw(s, d), true), Slot(Raw(s, d), false));
    }
  }

  /**
   Of several windows exactly those are told that show this display and nothing else; a single window is told whatever
   display it asked for, unless it asked for several. Windows without an event stream are never told.
   */
  lemma ToldIff(windows: map<WindowId, Window>, d: Display, w: WindowId)
    requires w in windows && windows[w].hasStream
    ensures |windows| > 1 ==> (w in Recipients(windows, d, true) <==> windows[w].displays == [d])
    ensures w in Recipients(windows, d, false) <==> |windows[w].displays| <= 1
    ensures w !in Recipients(windows[w := windows[w].(hasStream := false)], d, |windows| > 1)
  {
  }

  /** A frame of a display that no window shows on its own does not block the slot: the next one is taken again. */
  lemma UnshownDisplayStaysFree(s: State, d: Display)
    requires d !in s.phases && |s.windows| > 1 && forall w :: w in s.windows ==> s.windows[w].displays != [d]
    ensures !Full(s, d) ==> !Full(Delivered(s, d), d)
  {
    DeliveredCases(s, d);
    assert Recipients(s.windows, d, true) == {};
  }

  // ---------------------------------------------------------------------------
  // A told window that goes away
  // ---------------------------------------------------------------------------

  ghost predicate NeverGivenBack(es: seq<Event>, d: Display) {
    forall i :: 0 <= i < |es| ==> es[i] != NextRgba(d) && !es[i].ClearSlots?
  }

  lemma StepStaysBlocked(s: State, e: Event, d: Display)
    requires Full(s, d) && d !in s.phases && e != NextRgba(d) && !e.ClearSlots?
    ensures Full(Step(s, e), d) && d !in Step(s, e).phases && Step(s, e).slots[d] == s.slots[d]
  {
  }

  /**
   Once a frame has been delivered, nothing but fetching the next frame or clearing the slots makes room again: not
   even closing every window that was told. Until then every frame of the display is turned away.
   */
  lemma {:induction false} BlockedUntilGivenBack(s: State, es: seq<Event>, d: Display)
    requires Full(s, d) && d !in s.phases && NeverGivenBack(es, d)
    ensures var s' := Exec(s, es);
            Full(s', d) && d !in s'.phases && s'.slots[d] == s.slots[d] && Step(s', Offer(d)) == s'
    decreases |es|
  {
    if es != [] {
      StepStaysBlocked(s, es[0], d);
      BlockedUntilGivenBack(Step(s, es[0]), es[1..], d);
    }
  }

  /**
   Inserting a window for that single display gives the slot back. The next decoded frame is then stored, the windows
   that show the display are told of it, and the old buffer is reused.
   */
  lemma ReopenedDisplay(s: State, es: seq<Event>, d: Display, windows: map<WindowId, Window>, bytes: Bytes)
    requires Full(s, d) && d !in s.phases && NeverGivenBack(es, d)
    ensures var ready := Step(Step(Step(Exec(s, es), SetWindows(windows)), NextRgba(d)), Decode(d, bytes));
            var s', to := Delivered(ready, d), Recipients(windows, d, |windows| > 1);
            && d in s'.slots && s'.slots[d] == Slot(bytes, to != {})
            && d in s'.told && s'.told[d] == to
            && Raw(s', d) == s.slots[d].data
  {
    BlockedUntilGivenBack(s, es, d);
    DeliveredCases(Step(Step(Step(Exec(s, es), SetWindows(windows)), NextRgba(d)), Decode(d, bytes)), d);
  }

  class Mailbox {
    var slots: map<Display, Slot>
    var windows: map<WindowId, Window>
    var told: map<Display, set<WindowId>>

    constructor ()
      ensures slots == map[] && windows == map[] && told == map[]
    {
      slots, windows, told := map[], map[], map[];
    }

    /** The state with the video thread of `d` outside `on_rgba_soft_render` and `bytes` in its buffer. */
    ghost function View(d: Display, bytes: Bytes): State
      reads this
    {
      State(slots, map[d := bytes], windows, map[], told)
    }

    /** `on_rgba_soft_render` run without interruption: returns the buffer for the next frame. */
    method OnRgba(d: Display, bytes: Bytes) returns (reuse: Bytes)
      modifies this`slots, this`told
      ensures View(d, reuse) == Delivered(old(View(d, bytes)), d)
    {
      DeliveredCases(View(d, bytes), d);
      reuse := bytes;
      if d in slots {
        if slots[d].valid {
          return;
        }
        reuse := slots[d].data;
      } else {
        reuse := [];
      }
      slots := slots[d := Slot(bytes, true)];
      var multi := |windows| > 1;
      var sent := NotifyAll(windows, d, multi);
      told := told[d := sent];
      if sent == {} {
        UpdateTwice(old(slots), d, Slot(bytes, true), Slot(bytes, false));
        slots := slots[d := slots[d].(valid := false)];
      }
      UpdateTwice(map[], d, bytes, reuse);
    }

    /** `next_rgba`. */
    method Next(d: Display)
      modifies this`slots
      ensures slots == Emptied(old(slots), d)
    {
      if d in slots {
        slots := slots[d := slots[d].(valid := false)];
      }
    }
  }
}
