/**
 The decode-failure counter of `VideoHandler` and the unsupported-codec check of the video threads
 (src/client.rs). One thread per display shares the list of unsupported codecs.
 */
module DecoderFailures {
  import opened Common

  const MAX_DECODE_FAIL_COUNTER := 3
  const USIZE_MAX := 0xFFFF_FFFF_FFFF_FFFF

  datatype Format = Unknown | VP8 | VP9 | AV1 | H264 | H265

  /** A frame without payload reports the format Unknown and decodes nothing. */
  datatype Frame = Payload(codec: Format, decoded: bool) | NoPayload

  datatype Event = Received(frame: Frame) | Reset

  datatype Handler = Handler(format: Format, failCounter: nat, firstFrame: bool)

  function FormatOf(f: Frame): Format {
    if f.Payload? then f.codec else Unknown
  }

  // ---------------------------------------------------------------------------
  // What happened since the last reset
  // ---------------------------------------------------------------------------

  /** The current codec, and whether each payload since the last reset decoded. */
  datatype History = History(format: Format, decoded: seq<bool>)

  function HistoryStep(h: History, e: Event): History {
    match e
    case Reset => History(h.format, [])
    case Received(f) =>
      var kept := if FormatOf(f) == h.format then h.decoded else [];
      History(FormatOf(f), if f.Payload? then kept + [f.decoded] else kept)
  }

  function HistoryOf(format: Format, es: seq<Event>): History {
    if es == [] then History(format, [])
    else HistoryStep(HistoryOf(format, es[..|es| - 1]), es[|es| - 1])
  }

  /** Failures in a row at the end. */
  function FailuresInARow(decoded: seq<bool>): (n: nat)
    ensures n <= |decoded| && (forall i :: |decoded| - n <= i < |decoded| ==> !decoded[i])
    ensures n < |decoded| ==> decoded[|decoded| - n - 1]
  {
    if decoded == [] || decoded[|decoded| - 1] then 0 else 1 + FailuresInARow(decoded[..|decoded| - 1])
  }

  /** Nothing has decoded since the reset, and something was tried. */
  predicate NeverDecoded(decoded: seq<bool>) {
    decoded != [] && FailuresInARow(decoded) == |decoded|
  }

  // ---------------------------------------------------------------------------
  // The counter
  // ---------------------------------------------------------------------------

  function ResetStep(h: Handler, format: Format): Handler {
    Handler(format, 0, true)
  }

  function FrameStep(h: Handler, f: Frame): Handler {
    var h1 := if FormatOf(f) != h.format then ResetStep(h, FormatOf(f)) else h;
    if f.NoPayload? then h1
    else
      var counter :=
        if f.decoded then 0
        else if h1.failCounter >= USIZE_MAX then h1.failCounter
        else if h1.firstFrame && h1.failCounter < MAX_DECODE_FAIL_COUNTER then MAX_DECODE_FAIL_COUNTER
        else h1.failCounter + 1;
      h1.(failCounter := counter, firstFrame := false)
  }

  function Step(h: Handler, e: Event): Handler {
    match e
    case Reset => ResetStep(h, h.format)
    case Received(f) => FrameStep(h, f)
  }

  function Exec(h: Handler, es: seq<Event>): Handler {
    if es == [] then h else Step(Exec(h, es[..|es| - 1]), es[|es| - 1])
  }

  /** The counter as a function of what happened: a failed first frame counts three times. */
  ghost predicate Reflects(h: Handler, past: History) {
    && h.format == past.format
    && h.firstFrame == (past.decoded == [])
    && h.failCounter == Min(USIZE_MAX,
                            FailuresInARow(past.decoded) + if NeverDecoded(past.decoded) then 2 else 0)
  }

  lemma PayloadReflects(h: Handler, past: History, f: Frame)
    requires Reflects(h, past) && f.Payload? && f.codec == past.format
    ensures Reflects(FrameStep(h, f), History(past.format, past.decoded + [f.decoded]))
  {
  }

  lemma StepReflects(h: Handler, past: History, e: Event)
    requires Reflects(h, past)
    ensures Reflects(Step(h, e), HistoryStep(past, e))
  {
    if e.Received? && e.frame.Payload? {
      var f := e.frame;
      if f.codec == past.format {
        PayloadReflects(h, past, f);
      } else {
        PayloadReflects(Handler(f.codec, 0, true), History(f.codec, []), f);
      }
    }
  }

  lemma {:induction false} ExecReflects(format: Format, es: seq<Event>)
    ensures Reflects(Exec(Handler(format, 0, true), es), HistoryOf(format, es))
    decreases |es|
  {
    if es != [] {
      var n := |es| - 1;
      ExecReflects(format, es[..n]);
      StepReflects(Exec(Handler(format, 0, true), es[..n]), HistoryOf(format, es[..n]), es[n]);
    }
  }

  /**
   For every sequence of frames and resets: the counter reaches the limit exactly when at least three payloads
   failed in a row, or none has decoded since the last reset and at least one was tried.
   */
  lemma LimitReachedIff(format: Format, es: seq<Event>)
    ensures Exec(Handler(format, 0, true), es).failCounter >= MAX_DECODE_FAIL_COUNTER
       <==> (var past := HistoryOf(format, es).decoded; FailuresInARow(past) >= 3 || NeverDecoded(past))
  {
    ExecReflects(format, es);
  }

  // ---------------------------------------------------------------------------
  // The code
  // ---------------------------------------------------------------------------

  class VideoThreads {
    var handlers: map<nat, Handler>
    var unsupported: seq<Format>
    /** The codecs for which an update message was sent, in order. */
    var updates: seq<Format>

    /** Each codec is listed once, with one update message each. */
    ghost predicate Valid()
      reads this
    {
      NoDuplicates(unsupported) && updates == unsupported
    }

    constructor ()
      ensures Valid() && handlers == map[] && unsupported == []
    {
      handlers, unsupported, updates := map[], [], [];
    }

    method ResetDecoder(display: nat)
      requires Valid()
      modifies this`handlers
      ensures Valid()
      ensures handlers == if display in old(handlers)
                          then old(handlers)[display := Step(old(handlers)[display], Reset)] else old(handlers)
    {
      if display in handlers {
        handlers := handlers[display := Handler(handlers[display].format, 0, true)];
      }
    }

    /** One received frame on one display, followed by the check for invalid decoders. */
    method HandleFrame(display: nat, frame: Frame, decoderValid: bool)
      requires Valid()
      modifies this
      ensures Valid()
      ensures var h := if display in old(handlers) then old(handlers)[display]
                       else Handler(FormatOf(frame), 0, true);
              && handlers == old(handlers)[display := FrameStep(h, frame)]
              && var bad := !decoderValid || handlers[display].failCounter >= MAX_DECODE_FAIL_COUNTER;
              unsupported == old(unsupported)
                             + if bad && FormatOf(frame) !in old(unsupported) then [FormatOf(frame)] else []
    {
      if display !in handlers {
        handlers := handlers[display := Handler(FormatOf(frame), 0, true)];
      }
      var h := handlers[display];
      if FormatOf(frame) != h.format {
        h := Handler(FormatOf(frame), 0, true);
      }
      if frame.Payload? {
        if frame.decoded {
          h := h.(failCounter := 0);
        } else if h.failCounter < USIZE_MAX {
          if h.firstFrame && h.failCounter < MAX_DECODE_FAIL_COUNTER {
            h := h.(failCounter := MAX_DECODE_FAIL_COUNTER);
          } else {
            h := h.(failCounter := h.failCounter + 1);
          }
        }
        h := h.(firstFrame := false);
      }
      handlers := handlers[display := h];
      if !decoderValid || h.failCounter >= MAX_DECODE_FAIL_COUNTER {
        if h.format !in unsupported {
          unsupported := unsupported + [h.format];
          updates := updates + [h.format];
        }
      }
    }
  }
}
