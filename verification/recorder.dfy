/** The voice-recording hook: an abstract `MediaRecorder` (absent until the
    microphone stream is obtained, then inactive or recording), the
    `recording` state and the `isRecording` ref that mirror it, and the
    `chunks` buffer that the recorder's event handlers fill and flush. The
    browser is taken to behave as specified for `MediaRecorder`: `start()`
    makes it recording and fires `start`, `stop()` makes it inactive and
    fires `stop`. A finished clip is the concatenation of its chunks, which
    is what `new Blob(chunks)` holds. */
module Recorder {

  type Byte = b: int | 0 <= b < 256

  /** One `dataavailable` payload. */
  type Chunk = seq<Byte>

  /** `NoRecorder`: the microphone stream was never obtained (or the
      recorder could not be built), so `mediaRecorder` is still `null`. */
  datatype RecorderState = NoRecorder | Inactive | Recording

  datatype Hook = Hook(
    state: RecorderState,
    recording: bool,     // the React state shown by the microphone button
    isRecording: bool,   // the ref read by the `start` handler
    chunks: seq<Chunk>,  // the ref the handlers fill
    clips: seq<Chunk>,   // clips handed on for transcription, in order
    warnings: nat,       // `console.warn` calls from misuse of start/stop
    sessions: nat)       // number of recordings begun (model bookkeeping)

  /** The browser events and user actions the hook reacts to.
      `Granted` is the mount effect's `getUserMedia` promise resolving and
      the recorder being built and stored; when access is refused, or the
      recorder cannot be built, it never happens. `Start(throws)` is
      `startRecording`, where `throws` says whether `mediaRecorder.start()`
      raised; `Data(c)` is one `dataavailable` event (the browser's final
      one on `stop()` is the last `Data` before the `Stop`). */
  datatype Event = Granted | Start(throws: bool) | Stop | Data(chunk: Chunk)

  /** The hook as first rendered: `mediaRecorder` is still `null` until the
      microphone stream arrives, nothing is recording and the buffers are
      empty. */
  function Init(): (h: Hook)
    ensures h.state == NoRecorder
    ensures !h.recording && !h.isRecording && h.chunks == [] && h.clips == []
    ensures h.warnings == 0 && h.sessions == 0
    ensures Valid(h)
  {
    Hook(NoRecorder, false, false, [], [], 0, 0)
  }

  /** The stream arrived and `setMediaRecorder` stored an inactive recorder.
      The mount effect runs once, so a hook that already has a recorder is
      left as it is. */
  function OnGranted(h: Hook): (r: Hook)
    ensures h.state == NoRecorder ==> r == h.(state := Inactive)
    ensures h.state != NoRecorder ==> r == h
  {
    if h.state == NoRecorder then h.(state := Inactive) else h
  }

  /** The clip a `Blob` of the chunks holds: their bytes in order. */
  function Concat(chunks: seq<Chunk>): (clip: Chunk)
    ensures chunks == [] ==> clip == []
  {
    if chunks == [] then [] else Concat(chunks[..|chunks| - 1]) + chunks[|chunks| - 1]
  }

  /** `startRecording`: only an inactive recorder starts. Both flags are
      set and the `start` handler empties the chunk buffer. Without a
      recorder, or while recording, the only effect is a warning. If
      `start()` throws, the error is caught after `isRecording` was set. */
  function StartRecording(h: Hook, throws: bool): (r: Hook)
    ensures h.state == Inactive && !throws ==>
              && r.state == Recording && r.recording && r.isRecording
              && r.chunks == []
              && r.clips == h.clips && r.warnings == h.warnings
              && r.sessions == h.sessions + 1
    ensures h.state == Inactive && throws ==> r == h.(isRecording := true)
    ensures h.state != Inactive ==> r == h.(warnings := h.warnings + 1)
  {
    if h.state == Inactive then
      if throws then h.(isRecording := true)
      else h.(isRecording := true, state := Recording, recording := true, chunks := [],
              sessions := h.sessions + 1)
    else
      h.(warnings := h.warnings + 1)
  }

  /** `stopRecording`: only a recording recorder stops. Both flags are
      cleared and the `stop` handler hands on the clip made of the chunks
      buffered so far. Otherwise the only effect is a warning. */
  function StopRecording(h: Hook): (r: Hook)
    ensures h.state == Recording ==>
              && r.state == Inactive && !r.recording && !r.isRecording
              && r.clips == h.clips + [Concat(h.chunks)]
              && r.chunks == h.chunks && r.warnings == h.warnings && r.sessions == h.sessions
    ensures h.state != Recording ==> r == h.(warnings := h.warnings + 1)
  {
    if h.state == Recording then
      h.(isRecording := false, state := Inactive, recording := false, clips := h.clips + [Concat(h.chunks)])
    else
      h.(warnings := h.warnings + 1)
  }

  /** `ondataavailable`: the chunk is pushed at the end of the buffer. A
      hook without a recorder has no handler to fire. */
  function OnData(h: Hook, c: Chunk): (r: Hook)
    ensures h.state != NoRecorder ==> r == h.(chunks := h.chunks + [c])
    ensures h.state == NoRecorder ==> r == h
  {
    if h.state == NoRecorder then h else h.(chunks := h.chunks + [c])
  }

  function Step(h: Hook, e: Event): Hook {
    match e
    case Granted => OnGranted(h)
    case Start(throws) => StartRecording(h, throws)
    case Stop => StopRecording(h)
    case Data(c) => OnData(h, c)
  }

  /** The hook after a sequence of events, in order. */
  function Run(h: Hook, events: seq<Event>): Hook
    decreases |events|
  {
    if events == [] then h else Run(Step(h, events[0]), events[1..])
  }

  lemma {:induction false} RunAppend(h: Hook, a: seq<Event>, b: seq<Event>)
    ensures Run(h, a + b) == Run(Run(h, a), b)
    decreases |a|
  {
    if a == [] {
      assert a + b == b;
    } else {
      assert (a + b)[0] == a[0];
      assert (a + b)[1..] == a[1..] + b;
      RunAppend(Step(h, a[0]), a[1..], b);
    }
  }

  /** The hook's consistency: `recording` mirrors the recorder, a running
      recorder has `isRecording` set, and every recording begun has either
      produced exactly one clip or is the one running now, so at most one
      recording is ever in progress. */
  predicate Valid(h: Hook) {
    && (h.recording <==> h.state == Recording)
    && (h.state == Recording ==> h.isRecording)
    && h.sessions == |h.clips| + (if h.state == Recording then 1 else 0)
  }

  lemma StepValid(h: Hook, e: Event)
    requires Valid(h)
    ensures Valid(Step(h, e))
  {
  }

  /** Any sequence of events keeps a consistent hook consistent, and the
      recorder is absent afterwards exactly when it was absent before and
      the microphone stream never arrived. */
  lemma {:induction false} RunValid(h: Hook, events: seq<Event>)
    requires Valid(h)
    ensures Valid(Run(h, events))
    ensures Run(h, events).state == NoRecorder <==> h.state == NoRecorder && Granted !in events
    decreases |events|
  {
    if events != [] {
      assert events == [events[0]] + events[1..];
      StepValid(h, events[0]);
      RunValid(Step(h, events[0]), events[1..]);
    }
  }

  /** Until the microphone stream arrives the feature is off: presses and
      releases only warn, and no event builds a recorder, starts a
      recording or produces a clip. With access refused this holds for
      good. */
  lemma NoMicrophoneNoClips(events: seq<Event>)
    requires Granted !in events
    ensures var h := Run(Init(), events);
      && h.state == NoRecorder && !h.recording && !h.isRecording && h.clips == [] && h.chunks == []
      && h.sessions == 0
      && h.warnings == Presses(events) + Releases(events)
  {
    NoMicrophoneNoClipsFrom(Init(), events);
  }

  /** The general form: a hook with no recorder and empty buffers stays so
      while the stream does not arrive. */
  lemma {:induction false} NoMicrophoneNoClipsFrom(h: Hook, events: seq<Event>)
    requires h.state == NoRecorder && !h.recording && !h.isRecording && h.clips == [] && h.chunks == []
    requires Granted !in events
    ensures var r := Run(h, events);
      && r.state == NoRecorder && !r.recording && !r.isRecording && r.clips == [] && r.chunks == []
      && r.sessions == h.sessions
      && r.warnings == h.warnings + Presses(events) + Releases(events)
    decreases |events|
  {
    if events != [] {
      assert events == [events[0]] + events[1..];
      NoMicrophoneNoClipsFrom(Step(h, events[0]), events[1..]);
    }
  }

  /** The data events carrying the given chunks, in order. */
  function DataEvents(cs: seq<Chunk>): (es: seq<Event>)
    ensures |es| == |cs|
    ensures forall i :: 0 <= i < |cs| ==> es[i] == Data(cs[i])
  {
    if cs == [] then [] else [Data(cs[0])] + DataEvents(cs[1..])
  }

  /** With a recorder present, data events only append their chunks to the
      buffer, in order. */
  lemma {:induction false} RunData(h: Hook, cs: seq<Chunk>)
    requires h.state != NoRecorder
    ensures Run(h, DataEvents(cs)) == h.(chunks := h.chunks + cs)
    decreases |cs|
  {
    if cs != [] {
      var es := DataEvents(cs);
      assert es[1..] == DataEvents(cs[1..]);
      RunData(h.(chunks := h.chunks + [cs[0]]), cs[1..]);
      assert h.chunks + [cs[0]] + cs[1..] == h.chunks + cs;
    }
  }

  /** The chunks the data events of a run carry, in order. */
  function Payloads(events: seq<Event>): seq<Chunk> {
    if events == [] then []
    else (if events[0].Data? then [events[0].chunk] else []) + Payloads(events[1..])
  }

  /** The number of presses of the microphone control in a run. */
  function Presses(events: seq<Event>): nat {
    if events == [] then 0
    else (if events[0].Start? then 1 else 0) + Presses(events[1..])
  }

  /** The number of releases of the microphone control in a run. */
  function Releases(events: seq<Event>): nat {
    if events == [] then 0
    else (if events[0].Stop? then 1 else 0) + Releases(events[1..])
  }

  /** While a recording runs and the control is not released, the buffer
      gains exactly the chunks received, in order; a repeated press only
      warns, and nothing else changes. */
  lemma {:induction false} RunWhileRecording(h: Hook, events: seq<Event>)
    requires h.state == Recording
    requires Stop !in events
    ensures Run(h, events)
         == h.(chunks := h.chunks + Payloads(events), warnings := h.warnings + Presses(events))
    decreases |events|
  {
    if events == [] {
      assert h.chunks + [] == h.chunks;
    } else {
      assert events == [events[0]] + events[1..];
      var e := events[0];
      var next := Step(h, e);
      RunWhileRecording(next, events[1..]);
      if e.Data? {
        assert h.chunks + [e.chunk] + Payloads(events[1..]) == h.chunks + Payloads(events);
      }
    }
  }

  /** One press and release of the microphone control on an idle recorder,
      with any events in between: the clip handed on is exactly the
      concatenation, in order, of the chunks received since the press,
      every repeated press only warned, and the hook is idle again. */
  lemma SessionClip(h: Hook, events: seq<Event>)
    requires h.state == Inactive
    requires Stop !in events
    ensures var r := Run(h, [Start(false)] + events + [Stop]);
      && r.clips == h.clips + [Concat(Payloads(events))]
      && r.state == Inactive && !r.recording && !r.isRecording
      && r.warnings == h.warnings + Presses(events)
      && r.sessions == h.sessions + 1
  {
    var started := StartRecording(h, false);
    RunAppend(h, [Start(false)] + events, [Stop]);
    RunAppend(h, [Start(false)], events);
    assert Run(h, [Start(false)]) == started;
    RunWhileRecording(started, events);
    assert [] + Payloads(events) == Payloads(events);
    var filled := Run(started, events);
    assert Run(filled, [Stop]) == StopRecording(filled);
  }

  /** From the first render: once the stream has arrived, the first press
      and release hand on the chunks received in between as the first clip. */
  lemma FirstClip(events: seq<Event>)
    requires Stop !in events
    ensures Run(Init(), [Granted, Start(false)] + events + [Stop]).clips == [Concat(Payloads(events))]
  {
    var ready := OnGranted(Init());
    assert [Granted, Start(false)] + events + [Stop] == [Granted] + ([Start(false)] + events + [Stop]);
    RunAppend(Init(), [Granted], [Start(false)] + events + [Stop]);
    assert Run(Init(), [Granted]) == ready;
    SessionClip(ready, events);
  }
}
