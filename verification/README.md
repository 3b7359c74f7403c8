# Quantify: a Dafny model of the chat page and the voice recorder

Quantify is a voice-driven chat client for unit-conversion questions. The
user types or speaks a question, the text goes to a hosted language model,
and the reply is shown and read aloud through a hosted speech-synthesis
service. Almost all of the system is a thin wrapper over that provider. This
project models the logic the client owns:

- `Clock` — `formatDate`, the 12-hour timestamp on every message. It takes
  the hour (0..23) and minute (0..59) of a `Date` instead of the `Date`.
  `ParseClock` is its inverse and reads the 24-hour time back out of a
  displayed timestamp.
- `Conversation` — the conversation page's state, with `handleSendMessage`
  and `handleTTS` written as pure transitions over a `View`. A `View` holds
  the message list, the text box, the `generatingResponse` flag, and the
  content-keyed `generatingAudio` and `audioCache` maps. Each fetch becomes
  an outcome parameter (`ChatOutcome`, `SpeechOutcome`). The view also logs
  the requests issued and the audio played, so "no request is made" can be
  stated.
- `Recorder` — the `useRecordVoice` hook as a guarded state machine. The
  recorder is absent, inactive or recording. The hook also tracks the
  `recording` state, the `isRecording` ref and the `chunks` buffer. The
  recorder's handlers reset, extend and flush that buffer.
- `Wrappers` — the `Option` type for missing fields.

JavaScript semantics are written out where they matter:

- Truthiness: `message.audioUrl` and `audio` are falsy when absent and when
  they are the empty string.
- `trim()` removes the ECMAScript WhiteSpace and LineTerminator code points.
- `String(n)` renders the shortest decimal numeral.
- A missing entry in a flag map reads as `undefined`, which is falsy. This
  holds for every key except the names of `Object.prototype` members (see
  "Left out").

Each handler runs start to finish as one sequence of state updates. The
time of day and every network result are parameters.

Behaviours of the code that a reader might not expect. The model follows
the code:

- `audioCache` is declared at app/page.tsx:42 and written at line 113, but
  nothing reads it. The only cache consulted is the `audioUrl` of the
  message being played (line 94).
  - `AudioCacheNeverRead` proves that a send's outcome does not depend on
    the cache, and `SpeakIgnoresCache` proves the same for the play button.
  - `Reply` always requests synthesis for a new reply. This holds even when
    an earlier message with the same text already has audio.
- When the synthesis reply has no `audio`, the `generatingAudio` flag for
  that text stays set. The button stays disabled showing "Generando...".
  `Speak` states this case, and `Replied` states it for every new reply.
- The "send control disabled while a reply is pending" guard sits only on
  the button. The voice path calls `handleSendMessage` directly, so
  `Send` has no such guard.

## Model

| member | source | states |
|---|---|---|
| Clock.DisplayHour | app/page.tsx:19-23 | the shown hour is in 1..12, is congruent to the hour modulo 12, and is 12 exactly for hours 0 and 12 |
| Clock.Meridiem | app/page.tsx:21 | the suffix is "PM" exactly when the hour is at least 12, "AM" otherwise |
| Clock.MinuteField | app/page.tsx:24 | the minute field is exactly two digits, reads back as the minute, and starts with "0" exactly when the minute is below 10 |
| Clock.Decimal | app/page.tsx:25 | a number is rendered as a non-empty digit string with no leading zero, one digit exactly below 10 |
| Clock.DecimalValue | app/page.tsx:25 | reading a rendered number's digits gives back the number |
| Clock.FormatDate | app/page.tsx:18-26 | the timestamp is 7 or 8 characters, with ':' six from the end, a space three from the end and a final 'M' |
| Clock.FormatDateFields | app/page.tsx:19-25 | the text before ':' is the 12-hour clock hour without a leading zero; the next two characters are the zero-padded minute; the last two are "PM" from noon on and "AM" before |
| Clock.FormatDateRoundTrip | app/page.tsx:18-26 | reading a timestamp back as a 24-hour time recovers the hour and minute it was made from |
| Clock.FormatDateInjective | app/page.tsx:18-26 | two different times of day never share a timestamp |
| Conversation.Initial | app/page.tsx:30-42 | the page starts with exactly one bot message, the greeting text, stamped with `formatDate` of the mount time (which reads back as that time) and without audio; the text box is empty, no flag is set, the audio cache is empty and nothing has been requested |
| Conversation.TrimStartSpec | app/page.tsx:57 | trimming the start removes exactly the leading run of white space |
| Conversation.TrimEndSpec | app/page.tsx:57 | trimming the end removes exactly the trailing run of white space |
| Conversation.BlankIffAllWhitespace | app/page.tsx:57 | the blank-input guard fires exactly for texts made only of white space; otherwise the trimmed text starts and ends with a non-space |
| Conversation.AttachAudio | app/page.tsx:115-117 | the list keeps its length; every message whose content equals the synthesized text gets that audio URL, and every other message is unchanged |
| Conversation.Speak | app/page.tsx:93-125 | a message that already has audio is replayed with no synthesis request and its flag ends false; otherwise exactly one request is made for its text. On success the URL is cached, played and attached to every message with that text, and the flag is cleared. If the fetch throws, the flag is cleared and nothing is attached. If the reply lacks `audio`, the flag stays set. The message list keeps its length and only messages with that text change |
| Conversation.TranscriptIgnoresAudio | app/page.tsx:115-117 | attaching audio does not change who said what in the conversation |
| Conversation.Reply | app/page.tsx:78-84 | a chat reply is appended as one bot message with the reply text, stamped with the reply time, and exactly one synthesis request is made for it. With audio, the data URL is cached, played once, and attached to the new message and to every earlier message with the same text; other messages are unchanged. Without audio, nothing is attached, cached or played. The reply's flag ends set exactly when the service answered without `audio`; no other flag changes |
| Conversation.Post | app/page.tsx:58-68 | the untrimmed text is appended as one user message, stamped with the send time and without audio, after an unchanged history; the text box is cleared, `generatingResponse` is set, exactly one chat request carries the text, and the audio flags, cache and playback are untouched |
| Conversation.Answer | app/page.tsx:69-89 | a failed chat only clears `generatingResponse`; a reply is appended and voiced exactly as `Reply` states; either way `generatingResponse` ends false |
| Conversation.Submit | app/page.tsx:58-89 | a non-blank send appends the user message and clears the text box, and issues one chat request. A failed chat leaves the audio flags, cache, playback and synthesis requests untouched. A reply is appended after the user message and voiced as `Reply` states, and the user message also gets the audio when its text equals the reply. `generatingResponse` ends false |
| Conversation.Send | app/page.tsx:56-91 | a blank text changes nothing (no append, no clearing, no flag change, no request); any other text has exactly the effect `Submit` states, and the old messages keep their places |
| Conversation.SendAllAppends | app/page.tsx:56-91 | over any sequence of sends, the conversation grows by exactly the non-blank texts and the replies received, in chronological order |
| Conversation.ExpectedUserTurns | app/page.tsx:57-65 | the entries a session of sends should add hold exactly one user entry per non-blank send |
| Conversation.VoicedReplyReplaysFree | app/page.tsx:84-97 | once a send's reply has been voiced, its text has been sent for synthesis exactly once, however often its play button is pressed afterwards, and the replays leave the conversation as it was |
| Conversation.Voice | app/page.tsx:110-112 | synthesis yields an audio URL exactly when the reply carries a non-empty `audio`; the URL is the MP3 base64 data-URL prefix followed by that payload |
| Conversation.SendAllUserTurns | app/page.tsx:56-91 | after any sequence of sends, the conversation holds exactly one more user entry per non-blank send, whatever the replies were |
| Conversation.SendAllEndsIdle | app/page.tsx:87-89 | a session of sends that starts with the send control enabled ends with it enabled |
| Conversation.AudioCacheNeverRead | app/page.tsx:113 | `audioCache` is written but never read: two views that differ only in their caches evolve identically under a send, apart from the cache |
| Conversation.SpeakIgnoresCache | app/page.tsx:93-125 | the play button's `handleTTS` never reads `audioCache` either: two views that differ only in their caches evolve identically under a replay, apart from the cache |
| Conversation.ReplayIssuesNoRequest | app/page.tsx:94-97 | pressing the play button of a message that has audio any number of times issues no synthesis request, plays its URL once per press, changes neither the conversation nor the cache nor any other message's flag, and leaves its flag false |
| Recorder.Init | hooks/useRecordVoice.ts:8-11 | the hook starts with no recorder, nothing recording, both flags clear and empty buffers |
| Recorder.OnGranted | hooks/useRecordVoice.ts:73-88 | when the microphone stream arrives, the missing recorder becomes an inactive one and nothing else changes |
| Recorder.StartRecording | hooks/useRecordVoice.ts:13-25 | only an inactive recorder starts; it then records, both flags are set and the chunk buffer is emptied. With no recorder, or while recording, the only effect is a warning. If `start()` throws, only `isRecording` is set |
| Recorder.StopRecording | hooks/useRecordVoice.ts:27-35 | only a recording recorder stops; it then becomes inactive, both flags are cleared and the clip of the buffered chunks is handed on; otherwise the only effect is a warning |
| Recorder.OnData | hooks/useRecordVoice.ts:64-66 | each data event appends exactly one chunk at the end of the buffer |
| Recorder.RunValid | hooks/useRecordVoice.ts:13-34 | over any sequence of start/stop calls and data events: `recording` mirrors the recorder state, a running recorder has `isRecording` set, at most one recording is in progress, every recording begun has produced one clip or is still running, and the recorder is missing afterwards exactly when it was missing before and the microphone stream never arrived |
| Recorder.NoMicrophoneNoClips | hooks/useRecordVoice.ts:8-35 | from the first render until the microphone stream arrives (for good, if access is refused), presses and releases only warn, one warning each: no recorder exists, nothing records and no clip is produced |
| Recorder.NoMicrophoneNoClipsFrom | hooks/useRecordVoice.ts:13-34 | with no recorder and empty buffers, every start, stop and data event leaves the recorder absent, the flags clear and no clip produced, until the stream arrives; each start and stop adds one warning |
| Recorder.RunData | hooks/useRecordVoice.ts:64-66 | once a recorder exists, a run of data events only appends their chunks, in order, to the buffer |
| Recorder.RunWhileRecording | hooks/useRecordVoice.ts:13-66 | while a recording runs and the control is not released, the buffer gains exactly the chunks received, in order; every repeated press only warns; nothing else changes |
| Recorder.SessionClip | hooks/useRecordVoice.ts:13-70 | pressing and releasing the control on an idle recorder, with any events in between, produces one clip: the in-order concatenation of exactly the chunks received since the press. Repeated presses only warn, and the recorder is then idle again |
| Recorder.FirstClip | hooks/useRecordVoice.ts:59-88 | from the first render, once the stream has arrived, the first press and release hand on exactly the chunks received in between as the first clip |

## Left out

- The three API route handlers (speech-to-text, chat completion, text-to-speech). Each is one call to the provider's SDK plus temporary-file I/O. Their results reach the model only as `ChatOutcome` and `SpeechOutcome`. The speech-to-text handler removes its temporary file only on success; this model claims nothing about that cleanup.
- The chat handler's check that a system prompt is configured. When it is missing, the client's fetch fails, which is `ChatFailed`.
- The `Blob`-to-base64 helper and the transcription fetch (`getText`). They are browser I/O. The model's recorder output is the clip handed on, and nothing is decoded back from it.
- The effect that sends each new transcription (`voiceToText`) as a message. React runs it only when the value changes. A transcription is modelled as an ordinary `Send`.
- JSX rendering, scrolling, typing into the text box, `console.error` logging, and the `new Audio(...).play()` promise. Playback is only logged as the URL handed to `play()`.
- The `createMediaStream` call in the recorder's `start` handler. That module is not part of this model, so `isRecording`, which is passed to it, is tracked but not consumed.
- Interleaved asynchronous requests. Each handler's state updates are one sequential step, so a reply landing between another send's updates is not modelled.
- A chat reply whose `choices[0].message` exists but has no `content`. The code would append a message with undefined content. The model treats every unreadable reply as `ChatFailed`.
- Clock.FormatDate: takes already-separated hour and minute values rather than a `Date`, and the local-time-zone conversion inside `getHours()` and `getMinutes()` is not modelled.
- Recorder.StartRecording: the `start` event that empties the buffer is applied together with `start()`, not as a later browser event; the browser's final `dataavailable` on `stop()` is represented by a `Data` event just before `Stop`.
- Conversation.Flag: reads a missing key as false. In the code the flag maps are plain objects, so for a message whose text is the name of an `Object.prototype` member (`toString`, `constructor`, ...) the lookup returns an inherited function, which is truthy, and the play button shows "Generando..." and is disabled before any synthesis. No contract depends on a missing key, because `Speak` writes its key before any read it states.
- Recorder.OnGranted: a second arrival of the stream is a no-op. The mount effect has an empty dependency list and runs once, so the code never replaces a recorder.
