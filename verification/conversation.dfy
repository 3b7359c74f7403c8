/** The conversation page's own state logic: the message list, the text
    box, the `generatingResponse` flag and the content-keyed
    `generatingAudio` / `audioCache` maps, with `handleSendMessage` and
    `handleTTS` lifted out of React into pure transitions. Each network
    fetch is an outcome parameter; the requests issued and the clips handed
    to playback are recorded in the view so that "no request" is statable. */
module Conversation {
  import opened Wrappers
  import Clock

  datatype Message = Message(content: string, isUser: bool, timestamp: string, audioUrl: Option<string>)

  datatype View = View(
    messages: seq<Message>,
    text: string,
    generatingResponse: bool,
    generatingAudio: map<string, bool>,
    audioCache: map<string, string>,
    chatRequests: seq<string>,    // `message` bodies posted to the chat endpoint, in order
    speechRequests: seq<string>,  // `text` bodies posted to the speech-synthesis endpoint, in order
    played: seq<string>)          // audio URLs handed to `new Audio(...).play()`, in order

  /** What the chat fetch produced: the reply text at
      `choices[0].message.content`, or a thrown error (network failure,
      error response, missing `choices`). */
  datatype ChatOutcome = ChatFailed | ChatReply(content: string)

  /** What the speech-synthesis fetch produced: a thrown error, or a parsed
      body whose `audio` field may be missing. */
  datatype SpeechOutcome = SpeechFailed | SpeechReply(audio: Option<string>)

  const Greeting: string :=
    "\U{A1}Hola! soy Quantify, tu asistente de voz para conversi\U{F3}n de unidades. \U{BF}Qu\U{E9} vamos a convertir hoy? \U{2696}\U{FE0F}"

  const AudioUrlPrefix: string := "data:audio/mp3;base64,"

  /** JavaScript truthiness of an optional string: absent and "" are falsy. */
  predicate Truthy(s: Option<string>) {
    s.Some? && s.value != ""
  }

  predicate HasAudio(m: Message) {
    Truthy(m.audioUrl)
  }

  /** A flag-map entry read as a condition: a missing key is `undefined`. */
  predicate Flag(flags: map<string, bool>, key: string) {
    key in flags && flags[key]
  }

  /** The page's initial state: one greeting from the bot, stamped with the
      time the page was mounted, and everything else empty. */
  function Initial(now: Clock.Time): (v: View)
    ensures |v.messages| == 1 && !v.messages[0].isUser && !HasAudio(v.messages[0])
    ensures v.messages[0].content == Greeting
    ensures v.messages[0].timestamp == Clock.FormatDate(now)
    ensures Clock.ParseClock(v.messages[0].timestamp) == Some(now)
    ensures !v.generatingResponse && v.text == ""
    ensures v.generatingAudio == map[] && v.audioCache == map[]
    ensures v.chatRequests == [] && v.speechRequests == [] && v.played == []
  {
    Clock.FormatDateRoundTrip(now);
    View([Message(Greeting, false, Clock.FormatDate(now), None)], "", false, map[], map[], [], [], [])
  }

  // ---------------------------------------------------------------------
  // `String.prototype.trim`

  /** The ECMAScript WhiteSpace and LineTerminator code points. */
  predicate IsWhitespace(c: char) {
    || c == '\t' || c == '\n' || c == '\U{B}' || c == '\U{C}' || c == '\r' || c == ' '
    || c == '\U{A0}' || c == '\U{1680}' || ('\U{2000}' <= c <= '\U{200A}')
    || c == '\U{2028}' || c == '\U{2029}' || c == '\U{202F}' || c == '\U{205F}'
    || c == '\U{3000}' || c == '\U{FEFF}'
  }

  predicate AllWhitespace(s: string) {
    forall i :: 0 <= i < |s| ==> IsWhitespace(s[i])
  }

  /** Drops leading white space. */
  function TrimStart(s: string): (r: string)
    ensures |r| <= |s|
  {
    if s != [] && IsWhitespace(s[0]) then TrimStart(s[1..]) else s
  }

  /** Drops trailing white space. */
  function TrimEnd(s: string): (r: string)
    ensures |r| <= |s|
  {
    if s != [] && IsWhitespace(s[|s| - 1]) then TrimEnd(s[..|s| - 1]) else s
  }

  /** `s.trim()`: the text with leading and trailing white space removed. */
  function Trim(s: string): string {
    TrimEnd(TrimStart(s))
  }

  /** `TrimStart` removes exactly the leading run of white space. */
  lemma {:induction false} TrimStartSpec(s: string)
    ensures var r := TrimStart(s);
      && r == s[|s| - |r|..]
      && AllWhitespace(s[..|s| - |r|])
      && (r == [] || !IsWhitespace(r[0]))
    decreases |s|
  {
    if s != [] && IsWhitespace(s[0]) {
      TrimStartSpec(s[1..]);
      var r := TrimStart(s);
      assert s[..|s| - |r|] == [s[0]] + s[1..][..|s| - 1 - |r|];
    }
  }

  /** `TrimEnd` removes exactly the trailing run of white space. */
  lemma {:induction false} TrimEndSpec(s: string)
    ensures var r := TrimEnd(s);
      && r == s[..|r|]
      && AllWhitespace(s[|r|..])
      && (r == [] || !IsWhitespace(r[|r| - 1]))
    decreases |s|
  {
    if s != [] && IsWhitespace(s[|s| - 1]) {
      TrimEndSpec(s[..|s| - 1]);
      var r := TrimEnd(s);
      assert s[|r|..] == s[..|s| - 1][|r|..] + [s[|s| - 1]];
    }
  }

  /** The send guard: `message.trim() !== ''`. */
  predicate IsBlank(s: string) {
    Trim(s) == ""
  }

  /** The guard holds exactly for texts made only of white space, and a
      text that passes it keeps a non-blank core with no white space at
      either end. */
  lemma BlankIffAllWhitespace(s: string)
    ensures IsBlank(s) <==> AllWhitespace(s)
    ensures !IsBlank(s) ==> !IsWhitespace(Trim(s)[0]) && !IsWhitespace(Trim(s)[|Trim(s)| - 1])
  {
    var t := TrimStart(s);
    TrimStartSpec(s);
    TrimEndSpec(t);
    if IsBlank(s) {
      assert s == s[..|s| - |t|] + t;
    }
  }

  // ---------------------------------------------------------------------
  // `handleTTS`

  /** The `map` at the end of a successful synthesis: every message whose
      content equals `content` gets `audioUrl = url`. */
  function AttachAudio(messages: seq<Message>, content: string, url: string): (r: seq<Message>)
    ensures |r| == |messages|
    ensures forall i :: 0 <= i < |r| && messages[i].content != content ==> r[i] == messages[i]
    ensures forall i :: 0 <= i < |r| && messages[i].content == content ==>
              r[i] == messages[i].(audioUrl := Some(url))
  {
    if messages == [] then []
    else
      var m := messages[0];
      var head := if m.content == content then m.(audioUrl := Some(url)) else m;
      [head] + AttachAudio(messages[1..], content, url)
  }

  /** `handleTTS(message)`, run to completion. A message that already holds
      an audio URL is replayed without a request; otherwise the text is sent
      for synthesis and, when the reply carries `audio`, the resulting data
      URL is cached, played and attached to every message with that
      content. The `generatingAudio` entry is cleared on success and on a
      thrown error, but not when the reply lacks `audio`. */
  function Speak(v: View, msg: Message, outcome: SpeechOutcome): (w: View)
    // only the entry for this content changes in the flag map
    ensures msg.content in w.generatingAudio
    ensures w.generatingAudio - {msg.content} == v.generatingAudio - {msg.content}
    // the message list keeps its length; only entries with this content can change
    ensures SameExceptAudio(w.messages, v.messages)
    ensures forall i :: 0 <= i < |v.messages| && v.messages[i].content != msg.content ==>
              w.messages[i] == v.messages[i]
    // a cached URL short-circuits the request
    ensures HasAudio(msg) ==>
              && w.speechRequests == v.speechRequests
              && w.messages == v.messages
              && w.audioCache == v.audioCache
              && !Flag(w.generatingAudio, msg.content)
              && w.played == v.played + [msg.audioUrl.value]
    ensures !HasAudio(msg) ==> w.speechRequests == v.speechRequests + [msg.content]
    // success: cached, played and attached to every message with this content
    ensures !HasAudio(msg) && outcome.SpeechReply? && Truthy(outcome.audio) ==>
              var url := AudioUrlPrefix + outcome.audio.value;
              && (forall i :: 0 <= i < |v.messages| && v.messages[i].content == msg.content ==>
                    w.messages[i] == v.messages[i].(audioUrl := Some(url)))
              && w.audioCache == v.audioCache[msg.content := url]
              && w.played == v.played + [url]
              && !Flag(w.generatingAudio, msg.content)
    // failure: nothing attached; the flag is cleared only when the fetch threw
    ensures !HasAudio(msg) && !(outcome.SpeechReply? && Truthy(outcome.audio)) ==>
              && w.messages == v.messages
              && w.audioCache == v.audioCache
              && w.played == v.played
              && (Flag(w.generatingAudio, msg.content) <==> outcome.SpeechReply?)
    // the rest of the view is untouched
    ensures w.text == v.text && w.generatingResponse == v.generatingResponse
    ensures w.chatRequests == v.chatRequests
  {
    var c := msg.content;
    if HasAudio(msg) then
      v.(generatingAudio := v.generatingAudio[c := true][c := false],
         played := v.played + [msg.audioUrl.value])
    else
      var pending := v.(generatingAudio := v.generatingAudio[c := true],
                        speechRequests := v.speechRequests + [c]);
      match outcome
      case SpeechFailed =>
        pending.(generatingAudio := pending.generatingAudio[c := false])
      case SpeechReply(audio) =>
        if Truthy(audio) then
          var url := AudioUrlPrefix + audio.value;
          pending.(audioCache := pending.audioCache[c := url],
                   played := pending.played + [url],
                   messages := AttachAudio(pending.messages, c, url),
                   generatingAudio := pending.generatingAudio[c := false])
        else
          pending
  }

  // ---------------------------------------------------------------------
  // `handleSendMessage`

  /** A message list reduced to what the conversation says: who spoke, and what. */
  function Transcript(messages: seq<Message>): (t: seq<(string, bool)>)
    ensures |t| == |messages|
  {
    if messages == [] then []
    else Transcript(messages[..|messages| - 1]) + [Entry(messages[|messages| - 1])]
  }

  function Entry(m: Message): (string, bool) {
    (m.content, m.isUser)
  }

  /** Two message lists that differ at most in their attached audio. */
  predicate SameExceptAudio(a: seq<Message>, b: seq<Message>) {
    |a| == |b| && forall i :: 0 <= i < |a| ==> a[i] == b[i].(audioUrl := a[i].audioUrl)
  }

  lemma TranscriptAppend(messages: seq<Message>, m: Message)
    ensures Transcript(messages + [m]) == Transcript(messages) + [Entry(m)]
  {
  }

  /** Attaching audio does not change what the conversation says. */
  lemma {:induction false} TranscriptIgnoresAudio(a: seq<Message>, b: seq<Message>)
    requires SameExceptAudio(a, b)
    ensures Transcript(a) == Transcript(b)
    decreases |a|
  {
    if a != [] {
      var n := |a| - 1;
      assert SameExceptAudio(a[..n], b[..n]);
      TranscriptIgnoresAudio(a[..n], b[..n]);
      assert Entry(a[n]) == Entry(b[n]);
    }
  }

  /** The transcript entries a submitted text adds: the user's text, then
      the reply when one arrived. */
  function SendEntries(message: string, chat: ChatOutcome): seq<(string, bool)> {
    [(message, true)] + (if chat.ChatReply? then [(chat.content, false)] else [])
  }

  /** The audio URL a synthesis outcome yields, when it yields one: the
      data URL built from a present, non-empty `audio`. */
  function Voice(speech: SpeechOutcome): (url: Option<string>)
    ensures url.Some? <==> speech.SpeechReply? && Truthy(speech.audio)
    // a data URL: the fixed MP3 base64 prefix followed by the service's payload
    ensures url.Some? ==>
              && |AudioUrlPrefix| < |url.value|
              && url.value[..|AudioUrlPrefix|] == AudioUrlPrefix
              && url.value[|AudioUrlPrefix|..] == speech.audio.value
  {
    if speech.SpeechReply? && Truthy(speech.audio) then Some(AudioUrlPrefix + speech.audio.value) else None
  }

  /** A message after the synthesis of `content` ended: it carries the new
      URL when there is one and its text is `content`, and is as it was
      otherwise. */
  function Revoiced(m: Message, content: string, url: Option<string>): Message {
    if url.Some? && m.content == content then m.(audioUrl := url) else m
  }

  /** What handling a chat reply does, from `v` to `w`: the reply is
      appended as a bot message stamped with `repliedAt`, one synthesis
      request is made for it, and its outcome is applied to the whole
      conversation. A voiced outcome is cached, played and attached to every
      message with the reply's text, the new one included; without audio
      the reply stays silent and, when the service answered without
      `audio`, its flag stays set. */
  predicate Replied(v: View, w: View, content: string, repliedAt: Clock.Time, speech: SpeechOutcome) {
    var n, url := |v.messages|, Voice(speech);
    && |w.messages| == n + 1
    && w.messages[n] == Message(content, false, Clock.FormatDate(repliedAt), url)
    && (forall i :: 0 <= i < n ==> w.messages[i] == Revoiced(v.messages[i], content, url))
    && w.speechRequests == v.speechRequests + [content]
    && w.generatingAudio - {content} == v.generatingAudio - {content}
    && (Flag(w.generatingAudio, content) <==> speech.SpeechReply? && url.None?)
    && w.audioCache == (if url.Some? then v.audioCache[content := url.value] else v.audioCache)
    && w.played == v.played + (if url.Some? then [url.value] else [])
  }

  /** The success path of the chat fetch: the reply is appended as a bot
      message and that message is handed to `handleTTS`. */
  function Reply(v: View, content: string, repliedAt: Clock.Time, speech: SpeechOutcome): (w: View)
    ensures Replied(v, w, content, repliedAt, speech)
    ensures Transcript(w.messages) == Transcript(v.messages) + [(content, false)]
    ensures w.text == v.text && w.generatingResponse == v.generatingResponse
    ensures w.chatRequests == v.chatRequests
  {
    var botMessage := Message(content, false, Clock.FormatDate(repliedAt), None);
    var appended := v.(messages := v.messages + [botMessage]);
    var w := Speak(appended, botMessage, speech);
    TranscriptIgnoresAudio(w.messages, appended.messages);
    TranscriptAppend(v.messages, botMessage);
    w
  }

  lemma ConcatAssoc<T>(a: seq<T>, b: seq<T>, c: seq<T>)
    ensures a + b + c == a + (b + c)
  {
  }

  /** The message a send appends: the untrimmed text, from the user,
      stamped with the send time, without audio. */
  function UserEntry(message: string, sentAt: Clock.Time): Message {
    Message(message, true, Clock.FormatDate(sentAt), None)
  }

  /** The first half of a submission: the untrimmed text is appended as a
      user message, the text box is cleared, `generatingResponse` is set and
      the chat request issued. */
  function Post(v: View, message: string, sentAt: Clock.Time): (w: View)
    ensures Transcript(w.messages) == Transcript(v.messages) + [(message, true)]
    ensures w.messages == v.messages + [UserEntry(message, sentAt)]
    ensures w.text == "" && w.generatingResponse
    ensures w.chatRequests == v.chatRequests + [message]
    ensures w.speechRequests == v.speechRequests
    ensures w.generatingAudio == v.generatingAudio && w.audioCache == v.audioCache
    ensures w.played == v.played
  {
    var userMessage := UserEntry(message, sentAt);
    TranscriptAppend(v.messages, userMessage);
    v.(messages := v.messages + [userMessage], text := "", generatingResponse := true,
       chatRequests := v.chatRequests + [message])
  }

  /** The second half: the chat outcome is handled (a reply is appended and
      voiced) and `generatingResponse` is cleared in every case. */
  function Answer(v: View, repliedAt: Clock.Time, chat: ChatOutcome, speech: SpeechOutcome): (w: View)
    ensures Transcript(w.messages)
         == Transcript(v.messages) + (if chat.ChatReply? then [(chat.content, false)] else [])
    ensures !w.generatingResponse && w.text == v.text
    ensures w.chatRequests == v.chatRequests
    ensures chat.ChatFailed? ==> w == v.(generatingResponse := false)
    ensures chat.ChatReply? ==> Replied(v, w, chat.content, repliedAt, speech)
  {
    match chat
    case ChatFailed => v.(generatingResponse := false)
    case ChatReply(content) => Reply(v, content, repliedAt, speech).(generatingResponse := false)
  }

  /** Everything a non-blank `handleSendMessage(message)` does: the user
      entry is appended, the text box cleared and one chat request made; a
      failed chat leaves the audio state alone, and a reply is handled as
      `Replied` describes, after the user entry; `generatingResponse` ends
      false either way. */
  predicate Submitted(v: View, w: View, message: string, sentAt: Clock.Time, repliedAt: Clock.Time,
                      chat: ChatOutcome, speech: SpeechOutcome) {
    var posted := v.messages + [UserEntry(message, sentAt)];
    && Transcript(w.messages) == Transcript(v.messages) + SendEntries(message, chat)
    && w.text == "" && !w.generatingResponse
    && w.chatRequests == v.chatRequests + [message]
    && (chat.ChatFailed? ==>
          && w.messages == posted
          && w.speechRequests == v.speechRequests
          && w.generatingAudio == v.generatingAudio && w.audioCache == v.audioCache
          && w.played == v.played)
    && (chat.ChatReply? ==> Replied(v.(messages := posted), w, chat.content, repliedAt, speech))
  }

  /** The body of `handleSendMessage` past the blank-input guard. */
  function Submit(v: View, message: string, sentAt: Clock.Time, repliedAt: Clock.Time,
                  chat: ChatOutcome, speech: SpeechOutcome): (w: View)
    ensures Submitted(v, w, message, sentAt, repliedAt, chat, speech)
    // the earlier messages keep their place; at most the reply's audio is attached to them
    ensures forall i :: 0 <= i < |v.messages| ==>
              || w.messages[i] == v.messages[i]
              || (chat.ChatReply? && v.messages[i].content == chat.content
                  && w.messages[i] == v.messages[i].(audioUrl := w.messages[i].audioUrl))
  {
    var posted := Post(v, message, sentAt);
    var w := Answer(posted, repliedAt, chat, speech);
    var reply := if chat.ChatReply? then [(chat.content, false)] else [];
    ConcatAssoc(Transcript(v.messages), [(message, true)], reply);
    assert forall i :: 0 <= i < |v.messages| ==> posted.messages[i] == v.messages[i];
    w
  }

  /** `handleSendMessage(message)`, run to completion: a blank text changes
      nothing at all, any other text is submitted. */
  function Send(v: View, message: string, sentAt: Clock.Time, repliedAt: Clock.Time,
                chat: ChatOutcome, speech: SpeechOutcome): (w: View)
    ensures IsBlank(message) ==> w == v
    ensures !IsBlank(message) ==>
              && Submitted(v, w, message, sentAt, repliedAt, chat, speech)
    ensures |v.messages| <= |w.messages|
    ensures forall i :: 0 <= i < |v.messages| ==>
              || w.messages[i] == v.messages[i]
              || (chat.ChatReply? && v.messages[i].content == chat.content
                  && w.messages[i] == v.messages[i].(audioUrl := w.messages[i].audioUrl))
  {
    if IsBlank(message) then v
    else
      Submit(v, message, sentAt, repliedAt, chat, speech)
  }

  /** One send from the user, with the outcomes of the fetches it makes. */
  datatype SendInput = SendInput(message: string, sentAt: Clock.Time, repliedAt: Clock.Time,
                                 chat: ChatOutcome, speech: SpeechOutcome)

  /** A session of sends, one after the other. */
  function SendAll(v: View, inputs: seq<SendInput>): View
    decreases |inputs|
  {
    if inputs == [] then v
    else
      var i := inputs[0];
      SendAll(Send(v, i.message, i.sentAt, i.repliedAt, i.chat, i.speech), inputs[1..])
  }

  /** What a session of sends should add to the conversation, in order. */
  function Expected(inputs: seq<SendInput>): seq<(string, bool)> {
    if inputs == [] then []
    else
      var i := inputs[0];
      (if IsBlank(i.message) then [] else SendEntries(i.message, i.chat)) + Expected(inputs[1..])
  }

  /** The number of entries spoken by the user. */
  function UserTurns(t: seq<(string, bool)>): nat {
    if t == [] then 0 else (if t[0].1 then 1 else 0) + UserTurns(t[1..])
  }

  /** The number of sends whose text is not blank. */
  function NonBlankSends(inputs: seq<SendInput>): nat {
    if inputs == [] then 0 else (if IsBlank(inputs[0].message) then 0 else 1) + NonBlankSends(inputs[1..])
  }

  lemma {:induction false} UserTurnsAppend(a: seq<(string, bool)>, b: seq<(string, bool)>)
    ensures UserTurns(a + b) == UserTurns(a) + UserTurns(b)
    decreases |a|
  {
    if a == [] {
      assert a + b == b;
    } else {
      assert (a + b)[0] == a[0];
      assert (a + b)[1..] == a[1..] + b;
      UserTurnsAppend(a[1..], b);
    }
  }

  /** Over any session the conversation is append-only in chronological
      order: the transcript grows by exactly the sent texts and the replies
      received. */
  lemma {:induction false} SendAllAppends(v: View, inputs: seq<SendInput>)
    ensures Transcript(SendAll(v, inputs).messages) == Transcript(v.messages) + Expected(inputs)
    decreases |inputs|
  {
    if inputs != [] {
      var i := inputs[0];
      var v' := Send(v, i.message, i.sentAt, i.repliedAt, i.chat, i.speech);
      SendAllAppends(v', inputs[1..]);
      var rest := Expected(inputs[1..]);
      if IsBlank(i.message) {
        assert Expected(inputs) == [] + rest;
      } else {
        var e := SendEntries(i.message, i.chat);
        assert Expected(inputs) == e + rest;
        ConcatAssoc(Transcript(v.messages), e, rest);
      }
    }
  }

  /** After N non-blank sends the conversation holds exactly N more user
      entries, whatever the replies were. */
  lemma {:induction false} ExpectedUserTurns(inputs: seq<SendInput>)
    ensures UserTurns(Expected(inputs)) == NonBlankSends(inputs)
    decreases |inputs|
  {
    if inputs != [] {
      var i := inputs[0];
      var rest := Expected(inputs[1..]);
      ExpectedUserTurns(inputs[1..]);
      if !IsBlank(i.message) {
        var e := SendEntries(i.message, i.chat);
        assert Expected(inputs) == e + rest;
        UserTurnsAppend(e, rest);
        assert e == [(i.message, true)] + e[1..];
        UserTurnsAppend([(i.message, true)], e[1..]);
        assert UserTurns(e[1..]) == 0;
      } else {
        assert Expected(inputs) == [] + rest == rest;
      }
    }
  }

  /** A session that starts with the send control enabled ends with it enabled. */
  lemma {:induction false} SendAllEndsIdle(v: View, inputs: seq<SendInput>)
    requires !v.generatingResponse
    ensures !SendAll(v, inputs).generatingResponse
    decreases |inputs|
  {
    if inputs != [] {
      var i := inputs[0];
      SendAllEndsIdle(Send(v, i.message, i.sentAt, i.repliedAt, i.chat, i.speech), inputs[1..]);
    }
  }

  /** `audioCache` is written but never read: two views that differ only in
      their caches evolve identically under a send, apart from the cache. */
  lemma AudioCacheNeverRead(v: View, cache: map<string, string>, message: string,
                            sentAt: Clock.Time, repliedAt: Clock.Time,
                            chat: ChatOutcome, speech: SpeechOutcome)
    ensures Send(v.(audioCache := cache), message, sentAt, repliedAt, chat, speech).(audioCache := map[])
         == Send(v, message, sentAt, repliedAt, chat, speech).(audioCache := map[])
  {
  }

  /** The same holds for the play button, which calls `handleTTS`
      directly: what a replay does never depends on the cache. */
  lemma SpeakIgnoresCache(v: View, cache: map<string, string>, msg: Message, outcome: SpeechOutcome)
    ensures Speak(v.(audioCache := cache), msg, outcome).(audioCache := map[])
         == Speak(v, msg, outcome).(audioCache := map[])
  {
  }

  /** The view after the play button of `msg` is pressed once per outcome,
      each press handled to completion before the next. */
  function Replay(v: View, msg: Message, outcomes: seq<SpeechOutcome>): View
    decreases |outcomes|
  {
    if outcomes == [] then v else Replay(Speak(v, msg, outcomes[0]), msg, outcomes[1..])
  }

  /** Replaying a message whose audio is attached issues no request however
      often it is done: each press plays the attached URL again, the
      conversation and the cache stay as they were, and the message's flag
      ends false. */
  lemma {:induction false} ReplayIssuesNoRequest(v: View, msg: Message, outcomes: seq<SpeechOutcome>)
    requires HasAudio(msg)
    ensures var w := Replay(v, msg, outcomes);
      && w.speechRequests == v.speechRequests
      && w.messages == v.messages
      && w.audioCache == v.audioCache
      && w.played == v.played + seq(|outcomes|, _ => msg.audioUrl.value)
      && w.generatingAudio - {msg.content} == v.generatingAudio - {msg.content}
      && (outcomes != [] ==> !Flag(w.generatingAudio, msg.content))
    decreases |outcomes|
  {
    if outcomes != [] {
      var u := Speak(v, msg, outcomes[0]);
      ReplayIssuesNoRequest(u, msg, outcomes[1..]);
      var url := msg.audioUrl.value;
      assert [url] + seq(|outcomes| - 1, _ => url) == seq(|outcomes|, _ => url);
    }
  }

  /** On the send path: once a reply has been voiced, its text was sent for
      synthesis exactly once, however often its play button is pressed
      afterwards, and the replays leave the conversation as it was. */
  lemma VoicedReplyReplaysFree(v: View, message: string, sentAt: Clock.Time, repliedAt: Clock.Time,
                               content: string, speech: SpeechOutcome, outcomes: seq<SpeechOutcome>)
    requires !IsBlank(message) && Voice(speech).Some?
    ensures var w := Send(v, message, sentAt, repliedAt, ChatReply(content), speech);
      var reply := w.messages[|w.messages| - 1];
      && reply.content == content && !reply.isUser && HasAudio(reply)
      && Replay(w, reply, outcomes).speechRequests == v.speechRequests + [content]
      && Replay(w, reply, outcomes).messages == w.messages
  {
    var w := Send(v, message, sentAt, repliedAt, ChatReply(content), speech);
    var reply := w.messages[|w.messages| - 1];
    ReplayIssuesNoRequest(w, reply, outcomes);
  }

  /** Over any session the transcript gains exactly one user entry per
      non-blank send, whatever the replies were. */
  lemma SendAllUserTurns(v: View, inputs: seq<SendInput>)
    ensures UserTurns(Transcript(SendAll(v, inputs).messages))
         == UserTurns(Transcript(v.messages)) + NonBlankSends(inputs)
  {
    SendAllAppends(v, inputs);
    UserTurnsAppend(Transcript(v.messages), Expected(inputs));
    ExpectedUserTurns(inputs);
  }
}
