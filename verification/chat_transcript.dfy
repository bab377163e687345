/**
 * The chat page's transcript handlers: showing the user's message at once, and, when the
 * reply arrives, replacing the temporary user message by the final one, appending the reply,
 * saving the list, playing the reply's audio and dispatching its motion to the scene.
 *
 * `messages` is the list the handler sees. The page hands its handlers to the input component
 * once per render, so the list seen by `handleMessageSent` may predate the temporary message
 * that `handleMessageSending` added; the round lemmas below cover both views.
 */
module ChatTranscript {
  import opened Wrappers
  import opened ChatMessages
  import AR = AnimationRegistry
  import MessageInput
  import AudioRecorder
  import Text

  /** The label a voice message once carried; still recognised as temporary. */
  const VOICE_TEMP: string := "🎤 Voice Message"

  /** `handleMessageSending`: the user's message is shown at the end of the list. */
  function HandleMessageSending(messages: seq<ChatMessage>, user: ChatMessage): (r: seq<ChatMessage>)
    ensures |r| == |messages| + 1 && r[..|messages|] == messages && r[|messages|] == user
  {
    messages + [user]
  }

  /** Whether `m` is the temporary stand-in for the final user message `user`. */
  predicate IsTemporaryFor(m: ChatMessage, user: ChatMessage) {
    m.sender == You && (m.message == user.message || m.message == MessageInput.TEMP_AUDIO || m.message == VOICE_TEMP)
  }

  /** The last message exists and is the temporary stand-in for `user`. */
  predicate ReplacesLast(messages: seq<ChatMessage>, user: ChatMessage) {
    |messages| > 0 && IsTemporaryFor(messages[|messages| - 1], user)
  }

  /** The displayed list: the temporary message is dropped when present, then user and reply follow. */
  function Displayed(messages: seq<ChatMessage>, user: ChatMessage, role: ChatMessage): (r: seq<ChatMessage>)
    ensures ReplacesLast(messages, user) ==> |r| == |messages| + 1
    ensures !ReplacesLast(messages, user) ==> |r| == |messages| + 2
    ensures |r| >= 2 && r[|r| - 2] == user && r[|r| - 1] == role
    ensures r[..|r| - 2] == if ReplacesLast(messages, user) then messages[..|messages| - 1] else messages
  {
    if ReplacesLast(messages, user) then messages[..|messages| - 1] + [user, role]
    else messages + [user, role]
  }

  /** The saved list, built the other way: the last slot is overwritten, then the reply pushed. */
  function Persisted(messages: seq<ChatMessage>, user: ChatMessage, role: ChatMessage): (r: seq<ChatMessage>)
    ensures |r| == |Displayed(messages, user, role)|
  {
    if ReplacesLast(messages, user) then messages[|messages| - 1 := user] + [role]
    else messages + [user] + [role]
  }

  /** What is saved is exactly what is shown. */
  lemma PersistedIsDisplayed(messages: seq<ChatMessage>, user: ChatMessage, role: ChatMessage)
    ensures Persisted(messages, user, role) == Displayed(messages, user, role)
  {
    if ReplacesLast(messages, user) {
      var n := |messages|;
      assert messages[n - 1 := user] == messages[..n - 1] + [user];
    }
  }

  /** A temporary message is replaced, so the list ends with the final user message and the reply. */
  lemma ReplacesTemporary(messages: seq<ChatMessage>, temp: ChatMessage, user: ChatMessage, role: ChatMessage)
    requires IsTemporaryFor(temp, user)
    ensures Displayed(messages + [temp], user, role) == messages + [user, role]
  {
    assert (messages + [temp])[..|messages|] == messages;
  }

  /** JavaScript truthiness of an optional string. */
  predicate Truthy(s: Option<string>) {
    s.Some? && s.value != ""
  }

  /**
   * Motion dispatch. A named motion the scene has is played. A named motion it lacks falls
   * back to `idle`, or else to the first animation, or else nothing. Without a motion, `idle`
   * is played when the scene has it. The second component is the name passed to
   * `playAnimation`, if any.
   */
  function DispatchMotion(b: AR.Builder, motion: Option<string>): (r: (AR.Builder, Option<string>))
    ensures r.1.None? ==> r.0 == b
    ensures r.1.Some? ==> r.0 == AR.PlayAnimation(b, r.1.value).0
    ensures Truthy(motion) && motion.value in AR.AvailableAnimations(b) ==> r.1 == motion
    ensures Truthy(motion) && motion.value !in AR.AvailableAnimations(b) ==>
      r.1 == (if "idle" in AR.AvailableAnimations(b) then Some("idle")
              else if |AR.AvailableAnimations(b)| > 0 then Some(AR.AvailableAnimations(b)[0])
              else None)
    ensures !Truthy(motion) ==> r.1 == (if "idle" in AR.AvailableAnimations(b) then Some("idle") else None)
  {
    var available := AR.AvailableAnimations(b);
    AR.HasIffAvailable(b, if motion.Some? then motion.value else "");
    if Truthy(motion) then
      if AR.HasAnimation(b, motion.value) then (AR.PlayAnimation(b, motion.value).0, motion)
      else if "idle" in available then (AR.PlayAnimation(b, "idle").0, Some("idle"))
      else if |available| > 0 then (AR.PlayAnimation(b, available[0]).0, Some(available[0]))
      else (b, None)
    else if "idle" in available then (AR.PlayAnimation(b, "idle").0, Some("idle"))
    else (b, None)
  }

  /**
   * Every dispatched name is one the scene has, so on a loaded model the dispatched animation
   * becomes the active one; and a truthy motion on a scene with any animation always plays one.
   */
  lemma DispatchPlaysAvailable(b: AR.Builder, motion: Option<string>)
    ensures var (b', played) := DispatchMotion(b, motion);
      && (played.Some? ==> played.value in AR.AvailableAnimations(b))
      && (played.Some? && b.modelLoaded ==> b'.active == played && b'.runtime.playing)
      && (Truthy(motion) && |AR.AvailableAnimations(b)| > 0 ==> played.Some?)
      && (!Truthy(motion) ==> played.None? || played == Some("idle"))
  {
    var (b', played) := DispatchMotion(b, motion);
    if played.Some? {
      AR.HasIffAvailable(b, played.value);
    }
  }

  /** What `handleMessageSent` does, in one record. */
  datatype SentOutcome = SentOutcome(
    displayed: seq<ChatMessage>,
    saved: seq<ChatMessage>,
    audio: Option<string>,
    builder: Option<AR.Builder>,
    played: Option<string>)

  /**
   * `handleMessageSent`: shows and saves the new list, starts the reply's audio when its path
   * is truthy, and dispatches the motion only when a builder exists and the scene is ready.
   */
  function HandleMessageSent(messages: seq<ChatMessage>, user: ChatMessage, role: ChatMessage,
                             motion: Option<string>, audioPath: Option<string>,
                             builder: Option<AR.Builder>, sceneReady: bool): (o: SentOutcome)
    ensures o.displayed == Displayed(messages, user, role)
    ensures o.saved == o.displayed
    ensures o.audio == (if Truthy(audioPath) then audioPath else None)
    ensures builder.None? || !sceneReady ==> o.builder == builder && o.played.None?
    ensures builder.Some? && sceneReady ==>
      o.builder == Some(DispatchMotion(builder.value, motion).0) && o.played == DispatchMotion(builder.value, motion).1
  {
    PersistedIsDisplayed(messages, user, role);
    var audio := if Truthy(audioPath) then audioPath else None;
    var saved := Persisted(messages, user, role);
    if builder.Some? && sceneReady then
      var (b', played) := DispatchMotion(builder.value, motion);
      SentOutcome(Displayed(messages, user, role), saved, audio, Some(b'), played)
    else
      SentOutcome(Displayed(messages, user, role), saved, audio, builder, None)
  }

  /**
   * A successful text round ends with the trimmed user message and the reply appended, whether
   * the sent-handler sees the list with the temporary message or the list from before it, as
   * long as that older list does not itself end in a stand-in for the same message.
   */
  lemma TextRound(messages: seq<ChatMessage>, s: MessageInput.InputState, disabled: bool, now: int, later: int,
                  r: MessageInput.Reply, stale: bool)
    requires MessageInput.CanSubmit(s, disabled)
    requires stale ==> !ReplacesLast(messages, MessageInput.UserMessage(Text.Trim(s.input, Text.IsJsSpace), now))
    ensures var o := MessageInput.HandleTextSubmit(s, disabled, now, later, Ok(r));
      && |o.events| == 2 && o.events[0].Sending? && o.events[1].Sent?
      && var shown := HandleMessageSending(messages, o.events[0].message);
      && var seen := if stale then messages else shown;
      && Displayed(seen, o.events[1].user, o.events[1].role) == messages + [o.events[1].user, o.events[1].role]
  {
    var o := MessageInput.HandleTextSubmit(s, disabled, now, later, Ok(r));
    if !stale {
      ReplacesTemporary(messages, o.events[0].message, o.events[1].user, o.events[1].role);
    }
  }

  /** Stopping the recorder yields a recording. */
  predicate RecordingSucceeds(s: MessageInput.InputState) {
    AudioRecorder.StopRecording(s.recorder, false).promise.Resolved?
  }

  /**
   * A successful voice round replaces the temporary audio message by the recognised text (or
   * the fixed voice label) and appends the reply.
   */
  lemma VoiceRound(messages: seq<ChatMessage>, s: MessageInput.InputState, now: int, later: int, r: MessageInput.Reply)
    requires s.isRecording
    requires RecordingSucceeds(s)
    ensures var o := MessageInput.HandleStopRecording(s, now, later, false, Ok(r));
      && |o.events| == 2 && o.events[0].Sending? && o.events[1].Sent?
      && o.events[1].user.message == MessageInput.VoiceText(r.asrText)
      && Displayed(HandleMessageSending(messages, o.events[0].message), o.events[1].user, o.events[1].role)
         == messages + [o.events[1].user, o.events[1].role]
  {
    var o := MessageInput.HandleStopRecording(s, now, later, false, Ok(r));
    ReplacesTemporary(messages, o.events[0].message, o.events[1].user, o.events[1].role);
  }
}
