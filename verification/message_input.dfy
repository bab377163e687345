/**
 * `MessageInput`: the guards of the text and voice handlers, the messages they build, and the
 * callbacks they fire, in order. Each handler is one function from the component state to
 * the final state and the callback events; the backend's reply and the recorder's outcome are
 * parameters, and `now` / `later` are the clock readings of the two `new Date()` calls.
 */
module MessageInput {
  import opened Wrappers
  import opened Text
  import opened ChatMessages
  import AudioRecorder

  const TEMP_AUDIO: string := "🎤 Audio Message"
  const VOICE_PREFIX: string := "🎵 "
  const VOICE_FALLBACK: string := "🎵 Voice Message"
  const SEND_FAILED: string := "Failed to send message. Please try again."
  const START_RECORDING_FAILED: string := "Failed to start recording. Please check microphone permissions."
  const AUDIO_FAILED: string := "Failed to process audio message. Please try again."

  datatype InputState = InputState(
    input: string,
    isLoading: bool,
    isRecording: bool,
    error: Option<string>,
    recorder: AudioRecorder.Recorder)

  /** The backend's answer to a text or voice message. */
  datatype Reply = Reply(text: string, motion: Option<string>, audioPath: Option<string>, asrText: Option<string>)

  /** A call of `onMessageSending` or of `onMessageSent`. */
  datatype Event =
    | Sending(message: ChatMessage)
    | Sent(user: ChatMessage, role: ChatMessage, motion: Option<string>, audioPath: Option<string>)

  datatype Outcome = Outcome(state: InputState, events: seq<Event>)

  function UserMessage(text: string, now: int): ChatMessage {
    ChatMessage(You, text, now, [])
  }

  function RoleMessage(r: Reply, later: int): ChatMessage {
    ChatMessage(Role, r.text, later, [])
  }

  /** The text submit's guard: something besides whitespace typed, not loading, not disabled. */
  predicate CanSubmit(s: InputState, disabled: bool) {
    Trim(s.input, IsJsSpace) != "" && !s.isLoading && !disabled
  }

  /**
   * `handleTextSubmit`: a no-op when the guard fails. Otherwise the input is cleared, the
   * trimmed text is shown at once as the user's message, and on a reply the user and role
   * messages are handed on; on a failure the error is shown. Loading ends either way.
   */
  function HandleTextSubmit(s: InputState, disabled: bool, now: int, later: int, reply: Result<Reply, string>): (o: Outcome)
    ensures !CanSubmit(s, disabled) ==> o == Outcome(s, [])
    ensures CanSubmit(s, disabled) ==>
      var user := UserMessage(Trim(s.input, IsJsSpace), now);
      && o.state.input == "" && !o.state.isLoading
      && o.state.isRecording == s.isRecording && o.state.recorder == s.recorder
      && |o.events| >= 1 && o.events[0] == Sending(user) && user.message != ""
      && (reply.Ok? ==> o.state.error.None? && o.events == [Sending(user), Sent(user, RoleMessage(reply.value, later), reply.value.motion, reply.value.audioPath)])
      && (reply.Err? ==> o.state.error == Some(SEND_FAILED) && o.events == [Sending(user)])
  {
    if !CanSubmit(s, disabled) then Outcome(s, [])
    else
      var user := UserMessage(Trim(s.input, IsJsSpace), now);
      var sending := s.(input := "", isLoading := true, error := None);
      var done := sending.(isLoading := false);
      match reply
      case Ok(r) => Outcome(done, [Sending(user), Sent(user, RoleMessage(r, later), r.motion, r.audioPath)])
      case Err(_) => Outcome(done.(error := Some(SEND_FAILED)), [Sending(user)])
  }

  /**
   * `handleStartRecording`: a no-op while loading or disabled. Otherwise the recorder is
   * started; with microphone access the component is recording, without it the error shows.
   */
  function HandleStartRecording(s: InputState, disabled: bool, granted: bool): (r: InputState)
    ensures s.isLoading || disabled ==> r == s
    ensures !s.isLoading && !disabled && granted ==>
      r.isRecording && r.error.None? && AudioRecorder.IsRecording(r.recorder) && r.recorder.chunks == []
    ensures !s.isLoading && !disabled && !granted ==> r == s.(error := Some(START_RECORDING_FAILED))
    ensures r.input == s.input && r.isLoading == s.isLoading
  {
    if s.isLoading || disabled then s
    else
      var step := AudioRecorder.StartRecording(s.recorder, granted);
      if step.error.None? then s.(error := None, isRecording := true, recorder := step.state)
      else s.(error := Some(START_RECORDING_FAILED), recorder := step.state)
  }

  /** The final voice text: the recognised text after the note sign, or a fixed label. */
  function VoiceText(asr: Option<string>): (t: string)
    ensures asr.Some? && asr.value != "" ==> t == VOICE_PREFIX + asr.value
    ensures asr.None? || asr.value == "" ==> t == VOICE_FALLBACK
    ensures StartsWith(t, VOICE_PREFIX) && t != TEMP_AUDIO
  {
    var t := if asr.Some? && asr.value != "" then VOICE_PREFIX + asr.value else VOICE_FALLBACK;
    assert t[..|VOICE_PREFIX|] == VOICE_PREFIX;
    assert t[0] != TEMP_AUDIO[0];
    t
  }

  /**
   * `handleStopRecording`: a no-op unless recording. Otherwise recording stops, the
   * temporary audio message is shown at once, and the recorder is stopped. When both the
   * recording and the backend succeed, the final user message (from the recognised text) and
   * the role message are handed on; any failure shows the error, and loading ends either way.
   * When the recorder's promise never settles, the handler stays suspended with loading on.
   */
  function HandleStopRecording(s: InputState, now: int, later: int, recorderFails: bool, reply: Result<Reply, string>): (o: Outcome)
    ensures !s.isRecording ==> o == Outcome(s, [])
    ensures s.isRecording ==>
      && !o.state.isRecording && o.state.input == s.input
      && |o.events| >= 1 && o.events[0] == Sending(UserMessage(TEMP_AUDIO, now))
    ensures s.isRecording ==>
      var stop := AudioRecorder.StopRecording(s.recorder, recorderFails);
      && (o.state.isLoading <==> stop.promise.Pending?)
      && (stop.promise.Pending? ==> o.state.error.None? && o.events == [Sending(UserMessage(TEMP_AUDIO, now))])
      && (stop.promise.Resolved? && reply.Ok? ==>
            && o.state.error.None?
            && o.events == [Sending(UserMessage(TEMP_AUDIO, now)),
                            Sent(UserMessage(VoiceText(reply.value.asrText), later), RoleMessage(reply.value, later),
                                 reply.value.motion, reply.value.audioPath)])
      && (stop.promise.Rejected? || (stop.promise.Resolved? && reply.Err?) ==>
            o.state.error == Some(AUDIO_FAILED) && o.events == [Sending(UserMessage(TEMP_AUDIO, now))])
  {
    if !s.isRecording then Outcome(s, [])
    else
      var temp := UserMessage(TEMP_AUDIO, now);
      var stop := AudioRecorder.StopRecording(s.recorder, recorderFails);
      var done := s.(isRecording := false, isLoading := false, error := None, recorder := stop.state);
      if stop.promise.Pending? then Outcome(done.(isLoading := true), [Sending(temp)])
      else if stop.promise.Rejected? || reply.Err? then Outcome(done.(error := Some(AUDIO_FAILED)), [Sending(temp)])
      else
        var r := reply.value;
        Outcome(done, [Sending(temp), Sent(UserMessage(VoiceText(r.asrText), later), RoleMessage(r, later), r.motion, r.audioPath)])
  }

  /** `handleKeyDown`: Enter without Shift submits the text; every other key does nothing. */
  function HandleKeyDown(s: InputState, key: string, shift: bool, disabled: bool, now: int, later: int, reply: Result<Reply, string>): (o: Outcome)
    ensures key == "Enter" && !shift ==> o == HandleTextSubmit(s, disabled, now, later, reply)
    ensures key != "Enter" || shift ==> o == Outcome(s, [])
  {
    if key == "Enter" && !shift then HandleTextSubmit(s, disabled, now, later, reply) else Outcome(s, [])
  }

  /**
   * The component is left loading only by a stop on a recorder that is already inactive:
   * every other path through the handlers ends with the loading flag off.
   */
  lemma NeverLeftLoading(s: InputState, disabled: bool, now: int, later: int, recorderFails: bool, reply: Result<Reply, string>)
    requires !s.isLoading
    ensures !HandleTextSubmit(s, disabled, now, later, reply).state.isLoading
    ensures HandleStopRecording(s, now, later, recorderFails, reply).state.isLoading
        <==> s.isRecording && s.recorder.recorder == Some(AudioRecorder.Inactive)
  {
  }

  /** While a message is in flight nothing can be sent or recorded. */
  lemma LoadingBlocksInput(s: InputState, disabled: bool, granted: bool, now: int, later: int, reply: Result<Reply, string>)
    requires s.isLoading
    ensures HandleTextSubmit(s, disabled, now, later, reply) == Outcome(s, [])
    ensures HandleStartRecording(s, disabled, granted) == s
  {
  }
}
