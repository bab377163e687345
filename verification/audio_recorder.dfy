/**
 * The `AudioRecorder` class: a microphone stream, a media recorder and the chunks it has
 * delivered. Device access and the recorder's own timing are outside the model; the
 * outcome of asking for the microphone and of the recorder's stop are parameters.
 */
module AudioRecorder {
  import opened Wrappers
  import opened Bytes
  import Seqs

  type Blob = seq<uint8>

  /** The part of `MediaRecorder.state` the class observes. */
  datatype RecorderState = Inactive | Recording

  datatype Recorder = Recorder(recorder: Option<RecorderState>, chunks: seq<Blob>, hasStream: bool)

  const START_FAILED: string := "Failed to start recording. Please check microphone permissions."
  const NO_RECORDING: string := "No recording in progress"
  const RECORDING_FAILED: string := "Recording failed"

  /** A new recorder holds nothing. */
  function Initial(): Recorder {
    Recorder(None, [], false)
  }

  /** The state after an operation, and the error it raised, if any. */
  datatype Step = Step(state: Recorder, error: Option<string>)

  /**
   * `startRecording`: with microphone access granted, opens the stream, creates a recording
   * recorder and clears the chunks; otherwise raises the permission error and changes nothing.
   */
  function StartRecording(r: Recorder, granted: bool): (s: Step)
    ensures granted ==> s.error == None && s.state.chunks == [] && IsRecording(s.state) && s.state.hasStream
    ensures !granted ==> s.state == r && s.error == Some(START_FAILED)
  {
    if granted then Step(Recorder(Some(Recording), [], true), None)
    else Step(r, Some(START_FAILED))
  }

  /** `ondataavailable`: only chunks of positive size are kept. */
  function OnDataAvailable(r: Recorder, chunk: Blob): (r': Recorder)
    ensures r'.recorder == r.recorder && r'.hasStream == r.hasStream
    ensures r'.chunks == if |chunk| > 0 then r.chunks + [chunk] else r.chunks
  {
    if |chunk| > 0 then r.(chunks := r.chunks + [chunk]) else r
  }

  /** Delivers a sequence of chunks in order. */
  function Feed(r: Recorder, events: seq<Blob>): Recorder
    decreases |events|
  {
    if |events| == 0 then r else Feed(OnDataAvailable(r, events[0]), events[1..])
  }

  predicate NonEmpty(b: Blob) { |b| > 0 }

  /** Feeding keeps exactly the non-empty chunks, in delivery order, after those already held. */
  lemma {:induction false} FeedChunks(r: Recorder, events: seq<Blob>)
    ensures Feed(r, events).chunks == r.chunks + Seqs.Filter(events, NonEmpty)
    ensures Feed(r, events).recorder == r.recorder
    decreases |events|
  {
    if |events| > 0 {
      FeedChunks(OnDataAvailable(r, events[0]), events[1..]);
    }
  }

  /** The bytes of a blob built from chunks (`new Blob(chunks)`). */
  function Concat(chunks: seq<Blob>): (b: Blob)
    decreases |chunks|
  {
    if |chunks| == 0 then [] else chunks[0] + Concat(chunks[1..])
  }

  /** Dropping empty chunks does not change the concatenated bytes. */
  lemma {:induction false} ConcatNonEmpty(chunks: seq<Blob>)
    ensures Concat(Seqs.Filter(chunks, NonEmpty)) == Concat(chunks)
    decreases |chunks|
  {
    if |chunks| > 0 {
      ConcatNonEmpty(chunks[1..]);
    }
  }

  /** How the promise `stopRecording` returns ends: with the blob, with an error, or never. */
  datatype Settled = Resolved(blob: Blob) | Rejected(message: string) | Pending

  /** The state after `stopRecording`, and how its promise ended. */
  datatype StopOutcome = StopOutcome(state: Recorder, promise: Settled)

  /**
   * `stopRecording`: rejects at once when no recorder exists. A recording recorder stops; on
   * success the blob holds the chunks and the stream is released, and on a recorder error the
   * promise rejects. `stop()` on a recorder that is already inactive does nothing and fires no
   * `stop` event, so the promise never settles.
   */
  function StopRecording(r: Recorder, recorderFails: bool): (o: StopOutcome)
    ensures r.recorder.None? ==> o == StopOutcome(r, Rejected(NO_RECORDING))
    ensures r.recorder == Some(Inactive) ==> o == StopOutcome(r, Pending)
    ensures IsRecording(r) && !recorderFails ==>
      o.promise == Resolved(Concat(r.chunks)) && !o.state.hasStream && !IsRecording(o.state)
    ensures IsRecording(r) && recorderFails ==> o.promise == Rejected(RECORDING_FAILED) && !IsRecording(o.state)
    ensures o.state.chunks == r.chunks
  {
    match r.recorder
    case None => StopOutcome(r, Rejected(NO_RECORDING))
    case Some(Inactive) => StopOutcome(r, Pending)
    case Some(Recording) =>
      if recorderFails then StopOutcome(r.(recorder := Some(Inactive)), Rejected(RECORDING_FAILED))
      else StopOutcome(Recorder(Some(Inactive), r.chunks, false), Resolved(Concat(r.chunks)))
  }

  /** `isRecording`: a recorder exists and is in the recording state. */
  predicate IsRecording(r: Recorder) {
    r.recorder == Some(Recording)
  }

  /** `cleanup`: releases the stream and forgets the recorder and the chunks. */
  function Cleanup(r: Recorder): (r': Recorder)
    ensures r'.recorder.None? && r'.chunks == [] && !r'.hasStream
    ensures !IsRecording(r')
  {
    Recorder(None, [], false)
  }

  /**
   * A whole session: start, chunks delivered, stop. The blob holds the bytes of every
   * delivered chunk in order, and nothing recorded before the start.
   */
  lemma Session(r: Recorder, events: seq<Blob>)
    ensures var started := StartRecording(r, true).state;
      StopRecording(Feed(started, events), false).promise == Resolved(Concat(events))
  {
    var started := StartRecording(r, true).state;
    FeedChunks(started, events);
    assert Feed(started, events).chunks == Seqs.Filter(events, NonEmpty);
    ConcatNonEmpty(events);
  }

  /** After a cleanup a stop always rejects. */
  lemma StopAfterCleanup(r: Recorder, recorderFails: bool)
    ensures StopRecording(Cleanup(r), recorderFails).promise == Rejected(NO_RECORDING)
  {
  }
}
