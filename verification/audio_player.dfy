/**
 * The `AudioPlayer` class and its process-wide instance. The browser's audio element is a
 * plain record; its events (`play`, `pause`, `ended`, `error`) are delivered by calling the
 * matching handler function, and the outcome of loading and playing is a parameter.
 */
module AudioPlayer {
  import opened Wrappers
  import opened Text

  const LOCAL_SERVER: string := "http://localhost:8000"
  const LOAD_FAILED: string := "Failed to load audio"
  const PLAY_FAILED_PREFIX: string := "Failed to play audio: "

  /**
   * An audio element: its source URL, volume, playback position, and duration, which is
   * absent (NaN in the browser) until the metadata has loaded.
   */
  datatype Audio = Audio(src: string, volume: real, currentTime: real, duration: Option<real>, paused: bool)

  datatype Player = Player(current: Option<Audio>, isPlaying: bool)
  {
    /** The player only reports playing while it holds an element. */
    predicate Valid() { isPlaying ==> current.Some? }
  }

  function NewPlayer(): (p: Player)
    ensures p.Valid() && p.current.None?
  {
    Player(None, false)
  }

  /** The path with the local server prepended, unless it already is an `http` URL. */
  function BaseUrl(audioPath: string): (r: string)
    ensures StartsWith(audioPath, "http") ==> r == audioPath
    ensures !StartsWith(audioPath, "http") ==>
      && StartsWith(r, LOCAL_SERVER + "/")
      && r[|LOCAL_SERVER| + 1..] == (if StartsWith(audioPath, "/") then audioPath[1..] else audioPath)
    ensures StartsWith(r, "http")
  {
    if StartsWith(audioPath, "http") then audioPath
    else LOCAL_SERVER + (if StartsWith(audioPath, "/") then audioPath else "/" + audioPath)
  }

  /** A URL built once is kept as it is: building is idempotent. */
  lemma BaseUrlIdempotent(audioPath: string)
    ensures BaseUrl(BaseUrl(audioPath)) == BaseUrl(audioPath)
  {
  }

  /** One leading slash makes no difference to the URL. */
  lemma BaseUrlLeadingSlash(audioPath: string)
    requires !StartsWith(audioPath, "http") && !StartsWith(audioPath, "/")
    ensures BaseUrl("/" + audioPath) == BaseUrl(audioPath)
  {
    assert ("/" + audioPath)[..1] == "/";
    if |audioPath| >= 3 {
      assert ("/" + audioPath)[..4] != "http" by {
        assert ("/" + audioPath)[0] == '/';
      }
    }
  }

  /** The source URL for `audioPath` at clock value `now`: a cache-busting `?t=` query. */
  function AudioUrl(audioPath: string, now: nat): (r: string)
    ensures StartsWith(r, BaseUrl(audioPath))
    ensures r[|BaseUrl(audioPath)|..] == "?t=" + NatToDecimal(now)
  {
    var base := BaseUrl(audioPath);
    var r := base + ("?t=" + NatToDecimal(now));
    assert r[..|base|] == base;
    r
  }

  /** `cleanup`: forgets the element and clears the playing flag. */
  function Cleanup(p: Player): (r: Player)
    ensures r.current.None? && !r.isPlaying && r.Valid()
  {
    Player(None, false)
  }

  /** `stopAudio`: with an element, pauses it, rewinds it and cleans up; otherwise nothing. */
  function StopAudio(p: Player): (r: Player)
    ensures p.current.Some? ==> r == Cleanup(p)
    ensures p.current.None? ==> r == p
    ensures p.Valid() ==> r.Valid()
  {
    if p.current.Some? then Cleanup(p) else p
  }

  /**
   * How the load and the `play()` promise of a new element turn out. After `canplay` the
   * metadata is in, so a started element knows its duration.
   */
  datatype PlayOutcome = Started(duration: real) | LoadError | PlayRejected(reason: string)

  /** How the promise `playAudio` returns ends: resolved, rejected with a message, or never settled. */
  datatype Settlement = Resolved | Rejected(message: string) | Pending

  /** The player after `playAudio`, and how its promise ended. */
  datatype PlayResult = PlayResult(player: Player, settlement: Settlement)

  /**
   * The load-error listener `handleError`, as written. The `onerror` attribute handler was
   * registered first, so it has already run `cleanup` and dropped the element; the listener's
   * first `this.currentAudio!.removeEventListener` then throws inside the event dispatch, and
   * `reject` is never reached.
   */
  function HandleError(p: Player): (r: Settlement)
    ensures p.current.None? <==> r == Pending
    ensures p.current.Some? ==> r == Rejected(LOAD_FAILED)
  {
    if p.current.None? then Pending else Rejected(LOAD_FAILED)
  }

  /** The `catch` of `playAudio`: clean up and rethrow with the prefix. */
  function Rethrow(p: Player, s: Settlement): (r: PlayResult)
    ensures s.Rejected? ==> r == PlayResult(Cleanup(p), Rejected(PLAY_FAILED_PREFIX + s.message))
    ensures !s.Rejected? ==> r == PlayResult(p, s)
  {
    if s.Rejected? then PlayResult(Cleanup(p), Rejected(PLAY_FAILED_PREFIX + s.message)) else PlayResult(p, s)
  }

  /** The fresh element `playAudio` loads: the cache-busting URL, full volume, from the start. */
  function Fresh(audioPath: string, now: nat): Audio {
    Audio(AudioUrl(audioPath, now), 1.0, 0.0, None, true)
  }

  /**
   * `playAudio`, as written: stops what is playing, then loads a fresh element at full volume.
   * Once it can play it plays and the promise resolves; a rejected `play()` cleans up and
   * rethrows with the prefix. On a load error the `onerror` handler cleans up first, so the
   * `error` listener throws and the promise never settles.
   */
  function PlayAudio(p: Player, audioPath: string, now: nat, outcome: PlayOutcome): (r: PlayResult)
    ensures r.player.Valid()
    ensures outcome.Started? ==>
      && r.settlement == Resolved && r.player.isPlaying
      && r.player.current == Some(Audio(AudioUrl(audioPath, now), 1.0, 0.0, Some(outcome.duration), false))
    ensures outcome.PlayRejected? ==>
      r.player == Cleanup(p) && r.settlement == Rejected(PLAY_FAILED_PREFIX + outcome.reason)
    ensures outcome.LoadError? ==> r.player == Cleanup(p) && r.settlement == Pending
  {
    var stopped := StopAudio(p);
    var loading := Player(Some(Fresh(audioPath, now)), stopped.isPlaying);
    match outcome
    case Started(duration) =>
      PlayResult(OnPlay(loading.(current := Some(loading.current.value.(duration := Some(duration))))), Resolved)
    case LoadError =>
      var afterOnError := OnEnded(loading);
      Rethrow(afterOnError, HandleError(afterOnError))
    case PlayRejected(reason) => Rethrow(loading, Rejected(reason))
  }

  /** A load error leaves the caller waiting forever, whatever the player held before. */
  lemma LoadErrorNeverSettles(p: Player, audioPath: string, now: nat)
    ensures PlayAudio(p, audioPath, now, LoadError).settlement == Pending
    ensures PlayAudio(p, audioPath, now, LoadError).player == Cleanup(p)
  {
  }

  /**
   * `playAudio` as evidently intended: the `error` listener reaches `reject` even after the
   * `onerror` handler has cleaned up, so a load error is rethrown like any other failure.
   */
  function PlayAudioFixed(p: Player, audioPath: string, now: nat, outcome: PlayOutcome): (r: PlayResult)
    ensures r.player.Valid()
  {
    var stopped := StopAudio(p);
    var loading := Player(Some(Fresh(audioPath, now)), stopped.isPlaying);
    match outcome
    case Started(duration) =>
      PlayResult(OnPlay(loading.(current := Some(loading.current.value.(duration := Some(duration))))), Resolved)
    case LoadError => Rethrow(OnEnded(loading), Rejected(LOAD_FAILED))
    case PlayRejected(reason) => Rethrow(loading, Rejected(reason))
  }

  /**
   * The corrected `playAudio` always settles: it resolves exactly when the element started,
   * and every failure is rejected with the prefixed message, leaving the player cleaned up.
   * Apart from the load error it agrees with the code as written.
   */
  lemma FixedPlayAlwaysSettles(p: Player, audioPath: string, now: nat, outcome: PlayOutcome)
    ensures var r := PlayAudioFixed(p, audioPath, now, outcome);
      && r.settlement != Pending
      && (r.settlement == Resolved <==> outcome.Started?)
      && (outcome.LoadError? ==> r == PlayResult(Cleanup(p), Rejected(PLAY_FAILED_PREFIX + LOAD_FAILED)))
      && (!outcome.LoadError? ==> r == PlayAudio(p, audioPath, now, outcome))
  {
  }

  /** `onplay`: the element plays. */
  function OnPlay(p: Player): (r: Player)
    requires p.current.Some?
    ensures r.isPlaying && r.Valid() && r.current.Some? && !r.current.value.paused
    ensures r.current.value == p.current.value.(paused := false)
  {
    Player(Some(p.current.value.(paused := false)), true)
  }

  /** `onpause`: the element is paused. */
  function OnPause(p: Player): (r: Player)
    ensures !r.isPlaying && r.current.Some? == p.current.Some? && r.Valid()
  {
    match p.current
    case Some(a) => Player(Some(a.(paused := true)), false)
    case None => Player(None, false)
  }

  /** `onended` and `onerror` alike: playback is over and the player is cleaned up. */
  function OnEnded(p: Player): (r: Player)
    ensures r.current.None? && !r.isPlaying
  {
    Cleanup(p.(isPlaying := false))
  }

  /** `pauseAudio`: acts only on an element that is playing; its `pause` event follows. */
  function PauseAudio(p: Player): (r: Player)
    ensures p.current.Some? && p.isPlaying ==> !r.isPlaying && r.current.Some? && r.current.value.paused
    ensures !(p.current.Some? && p.isPlaying) ==> r == p
    ensures p.Valid() ==> r.Valid()
  {
    if p.current.Some? && p.isPlaying then OnPause(p) else p
  }

  /**
   * `resumeAudio`: acts only on an element that is not playing. When `play()` succeeds the
   * `play` event follows; a rejection is only logged.
   */
  function ResumeAudio(p: Player, succeeds: bool): (r: Player)
    ensures p.current.Some? && !p.isPlaying && succeeds ==> r.isPlaying && r.current.Some?
    ensures !(p.current.Some? && !p.isPlaying && succeeds) ==> r == p
    ensures p.Valid() ==> r.Valid()
  {
    if p.current.Some? && !p.isPlaying && succeeds then OnPlay(p) else p
  }

  /** `getCurrentTime`: the element's position, 0 without an element. */
  function GetCurrentTime(p: Player): (t: real)
    ensures p.current.None? ==> t == 0.0
    ensures p.current.Some? ==> t == p.current.value.currentTime
  {
    match p.current
    case Some(a) => a.currentTime
    case None => 0.0
  }

  /** `getDuration`: the element's duration, 0 without an element or before it is known. */
  function GetDuration(p: Player): (d: real)
    ensures p.current.None? || p.current.value.duration.None? ==> d == 0.0
    ensures p.current.Some? && p.current.value.duration.Some? ==> d == p.current.value.duration.value
  {
    match p.current
    case Some(a) => a.duration.GetOr(0.0)
    case None => 0.0
  }

  /** `setCurrentTime`: moves the position of an existing element; nothing else changes. */
  function SetCurrentTime(p: Player, time: real): (r: Player)
    ensures p.current.None? ==> r == p
    ensures p.current.Some? ==> r.current == Some(p.current.value.(currentTime := time)) && r.isPlaying == p.isPlaying
  {
    match p.current
    case Some(a) => p.(current := Some(a.(currentTime := time)))
    case None => p
  }

  /** `Math.max(0, Math.min(1, v))`. */
  function ClampVolume(v: real): (r: real)
    ensures 0.0 <= r <= 1.0
    ensures 0.0 <= v <= 1.0 ==> r == v
    ensures v < 0.0 ==> r == 0.0
    ensures v > 1.0 ==> r == 1.0
  {
    if v < 0.0 then 0.0 else if v > 1.0 then 1.0 else v
  }

  /** `setVolume`: stores the clamped volume on an existing element, otherwise does nothing. */
  function SetVolume(p: Player, v: real): (r: Player)
    ensures p.current.None? ==> r == p
    ensures p.current.Some? ==>
      && r.current.Some? && r.current.value.volume == ClampVolume(v)
      && r.current.value.(volume := p.current.value.volume) == p.current.value
      && r.isPlaying == p.isPlaying
  {
    match p.current
    case Some(a) => p.(current := Some(a.(volume := ClampVolume(v))))
    case None => p
  }

  /** Setting the volume twice keeps only the second value. */
  lemma SetVolumeTwice(p: Player, v: real, w: real)
    ensures SetVolume(SetVolume(p, v), w) == SetVolume(p, w)
  {
  }

  /** `destroy`: stop, then clean up; always ends with no element and nothing playing. */
  function Destroy(p: Player): (r: Player)
    ensures r.current.None? && !r.isPlaying
  {
    Cleanup(StopAudio(p))
  }

  /**
   * `getGlobalAudioPlayer`: the process-wide player, created on first use. The slot holds it
   * afterwards.
   */
  function GetGlobalAudioPlayer(slot: Option<Player>): (r: (Option<Player>, Player))
    ensures r.0 == Some(r.1)
    ensures slot.Some? ==> r.1 == slot.value
    ensures slot.None? ==> r.1 == NewPlayer()
  {
    match slot
    case Some(p) => (slot, p)
    case None => (Some(NewPlayer()), NewPlayer())
  }

  /** Every later call returns the same player and leaves the slot as it is. */
  lemma GlobalPlayerIsSingleton(slot: Option<Player>)
    ensures var (slot1, p1) := GetGlobalAudioPlayer(slot);
      GetGlobalAudioPlayer(slot1) == (slot1, p1)
  {
  }
}
