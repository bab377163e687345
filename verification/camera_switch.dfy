/**
 * The double-click camera switch `setupCameraControls` installs on the canvas: two cameras
 * (orbit at index 0, MMD at index 1), a last-click time that starts at minus infinity, and a
 * 500 ms window.
 */
module CameraSwitch {
  import opened Wrappers

  const DOUBLE_CLICK_WINDOW: real := 500.0
  const CAMERA_COUNT: nat := 2

  /** `lastClick` is `None` for minus infinity. */
  datatype CameraState = CameraState(index: nat, lastClick: Option<real>)

  function Initial(): (s: CameraState)
    ensures s.index == 0 && s.lastClick.None?
  {
    CameraState(0, None)
  }

  /** A click at `now` is the second of a double click: within 500 ms of the recorded click. */
  predicate IsDoubleClick(s: CameraState, now: real) {
    s.lastClick.Some? && !(DOUBLE_CLICK_WINDOW < now - s.lastClick.value)
  }

  /**
   * `canvas.onclick`: a click more than 500 ms after the last recorded one only records its
   * time; a closer click switches to the other camera and forgets the last click.
   */
  function Click(s: CameraState, now: real): (r: CameraState)
    ensures s.index < CAMERA_COUNT ==> r.index < CAMERA_COUNT
    ensures IsDoubleClick(s, now) ==> r.index != s.index % CAMERA_COUNT && r.lastClick.None?
    ensures !IsDoubleClick(s, now) ==> r.index == s.index && r.lastClick == Some(now)
  {
    if s.lastClick.None? || DOUBLE_CLICK_WINDOW < now - s.lastClick.value then
      s.(lastClick := Some(now))
    else
      CameraState((s.index + 1) % CAMERA_COUNT, None)
  }

  /** The very first click never switches cameras. */
  lemma FirstClickNeverToggles(now: real)
    ensures Click(Initial(), now) == CameraState(0, Some(now))
  {
  }

  /** The click right after a switch never switches again, whatever its timing. */
  lemma ClickAfterToggleNeverToggles(s: CameraState, t1: real, t2: real)
    requires IsDoubleClick(s, t1)
    ensures !IsDoubleClick(Click(s, t1), t2)
    ensures Click(Click(s, t1), t2).index == Click(s, t1).index
  {
  }

  /** Two clicks at most 500 ms apart on a fresh canvas switch to the MMD camera. */
  lemma DoubleClickSwitches(t1: real, t2: real)
    requires t2 - t1 <= DOUBLE_CLICK_WINDOW
    ensures Click(Click(Initial(), t1), t2) == CameraState(1, None)
  {
  }

  /** Two clicks more than 500 ms apart only move the recorded time. */
  lemma SlowClicksDoNotSwitch(t1: real, t2: real)
    requires t2 - t1 > DOUBLE_CLICK_WINDOW
    ensures Click(Click(Initial(), t1), t2) == CameraState(0, Some(t2))
  {
  }

  /** The state after clicks at the given times, in order. */
  function Clicks(s: CameraState, times: seq<real>): CameraState
    decreases |times|
  {
    if |times| == 0 then s else Clicks(Click(s, times[0]), times[1..])
  }

  /** How many of the clicks switch cameras. */
  function Switches(s: CameraState, times: seq<real>): nat
    decreases |times|
  {
    if |times| == 0 then 0
    else (if IsDoubleClick(s, times[0]) then 1 else 0) + Switches(Click(s, times[0]), times[1..])
  }

  /** The active camera is the starting one advanced once per switch, modulo two. */
  lemma {:induction false} IndexCountsSwitches(s: CameraState, times: seq<real>)
    requires s.index < CAMERA_COUNT
    ensures Clicks(s, times).index == (s.index + Switches(s, times)) % CAMERA_COUNT
    decreases |times|
  {
    if |times| > 0 {
      IndexCountsSwitches(Click(s, times[0]), times[1..]);
    }
  }

  /** Switches never come two in a row: between any two switches lies a click that records. */
  lemma {:induction false} SwitchesAtMostHalf(s: CameraState, times: seq<real>)
    ensures Switches(s, times) <= (|times| + (if s.lastClick.Some? then 1 else 0)) / 2
    decreases |times|
  {
    if |times| > 0 {
      var s1 := Click(s, times[0]);
      SwitchesAtMostHalf(s1, times[1..]);
      if IsDoubleClick(s, times[0]) && |times| > 1 {
        var s2 := Click(s1, times[1]);
        assert !IsDoubleClick(s1, times[1]);
        SwitchesAtMostHalf(s2, times[2..]);
        assert times[1..][1..] == times[2..];
      }
    }
  }
}
