/**
 * The animation side of `SceneBuilder`: loading one motion clip per configured motion name,
 * registering the clips under their names, picking the default animation, the loop-restart
 * hook, and `playAnimation` / `hasAnimation` / `getAvailableAnimations`.
 * The MMD runtime and the WASM animation objects are plain records here.
 */
module AnimationRegistry {
  import opened Wrappers
  import opened OrderedMap
  import Seqs

  /** A loaded motion clip: the name it carries and the loader's opaque payload. */
  datatype Clip = Clip(name: string, payload: seq<int>)

  /** `vmdLoader.loadAsync(name, files)`: outside code, so the model takes it as a parameter. */
  type Loader = (string, seq<string>) -> Clip

  /** The motion configuration: motion name to its VMD file list, in insertion order. */
  type MotionConfig = Entries<seq<string>>

  /** The clip the load started for configuration index `i` produces: its own name and files. */
  function ClipFor(load: Loader, config: MotionConfig, i: nat): Clip
    requires i < |config|
  {
    load(config[i].0, config[i].1)
  }

  /**
   * The configuration indices in the order their loads finished: every one is a valid index
   * and every index finishes. Nothing is said about what the loads produce.
   */
  predicate IsCompletionOrder(config: MotionConfig, arrivals: seq<nat>) {
    && (forall k :: 0 <= k < |arrivals| ==> arrivals[k] < |config|)
    && (forall i :: 0 <= i < |config| ==> i in arrivals)
  }

  /** The slots once every one is filled. */
  function Filled(slots: seq<Option<Clip>>): (clips: seq<Clip>)
    requires forall i :: 0 <= i < |slots| ==> slots[i].Some?
    ensures |clips| == |slots| && forall i :: 0 <= i < |slots| ==> slots[i] == Some(clips[i])
  {
    seq(|slots|, i requires 0 <= i < |slots| => slots[i].value)
  }

  /**
   * `Promise.all` over the per-name loads: each completion is stored in the slot of the index
   * it was started for, so the result lists the clips in configuration order whatever the
   * order in which the loads finished.
   */
  method JoinLoads(load: Loader, config: MotionConfig, arrivals: seq<nat>) returns (clips: seq<Clip>)
    requires IsCompletionOrder(config, arrivals)
    ensures |clips| == |config|
    ensures forall i :: 0 <= i < |config| ==> clips[i] == load(config[i].0, config[i].1)
  {
    var slots: seq<Option<Clip>> := seq(|config|, _ => None);
    var k := 0;
    while k < |arrivals|
      invariant 0 <= k <= |arrivals|
      invariant |slots| == |config|
      invariant forall i :: 0 <= i < |config| && slots[i].Some? ==> slots[i].value == ClipFor(load, config, i)
      invariant forall j :: 0 <= j < k ==> slots[arrivals[j]].Some?
    {
      var i := arrivals[k];
      slots := slots[i := Some(load(config[i].0, config[i].1))];
      k := k + 1;
    }
    forall i | 0 <= i < |config| ensures slots[i].Some? {
      assert i in arrivals;
      var j :| 0 <= j < |arrivals| && arrivals[j] == i;
    }
    clips := Filled(slots);
  }

  /** `mmdWasmAnimations[animationNames[i]] = clips[i]` for the first `n` indices, in order. */
  function Register(names: seq<string>, clips: seq<Clip>, n: nat): Entries<Clip>
    requires |clips| == |names| && n <= |names|
    decreases n
  {
    if n == 0 then [] else Put(Register(names, clips, n - 1), names[n - 1], clips[n - 1])
  }

  predicate Distinct(names: seq<string>) {
    forall i, j :: 0 <= i < j < |names| ==> names[i] != names[j]
  }

  /**
   * With distinct names (object keys always are), the registry's keys are the names in
   * configuration order and each name maps to the clip at its own index.
   */
  lemma RegisterContents(names: seq<string>, clips: seq<Clip>, n: nat)
    requires |clips| == |names| && n <= |names| && Distinct(names)
    ensures Keys(Register(names, clips, n)) == names[..n]
    ensures forall i :: 0 <= i < n ==> Lookup(Register(names, clips, n), names[i]) == Some(clips[i])
  {
    DistinctFresh(names, n);
    RegisterIsZip(names, clips, n);
    var z := Register(names, clips, n);
    PairedKeys(z, names, clips, n);
    forall i | 0 <= i < n ensures Lookup(z, names[i]) == Some(clips[i]) {
      LookupDistinct(z, i);
    }
  }

  /** With distinct names every assignment appends, so the registry is the names zipped with the clips. */
  lemma {:induction false} RegisterIsZip(names: seq<string>, clips: seq<Clip>, n: nat)
    requires |clips| == |names| && n <= |names| && FreshPrefix(names, n)
    ensures var r := Register(names, clips, n);
      |r| == n && forall i :: 0 <= i < n ==> r[i] == (names[i], clips[i])
    decreases n
  {
    if n > 0 {
      var prev := Register(names, clips, n - 1);
      RegisterIsZip(names, clips, n - 1);
      PairedKeys(prev, names, clips, n - 1);
      RegisterAppends(names, clips, n);
      var r := Register(names, clips, n);
      forall i | 0 <= i < n ensures r[i] == (names[i], clips[i]) {
        if i < n - 1 {
          assert r[i] == prev[i];
        }
      }
    }
  }

  /** A fresh name is appended after the names registered before it. */
  lemma RegisterAppends(names: seq<string>, clips: seq<Clip>, n: nat)
    requires |clips| == |names| && 0 < n <= |names| && FreshPrefix(names, n)
    requires Keys(Register(names, clips, n - 1)) == names[..n - 1]
    ensures Register(names, clips, n) == Register(names, clips, n - 1) + [(names[n - 1], clips[n - 1])]
  {
    PutAbsent(Register(names, clips, n - 1), names[n - 1], clips[n - 1]);
  }

  /** Entries that pair names with clips have exactly those names as keys, distinct when the names are. */
  lemma PairedKeys(z: Entries<Clip>, names: seq<string>, clips: seq<Clip>, n: nat)
    requires |clips| == |names| && n <= |names|
    requires |z| == n && forall i :: 0 <= i < n ==> z[i] == (names[i], clips[i])
    ensures Keys(z) == names[..n]
    ensures Distinct(names) ==> DistinctKeys(z)
  {
    assert forall i :: 0 <= i < n ==> Keys(z)[i] == names[..n][i];
  }

  /** Each of the first `n` names differs from every name before it. */
  predicate FreshPrefix(names: seq<string>, n: nat)
    requires n <= |names|
  {
    n == 0 || (names[n - 1] !in names[..n - 1] && FreshPrefix(names, n - 1))
  }

  lemma {:induction false} DistinctFresh(names: seq<string>, n: nat)
    requires Distinct(names) && n <= |names|
    ensures FreshPrefix(names, n)
    decreases n
  {
    if n > 0 {
      NotEarlier(names, n - 1);
      DistinctFresh(names, n - 1);
    }
  }

  /** With distinct names, `names[k]` does not occur before index `k`. */
  lemma NotEarlier(names: seq<string>, k: nat)
    requires Distinct(names) && k < |names|
    ensures names[k] !in names[..k]
  {
  }

  /**
   * The default animation: `idle` when configured, otherwise the first name. An empty list
   * or an empty first name (both falsy in JavaScript) gives no default.
   */
  function DefaultAnimation(names: seq<string>): (d: Option<string>)
    ensures "idle" in names <==> d == Some("idle")
    ensures d.Some? ==> d.value in names && d.value != ""
    ensures d.None? <==> |names| == 0 || ("idle" !in names && names[0] == "")
    ensures "idle" !in names && d.Some? ==> d.value == names[0]
  {
    if "idle" in names then Some("idle")
    else if |names| > 0 && names[0] != "" then Some(names[0])
    else None
  }

  /** The animation state `SceneBuilder` keeps. */
  datatype Builder = Builder(
    modelLoaded: bool,                   // `mmdModel` is set
    registry: Option<Entries<Clip>>,     // `mmdWasmAnimations`
    active: Option<string>,              // the model's current animation
    runtime: Runtime,
    loopHook: bool)                      // the pause observer is registered

  /** The MMD runtime's clock: current frame, clip duration, whether it plays, physics resets. */
  datatype Runtime = Runtime(currentFrameTime: real, frameTimeDuration: real, playing: bool, physicsResets: nat)

  /** A builder before `build` has run. */
  function Unbuilt(rt: Runtime): (b: Builder)
    ensures !b.modelLoaded && b.registry.None? && b.active.None? && !b.loopHook
  {
    Builder(false, None, None, rt, false)
  }

  /**
   * The end of `build`, after the loads have joined: register the clips, attach the model,
   * start the runtime, select the default and, only when there is one, install the hook.
   */
  function Build(rt: Runtime, config: MotionConfig, clips: seq<Clip>): (b: Builder)
    requires |clips| == |config|
    ensures b.modelLoaded && b.registry.Some? && b.runtime.playing
    ensures b.active == DefaultAnimation(Keys(config))
    ensures b.loopHook <==> DefaultAnimation(Keys(config)).Some?
  {
    var names := Keys(config);
    var registry := Register(names, clips, |names|);
    var d := DefaultAnimation(names);
    Builder(true, Some(registry), d, rt.(playing := true), d.Some?)
  }

  /** `getAvailableAnimations`: `[]` before a build, otherwise the registry's keys. */
  function AvailableAnimations(b: Builder): (r: seq<string>)
    ensures b.registry.None? ==> r == []
    ensures b.registry.Some? ==> r == Keys(b.registry.value)
  {
    match b.registry
    case None => []
    case Some(reg) => Keys(reg)
  }

  /** `hasAnimation`: the registry exists and holds the name. */
  predicate HasAnimation(b: Builder, name: string) {
    b.registry.Some? && Lookup(b.registry.value, name).Some?
  }

  /** `hasAnimation` agrees with membership in `getAvailableAnimations`. */
  lemma HasIffAvailable(b: Builder, name: string)
    ensures HasAnimation(b, name) <==> name in AvailableAnimations(b)
  {
  }

  /**
   * After a build from a configuration, the available animations are exactly the configured
   * names in configuration order, and each is backed by the clip loaded for it.
   */
  lemma BuildRegistersConfig(load: Loader, rt: Runtime, config: MotionConfig, clips: seq<Clip>)
    requires |clips| == |config| && DistinctKeys(config)
    requires forall i :: 0 <= i < |config| ==> clips[i] == ClipFor(load, config, i)
    ensures AvailableAnimations(Build(rt, config, clips)) == Keys(config)
    ensures forall i :: 0 <= i < |config| ==>
      Lookup(Build(rt, config, clips).registry.value, config[i].0) == Some(load(config[i].0, config[i].1))
  {
    var names := Keys(config);
    RegisterContents(names, clips, |names|);
    assert names[..|names|] == names;
  }

  /**
   * `playAnimation`: false and no change when the model or registry is missing or the name is
   * unknown; otherwise the name becomes active, the runtime plays, and the result is true.
   */
  function PlayAnimation(b: Builder, name: string): (r: (Builder, bool))
    ensures r.1 <==> b.modelLoaded && HasAnimation(b, name)
    ensures !r.1 ==> r.0 == b
    ensures r.1 ==> r.0 == b.(active := Some(name), runtime := b.runtime.(playing := true))
  {
    if !b.modelLoaded || b.registry.None? then (b, false)
    else if Lookup(b.registry.value, name).None? then (b, false)
    else (b.(active := Some(name), runtime := b.runtime.(playing := true)), true)
  }

  /**
   * The pause observer installed by `build`: when the runtime paused exactly at the end of
   * the clip, seek to frame 0, play again, and reset physics once playing resumes.
   */
  function OnPauseAnimation(b: Builder): (r: Builder)
    ensures b.loopHook && b.runtime.currentFrameTime == b.runtime.frameTimeDuration ==>
      && r.runtime.currentFrameTime == 0.0 && r.runtime.playing
      && r.runtime.physicsResets == b.runtime.physicsResets + 1
      && r.(runtime := b.runtime) == b
    ensures !(b.loopHook && b.runtime.currentFrameTime == b.runtime.frameTimeDuration) ==> r == b
  {
    if b.loopHook && b.runtime.frameTimeDuration == b.runtime.currentFrameTime then
      b.(runtime := b.runtime.(currentFrameTime := 0.0, playing := true,
                               physicsResets := b.runtime.physicsResets + 1))
    else b
  }

  /** A configuration that holds `idle` builds with `idle` active and the loop hook installed. */
  lemma IdleConfigLoops(rt: Runtime, config: MotionConfig, clips: seq<Clip>)
    requires |clips| == |config| && "idle" in Keys(config)
    ensures Build(rt, config, clips).active == Some("idle")
    ensures Build(rt, config, clips).loopHook
  {
  }
}
