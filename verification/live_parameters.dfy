/**
 * `SceneBuilder.updateScene` and its three parts: the live application of control-panel data
 * to the running scene. The Babylon objects are plain records: the directional light, the
 * shadow generator (with counters of how many were created and disposed), the scene's meshes,
 * its transform nodes and root nodes, the cached model handle and the canvas background.
 */
module LiveParameters {
  import opened Wrappers
  import opened SceneTypes
  import opened Text
  import Seqs

  // ---------------------------------------------------------------- shadow quality

  /**
   * The values of `ShadowGenerator.QUALITY_LOW`, `QUALITY_MEDIUM` and `QUALITY_HIGH`.
   * They are engine constants, so they are parameters; Babylon's own are `BABYLON_QUALITY`.
   */
  datatype QualityConstants = QualityConstants(low: int, medium: int, high: int)

  const BABYLON_QUALITY: QualityConstants := QualityConstants(2, 1, 0)

  const DEFAULT_MAP_SIZE: nat := 512
  const MEDIUM_MAP_SIZE: nat := 1024
  const HIGH_MAP_SIZE: nat := 2048
  const FRUSTUM_EDGE_FALLOFF: real := 0.1

  /** The shadow map size for a quality name: 512 unless it is `medium` or `high`. */
  function MapSize(quality: string): (n: nat)
    ensures quality == "medium" ==> n == MEDIUM_MAP_SIZE
    ensures quality == "high" ==> n == HIGH_MAP_SIZE
    ensures quality != "medium" && quality != "high" ==> n == DEFAULT_MAP_SIZE
  {
    if quality == "medium" then MEDIUM_MAP_SIZE
    else if quality == "high" then HIGH_MAP_SIZE
    else DEFAULT_MAP_SIZE
  }

  /** The `qualityMap` object literal: only the three names are keys. */
  function QualityMap(quality: string, k: QualityConstants): (r: Option<int>)
    ensures r.Some? <==> quality in {"low", "medium", "high"}
  {
    if quality == "low" then Some(k.low)
    else if quality == "medium" then Some(k.medium)
    else if quality == "high" then Some(k.high)
    else None
  }

  /**
   * Filtering quality when a generator is created: `qualityMap[q] || QUALITY_MEDIUM`.
   * A missing entry and a mapped value of 0 (falsy) both become the medium constant.
   */
  function CreationFiltering(quality: string, k: QualityConstants): (f: int)
    ensures QualityMap(quality, k).Some? && QualityMap(quality, k).value != 0 ==> f == QualityMap(quality, k).value
    ensures QualityMap(quality, k).None? || QualityMap(quality, k).value == 0 ==> f == k.medium
  {
    match QualityMap(quality, k)
    case Some(v) => if v != 0 then v else k.medium
    case None => k.medium
  }

  /** Filtering quality when an existing generator is checked: low unless `medium` or `high`. */
  function RecheckFiltering(quality: string, k: QualityConstants): (f: int)
    ensures quality == "medium" ==> f == k.medium
    ensures quality == "high" ==> f == k.high
    ensures quality != "medium" && quality != "high" ==> f == k.low
  {
    if quality == "medium" then k.medium
    else if quality == "high" then k.high
    else k.low
  }

  // ---------------------------------------------------------------- scene records

  datatype Mesh = Mesh(name: string, receiveShadows: bool)

  /** Every mesh except the ones named `ground` and `background` casts shadows. */
  predicate IsCaster(m: Mesh) {
    m.name != "ground" && m.name != "background"
  }

  datatype Generator = Generator(mapSize: nat, filteringQuality: int, casters: seq<nat>, frustumEdgeFalloff: real)

  datatype Light = Light(intensity: real, direction: Vec3, diffuse: Rgb, specular: Rgb, shadowBoundsFromSettings: bool)

  /** A transform node: `meshes` is the length of `metadata.meshes` when the node has one. */
  datatype Node = Node(name: string, meshes: Option<nat>, position: Vec3, rotation: Vec3, scaling: Vec3)

  datatype World = World(
    light: Option<Light>,
    hasScene: bool,
    ambient: Rgb,
    generator: Option<Generator>,
    created: nat,                  // shadow generators constructed so far
    disposed: nat,                 // shadow generators disposed so far
    meshes: seq<Mesh>,             // `scene.meshes`
    nodes: seq<Node>,              // every transform node
    roots: seq<nat>,               // `scene.rootNodes`, as indices into `nodes`
    handle: Option<nat>,           // the cached `mmdMesh`, an index into `nodes`
    canvasBackground: Option<string>)  // the canvas's `backgroundImage`, absent without a canvas
  {
    /** Node references point at existing nodes. */
    predicate WellFormed() {
      && (forall i :: 0 <= i < |roots| ==> roots[i] < |nodes|)
      && (handle.Some? ==> handle.value < |nodes|)
    }

    /** Every generator ever created has been disposed, except the live one. */
    predicate NoLeakedGenerator() {
      created == disposed + (if generator.Some? then 1 else 0)
    }
  }

  function Range(n: nat): (r: seq<nat>)
    ensures |r| == n && forall i :: 0 <= i < n ==> r[i] == i
  {
    seq(n, i requires 0 <= i < n => i)
  }

  /** The indices of the meshes `addShadowCaster` is called on, in scene order, each once. */
  function CasterIndices(meshes: seq<Mesh>): (r: seq<nat>)
    ensures forall j :: 0 <= j < |r| ==> r[j] < |meshes| && IsCaster(meshes[r[j]])
    ensures forall i :: 0 <= i < |meshes| && IsCaster(meshes[i]) ==> i in r
    ensures Increasing(r)
  {
    var r := Seqs.Filter(Range(|meshes|), (i: nat) => i < |meshes| && IsCaster(meshes[i]));
    forall i | 0 <= i < |meshes| && IsCaster(meshes[i]) ensures i in r {
      assert Range(|meshes|)[i] == i;
    }
    FilterIncreasing(Range(|meshes|), (i: nat) => i < |meshes| && IsCaster(meshes[i]));
    r
  }

  /** Strictly ascending, hence without repeats. */
  predicate Increasing(s: seq<nat>) {
    forall i, j :: 0 <= i < j < |s| ==> s[i] < s[j]
  }

  /** Filtering an ascending sequence keeps it ascending. */
  lemma {:induction false} FilterIncreasing(s: seq<nat>, p: nat -> bool)
    requires Increasing(s)
    ensures Increasing(Seqs.Filter(s, p))
    decreases |s|
  {
    if |s| > 0 {
      FilterIncreasing(s[1..], p);
      var rest := Seqs.Filter(s[1..], p);
      forall k | 0 <= k < |rest| ensures s[0] < rest[k] {
        var j :| 0 <= j < |s[1..]| && s[1..][j] == rest[k];
        assert s[j + 1] == rest[k];
      }
    }
  }

  /** Every mesh named `ground` receives shadows; the others are left as they were. */
  function MarkGroundReceivers(meshes: seq<Mesh>): (r: seq<Mesh>)
    ensures |r| == |meshes|
    ensures forall i :: 0 <= i < |meshes| ==>
      r[i] == if meshes[i].name == "ground" then meshes[i].(receiveShadows := true) else meshes[i]
  {
    Seqs.Map(meshes, (m: Mesh) => if m.name == "ground" then m.(receiveShadows := true) else m)
  }

  /** `getMeshByName("ground")`: the first mesh with that name. */
  function FirstGround(meshes: seq<Mesh>): (r: Option<nat>)
    ensures r.Some? ==> r.value < |meshes| && meshes[r.value].name == "ground"
    ensures r.Some? ==> forall j :: 0 <= j < r.value ==> meshes[j].name != "ground"
    ensures r.None? ==> forall j :: 0 <= j < |meshes| ==> meshes[j].name != "ground"
    decreases |meshes|
  {
    if |meshes| == 0 then None
    else if meshes[0].name == "ground" then Some(0)
    else match FirstGround(meshes[1..])
      case Some(j) => Some(j + 1)
      case None => None
  }

  /** The first `ground` mesh stops receiving shadows; nothing else changes. */
  function ClearFirstGround(meshes: seq<Mesh>): (r: seq<Mesh>)
    ensures |r| == |meshes|
    ensures FirstGround(meshes).Some? ==>
      r == meshes[FirstGround(meshes).value := meshes[FirstGround(meshes).value].(receiveShadows := false)]
    ensures FirstGround(meshes).None? ==> r == meshes
  {
    match FirstGround(meshes)
    case Some(g) => meshes[g := meshes[g].(receiveShadows := false)]
    case None => meshes
  }

  /** A freshly constructed generator with the casters of the current meshes. */
  function NewGenerator(quality: string, filtering: int, meshes: seq<Mesh>): Generator {
    Generator(MapSize(quality), filtering, CasterIndices(meshes), FRUSTUM_EDGE_FALLOFF)
  }

  // ---------------------------------------------------------------- updateLighting

  /**
   * `updateLighting`. Nothing happens without a light or a scene. Otherwise the light takes
   * the intensity, the normalised direction and the colour (diffuse and specular alike), the
   * ambient colour is grey at the ambient intensity, and the shadow generator is created,
   * recreated, kept or disposed. `normalize` stands for `Vector3.normalize`.
   */
  function UpdateLighting(w: World, d: LightingData, k: QualityConstants, normalize: Vec3 -> Vec3): (r: World)
    ensures w.light.None? || !w.hasScene ==> r == w
    ensures w.light.Some? && w.hasScene ==>
      && r.light.Some?
      && r.light.value.intensity == d.intensity
      && r.light.value.direction == normalize(d.direction)
      && r.light.value.diffuse == d.color && r.light.value.specular == d.color
      && r.ambient == Rgb(d.ambientIntensity, d.ambientIntensity, d.ambientIntensity)
    ensures d.shadowEnabled && w.light.Some? && w.hasScene ==> r.generator.Some?
    ensures !d.shadowEnabled && w.light.Some? && w.hasScene ==> r.generator.None?
    ensures r.nodes == w.nodes && r.roots == w.roots && r.handle == w.handle
    ensures r.canvasBackground == w.canvasBackground && r.hasScene == w.hasScene
    ensures |r.meshes| == |w.meshes| && forall i :: 0 <= i < |w.meshes| ==> r.meshes[i].name == w.meshes[i].name
    ensures w.NoLeakedGenerator() ==> r.NoLeakedGenerator()
  {
    if w.light.None? || !w.hasScene then w
    else
      var a := d.ambientIntensity;
      var lit := w.light.value.(intensity := d.intensity, direction := normalize(d.direction),
                                diffuse := d.color, specular := d.color);
      var w1 := w.(light := Some(lit), ambient := Rgb(a, a, a));
      if d.shadowEnabled then
        if w1.generator.None? then
          var g := NewGenerator(d.shadowQuality, CreationFiltering(d.shadowQuality, k), w1.meshes);
          w1.(generator := Some(g), created := w1.created + 1,
              light := Some(lit.(shadowBoundsFromSettings := true)),
              meshes := MarkGroundReceivers(w1.meshes))
        else
          var f := RecheckFiltering(d.shadowQuality, k);
          if w1.generator.value.filteringQuality != f then
            var g := NewGenerator(d.shadowQuality, f, w1.meshes);
            w1.(generator := Some(g), disposed := w1.disposed + 1, created := w1.created + 1,
                meshes := MarkGroundReceivers(w1.meshes))
          else w1
      else if w1.generator.Some? then
        w1.(generator := None, disposed := w1.disposed + 1, meshes := ClearFirstGround(w1.meshes))
      else w1
  }

  /**
   * With shadows enabled and no generator, one is created: map size by quality, filtering
   * `qualityMap[q] || QUALITY_MEDIUM`, falloff 0.1, every non-ground, non-background mesh a
   * caster, and every `ground` mesh a receiver.
   */
  lemma CreateGenerator(w: World, d: LightingData, k: QualityConstants, normalize: Vec3 -> Vec3)
    requires w.light.Some? && w.hasScene && d.shadowEnabled && w.generator.None?
    ensures var r := UpdateLighting(w, d, k, normalize);
      && r.generator == Some(Generator(MapSize(d.shadowQuality), CreationFiltering(d.shadowQuality, k),
                                       CasterIndices(w.meshes), FRUSTUM_EDGE_FALLOFF))
      && r.created == w.created + 1 && r.disposed == w.disposed
      && r.meshes == MarkGroundReceivers(w.meshes)
  {
  }

  /**
   * With shadows enabled and a generator present, it is disposed and recreated exactly when
   * the rechecked filtering quality differs from its own; otherwise the shadow state is kept.
   */
  lemma RecheckGenerator(w: World, d: LightingData, k: QualityConstants, normalize: Vec3 -> Vec3)
    requires w.light.Some? && w.hasScene && d.shadowEnabled && w.generator.Some?
    ensures var r := UpdateLighting(w, d, k, normalize);
      var f := RecheckFiltering(d.shadowQuality, k);
      && (w.generator.value.filteringQuality != f <==> r.created == w.created + 1)
      && (w.generator.value.filteringQuality != f ==>
            && r.generator == Some(Generator(MapSize(d.shadowQuality), f, CasterIndices(w.meshes), FRUSTUM_EDGE_FALLOFF))
            && r.disposed == w.disposed + 1 && r.meshes == MarkGroundReceivers(w.meshes))
      && (w.generator.value.filteringQuality == f ==>
            r.generator == w.generator && r.created == w.created && r.disposed == w.disposed && r.meshes == w.meshes)
  {
  }

  /**
   * With shadows disabled, an existing generator is disposed and the first `ground` mesh stops
   * receiving shadows; without a generator the meshes are untouched.
   */
  lemma DisableShadows(w: World, d: LightingData, k: QualityConstants, normalize: Vec3 -> Vec3)
    requires w.light.Some? && w.hasScene && !d.shadowEnabled
    ensures var r := UpdateLighting(w, d, k, normalize);
      && r.generator.None?
      && (w.generator.Some? ==> r.disposed == w.disposed + 1 && r.meshes == ClearFirstGround(w.meshes))
      && (w.generator.None? ==> r.disposed == w.disposed && r.meshes == w.meshes)
      && r.created == w.created
  {
  }

  /** Enabling and then disabling shadows leaves no generator and the first ground not receiving. */
  lemma EnableThenDisable(w: World, on: LightingData, off: LightingData, k: QualityConstants, normalize: Vec3 -> Vec3)
    requires w.light.Some? && w.hasScene && on.shadowEnabled && !off.shadowEnabled
    requires FirstGround(w.meshes).Some?
    ensures var r := UpdateLighting(UpdateLighting(w, on, k, normalize), off, k, normalize);
      var g := FirstGround(w.meshes).value;
      r.generator.None? && g < |r.meshes| && !r.meshes[g].receiveShadows
  {
    var mid := UpdateLighting(w, on, k, normalize);
    FirstGroundByName(w.meshes, mid.meshes);
  }

  /** `FirstGround` depends only on the mesh names. */
  lemma {:induction false} FirstGroundByName(a: seq<Mesh>, b: seq<Mesh>)
    requires |a| == |b| && forall i :: 0 <= i < |a| ==> a[i].name == b[i].name
    ensures FirstGround(a) == FirstGround(b)
    decreases |a|
  {
    if |a| > 0 {
      FirstGroundByName(a[1..], b[1..]);
    }
  }

  /**
   * Repeating the same lighting data settles after two calls: the second call leaves the
   * generator's filtering at the rechecked value, and a third call changes nothing.
   */
  lemma StableAfterTwoCalls(w: World, d: LightingData, k: QualityConstants, normalize: Vec3 -> Vec3)
    ensures var twice := UpdateLighting(UpdateLighting(w, d, k, normalize), d, k, normalize);
      UpdateLighting(twice, d, k, normalize) == twice
  {
    var once := UpdateLighting(w, d, k, normalize);
    var twice := UpdateLighting(once, d, k, normalize);
    if w.light.Some? && w.hasScene && d.shadowEnabled {
      assert twice.generator.value.filteringQuality == RecheckFiltering(d.shadowQuality, k);
    }
  }

  /** When creation and recheck agree on the filtering quality, one call already settles. */
  lemma IdempotentWhenFilteringAgrees(w: World, d: LightingData, k: QualityConstants, normalize: Vec3 -> Vec3)
    requires CreationFiltering(d.shadowQuality, k) == RecheckFiltering(d.shadowQuality, k)
    requires w.generator.Some? ==> w.generator.value.filteringQuality == RecheckFiltering(d.shadowQuality, k)
    ensures var once := UpdateLighting(w, d, k, normalize);
      UpdateLighting(once, d, k, normalize) == once
  {
  }

  /**
   * With Babylon's constants (`QUALITY_HIGH` is 0), enabling `high` shadows creates a
   * medium-quality generator, and the same data applied again disposes it and creates a
   * high-quality one: the update is not idempotent.
   */
  lemma HighQualityNotIdempotent(w: World, d: LightingData, normalize: Vec3 -> Vec3)
    requires w.light.Some? && w.hasScene && w.generator.None?
    requires d.shadowEnabled && d.shadowQuality == "high"
    ensures var once := UpdateLighting(w, d, BABYLON_QUALITY, normalize);
      var twice := UpdateLighting(once, d, BABYLON_QUALITY, normalize);
      && once.generator.value.filteringQuality == BABYLON_QUALITY.medium
      && twice.generator.value.filteringQuality == BABYLON_QUALITY.high
      && twice.created == once.created + 1
      && twice != once
  {
    var once := UpdateLighting(w, d, BABYLON_QUALITY, normalize);
    RecheckGenerator(once, d, BABYLON_QUALITY, normalize);
  }

  /** The same happens for a quality name outside the three: created medium, rechecked low. */
  lemma UnknownQualityNotIdempotent(w: World, d: LightingData, normalize: Vec3 -> Vec3)
    requires w.light.Some? && w.hasScene && w.generator.None?
    requires d.shadowEnabled && d.shadowQuality !in {"low", "medium", "high"}
    ensures var once := UpdateLighting(w, d, BABYLON_QUALITY, normalize);
      var twice := UpdateLighting(once, d, BABYLON_QUALITY, normalize);
      && once.generator.value.filteringQuality == BABYLON_QUALITY.medium
      && twice.generator.value.filteringQuality == BABYLON_QUALITY.low
  {
  }

  // ---------------------------------------------------------------- updateModel

  /** Position in `s` of the first element satisfying `p`. */
  function FirstIndex(s: seq<nat>, p: nat -> bool): (r: Option<nat>)
    ensures r.Some? ==> r.value < |s| && p(s[r.value]) && forall j :: 0 <= j < r.value ==> !p(s[j])
    ensures r.None? ==> forall j :: 0 <= j < |s| ==> !p(s[j])
    decreases |s|
  {
    if |s| == 0 then None
    else if p(s[0]) then Some(0)
    else match FirstIndex(s[1..], p)
      case Some(j) => Some(j + 1)
      case None => None
  }

  /** A node whose metadata lists at least one mesh. */
  predicate HasModelMeshes(n: Node) {
    n.meshes.Some? && n.meshes.value > 0
  }

  /** A node named like a PMX model, or with a (possibly empty) `metadata.meshes`. */
  predicate LooksLikeModel(n: Node) {
    Contains(n.name, ".pmx") || n.meshes.Some?
  }

  /** `roots[k]` is the first root whose node satisfies `p`. */
  predicate FirstRootWith(nodes: seq<Node>, roots: seq<nat>, k: nat, p: Node -> bool)
    requires forall i :: 0 <= i < |roots| ==> roots[i] < |nodes|
  {
    k < |roots| && p(nodes[roots[k]]) && forall j :: 0 <= j < k ==> !p(nodes[roots[j]])
  }

  /**
   * Rediscovery of the model among the root nodes: the first root with model meshes, else
   * the first root that looks like a model, else none.
   */
  function FindModelRoot(nodes: seq<Node>, roots: seq<nat>): (r: Option<nat>)
    requires forall i :: 0 <= i < |roots| ==> roots[i] < |nodes|
    ensures r.Some? ==> r.value in roots && r.value < |nodes|
    ensures (exists i :: 0 <= i < |roots| && HasModelMeshes(nodes[roots[i]])) ==>
      exists k: nat :: FirstRootWith(nodes, roots, k, HasModelMeshes) && r == Some(roots[k])
    ensures (forall i :: 0 <= i < |roots| ==> !HasModelMeshes(nodes[roots[i]])) && r.Some? ==>
      exists k: nat :: FirstRootWith(nodes, roots, k, LooksLikeModel) && r == Some(roots[k])
    ensures r.None? <==> forall i :: 0 <= i < |roots| ==> !LooksLikeModel(nodes[roots[i]])
  {
    var first := FirstIndex(roots, (i: nat) => i < |nodes| && HasModelMeshes(nodes[i]));
    if first.Some? then
      assert FirstRootWith(nodes, roots, first.value, HasModelMeshes);
      Some(roots[first.value])
    else
      var second := FirstIndex(roots, (i: nat) => i < |nodes| && LooksLikeModel(nodes[i]));
      if second.Some? then
        assert FirstRootWith(nodes, roots, second.value, LooksLikeModel);
        Some(roots[second.value])
      else None
  }

  /** The model section as `updateModel` receives it: either vector may be missing. */
  datatype ModelUpdate = ModelUpdate(position: Option<Vec3>, rotation: Option<Vec3>)

  /** Writes the supplied position and rotation components; the scaling is never touched. */
  function WriteTransform(n: Node, m: ModelUpdate): (r: Node)
    ensures r.name == n.name && r.meshes == n.meshes && r.scaling == n.scaling
    ensures r.position == if m.position.Some? then m.position.value else n.position
    ensures r.rotation == if m.rotation.Some? then m.rotation.value else n.rotation
  {
    var n1 := if m.position.Some? then n.(position := m.position.value) else n;
    if m.rotation.Some? then n1.(rotation := m.rotation.value) else n1
  }

  /**
   * `updateModel`: nothing without a scene or data. The cached handle is used when present,
   * otherwise rediscovered (and cached, even when nothing is found); the handle's node gets
   * the supplied transform and no other node changes.
   */
  function UpdateModel(w: World, m: Option<ModelUpdate>): (r: World)
    requires w.WellFormed()
    ensures r.WellFormed()
    ensures !w.hasScene || m.None? ==> r == w
    ensures w.hasScene && m.Some? ==>
      && r.handle == (if w.handle.Some? then w.handle else FindModelRoot(w.nodes, w.roots))
      && |r.nodes| == |w.nodes|
      && (forall i :: 0 <= i < |w.nodes| && Some(i) != r.handle ==> r.nodes[i] == w.nodes[i])
      && (r.handle.Some? ==> r.nodes[r.handle.value] == WriteTransform(w.nodes[r.handle.value], m.value))
    ensures r.(nodes := w.nodes, handle := w.handle) == w
  {
    if !w.hasScene || m.None? then w
    else
      var h := if w.handle.Some? then w.handle else FindModelRoot(w.nodes, w.roots);
      match h
      case None => w.(handle := None)
      case Some(i) => w.(handle := h, nodes := w.nodes[i := WriteTransform(w.nodes[i], m.value)])
  }

  /** A cached handle is never replaced, whatever the root nodes look like. */
  lemma CachedHandleKept(w: World, m: ModelUpdate)
    requires w.WellFormed() && w.hasScene && w.handle.Some?
    ensures UpdateModel(w, Some(m)).handle == w.handle
  {
  }

  // ---------------------------------------------------------------- updateBackground / updateScene

  /**
   * `updateBackground`: with data, a canvas and a non-empty image, the canvas background
   * becomes `url('<image>')`; otherwise nothing changes.
   */
  function UpdateBackground(w: World, b: Option<BackgroundData>): (r: World)
    ensures b.Some? && w.hasScene && w.canvasBackground.Some? && b.value.image != "" ==>
      r == w.(canvasBackground := Some("url('" + b.value.image + "')"))
    ensures !(b.Some? && w.hasScene && w.canvasBackground.Some? && b.value.image != "") ==> r == w
  {
    if b.None? || !w.hasScene || w.canvasBackground.None? || b.value.image == "" then w
    else w.(canvasBackground := Some("url('" + b.value.image + "')"))
  }

  /** `updateScene`'s argument: each section may be missing except the lighting. */
  datatype SceneUpdate = SceneUpdate(background: Option<BackgroundData>, lighting: LightingData, model: Option<ModelUpdate>)

  /** The control panel always supplies every section and both model vectors. */
  function FromControlData(d: SceneControlData): (u: SceneUpdate)
    ensures u.background == Some(d.background) && u.lighting == d.lighting
    ensures u.model == Some(ModelUpdate(Some(d.model.position), Some(d.model.rotation)))
  {
    SceneUpdate(Some(d.background), d.lighting, Some(ModelUpdate(Some(d.model.position), Some(d.model.rotation))))
  }

  /** `updateScene`: background, then lighting, then model. */
  function UpdateScene(w: World, u: SceneUpdate, k: QualityConstants, normalize: Vec3 -> Vec3): (r: World)
    requires w.WellFormed()
    ensures r.WellFormed()
    ensures w.NoLeakedGenerator() ==> r.NoLeakedGenerator()
  {
    UpdateModel(UpdateLighting(UpdateBackground(w, u.background), u.lighting, k, normalize), u.model)
  }

  /**
   * The three parts touch disjoint state, so applying them in any other order gives the same
   * scene: here, model first and background last.
   */
  lemma UpdateSceneOrderIrrelevant(w: World, u: SceneUpdate, k: QualityConstants, normalize: Vec3 -> Vec3)
    requires w.WellFormed()
    ensures UpdateScene(w, u, k, normalize)
         == UpdateBackground(UpdateLighting(UpdateModel(w, u.model), u.lighting, k, normalize), u.background)
  {
    var b := UpdateBackground(w, u.background);
    ModelAfterLighting(b, u.lighting, u.model, k, normalize);
    var m := UpdateModel(w, u.model);
    assert UpdateModel(b, u.model) == UpdateBackground(m, u.background);
    BackgroundLast(m, u.lighting, u.background, k, normalize);
  }

  /** The model update and the lighting update commute. */
  lemma ModelAfterLighting(w: World, d: LightingData, m: Option<ModelUpdate>, k: QualityConstants, normalize: Vec3 -> Vec3)
    requires w.WellFormed()
    ensures UpdateModel(UpdateLighting(w, d, k, normalize), m) == UpdateLighting(UpdateModel(w, m), d, k, normalize)
  {
  }

  /** The background update and the lighting update commute. */
  lemma BackgroundLast(w: World, d: LightingData, bg: Option<BackgroundData>, k: QualityConstants, normalize: Vec3 -> Vec3)
    ensures UpdateLighting(UpdateBackground(w, bg), d, k, normalize) == UpdateBackground(UpdateLighting(w, d, k, normalize), bg)
  {
  }
}
