/**
 * `scene_setting.ts`: the parts of the global scene settings that the configuration can
 * change (model name, bio, avatar, path, motion map and background images), their defaults,
 * and `updateSceneSettingFromYaml`. The engine-facing settings (camera, light, pipeline, ...)
 * never change and are not represented.
 */
module SceneSetting {
  import opened Wrappers
  import opened OrderedMap
  import ConfigLoader
  import AnimationRegistry

  datatype ModelSetting = ModelSetting(
    name: string,
    bio: string,
    avatar: string,
    path: string,
    motion: Entries<seq<string>>)

  datatype Setting = Setting(model: ModelSetting, backgroundImages: seq<string>)

  const MELANCHOLY_NIGHT: string := "/assets/09_メランコリ・ナイト/メランコリ・ナイト.vmd"
  const AYAKA_FACE: string := "/assets/花时来信 神里绫华/表情.vmd"
  const AYAKA_MOTION: string := "/assets/花时来信 神里绫华/动作.vmd"

  /** The built-in motion map, in declaration order. */
  function DefaultMotions(): Entries<seq<string>> {
    [ ("motion1", [MELANCHOLY_NIGHT]),
      ("idle", [AYAKA_FACE, AYAKA_MOTION]),
      ("dance", [AYAKA_MOTION]),
      ("walk", [MELANCHOLY_NIGHT]) ]
  }

  function Default(): Setting {
    Setting(
      ModelSetting("八重神子", "能够与你相识，是神子我的幸运", "/assets/bachongshenzi/bcsz.jpg",
                   "/assets/bachongshenzi/八重神子.pmx", DefaultMotions()),
      ["/assets/bg/bg.jpg", "/assets/bg/genshin.jpg", "/assets/bg/liyue.jpg", "/assets/bg/night.jpg"])
  }

  /** Every default motion has at least one file, the names are distinct, and `idle` is one of them. */
  lemma DefaultMotionsWellFormed()
    ensures forall i :: 0 <= i < |DefaultMotions()| ==> |DefaultMotions()[i].1| > 0
    ensures DistinctKeys(DefaultMotions())
    ensures "idle" in Keys(DefaultMotions())
    ensures Default().model.motion == DefaultMotions()
  {
    assert Keys(DefaultMotions())[1] == "idle";
  }

  /**
   * `updateSceneSettingFromYaml`: on a loaded configuration the model's name, bio, avatar and
   * path are overwritten, the motion map is merged with `Object.assign`, and the background
   * list is replaced; when loading fails nothing changes.
   */
  function Refresh(s: Setting, loaded: Result<ConfigLoader.SceneConfig, string>): (r: Setting)
    ensures loaded.Err? ==> r == s
    ensures loaded.Ok? ==>
      && r.model.name == loaded.value.name && r.model.bio == loaded.value.bio
      && r.model.avatar == loaded.value.avatar && r.model.path == loaded.value.modelPath
      && r.backgroundImages == loaded.value.backgroundImages
  {
    match loaded
    case Err(_) => s
    case Ok(c) =>
      Setting(ModelSetting(c.name, c.bio, c.avatar, c.modelPath, Assign(s.model.motion, c.motions)),
              c.backgroundImages)
  }

  /**
   * The motion map is merged, not replaced: a configured name takes the configured files, any
   * other name keeps what it had, existing names keep their positions, and the new names
   * follow in configuration order.
   */
  lemma {:induction false} RefreshMergesMotions(s: Setting, c: ConfigLoader.SceneConfig, name: string)
    requires DistinctKeys(c.motions)
    ensures var r := Refresh(s, Ok(c)).model.motion;
      && Lookup(r, name) == (if name in Keys(c.motions) then Lookup(c.motions, name) else Lookup(s.model.motion, name))
      && Keys(r) == Keys(s.model.motion) + NewKeys(Keys(s.model.motion), Keys(c.motions))
  {
    AssignLookup(s.model.motion, c.motions, name);
    AssignKeys(s.model.motion, c.motions);
  }

  /** A name in the old map survives every refresh, so `idle` is always configured after one. */
  lemma {:induction false} RefreshKeepsNames(s: Setting, loaded: Result<ConfigLoader.SceneConfig, string>, name: string)
    requires loaded.Ok? ==> DistinctKeys(loaded.value.motions)
    requires name in Keys(s.model.motion)
    ensures name in Keys(Refresh(s, loaded).model.motion)
  {
    if loaded.Ok? {
      AssignKeys(s.model.motion, loaded.value.motions);
    }
  }

  /**
   * Starting from the defaults, any refresh leaves `idle` configured, so the animation built
   * from the resulting motion map starts on `idle`.
   */
  lemma RefreshedDefaultStartsIdle(loaded: Result<ConfigLoader.SceneConfig, string>)
    requires loaded.Ok? ==> DistinctKeys(loaded.value.motions)
    ensures AnimationRegistry.DefaultAnimation(Keys(Refresh(Default(), loaded).model.motion)) == Some("idle")
  {
    DefaultMotionsWellFormed();
    RefreshKeepsNames(Default(), loaded, "idle");
  }

  /** The refreshed map keeps distinct names. */
  lemma RefreshDistinct(s: Setting, loaded: Result<ConfigLoader.SceneConfig, string>)
    requires DistinctKeys(s.model.motion)
    ensures DistinctKeys(Refresh(s, loaded).model.motion)
  {
    if loaded.Ok? {
      AssignDistinct(s.model.motion, loaded.value.motions);
    }
  }
}
