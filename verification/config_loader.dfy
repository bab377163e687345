/**
 * `config-loader.ts`: reshaping the character section of the YAML configuration into the
 * scene configuration, and the user-avatar lookup. Fetching and YAML parsing are outside the
 * model: their outcome arrives as a `Result`.
 */
module ConfigLoader {
  import opened Wrappers
  import opened OrderedMap

  const DEFAULT_BACKGROUND: string := "/assets/bg/bg.jpg"
  const DEFAULT_USER_AVATAR: string := "/avatars/user.png"

  /** One `motion` entry of the character config. */
  datatype MotionEntry = MotionEntry(filePath: seq<string>, triggerCondition: string)

  /** The `character` section. `userAvatar` is absent when the YAML omits it. */
  datatype CharacterConfig = CharacterConfig(
    name: string,
    bio: string,
    avatar: string,
    userAvatar: Option<string>,
    model: string,
    prompt: string,
    motion: Entries<MotionEntry>,
    backgroundImage: seq<string>)

  /** What the scene settings need from the configuration. */
  datatype SceneConfig = SceneConfig(
    name: string,
    bio: string,
    modelPath: string,
    motions: Entries<seq<string>>,
    backgroundImage: string,
    backgroundImages: seq<string>,
    avatar: string)

  function FilePaths(e: MotionEntry): seq<string> {
    e.filePath
  }

  /** `transformMotionConfig`: every motion name keeps its place and maps to its file list. */
  function TransformMotionConfig(motion: Entries<MotionEntry>): (r: Entries<seq<string>>)
    ensures |r| == |motion|
    ensures forall i :: 0 <= i < |motion| ==> r[i].0 == motion[i].0 && r[i].1 == motion[i].1.filePath
  {
    MapValues(motion, FilePaths)
  }

  /**
   * The transformed map has the same keys in the same order, and looking a name up gives the
   * file list of the entry under that name.
   */
  lemma TransformKeepsKeys(motion: Entries<MotionEntry>, name: string)
    ensures Keys(TransformMotionConfig(motion)) == Keys(motion)
    ensures Lookup(TransformMotionConfig(motion), name)
         == if name in Keys(motion) then Some(Lookup(motion, name).value.filePath) else None
    ensures DistinctKeys(motion) ==> DistinctKeys(TransformMotionConfig(motion))
  {
    MapValuesLookup(motion, FilePaths, name);
  }

  /** `TransformKeepsKeys` for every name at once. */
  lemma TransformLookups(motion: Entries<MotionEntry>)
    ensures forall name ::
      Lookup(TransformMotionConfig(motion), name)
        == if name in Keys(motion) then Some(Lookup(motion, name).value.filePath) else None
  {
    forall name
      ensures Lookup(TransformMotionConfig(motion), name)
           == if name in Keys(motion) then Some(Lookup(motion, name).value.filePath) else None
    {
      TransformKeepsKeys(motion, name);
    }
  }

  /**
   * `background_image[0] || default`: the first image when there is one and it is not the empty
   * string, otherwise the default image.
   */
  function FirstBackground(images: seq<string>): (r: string)
    ensures |images| > 0 && images[0] != "" ==> r == images[0]
    ensures |images| == 0 || images[0] == "" ==> r == DEFAULT_BACKGROUND
  {
    if |images| > 0 && images[0] != "" then images[0] else DEFAULT_BACKGROUND
  }

  /** `extractSceneConfig`: copies the plain fields and reshapes the motions. */
  function ExtractSceneConfig(c: CharacterConfig): (s: SceneConfig)
    ensures s.name == c.name && s.bio == c.bio && s.avatar == c.avatar
    ensures s.modelPath == c.model && s.backgroundImages == c.backgroundImage
    ensures s.backgroundImage == FirstBackground(c.backgroundImage)
    ensures Keys(s.motions) == Keys(c.motion)
    ensures |s.motions| == |c.motion|
    ensures forall i :: 0 <= i < |c.motion| ==> s.motions[i] == (c.motion[i].0, c.motion[i].1.filePath)
    ensures forall name ::
      Lookup(s.motions, name) == if name in Keys(c.motion) then Some(Lookup(c.motion, name).value.filePath) else None
  {
    TransformKeepsKeys(c.motion, "");
    TransformLookups(c.motion);
    SceneConfig(c.name, c.bio, c.model, TransformMotionConfig(c.motion),
                FirstBackground(c.backgroundImage), c.backgroundImage, c.avatar)
  }

  /** `loadSceneConfig`: a load failure propagates; otherwise the extracted configuration. */
  function LoadSceneConfig(loaded: Result<CharacterConfig, string>): (r: Result<SceneConfig, string>)
    ensures loaded.Err? ==> r == Err(loaded.error)
    ensures loaded.Ok? ==> r == Ok(ExtractSceneConfig(loaded.value))
  {
    match loaded
    case Ok(c) => Ok(ExtractSceneConfig(c))
    case Err(e) => Err(e)
  }

  /**
   * `getUserAvatar`: the configured user avatar when present and non-empty; the default image
   * when it is missing, empty, or the configuration could not be loaded.
   */
  function GetUserAvatar(loaded: Result<CharacterConfig, string>): (r: string)
    ensures loaded.Ok? && loaded.value.userAvatar.Some? && loaded.value.userAvatar.value != "" ==>
      r == loaded.value.userAvatar.value
    ensures loaded.Err? || loaded.value.userAvatar.None? || loaded.value.userAvatar.value == "" ==>
      r == DEFAULT_USER_AVATAR
    ensures r != ""
  {
    match loaded
    case Err(_) => DEFAULT_USER_AVATAR
    case Ok(c) =>
      match c.userAvatar
      case Some(a) => if a != "" then a else DEFAULT_USER_AVATAR
      case None => DEFAULT_USER_AVATAR
  }
}
