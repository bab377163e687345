# KokoroMate chat core in Dafny

KokoroMate is a desktop companion. The user chats by text or voice with a 3D MMD (MikuMikuDance)
character. The character answers with a line of text, a motion and a synthesised voice. This project
models, as pure functions over immutable values, the logic at the core of that loop:

- **Browser side.**
  - The chat page's transcript handlers, the message-input component, chat-history storage, the
    audio player and the microphone recorder with its WAV encoder.
  - The configuration loader and the scene settings it refreshes.
  - The scene builder's animation registry, its live `updateScene` and its double-click camera switch.
  - The control panel's colour codec, its state updates and its reset.
- **Python side.**
  - The chat endpoints' reply assembly and the chat-history endpoints.
  - Markdown code-fence stripping, assembly of the system prompt and selection of the speech and
    language engines by name.
  - The image sniffer and `data:` URL builder, and the pasted-image file name.
  - The LanceDB record store's load and three searches.

JavaScript numbers are modelled as `real` where the code does arithmetic on them and as `int` where
they are counts or clock readings. Python strings and JavaScript strings are `seq<char>`. Bytes are
`seq<uint8>`. An object's key order is an association list (`OrderedMap.Entries`), because
`Object.keys`, `Object.assign` and `Object.entries` preserve insertion order.

Everything the code hands to outside code is a parameter of the model function, never an
assumption:

- the language model, the speech synthesiser and speech recognition;
- `Date`, `Vector3.normalize` and Babylon's shadow-quality constants;
- PIL's validation, `mimetypes` and the base64 encoder;
- the date parser and printer of pandas and Python's `str.upper`;
- the outcome of microphone access and of loading or playing audio.

The browser's one-shot events (`onplay`, `onended`, a canvas click, a pause of the MMD runtime) are
functions the caller applies in sequence.

## Model

| member | source | states |
|---|---|---|
| AnimationRegistry.JoinLoads | frontend/src/pages/chat/scene/sceneBuilder.ts:207-221 | whatever order the loads finish in, `Promise.all` yields one clip per configured motion, slot `i` holding what the loader returned for motion `i`'s name and file list; only the order of completion is assumed, not what the loads produce |
| AnimationRegistry.RegisterContents | frontend/src/pages/chat/scene/sceneBuilder.ts:239-244 | with distinct names the registry's keys are the motion names in configuration order and each name maps to the clip at its own index |
| AnimationRegistry.RegisterIsZip | frontend/src/pages/chat/scene/sceneBuilder.ts:239-244 | with names fresh so far, the registry is exactly the names zipped with the clips |
| AnimationRegistry.RegisterAppends | frontend/src/pages/chat/scene/sceneBuilder.ts:242 | assigning a fresh name appends it after the names registered before it |
| AnimationRegistry.DefaultAnimation | frontend/src/pages/chat/scene/sceneBuilder.ts:271-272 | `idle` exactly when configured, else the first name; none for an empty list or an empty (falsy) first name; a default is always a configured non-empty name |
| AnimationRegistry.Unbuilt | frontend/src/pages/chat/scene/sceneBuilder.ts:54-61 | before `build` no model, registry, active animation or loop hook exists |
| AnimationRegistry.Build | frontend/src/pages/chat/scene/sceneBuilder.ts:200-284 | after `build` the model and registry exist, the runtime plays, the default animation is active, and the loop hook is installed exactly when there is a default |
| AnimationRegistry.AvailableAnimations | frontend/src/pages/chat/scene/sceneBuilder.ts:632-637 | `[]` before a build, otherwise the registry's keys in order |
| AnimationRegistry.HasIffAvailable | frontend/src/pages/chat/scene/sceneBuilder.ts:644-646 | `hasAnimation(name)` holds exactly when `name` is among `getAvailableAnimations()` |
| AnimationRegistry.BuildRegistersConfig | frontend/src/pages/chat/scene/sceneBuilder.ts:185-244 | after a build the available animations are the configured names in order, each backed by the clip loaded for it |
| AnimationRegistry.PlayAnimation | frontend/src/pages/chat/scene/sceneBuilder.ts:606-626 | true exactly when the model is loaded and the name is registered; then the name becomes active and the runtime plays; otherwise nothing changes |
| AnimationRegistry.OnPauseAnimation | frontend/src/pages/chat/scene/sceneBuilder.ts:276-283 | a pause exactly at the clip's end rewinds to frame 0, plays again and resets physics; any other pause changes nothing |
| AnimationRegistry.IdleConfigLoops | frontend/src/pages/chat/scene/sceneBuilder.ts:271-284 | a configuration holding `idle` starts on `idle` with the loop hook installed |
| CameraSwitch.Initial | frontend/src/pages/chat/scene/sceneBuilder.ts:371-374 | the scene starts on camera 0 with no recorded click |
| CameraSwitch.Click | frontend/src/pages/chat/scene/sceneBuilder.ts:377-386 | a click within 500 ms of the recorded one switches to the other camera and forgets the click; any other click only records its time |
| CameraSwitch.FirstClickNeverToggles | frontend/src/pages/chat/scene/sceneBuilder.ts:377-386 | the very first click never switches |
| CameraSwitch.ClickAfterToggleNeverToggles | frontend/src/pages/chat/scene/sceneBuilder.ts:377-386 | the click right after a switch never switches again, whatever its timing |
| CameraSwitch.DoubleClickSwitches | frontend/src/pages/chat/scene/sceneBuilder.ts:377-386 | two clicks at most 500 ms apart switch to the MMD camera |
| CameraSwitch.SlowClicksDoNotSwitch | frontend/src/pages/chat/scene/sceneBuilder.ts:377-386 | two clicks more than 500 ms apart leave camera 0 and record the later time |
| CameraSwitch.IndexCountsSwitches | frontend/src/pages/chat/scene/sceneBuilder.ts:377-386 | after any click sequence the camera is the starting one advanced once per switch, modulo two |
| CameraSwitch.SwitchesAtMostHalf | frontend/src/pages/chat/scene/sceneBuilder.ts:377-386 | switches never come two in a row, so at most half the clicks switch |
| LiveParameters.MapSize | frontend/src/pages/chat/scene/sceneBuilder.ts:494-502 | the shadow map is 1024 for `medium`, 2048 for `high` and 512 for anything else |
| LiveParameters.QualityMap | frontend/src/pages/chat/scene/sceneBuilder.ts:510-515 | only `low`, `medium` and `high` are keys of the quality map |
| LiveParameters.CreationFiltering | frontend/src/pages/chat/scene/sceneBuilder.ts:510-515 | a new generator takes the mapped constant, or the medium constant when the name is unmapped or maps to 0 (falsy) |
| LiveParameters.RecheckFiltering | frontend/src/pages/chat/scene/sceneBuilder.ts:542-554 | an existing generator is checked against medium for `medium`, high for `high` and low for anything else |
| LiveParameters.CasterIndices | frontend/src/pages/chat/scene/sceneBuilder.ts:529-534 | exactly the meshes not named `ground` or `background` are added as shadow casters, in scene order and each once |
| LiveParameters.MarkGroundReceivers | frontend/src/pages/chat/scene/sceneBuilder.ts:529-539 | every `ground` mesh receives shadows and no other mesh changes |
| LiveParameters.FirstGround | frontend/src/pages/chat/scene/sceneBuilder.ts:587-592 | `getMeshByName('ground')` finds the first mesh with that name, or none when no mesh has it |
| LiveParameters.ClearFirstGround | frontend/src/pages/chat/scene/sceneBuilder.ts:587-592 | only the first `ground` mesh stops receiving shadows |
| LiveParameters.UpdateLighting | frontend/src/pages/chat/scene/sceneBuilder.ts:456-599 | without a light or scene nothing changes; otherwise a generator exists exactly when shadows are enabled, the node, model and background state are untouched, and no generator is leaked |
| LiveParameters.CreateGenerator | frontend/src/pages/chat/scene/sceneBuilder.ts:490-539 | enabling shadows without a generator creates one with the quality's map size, the creation filtering, falloff 0.1, the caster meshes and the `ground` receivers |
| LiveParameters.RecheckGenerator | frontend/src/pages/chat/scene/sceneBuilder.ts:540-579 | an existing generator is disposed and recreated exactly when the rechecked filtering differs from its own |
| LiveParameters.DisableShadows | frontend/src/pages/chat/scene/sceneBuilder.ts:580-594 | disabling shadows disposes the generator and clears the first ground's receiving flag, and leaves the meshes alone when no generator existed |
| LiveParameters.EnableThenDisable | frontend/src/pages/chat/scene/sceneBuilder.ts:490-594 | enabling then disabling shadows leaves no generator and the first ground not receiving |
| LiveParameters.StableAfterTwoCalls | frontend/src/pages/chat/scene/sceneBuilder.ts:456-599 | the same lighting data applied a third time changes nothing |
| LiveParameters.IdempotentWhenFilteringAgrees | frontend/src/pages/chat/scene/sceneBuilder.ts:510-579 | when creation and recheck agree on the filtering, one application already settles |
| LiveParameters.HighQualityNotIdempotent | frontend/src/pages/chat/scene/sceneBuilder.ts:510-579 | with Babylon's constants, `high` shadows are created at medium and then recreated at high on the next identical update |
| LiveParameters.UnknownQualityNotIdempotent | frontend/src/pages/chat/scene/sceneBuilder.ts:510-579 | a quality name outside the three is created at medium and then recreated at low |
| LiveParameters.FindModelRoot | frontend/src/pages/chat/scene/sceneBuilder.ts:413-429 | rediscovery picks the first root with model meshes when there is one, else the first root that looks like a model, and finds nothing exactly when no root looks like one |
| LiveParameters.WriteTransform | frontend/src/pages/chat/scene/sceneBuilder.ts:431-444 | the supplied position and rotation are written; a missing vector and the scaling are untouched |
| LiveParameters.UpdateModel | frontend/src/pages/chat/scene/sceneBuilder.ts:409-453 | nothing without a scene or data; otherwise only the handle's node gets the transform, and only the nodes and the cached handle change |
| LiveParameters.CachedHandleKept | frontend/src/pages/chat/scene/sceneBuilder.ts:413-414 | a cached model handle is never rediscovered or replaced |
| LiveParameters.UpdateBackground | frontend/src/pages/chat/scene/sceneBuilder.ts:398-406 | with data, a canvas and a non-empty image the canvas background becomes `url('<image>')`; otherwise nothing changes |
| LiveParameters.FromControlData | frontend/src/pages/chat/components/scene_controller.tsx:456-461 | the control panel supplies every section of `updateScene`'s argument and both model vectors |
| LiveParameters.UpdateScene | frontend/src/pages/chat/scene/sceneBuilder.ts:391-395 | the scene update keeps node references valid and never leaks a shadow generator |
| LiveParameters.UpdateSceneOrderIrrelevant | frontend/src/pages/chat/scene/sceneBuilder.ts:391-395 | background, lighting and model touch disjoint state, so model-first, background-last gives the same scene |
| LiveParameters.ModelAfterLighting | frontend/src/pages/chat/scene/sceneBuilder.ts:409-599 | the model update and the lighting update commute |
| LiveParameters.BackgroundLast | frontend/src/pages/chat/scene/sceneBuilder.ts:398-599 | the background update and the lighting update commute |
| SceneController.ToHex | frontend/src/pages/chat/components/scene_controller.tsx:105-108 | a channel is printed with at least two hex digits |
| SceneController.ToHexOfUnit | frontend/src/pages/chat/components/scene_controller.tsx:105-108 | a channel in [0, 1] prints as exactly the two lower-case digits of its rounded byte |
| SceneController.RgbToHex | frontend/src/pages/chat/components/scene_controller.tsx:104-110 | the colour string starts with `#` |
| SceneController.RgbToHexOfUnit | frontend/src/pages/chat/components/scene_controller.tsx:104-110 | a colour in the unit cube prints as `#` and seven characters in all: the three channels' byte pairs in r, g, b order |
| SceneController.HexToRgb | frontend/src/pages/chat/components/scene_controller.tsx:113-120 | a well-formed `#rrggbb` (either case) gives each pair's value over 255; anything else gives white |
| SceneController.RgbHexRoundTrip | frontend/src/pages/chat/components/scene_controller.tsx:104-120 | printing a unit colour and parsing it back gives each channel's rounded byte over 255 |
| SceneController.HexRgbRoundTrip | frontend/src/pages/chat/components/scene_controller.tsx:104-120 | parsing a well-formed colour and printing it back gives the same colour in lower case |
| SceneController.HandleDataChange | frontend/src/pages/chat/components/scene_controller.tsx:456-461 | a change replaces its own section and leaves the others as they were |
| SceneController.HandleDataChangeLaws | frontend/src/pages/chat/components/scene_controller.tsx:456-461 | writing back a section's own data changes nothing, and a later change to the same section replaces an earlier one |
| SceneController.ApplyLightingEdit | frontend/src/pages/chat/components/scene_controller.tsx:173-311 | the colour, direction, intensity, ambient and shadow controls each set their own field and no other |
| SceneController.HandlePositionChange | frontend/src/pages/chat/components/scene_controller.tsx:335-341 | a position edit sets one axis of the position and nothing else |
| SceneController.HandleRotationChange | frontend/src/pages/chat/components/scene_controller.tsx:343-349 | a rotation edit sets one axis of the rotation and nothing else |
| SceneController.AxisEditsCommute | frontend/src/pages/chat/components/scene_controller.tsx:335-349 | setting an axis to the value it holds changes nothing, and edits to different axes commute |
| SceneController.Initial | frontend/src/pages/chat/components/scene_controller.tsx:425-441 | the panel starts with the default background image, shadows off at `medium` quality, and a light colour in the unit cube |
| SceneController.ResetToDefault | frontend/src/pages/chat/components/scene_controller.tsx:463-483 | a reset restores the initial values whatever the current state |
| SceneController.InitialColorHex | frontend/src/pages/chat/components/scene_controller.tsx:425-441 | the initial light colour prints as `#ffffff` |
| ConfigLoader.TransformMotionConfig | frontend/src/pages/chat/data/config-loader.ts:62-70 | every motion name keeps its place and maps to its file list |
| ConfigLoader.TransformKeepsKeys | frontend/src/pages/chat/data/config-loader.ts:62-70 | the reshaped map has the same keys in the same order, looks each name up to its entry's files, and keeps distinct keys distinct |
| ConfigLoader.FirstBackground | frontend/src/pages/chat/data/config-loader.ts:83 | the first background image when there is one and it is non-empty, otherwise the default image |
| ConfigLoader.ExtractSceneConfig | frontend/src/pages/chat/data/config-loader.ts:75-87 | the plain fields are copied, the background is chosen, and every motion keeps its name and place and maps to its own file list |
| ConfigLoader.LoadSceneConfig | frontend/src/pages/chat/data/config-loader.ts:89-92 | a load failure propagates its error; a successful load gives exactly the configuration extracted from it |
| ConfigLoader.GetUserAvatar | frontend/src/pages/chat/data/config-loader.ts:110-118 | the configured avatar when present and non-empty, else the default image (also on a load failure); never empty |
| SceneSetting.DefaultMotionsWellFormed | frontend/src/pages/chat/scene/scene_setting.ts:5-25 | every default motion has files, the names are distinct, and `idle` is one of them |
| SceneSetting.Refresh | frontend/src/pages/chat/scene/scene_setting.ts:110-138 | a loaded configuration overwrites the model fields, merges the motions and replaces the backgrounds; a failure changes nothing |
| SceneSetting.RefreshMergesMotions | frontend/src/pages/chat/scene/scene_setting.ts:121 | `Object.assign` merging: configured names take their files, other names keep theirs, old names keep their places and new names follow in order |
| SceneSetting.RefreshKeepsNames | frontend/src/pages/chat/scene/scene_setting.ts:121 | no refresh removes a motion name |
| SceneSetting.RefreshedDefaultStartsIdle | frontend/src/pages/chat/scene/scene_setting.ts:17-22 | starting from the defaults, the animation built after any refresh starts on `idle` |
| SceneSetting.RefreshDistinct | frontend/src/pages/chat/scene/scene_setting.ts:121 | the refreshed motion map keeps distinct names |
| AudioRecorder.StartRecording | frontend/src/pages/chat/data/audio-recorder.ts:8-42 | with microphone access a recording recorder starts with no chunks; without it the error is raised and nothing changes |
| AudioRecorder.OnDataAvailable | frontend/src/pages/chat/data/audio-recorder.ts:29-33 | only chunks of positive size are kept, appended in order |
| AudioRecorder.FeedChunks | frontend/src/pages/chat/data/audio-recorder.ts:29-33 | delivering chunks keeps exactly the non-empty ones, in order, after those already held |
| AudioRecorder.ConcatNonEmpty | frontend/src/pages/chat/data/audio-recorder.ts:29-33 | dropping empty chunks does not change the recorded bytes |
| AudioRecorder.StopRecording | frontend/src/pages/chat/data/audio-recorder.ts:45-74 | no recorder rejects at once; a clean stop yields the chunks' bytes and releases the stream; a recorder error rejects; a stop on a recorder that is already inactive fires no `stop` event and never settles |
| AudioRecorder.Cleanup | frontend/src/pages/chat/data/audio-recorder.ts:82-89 | cleanup forgets the recorder, the stream and the chunks, so nothing is recording |
| AudioRecorder.Session | frontend/src/pages/chat/data/audio-recorder.ts:8-74 | start, deliveries, stop: the blob holds every delivered byte in order and nothing from before the start |
| AudioRecorder.StopAfterCleanup | frontend/src/pages/chat/data/audio-recorder.ts:45-89 | a stop after a cleanup always rejects |
| WavEncoder.Clamp | frontend/src/pages/chat/data/audio-recorder.ts:164 | samples are clamped to [-1, 1] and samples inside are kept |
| WavEncoder.Quantize | frontend/src/pages/chat/data/audio-recorder.ts:164-165 | a sample becomes the floor of its clamped value times 32767, within the signed 16-bit range |
| WavEncoder.Header | frontend/src/pages/chat/data/audio-recorder.ts:141-153 | the header is 44 bytes |
| WavEncoder.HeaderFields | frontend/src/pages/chat/data/audio-recorder.ts:141-153 | the header reads back as RIFF/WAVE/`fmt `, PCM, the channel count, the rate, the byte rate, the block alignment, 16 bits and the data size, each wrapped to its field's width |
| WavEncoder.RiffSizeIsFileLengthMinus8 | frontend/src/pages/chat/data/audio-recorder.ts:130-142 | the RIFF size field is the file length minus 8 |
| WavEncoder.InterleaveIndex | frontend/src/pages/chat/data/audio-recorder.ts:161-176 | frame `i`, channel `c` lands at sample slot `i * channels + c` |
| WavEncoder.Encode16 | frontend/src/pages/chat/data/audio-recorder.ts:168 | every sample takes two bytes |
| WavEncoder.Encode16Index | frontend/src/pages/chat/data/audio-recorder.ts:168 | sample `j` is written little-endian at bytes `2j` and `2j + 1` |
| WavEncoder.AudioBufferToWav | frontend/src/pages/chat/data/audio-recorder.ts:121-179 | the file is the header followed by the interleaved samples as 16-bit little-endian, 44 + length x block-align bytes long |
| WavEncoder.WriteFrame | frontend/src/pages/chat/data/audio-recorder.ts:163-174 | one pass of the inner loop appends one frame's samples, channel by channel |
| WavEncoder.WavSamplesLayout | frontend/src/pages/chat/data/audio-recorder.ts:130-176 | the samples fill the file exactly after the header |
| WavEncoder.SampleReadsBack | frontend/src/pages/chat/data/audio-recorder.ts:156-176 | reading the signed 16-bit value at frame `i`, channel `c` gives that sample, quantised |
| AudioPlayer.NewPlayer | frontend/src/pages/chat/data/audio-player.ts:2-4 | a new player holds no element and is not playing |
| AudioPlayer.BaseUrl | frontend/src/pages/chat/data/audio-player.ts:17-20 | an `http` path is kept; any other path follows the local server and a slash, its own leading slash (if any) not doubled |
| AudioPlayer.BaseUrlIdempotent | frontend/src/pages/chat/data/audio-player.ts:17-20 | building the URL twice gives the same URL |
| AudioPlayer.BaseUrlLeadingSlash | frontend/src/pages/chat/data/audio-player.ts:17-20 | one leading slash on a relative path makes no difference |
| AudioPlayer.AudioUrl | frontend/src/pages/chat/data/audio-player.ts:17-22 | the source URL is the base URL followed by `?t=` and the clock reading |
| AudioPlayer.PlayAudio | frontend/src/pages/chat/data/audio-player.ts:7-93 | the old audio is stopped and a fresh element at full volume is loaded; once it can play it plays with its duration known and the promise resolves; a rejected `play()` cleans up and rethrows with the prefix; a load error cleans up and leaves the promise unsettled |
| AudioPlayer.LoadErrorNeverSettles | frontend/src/pages/chat/data/audio-player.ts:56-76 | the `onerror` handler, registered first, drops the element, so the `error` listener throws before `reject` and a load error never settles the promise |
| AudioPlayer.FixedPlayAlwaysSettles | frontend/src/pages/chat/data/audio-player.ts:7-93 | with the listener reaching `reject`, the promise always settles: it resolves exactly when the element started, a load error is rethrown with the prefix, and every other outcome is as written |
| AudioPlayer.OnPlay | frontend/src/pages/chat/data/audio-player.ts:40-43 | the element plays and the player reports playing |
| AudioPlayer.OnPause | frontend/src/pages/chat/data/audio-player.ts:45-48 | the player stops reporting playing |
| AudioPlayer.OnEnded | frontend/src/pages/chat/data/audio-player.ts:50-61 | when playback ends or the element fails, the player holds no element and reports not playing |
| AudioPlayer.StopAudio | frontend/src/pages/chat/data/audio-player.ts:96-102 | with an element the player is cleaned up; without one nothing changes |
| AudioPlayer.PauseAudio | frontend/src/pages/chat/data/audio-player.ts:105-109 | only a playing element is paused; otherwise nothing changes |
| AudioPlayer.ResumeAudio | frontend/src/pages/chat/data/audio-player.ts:112-118 | only an element that is not playing resumes, and only when `play()` succeeds |
| AudioPlayer.GetCurrentTime | frontend/src/pages/chat/data/audio-player.ts:126-128 | the element's position, or 0 without one |
| AudioPlayer.GetDuration | frontend/src/pages/chat/data/audio-player.ts:131-133 | the element's duration, or 0 without an element or before it is known |
| AudioPlayer.SetCurrentTime | frontend/src/pages/chat/data/audio-player.ts:136-140 | the position of an existing element moves; nothing else changes |
| AudioPlayer.ClampVolume | frontend/src/pages/chat/data/audio-player.ts:143-147 | the volume is clamped into [0, 1] and a volume inside is kept |
| AudioPlayer.SetVolume | frontend/src/pages/chat/data/audio-player.ts:143-147 | an existing element takes the clamped volume; without one nothing changes |
| AudioPlayer.SetVolumeTwice | frontend/src/pages/chat/data/audio-player.ts:143-147 | setting the volume twice keeps only the second value |
| AudioPlayer.Cleanup | frontend/src/pages/chat/data/audio-player.ts:150-161 | cleanup leaves no element and nothing playing |
| AudioPlayer.Destroy | frontend/src/pages/chat/data/audio-player.ts:164-167 | after `destroy` no element exists and nothing plays |
| AudioPlayer.GetGlobalAudioPlayer | frontend/src/pages/chat/data/audio-player.ts:171-179 | the first call creates the shared player and stores it; later calls return the stored one |
| AudioPlayer.GlobalPlayerIsSingleton | frontend/src/pages/chat/data/audio-player.ts:171-179 | every later call returns the same player and leaves the slot unchanged |
| ChatStorage.MessageToRecord | frontend/src/pages/chat/data/chat-storage.ts:29-35 | sender and text are kept and the time becomes ISO text |
| ChatStorage.RecordToMessage | frontend/src/pages/chat/data/chat-storage.ts:38-45 | sender and text are kept, the time is parsed, and the message has no files |
| ChatStorage.MessageRecordRoundTrip | frontend/src/pages/chat/data/chat-storage.ts:29-45 | a message stored and read back is the same message without its files |
| ChatStorage.RecordMessageRoundTrip | frontend/src/pages/chat/data/chat-storage.ts:29-45 | a record whose time text is canonical survives being read and stored again |
| ChatStorage.SaveChatHistory | frontend/src/pages/chat/data/chat-storage.ts:75-106 | the saved file has version 1.0, created and updated both now, and the messages as records in order |
| ChatStorage.LoadChatHistory | frontend/src/pages/chat/data/chat-storage.ts:48-72 | `[]` on a failed request, an `error` key or missing messages; otherwise the records as messages, in order |
| ChatStorage.SaveLoadRoundTrip | frontend/src/pages/chat/data/chat-storage.ts:48-106 | loading what was saved gives the saved messages back, each without files |
| ChatStorage.AddMessageToHistory | frontend/src/pages/chat/data/chat-storage.ts:109-114 | the loaded history followed by the new message is what gets saved |
| MessageInput.HandleTextSubmit | frontend/src/pages/chat/components/message_input.tsx:41-94 | without typed text, or while loading or disabled, nothing happens; otherwise the trimmed text is shown at once, the reply is handed on or the error shown, and loading ends |
| MessageInput.HandleStartRecording | frontend/src/pages/chat/components/message_input.tsx:97-109 | nothing while loading or disabled; otherwise recording starts with microphone access, or the error is shown without it |
| MessageInput.VoiceText | frontend/src/pages/chat/components/message_input.tsx:144-149 | the recognised text after the note sign, or the fixed voice label; never the temporary text |
| MessageInput.HandleStopRecording | frontend/src/pages/chat/components/message_input.tsx:112-179 | nothing unless recording; otherwise the temporary message is shown, and on success the final user message and the reply are handed on; loading ends unless the recorder's promise never settles |
| MessageInput.HandleKeyDown | frontend/src/pages/chat/components/message_input.tsx:182-187 | Enter without Shift submits; every other key does nothing |
| MessageInput.NeverLeftLoading | frontend/src/pages/chat/components/message_input.tsx:88-179 | the loading flag ends off on every path, except exactly a stop on a recorder that is already inactive, which leaves the handler suspended |
| MessageInput.LoadingBlocksInput | frontend/src/pages/chat/components/message_input.tsx:42 | while a message is in flight nothing can be sent or recorded |
| ChatTranscript.HandleMessageSending | frontend/src/pages/chat/index.tsx:98-102 | the user's message is shown after the existing list, which is kept |
| ChatTranscript.Displayed | frontend/src/pages/chat/index.tsx:119-141 | a trailing temporary message is dropped; the final user message and the reply end the list |
| ChatTranscript.PersistedIsDisplayed | frontend/src/pages/chat/index.tsx:119-163 | the list saved is exactly the list shown |
| ChatTranscript.ReplacesTemporary | frontend/src/pages/chat/index.tsx:119-141 | a temporary message is replaced, so the list ends with the final user message and the reply |
| ChatTranscript.DispatchMotion | frontend/src/pages/chat/index.tsx:174-206 | a known motion plays; an unknown one falls back to `idle`, then the first animation, then nothing; no motion plays `idle` when present |
| ChatTranscript.DispatchPlaysAvailable | frontend/src/pages/chat/index.tsx:174-206 | only available animations are dispatched, the dispatched one becomes active, and a named motion always plays something when any animation exists |
| ChatTranscript.HandleMessageSent | frontend/src/pages/chat/index.tsx:105-215 | the list is shown and saved, a truthy audio path is played, and the motion is dispatched only with a builder and a ready scene |
| ChatTranscript.TextRound | frontend/src/pages/chat/index.tsx:98-141 | a successful text round ends with the trimmed message and the reply appended, whether the handler sees the list before or after the temporary message |
| ChatTranscript.VoiceRound | frontend/src/pages/chat/components/message_input.tsx:112-179 | a successful voice round replaces the temporary audio message by the recognised text and appends the reply |
| ChatApi.AudioPath | src/main.py:106-112 | a path under `cache/` is served from `/audio/` with every `cache/` removed; anything else passes unchanged |
| ChatApi.CachedFileServed | src/main.py:106-112 | a file directly in the cache is served under its own name, which the player turns into a local URL |
| ChatApi.CollectReply | src/main.py:88-92 | the streamed chunks are concatenated in order |
| ChatApi.Answer | src/main.py:94-112 | an unparseable reply becomes the fallback text with `idle`; otherwise text and motion come from the JSON; the audio path is the spoken text's path |
| ChatApi.FencedReplyRecovered | src/main.py:77-99 | a reply the model wrapped in a code fence is recovered; one that does not parse falls back to `idle` |
| ChatApi.ChatAudio | src/main.py:116-205 | refused in text-only mode or for a non-audio upload; a failure reports its error; otherwise the recognised text is answered like typed text |
| ChatApi.EmptyHistory | src/main.py:219-224 | with no saved history an empty version-1.0 structure is returned |
| ChatApi.GetChatHistory | src/main.py:208-227 | the stored file, the empty structure when none exists, or an `error` object |
| ChatApi.HistoryRoundTrip | src/main.py:208-260 | after a save the browser loads back the messages it saved; after a clear, or when the file is unreadable, it loads none |
| ModelFunction.StripFence | src/model_function.py:71-84 | the cleaned text is no longer than the reply and starts and ends with non-whitespace |
| ModelFunction.ExtractJson | src/model_function.py:71-84 | a reply fenced with or without the `json` tag parses as its inner text, and an unfenced reply parses as itself, trimmed |
| ModelFunction.StripFenceOfFenced | src/model_function.py:71-84 | a trimmed body in a fence, with or without the `json` tag, comes back unchanged |
| ModelFunction.StripFenceOfPlain | src/model_function.py:71-84 | unfenced text is only trimmed |
| ModelFunction.MotionSection | src/model_function.py:97-104 | one `- name: trigger` line per motion in order, or the fixed note when there are none |
| ModelFunction.MotionSectionLines | src/model_function.py:97-104 | the section splits back into one line per motion, naming the motion and its trigger |
| ModelFunction.BuildSystemPrompt | src/model_function.py:86-123 | the heading with the character prompt, then the motion section, then the format prompt and the closing line, and nothing else: the total length is the sum of the parts |
| ModelFunction.PromptPartsDetermine | src/model_function.py:86-123 | any text with those parts at those places and that length is the prompt, so the contract pins the prompt down |
| ModelFunction.SetAsrModel | src/model_function.py:126-134 | a known name selects its engine; any other name is the invalid-name error |
| ModelFunction.SetLlmModel | src/model_function.py:137-141 | only `litellm` is known; any other name is the invalid-name error |
| ModelFunction.SetTtsModel | src/model_function.py:144-156 | a known name selects its engine; any other name is the invalid-name error |
| ModelFunction.EngineNamesRoundTrip | src/model_function.py:126-156 | every engine is selected by its own name |
| ImageCodec.Sniff | src/llm/function.py:26-44 | the first signature in the fixed order names the type, and JPEG is the default |
| ImageCodec.SniffIsFirstMatch | src/llm/function.py:26-44 | the sniffer agrees with a table of signatures scanned front to back |
| ImageCodec.SniffRecognisesEachFormat | src/llm/function.py:26-44 | data starting with a format's signature is sniffed as that format, whatever follows |
| ImageCodec.GuessedImageType | src/llm/function.py:89-98 | a guessed type is used only when it is an `image/` type, stripped of that prefix |
| ImageCodec.Classify | src/llm/function.py:89-107 | bytes are sniffed, a readable file takes its guessed or sniffed type, and any other input is unsupported |
| ImageCodec.ImageToBase64 | src/llm/function.py:10-128 | a `data:image/<type>;base64,` URL exactly when the input is supported and, if validating, valid |
| ImageCodec.BytesAlwaysEncode | src/llm/function.py:100-118 | raw bytes without validation always yield the URL of the sniffed type |
| ImageCodec.MimeOfDataUrl | src/llm/function.py:113-118 | the subtype read back from the URL is the one put in |
| ImageCodec.SaveFileName | src/llm/function.py:150-169 | the code as written: a generated name from time and subtype, and `.`+subtype appended to a name without a known extension |
| ImageCodec.SvgNameDoubled | src/llm/function.py:150-169 | pasted SVG data gets `pasted_image_<t>.svg+xml.svg+xml` |
| ImageCodec.ExtensionFor | src/llm/function.py:162 | each sniffed subtype maps to a known extension; `svg+xml` to `svg` |
| ImageCodec.SaveFileNameFixed | src/llm/function.py:150-169 | the corrected name: a named file keeps a known extension or gains the mapped one |
| ImageCodec.FixedAutoNameHasOneExtension | src/llm/function.py:150-169 | a generated name carries exactly one known extension and is not extended again |
| RecordStore.ItemRow | src/rag/lancedb_database.py:42-52 | a record has exactly the six columns and carries the item's type, content and timestamp |
| RecordStore.Connect | src/rag/lancedb_database.py:28-33 | the collection opens exactly when its name is non-empty and names an existing table |
| RecordStore.LoadData | src/rag/lancedb_database.py:35-76 | overwrite or a new table holds exactly the new records, otherwise they are appended; the collection is open after and no other table changes |
| RecordStore.LoadsAccumulate | src/rag/lancedb_database.py:64-76 | two appending loads keep the earlier records and add both batches in order |
| RecordStore.ReconnectSeesLoad | src/rag/lancedb_database.py:28-76 | a later `connect` opens the table the load wrote |
| RecordStore.SearchByContent | src/rag/lancedb_database.py:78-136 | a blank query gives `[]`; an unset collection or unknown column is an error; otherwise the table filtered by the match on the stripped query, in table order with repeats kept |
| RecordStore.CaseInsensitiveFindsMore | src/rag/lancedb_database.py:114-119 | a case-insensitive search finds every record the case-sensitive one finds |
| RecordStore.SearchAfterAppend | src/rag/lancedb_database.py:72-127 | after an append, the earlier matches come first, followed by the matches among the new records |
| RecordStore.Window | src/rag/lancedb_database.py:171-196 | the window is the table filtered to the dated records within the bounds, in table order with repeats kept, each printed back |
| RecordStore.SearchByTimestampRange | src/rag/lancedb_database.py:139-204 | undated records are dropped, a bad bound is an error, and otherwise the result is the window: the records within the inclusive bounds in table order |
| RecordStore.AbsentBoundIsEmptyBound | src/rag/lancedb_database.py:183-190 | a missing bound and an empty bound both impose no bound |
| RecordStore.NarrowerWindowFindsLess | src/rag/lancedb_database.py:183-196 | with bounds inside the wider ones, every record the narrower search returns is also returned by the wider search |
| RecordStore.SearchByContentType | src/rag/lancedb_database.py:207-219 | the table filtered to the records whose column equals the type, in table order with repeats kept; an unknown column is a key error |
| Seqs.FilterMeetsSpec | src/rag/lancedb_database.py:215-216 | filtering a frame by a boolean mask keeps the records that pass, in table order and as often as they occur, and nothing else |
| Seqs.FilterUnique | src/rag/lancedb_database.py:215-216 | only one sequence meets that description, so a search stated as a filter of the table is fully determined |
| RecordStore.LoadThenSearchByType | src/rag/lancedb_database.py:35-76 | after a load that recreates the table, the type search returns the records of exactly the loaded items of that type, in load order |

## Left out

- The Babylon wiring of `build`: the engine, the scene, the cameras, the lights, the ground and the physics. These are engine objects with no logic of the repository's own.
- The light that follows the model's centre bone each frame. This is a matrix computation on engine objects.
- Floating-point behaviour. Numbers are exact reals, so NaN samples, NaN durations and binary rounding errors are not modelled.
- `Vector3.normalize`, `Date`, the ISO codec, PIL's validation, `mimetypes.guess_type` and base64. Each is a parameter, because it is library code.
- JSON parsing of the model's reply. It is a parameter of `ModelFunction.ExtractJson`.
- YAML parsing and fetching. Their outcome is a `Result` passed to `ConfigLoader.LoadSceneConfig`.
- Speech recognition (librosa decoding plus the ASR engine), the language model's streaming client and speech synthesis. They are parameters of the chat endpoints.
- The ASR, LLM and TTS wrapper classes. Each engine is represented by its kind, and its own code is not part of this model.
- `serve_audio` and the static-file routes. They are file-system I/O.
- The clear, export and import helpers of `chat-storage.ts` (lines 117-193). They are not on the chat path and are only file downloads and uploads.
- LanceDB's file I/O. The vector and attribute columns are carried by the layout but never read, because no search looks at them.
- `RecordStore.SearchByContent`: a non-string column makes pandas' `.str` accessor raise. The model treats non-string cells as non-matching and does not model that error message.
- `RecordStore.SearchByTimestampRange`: the date parser and printer are parameters, so pandas' format inference is not modelled.
- `RecordStore.LoadData`: appending records whose layout differs from the table's schema is not modelled, because all records come from `ItemRow` and share one layout.
- `RecordStore.Connect`: only a fresh instance is modelled. Re-connecting an instance whose collection was set keeps the old attribute in the source.
- `RecordStore.ListRepr`: Python's `repr` quoting of column names containing quotes or backslashes is not modelled.
- The empty collection name in `load_data`, which LanceDB itself would reject. It is modelled as an ordinary table name.
- `ImageCodec.SaveFileName`: the `.jpg` branches at src/llm/function.py:158-159 and 168-169 are not modelled. They are unreachable, because `image_to_base64` on bytes without validation never returns `None` (`ImageCodec.BytesAlwaysEncode`).
- Case: `Text.ToLowerAscii` lower-cases ASCII letters only. Python's `str.lower` and `str.upper` on other scripts are not modelled, and upper-casing is a parameter of the content search.
- `Object.keys` order for integer-like keys, which JavaScript lists first in numeric order. Motion names are treated as ordinary string keys kept in insertion order.
- `AnimationRegistry.HasIffAvailable`: `hasAnimation` on a name such as `constructor` finds an inherited property in the source. The model has no prototype chain.
- Stale closures. React hands the page's handlers to the input component once per render, so a handler may see an older list. `ChatTranscript.TextRound` covers both lists, but render scheduling is not modelled.
- The 32-bit branch of the WAV encoder (`bitDepth` is the constant 16, so it is dead code).
- `ChatApi.Answer`: a reply that is valid JSON but not an object (`[1]`, `"x"`, `3`) makes `response.get` raise `AttributeError` at src/main.py:101 and :192. The parser parameter yields only objects (`LlmJson`), so that crash is not modelled.

## Findings

| source | as written | input that shows it | evidently intended | confidence | as-written member | corrected member |
|---|---|---|---|---|---|---|
| src/llm/function.py:150-169 | the generated name ends in the sniffed subtype `svg+xml`; that is not a known extension, so `.svg+xml` is appended a second time | pasted data starting with `<?xml` and no file name | `pasted_image_<t>.svg` | not executed | ImageCodec.SvgNameDoubled | ImageCodec.FixedAutoNameHasOneExtension |
| frontend/src/pages/chat/data/audio-player.ts:56-80 | the `onerror` handler is registered before the `error` listener, so it runs first and its `cleanup()` sets `currentAudio` to null; `handleError` then calls `removeEventListener` on null, throws inside the event dispatch and never reaches `reject` | an audio path the server answers with an error status, so the element fires `error` | `playAudio` rejects with `Failed to play audio: Failed to load audio` and the player is cleaned up | not executed | AudioPlayer.LoadErrorNeverSettles | AudioPlayer.FixedPlayAlwaysSettles |
