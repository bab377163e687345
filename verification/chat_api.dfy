/**
 * `src/main.py`: the chat endpoints' reply assembly (streamed text, JSON fallback, audio path
 * rewrite), the audio endpoint's guards, and the chat-history endpoints over one stored file.
 * The language model, the speech synthesiser, speech recognition and audio decoding are
 * parameters; the history file is a value.
 */
module ChatApi {
  import opened Wrappers
  import opened Text
  import ModelFunction
  import ChatStorage
  import AudioPlayer
  import ChatMessages

  const CACHE_DIR: string := "cache/"
  const AUDIO_ROUTE: string := "/audio/"
  const TEXT_FALLBACK: string := "抱歉，我现在无法处理您的请求，请稍后重试。"
  const AUDIO_FALLBACK: string := "抱歉，我现在无法理解您的语音输入，请稍后重试。"
  const TEXT_ONLY_ERROR: string := "Audio mode is not supported in text only mode"
  const BAD_TYPE_ERROR: string := "Invalid file type. Please upload an audio file."
  const PROCESSING_ERROR_PREFIX: string := "Audio processing failed: "
  /** `str(e)` for the `AttributeError` raised when the upload has no content type. */
  const NO_CONTENT_TYPE: string := "'NoneType' object has no attribute 'startswith'"

  // ---------------------------------------------------------------- audio path

  /**
   * The synthesiser's file path as the browser should request it: a path under `cache/` is
   * served from `/audio/` with every `cache/` removed; anything else, `None` included, is
   * passed on unchanged.
   */
  function AudioPath(ttsPath: Option<string>): (r: Option<string>)
    ensures ttsPath.Some? && StartsWith(ttsPath.value, CACHE_DIR) ==>
      r == Some(AUDIO_ROUTE + RemoveAll(ttsPath.value, CACHE_DIR))
    ensures !(ttsPath.Some? && StartsWith(ttsPath.value, CACHE_DIR)) ==> r == ttsPath
  {
    if ttsPath.Some? && ttsPath.value != "" && StartsWith(ttsPath.value, CACHE_DIR)
    then Some(AUDIO_ROUTE + RemoveAll(ttsPath.value, CACHE_DIR))
    else ttsPath
  }

  /**
   * A file directly in the cache is served under its own name, and the player turns that into
   * a URL on the local server.
   */
  lemma CachedFileServed(name: string)
    requires !Contains(name, CACHE_DIR)
    ensures AudioPath(Some(CACHE_DIR + name)) == Some(AUDIO_ROUTE + name)
    ensures AudioPlayer.BaseUrl(AUDIO_ROUTE + name) == AudioPlayer.LOCAL_SERVER + AUDIO_ROUTE + name
  {
    var p := CACHE_DIR + name;
    assert p[..6] == CACHE_DIR && p[6..] == name;
    RemoveAllAbsent(name, CACHE_DIR);
    var q := AUDIO_ROUTE + name;
    assert q[..1] == "/";
    assert q[0] == '/';
  }

  // ---------------------------------------------------------------- streamed reply

  /** The chunks joined in order. */
  function Concat(chunks: seq<string>): string {
    if |chunks| == 0 then "" else Concat(chunks[..|chunks| - 1]) + chunks[|chunks| - 1]
  }

  lemma {:induction false} ConcatAppend(a: seq<string>, b: seq<string>)
    ensures Concat(a + b) == Concat(a) + Concat(b)
    decreases |b|
  {
    if |b| == 0 {
      assert a + b == a;
    } else {
      var c := a + b;
      assert c[..|c| - 1] == a + b[..|b| - 1];
      ConcatAppend(a, b[..|b| - 1]);
    }
  }

  /** The `async for` loop that accumulates the streamed reply. */
  method CollectReply(chunks: seq<string>) returns (full: string)
    ensures full == Concat(chunks)
    ensures forall i :: 0 <= i < |chunks| ==> |chunks[i]| <= |full|
  {
    full := "";
    var i := 0;
    while i < |chunks|
      invariant 0 <= i <= |chunks|
      invariant full == Concat(chunks[..i])
      invariant forall j :: 0 <= j < i ==> |chunks[j]| <= |full|
    {
      assert chunks[..i + 1][..i] == chunks[..i];
      full := full + chunks[i];
      i := i + 1;
    }
    assert chunks[..i] == chunks;
  }

  /** The fields read from the model's JSON; `None` marks a missing key. */
  datatype LlmJson = LlmJson(text: Option<string>, motion: Option<string>)

  /** The body both chat endpoints return (`asr_text` only from the audio endpoint). */
  datatype ReplyBody = ReplyBody(asrText: Option<string>, text: Option<string>, motion: Option<string>, audioPath: Option<string>)

  /** The two messages sent to the language model: the system prompt, then the user's input. */
  function Conversation(systemPrompt: string, input: Option<string>): seq<(string, Option<string>)> {
    [("system", Some(systemPrompt)), ("user", input)]
  }

  /**
   * The shared second half of both chat endpoints: the reply is parsed from the streamed text,
   * an unparseable reply is replaced by the fallback text with the `idle` motion, and the text
   * is spoken and its path rewritten.
   */
  function Answer(full: string, fallback: string, parse: string -> Option<LlmJson>,
                  speak: Option<string> -> Option<string>): (r: ReplyBody)
    ensures ModelFunction.ExtractJson(full, parse).None? ==>
      r.text == Some(fallback) && r.motion == Some("idle")
    ensures ModelFunction.ExtractJson(full, parse).Some? ==>
      r.text == ModelFunction.ExtractJson(full, parse).value.text
      && r.motion == ModelFunction.ExtractJson(full, parse).value.motion
    ensures r.audioPath == AudioPath(speak(r.text)) && r.asrText.None?
  {
    var reply := match ModelFunction.ExtractJson(full, parse)
      case None => LlmJson(Some(fallback), Some("idle"))
      case Some(j) => j;
    ReplyBody(None, reply.text, reply.motion, AudioPath(speak(reply.text)))
  }

  /** `chat_api_text`. */
  function ChatText(input: Option<string>, systemPrompt: string,
                    complete: seq<(string, Option<string>)> -> seq<string>,
                    parse: string -> Option<LlmJson>, speak: Option<string> -> Option<string>): (r: ReplyBody)
  {
    Answer(Concat(complete(Conversation(systemPrompt, input))), TEXT_FALLBACK, parse, speak)
  }

  /** A reply the model wrapped in a fence is recovered; one that does not parse falls back to `idle`. */
  lemma FencedReplyRecovered(lang: string, body: string, systemPrompt: string, input: Option<string>,
                             complete: seq<(string, Option<string>)> -> seq<string>,
                             parse: string -> Option<LlmJson>, speak: Option<string> -> Option<string>)
    requires lang == "json" || lang == ""
    requires ModelFunction.Trimmed(body)
    requires Concat(complete(Conversation(systemPrompt, input))) == ModelFunction.Fenced(lang, body)
    ensures parse(body).Some? ==>
      ChatText(input, systemPrompt, complete, parse, speak).text == parse(body).value.text
    ensures parse(body).None? ==>
      ChatText(input, systemPrompt, complete, parse, speak).motion == Some("idle")
  {
    ModelFunction.StripFenceOfFenced(lang, body);
  }

  // ---------------------------------------------------------------- audio endpoint

  datatype ChatMode = TextOnly | Voice

  datatype AudioResponse = AudioError(error: string) | AudioReply(body: ReplyBody)

  /** Voice mode is on and the upload declares an audio type. */
  predicate IsAudioUpload(mode: ChatMode, contentType: Option<string>) {
    mode == Voice && contentType.Some? && StartsWith(contentType.value, "audio/")
  }

  /**
   * `chat_api_audio`: refused in text-only mode; refused when the upload is not an audio type
   * (a missing type raises inside the `try`, so it reports a processing failure); a failure
   * while decoding or recognising reports the error; otherwise the recognised text is answered
   * like a typed message, with the voice fallback text.
   */
  function ChatAudio(mode: ChatMode, contentType: Option<string>, recognised: Result<Option<string>, string>,
                     systemPrompt: string, complete: seq<(string, Option<string>)> -> seq<string>,
                     parse: string -> Option<LlmJson>, speak: Option<string> -> Option<string>): (r: AudioResponse)
    ensures mode == TextOnly ==> r == AudioError(TEXT_ONLY_ERROR)
    ensures mode == Voice && contentType.None? ==> r == AudioError(PROCESSING_ERROR_PREFIX + NO_CONTENT_TYPE)
    ensures mode == Voice && contentType.Some? && !StartsWith(contentType.value, "audio/") ==>
      r == AudioError(BAD_TYPE_ERROR)
    ensures IsAudioUpload(mode, contentType) && recognised.Err? ==>
      r == AudioError(PROCESSING_ERROR_PREFIX + recognised.error)
    ensures r.AudioReply? <==> IsAudioUpload(mode, contentType) && recognised.Ok?
    ensures r.AudioReply? ==>
      var answer := Answer(Concat(complete(Conversation(systemPrompt, recognised.value))), AUDIO_FALLBACK, parse, speak);
      r.body == answer.(asrText := recognised.value)
  {
    if mode == TextOnly then AudioError(TEXT_ONLY_ERROR)
    else if contentType.None? then AudioError(PROCESSING_ERROR_PREFIX + NO_CONTENT_TYPE)
    else if !StartsWith(contentType.value, "audio/") then AudioError(BAD_TYPE_ERROR)
    else
      assert IsAudioUpload(mode, contentType);
      match recognised
      case Err(e) => AudioError(PROCESSING_ERROR_PREFIX + e)
      case Ok(input) =>
        var answer := Answer(Concat(complete(Conversation(systemPrompt, input))), AUDIO_FALLBACK, parse, speak);
        AudioReply(answer.(asrText := input))
  }

  // ---------------------------------------------------------------- chat history

  /** The history file on the server: absent, present, or present but unreadable. */
  datatype Stored = Missing | Present(file: ChatStorage.HistoryFile) | Unreadable

  /** The history body, as the browser's loader sees it. */
  function HistoryResponse(file: ChatStorage.HistoryFile): ChatStorage.LoadResponse {
    ChatStorage.Payload(false, Some(file.messages))
  }

  /** The structure returned when no history was ever saved. */
  function EmptyHistory(): (f: ChatStorage.HistoryFile)
    ensures f.version == ChatStorage.FILE_VERSION && f.messages == []
  {
    ChatStorage.HistoryFile("1.0", "", "", [])
  }

  /** `GET /chat_history`: the stored file, the empty structure, or an `error` object. */
  function GetChatHistory(stored: Stored): (r: ChatStorage.LoadResponse)
    ensures stored.Missing? ==> r == HistoryResponse(EmptyHistory())
    ensures stored.Present? ==> r == HistoryResponse(stored.file)
    ensures stored.Unreadable? ==> r == ChatStorage.Payload(true, None)
  {
    match stored
    case Missing => HistoryResponse(EmptyHistory())
    case Present(f) => HistoryResponse(f)
    case Unreadable => ChatStorage.Payload(true, None)
  }

  /** `POST /chat_history` stores the body; `DELETE /chat_history` removes the file. */
  function SaveHistory(body: ChatStorage.HistoryFile): Stored { Present(body) }
  function ClearHistory(stored: Stored): Stored { Missing }

  /**
   * Across the two sides: after a save, the browser loads back the messages it saved (each
   * without files); with no file, after a clear, or when the file cannot be read, it loads
   * an empty transcript.
   */
  lemma HistoryRoundTrip(ms: seq<ChatMessages.ChatMessage>, now: int, iso: ChatStorage.IsoCodec, stored: Stored)
    requires iso.ParsesFormatted()
    ensures var loaded := ChatStorage.LoadChatHistory(GetChatHistory(SaveHistory(ChatStorage.SaveChatHistory(ms, now, iso))), iso);
      |loaded| == |ms| && forall i :: 0 <= i < |ms| ==> loaded[i] == ms[i].(files := [])
    ensures ChatStorage.LoadChatHistory(GetChatHistory(ClearHistory(stored)), iso) == []
    ensures ChatStorage.LoadChatHistory(GetChatHistory(Unreadable), iso) == []
  {
    ChatStorage.SaveLoadRoundTrip(ms, now, iso);
  }
}
