/**
 * `src/model_function.py`: pulling the JSON reply out of a Markdown code fence, assembling the
 * system prompt from the configuration, and choosing the speech and language engines by name.
 * The JSON parser is a parameter, and an engine is represented by its kind: the engine
 * classes themselves are not part of this model.
 */
module ModelFunction {
  import opened Wrappers
  import opened Text
  import opened OrderedMap
  import Seqs

  // ---------------------------------------------------------------- code fences

  const FENCE: string := "```"

  /** Drops one `json` language tag after the opening fence. */
  function DropJsonTag(s: string): (r: string)
    ensures r == s || (StartsWith(s, "json") && s == "json" + r)
  {
    if StartsWith(s, "json") then s[4..] else s
  }

  /**
   * `extract_json_from_markdown`'s cleaning: trim; remove one opening fence, its optional
   * `json` tag and the whitespace after it; remove one closing fence and the whitespace before
   * it; trim again.
   */
  function StripFence(text: string): (r: string)
    ensures |r| <= |text|
    ensures |r| > 0 ==> !IsPySpace(r[0]) && !IsPySpace(r[|r| - 1])
  {
    Trim(Unfence(Trim(text, IsPySpace)), IsPySpace)
  }

  /** The two substitutions: one opening fence with its tag and the whitespace after it, then one closing fence with the whitespace before it. */
  function Unfence(s1: string): (r: string)
    ensures |r| <= |s1|
  {
    var s2 := if StartsWith(s1, FENCE) then TrimStart(DropJsonTag(s1[3..]), IsPySpace) else s1;
    if EndsWith(s2, FENCE) then TrimEnd(s2[..|s2| - 3], IsPySpace) else s2
  }

  /**
   * The JSON value of the reply, or `None` when the cleaned text does not parse. A reply
   * fenced with or without the `json` tag parses as its inner text; an unfenced reply parses
   * as itself, trimmed.
   */
  function ExtractJson<J>(text: string, parse: string -> Option<J>): (r: Option<J>)
    ensures forall lang, body ::
      (lang == "json" || lang == "") && Trimmed(body) && text == Fenced(lang, body) ==> r == parse(body)
    ensures !StartsWith(Trim(text, IsPySpace), FENCE) && !EndsWith(Trim(text, IsPySpace), FENCE) ==>
      r == parse(Trim(text, IsPySpace))
  {
    var plain := !StartsWith(Trim(text, IsPySpace), FENCE) && !EndsWith(Trim(text, IsPySpace), FENCE);
    assert plain ==> StripFence(text) == Trim(text, IsPySpace) by {
      if plain {
        StripFenceOfPlain(text);
      }
    }
    StripFenceOfAnyFenced(text);
    parse(StripFence(text))
  }

  /** `StripFenceOfFenced` for every way of writing `text` as a fenced block. */
  lemma StripFenceOfAnyFenced(text: string)
    ensures forall lang, body ::
      (lang == "json" || lang == "") && Trimmed(body) && text == Fenced(lang, body) ==> StripFence(text) == body
  {
    forall lang, body | (lang == "json" || lang == "") && Trimmed(body) && text == Fenced(lang, body)
      ensures StripFence(text) == body
    {
      StripFenceOfFenced(lang, body);
    }
  }

  predicate Trimmed(s: string) {
    |s| > 0 ==> !IsPySpace(s[0]) && !IsPySpace(s[|s| - 1])
  }

  function Fenced(lang: string, body: string): string {
    FENCE + lang + "\n" + body + "\n" + FENCE
  }

  /**
   * The fence round trip: a trimmed body wrapped in a fence, with or without the `json` tag,
   * comes back unchanged.
   */
  lemma StripFenceOfFenced(lang: string, body: string)
    requires lang == "json" || lang == ""
    requires Trimmed(body)
    ensures StripFence(Fenced(lang, body)) == body
  {
    var text := Fenced(lang, body);
    FencedIsTrimmed(lang, body);
    OpeningRemoved(lang, body);
    ClosingRemoved(body);
    TrimOfTrimmed(body, IsPySpace);
  }

  lemma FencedIsTrimmed(lang: string, body: string)
    ensures Trim(Fenced(lang, body), IsPySpace) == Fenced(lang, body)
    ensures StartsWith(Fenced(lang, body), FENCE)
  {
    var text := Fenced(lang, body);
    assert text[0] == '`' && text[|text| - 1] == '`';
    TrimOfTrimmed(text, IsPySpace);
    assert text[..3] == FENCE;
  }

  /** The opening fence, its tag and the line break go; the rest starts at the body. */
  lemma OpeningRemoved(lang: string, body: string)
    requires lang == "json" || lang == ""
    requires Trimmed(body)
    ensures TrimStart(DropJsonTag(Fenced(lang, body)[3..]), IsPySpace)
         == if |body| > 0 then body + "\n" + FENCE else FENCE
  {
    TagDropped(lang, body);
    var after := "\n" + body + "\n" + FENCE;
    if |body| > 0 {
      assert after == "\n" + (body + "\n" + FENCE);
      TrimStartOf("\n", body + "\n" + FENCE, IsPySpace);
    } else {
      assert after == "\n\n" + FENCE;
      TrimStartOf("\n\n", FENCE, IsPySpace);
    }
  }

  lemma TagDropped(lang: string, body: string)
    requires lang == "json" || lang == ""
    ensures DropJsonTag(Fenced(lang, body)[3..]) == "\n" + body + "\n" + FENCE
  {
    var after := "\n" + body + "\n" + FENCE;
    assert Fenced(lang, body)[3..] == lang + after;
    if lang == "json" {
      assert (lang + after)[..4] == "json";
      assert (lang + after)[4..] == after;
    } else {
      assert lang + after == after;
      assert after[..4][0] == '\n';
    }
  }

  /** The closing fence and the line break before it go, leaving the body. */
  lemma ClosingRemoved(body: string)
    requires Trimmed(body)
    ensures var s2 := if |body| > 0 then body + "\n" + FENCE else FENCE;
      EndsWith(s2, FENCE) && TrimEnd(s2[..|s2| - 3], IsPySpace) == body
  {
    if |body| > 0 {
      var s2 := body + "\n" + FENCE;
      assert s2[|s2| - 3..] == FENCE;
      assert s2[..|s2| - 3] == body + "\n";
      TrimEndOf(body, "\n", IsPySpace);
    } else {
      assert FENCE[..0] == "";
    }
  }

  /** Text that is neither opened nor closed by a fence is only trimmed. */
  lemma {:induction false} StripFenceOfPlain(text: string)
    requires !StartsWith(Trim(text, IsPySpace), FENCE) && !EndsWith(Trim(text, IsPySpace), FENCE)
    ensures StripFence(text) == Trim(text, IsPySpace)
  {
    TrimOfTrimmed(Trim(text, IsPySpace), IsPySpace);
  }

  // ---------------------------------------------------------------- system prompt

  const NO_MOTIONS: string := "无可用动作"

  /** The configuration read by `build_system_prompt`; `None` marks a missing key. */
  datatype PromptConfig = PromptConfig(
    characterPrompt: Option<string>,
    motions: Entries<Option<string>>,
    systemPrompt: Option<string>)

  function MotionLine(entry: (string, Option<string>)): string {
    "- " + entry.0 + ": " + entry.1.GetOr("")
  }

  /** One `- <name>: <trigger>` line per motion, in map order, or a fixed note when there are none. */
  function MotionSection(motions: Entries<Option<string>>): (r: string)
    ensures |motions| == 0 ==> r == NO_MOTIONS
    ensures |motions| > 0 ==> r == Join(Seqs.Map(motions, MotionLine), "\n")
  {
    if |motions| == 0 then NO_MOTIONS else Join(Seqs.Map(motions, MotionLine), "\n")
  }

  /**
   * When no name or trigger holds a line break, the section splits back into exactly one line
   * per motion, in order, each naming the motion and its trigger (empty when missing).
   */
  lemma MotionSectionLines(motions: Entries<Option<string>>)
    requires |motions| > 0
    requires forall i :: 0 <= i < |motions| ==> '\n' !in motions[i].0 && '\n' !in motions[i].1.GetOr("")
    ensures var lines := Split(MotionSection(motions), '\n');
      && |lines| == |motions|
      && forall i :: 0 <= i < |motions| ==> lines[i] == "- " + motions[i].0 + ": " + motions[i].1.GetOr("")
  {
    var lines := Seqs.Map(motions, MotionLine);
    forall i | 0 <= i < |lines|
      ensures '\n' !in lines[i]
    {
      assert lines[i] == "- " + motions[i].0 + ": " + motions[i].1.GetOr("");
    }
    SplitJoin(lines, '\n');
  }

  const HEADER: string := "# 角色设定\n        "
  const MOTIONS_HEADER: string := "\n\n        # 可用动作及触发条件\n        "
  const FORMAT_HEADER: string := "\n\n        # 输出格式要求\n        "
  const CLOSING: string := "\n\n        请严格按照以上要求进行回复。"

  /**
   * `build_system_prompt`: the character prompt, the motion section and the output-format
   * prompt under their headings, in that order, then the closing instruction. A missing prompt
   * counts as empty.
   */
  function BuildSystemPrompt(c: PromptConfig): (r: string)
    ensures StartsWith(r, HEADER + c.characterPrompt.GetOr("") + MOTIONS_HEADER)
    ensures EndsWith(r, FORMAT_HEADER + c.systemPrompt.GetOr("") + CLOSING)
    ensures OccursAt(r, MotionSection(c.motions), |HEADER + c.characterPrompt.GetOr("") + MOTIONS_HEADER|)
    ensures |r| == |HEADER + c.characterPrompt.GetOr("") + MOTIONS_HEADER| + |MotionSection(c.motions)|
                 + |FORMAT_HEADER + c.systemPrompt.GetOr("") + CLOSING|
  {
    var head := HEADER + c.characterPrompt.GetOr("") + MOTIONS_HEADER;
    var tail := FORMAT_HEADER + c.systemPrompt.GetOr("") + CLOSING;
    var r := head + MotionSection(c.motions) + tail;
    assert r[..|head|] == head;
    assert r[|r| - |tail|..] == tail;
    assert r[|head|..|head| + |MotionSection(c.motions)|] == MotionSection(c.motions);
    r
  }

  /**
   * The prompt is pinned down by its parts: any text that starts with the heading and
   * character prompt, holds the motion section right after them, ends with the format prompt
   * and closing, and has exactly their combined length, is the prompt `build_system_prompt` builds.
   */
  lemma PromptPartsDetermine(c: PromptConfig, r: string)
    requires StartsWith(r, HEADER + c.characterPrompt.GetOr("") + MOTIONS_HEADER)
    requires OccursAt(r, MotionSection(c.motions), |HEADER + c.characterPrompt.GetOr("") + MOTIONS_HEADER|)
    requires EndsWith(r, FORMAT_HEADER + c.systemPrompt.GetOr("") + CLOSING)
    requires |r| == |HEADER + c.characterPrompt.GetOr("") + MOTIONS_HEADER| + |MotionSection(c.motions)|
                  + |FORMAT_HEADER + c.systemPrompt.GetOr("") + CLOSING|
    ensures r == BuildSystemPrompt(c)
  {
    var head := HEADER + c.characterPrompt.GetOr("") + MOTIONS_HEADER;
    var section := MotionSection(c.motions);
    var tail := FORMAT_HEADER + c.systemPrompt.GetOr("") + CLOSING;
    var a, b := |head|, |head| + |section|;
    assert r == r[..a] + r[a..b] + r[b..];
    assert r[b..] == r[|r| - |tail|..];
  }

  // ---------------------------------------------------------------- engine selection

  datatype AsrKind = Funasr | SherpaOnnxAsr | WhisperCpp
  datatype LlmKind = LiteLlm
  datatype TtsKind = FishSpeech | GptSovits | IndexTts | MegaTts | SherpaOnnxTts

  function InvalidName(name: string): string {
    "Invalid model name: " + name
  }

  function AsrName(k: AsrKind): string {
    match k
    case Funasr => "funasr"
    case SherpaOnnxAsr => "sherpa_onnx"
    case WhisperCpp => "whispercpp"
  }

  function LlmName(k: LlmKind): string {
    "litellm"
  }

  function TtsName(k: TtsKind): string {
    match k
    case FishSpeech => "fish_speech"
    case GptSovits => "gpt_sovits"
    case IndexTts => "index_tts"
    case MegaTts => "mega_tts"
    case SherpaOnnxTts => "sherpa_onnx"
  }

  /** `set_asr_model`: a known name selects its engine; any other name is a `ValueError`. */
  function SetAsrModel(name: string): (r: Result<AsrKind, string>)
    ensures r.Ok? ==> AsrName(r.value) == name
    ensures r.Err? ==> r.error == InvalidName(name) && forall k: AsrKind :: AsrName(k) != name
  {
    if name == "funasr" then Ok(Funasr)
    else if name == "sherpa_onnx" then Ok(SherpaOnnxAsr)
    else if name == "whispercpp" then Ok(WhisperCpp)
    else Err(InvalidName(name))
  }

  /** `set_llm_model`: only `litellm` is known. */
  function SetLlmModel(name: string): (r: Result<LlmKind, string>)
    ensures r.Ok? ==> LlmName(r.value) == name
    ensures r.Err? ==> r.error == InvalidName(name) && forall k: LlmKind :: LlmName(k) != name
  {
    if name == "litellm" then Ok(LiteLlm) else Err(InvalidName(name))
  }

  /** `set_tts_model`: a known name selects its engine; any other name is a `ValueError`. */
  function SetTtsModel(name: string): (r: Result<TtsKind, string>)
    ensures r.Ok? ==> TtsName(r.value) == name
    ensures r.Err? ==> r.error == InvalidName(name) && forall k: TtsKind :: TtsName(k) != name
  {
    if name == "fish_speech" then Ok(FishSpeech)
    else if name == "gpt_sovits" then Ok(GptSovits)
    else if name == "index_tts" then Ok(IndexTts)
    else if name == "mega_tts" then Ok(MegaTts)
    else if name == "sherpa_onnx" then Ok(SherpaOnnxTts)
    else Err(InvalidName(name))
  }

  /** Every engine is reachable by its own name, so the names and the engines correspond one to one. */
  lemma EngineNamesRoundTrip(a: AsrKind, l: LlmKind, t: TtsKind)
    ensures SetAsrModel(AsrName(a)) == Ok(a)
    ensures SetLlmModel(LlmName(l)) == Ok(l)
    ensures SetTtsModel(TtsName(t)) == Ok(t)
  {
  }
}
