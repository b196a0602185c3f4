/**
 The helpers of `utils.py`: the system prompt handed to the diagnosis model
 (`get_structured_prompt`) and the public URL of a synthesized reply
 (`text_to_speech`).
 */
module Utils {

  import opened Wrappers
  import opened Strings
  import Language

  // ------------------------------------------------------------- str.format

  function Prepend(prefix: string, rest: Option<string>): Option<string> {
    match rest
    case Some(s) => Some(prefix + s)
    case None => None
  }

  /** Position of the first `c` in `s`. */
  function IndexOf(s: string, c: char): (r: Option<nat>)
    ensures r.Some? ==> r.value < |s| && s[r.value] == c && c !in s[..r.value]
    ensures r.None? ==> c !in s
    decreases |s|
  {
    if |s| == 0 then None
    else if s[0] == c then Some(0)
    else
      match IndexOf(s[1..], c)
      case None => None
      case Some(i) =>
        assert s[..i + 1] == [s[0]] + s[1..][..i];
        Some(i + 1)
  }

  /**
   `template.format(key=value)`: `{{` and `}}` stand for single braces and
   `{key}` for `value`. Any other replacement field, and a brace left
   unpaired, is the error Python raises (`KeyError`, `IndexError` or
   `ValueError`), here `None`.
   */
  function Format(template: string, key: string, value: string): Option<string>
    decreases |template|
  {
    var t := template;
    if |t| == 0 then Some("")
    else if t[0] == '{' && |t| >= 2 && t[1] == '{' then Prepend("{", Format(t[2..], key, value))
    else if t[0] == '{' then
      match IndexOf(t[1..], '}')
      case None => None
      case Some(j) => if t[1..1 + j] == key then Prepend(value, Format(t[j + 2..], key, value)) else None
    else if t[0] == '}' then
      if |t| >= 2 && t[1] == '}' then Prepend("}", Format(t[2..], key, value)) else None
    else Prepend([t[0]], Format(t[1..], key, value))
  }

  /** How a literal text is written inside a format string: every brace doubled. */
  function Escape(s: string): string
    decreases |s|
  {
    if |s| == 0 then ""
    else if s[0] == '{' || s[0] == '}' then [s[0], s[0]] + Escape(s[1..])
    else [s[0]] + Escape(s[1..])
  }

  lemma PrependAssoc(a: string, b: string, rest: Option<string>)
    ensures Prepend(a, Prepend(b, rest)) == Prepend(a + b, rest)
  {
    match rest
    case Some(s) => assert a + (b + s) == (a + b) + s;
    case None =>
  }

  /** A doubled brace renders as one brace. */
  lemma FormatDoubledBrace(c: char, tail: string, key: string, value: string)
    requires c == '{' || c == '}'
    ensures Format([c, c] + tail, key, value) == Prepend([c], Format(tail, key, value))
  {
    var t := [c, c] + tail;
    assert t[2..] == tail;
  }

  /** Any other character renders as itself. */
  lemma FormatPlainChar(c: char, tail: string, key: string, value: string)
    requires c != '{' && c != '}'
    ensures Format([c] + tail, key, value) == Prepend([c], Format(tail, key, value))
  {
    var t := [c] + tail;
    assert t[1..] == tail;
  }

  /** Doubled braces render as single ones: escaped text comes out as written. */
  lemma {:induction false} FormatEscaped(x: string, rest: string, key: string, value: string)
    ensures Format(Escape(x) + rest, key, value) == Prepend(x, Format(rest, key, value))
    decreases |x|
  {
    if |x| == 0 {
      assert Escape(x) + rest == rest;
      match Format(rest, key, value)
      case Some(s) => assert x + s == s;
      case None =>
    } else {
      var tail := Escape(x[1..]) + rest;
      FormatEscaped(x[1..], rest, key, value);
      if x[0] == '{' || x[0] == '}' {
        assert Escape(x) == [x[0], x[0]] + Escape(x[1..]);
        assert Escape(x) + rest == [x[0], x[0]] + tail;
        FormatDoubledBrace(x[0], tail, key, value);
      } else {
        assert Escape(x) == [x[0]] + Escape(x[1..]);
        assert Escape(x) + rest == [x[0]] + tail;
        FormatPlainChar(x[0], tail, key, value);
      }
      PrependAssoc([x[0]], x[1..], Format(rest, key, value));
      assert [x[0]] + x[1..] == x;
    }
  }

  /** A replacement field naming `key` renders as `value`. */
  lemma FormatField(key: string, rest: string, value: string)
    requires |key| > 0 && key[0] != '{' && '}' !in key
    ensures Format("{" + key + "}" + rest, key, value) == Prepend(value, Format(rest, key, value))
  {
    var t := "{" + key + "}" + rest;
    assert t[1..] == key + "}" + rest;
    assert t[1..][|key|] == '}';
    assert t[1..][..|key|] == key;
    assert IndexOf(t[1..], '}') == Some(|key|);
    assert t[1..1 + |key|] == key;
    assert t[|key| + 2..] == rest;
  }

  /** Escaped text alone renders as the text. */
  lemma FormatEscapedOnly(y: string, key: string, value: string)
    ensures Format(Escape(y), key, value) == Some(y)
  {
    FormatEscaped(y, "", key, value);
    assert Escape(y) + "" == Escape(y);
    assert y + "" == y;
  }

  /**
   A template made of escaped text, one field and escaped text renders as
   the text with `value` in place of the field.
   */
  lemma FormatTemplate(x: string, key: string, value: string, y: string)
    requires |key| > 0 && key[0] != '{' && '}' !in key
    ensures Format(Escape(x) + "{" + key + "}" + Escape(y), key, value) == Some(x + value + y)
  {
    FormatFieldThenEscaped(key, value, y);
    FormatEscaped(x, "{" + key + "}" + Escape(y), key, value);
    RegroupField(Escape(x), key, Escape(y));
    RegroupField(x, value, y);
  }

  /** A field followed by escaped text renders as the value followed by the text. */
  lemma FormatFieldThenEscaped(key: string, value: string, y: string)
    requires |key| > 0 && key[0] != '{' && '}' !in key
    ensures Format("{" + key + "}" + Escape(y), key, value) == Some(value + y)
  {
    FormatEscapedOnly(y, key, value);
    FormatField(key, Escape(y), value);
  }

  lemma RegroupField(a: string, k: string, b: string)
    ensures a + "{" + k + "}" + b == a + ("{" + k + "}" + b)
    ensures a + k + b == a + (k + b)
  {
  }

  // ---------------------------------------------------------- system prompt

  /**
   The text of `SYSTEM_PROMPT_TEMPLATE` between its opening newline and the
   instruction label, with the JSON example's braces as they render.
   */
  const PromptPreamble :=
    "You are AgriAssist, "
    + "an AI agronomist for Indian farmers.\n"
    + "Analyze the crop image and return **only** a valid JSON object.\n"
    + "\n"
    + "Fields (use the language requested – Tamil script for \"ta\", Devanagari for \"hi\"):\n"
    + "{\n"
    + "  \"diagnosis\": \"நோய் பெயர்\" or \"रोग का नाम\",\n"
    + "  \"english_name\": \"English name\",\n"
    + "  \"confidence\": 85,\n"
    + "  \"symptoms_match\": [\"இலைகளில் பழுப்பு புள்ளிகள்\"],\n"
    + "  \"treatment_steps\": [\"1. 50 கிராம்...\"],\n"
    + "  \"estimated_cost_inr\": 150,\n"
    + "  \"precautions\": \"கையுறை அணியவும்\",\n"
    + "  \"escalate\": false\n"
    + "}\n"
    + "\n"

  const InstructionLabel := "Language instruction: "

  const InstructionField := "lang_instruction"

  /** The rendered prompt up to the instruction. */
  const PromptText := PromptPreamble + InstructionLabel

  /** `SYSTEM_PROMPT_TEMPLATE` as written: the braces of the JSON example doubled. */
  const PromptTemplate := Escape("\n" + PromptText) + "{" + InstructionField + "}" + Escape("\n")

  const TamilInstruction := "Respond in **simple rural Tamil** using Tamil script."
  const HindiInstruction := "Respond in **simple rural Hindi** using Devanagari script."

  /** `LANG_INSTRUCTION`. */
  const LangInstruction: map<string, string> :=
    map[Language.Tamil := TamilInstruction, Language.Hindi := HindiInstruction]

  /** `LANG_INSTRUCTION.get(lang, LANG_INSTRUCTION["ta"])`. */
  function Instruction(lang: string): string {
    if lang in LangInstruction then LangInstruction[lang] else LangInstruction[Language.Tamil]
  }

  datatype Message = Message(role: string, content: string)

  lemma PromptRenders(instruction: string)
    ensures Format(PromptTemplate, InstructionField, instruction) == Some("\n" + PromptText + instruction + "\n")
  {
    FormatTemplate("\n" + PromptText, InstructionField, instruction, "\n");
  }

  lemma PromptTextFirstChar()
    ensures |PromptText| > 0 && PromptText[0] == 'Y'
  {
    assert PromptText[0] == PromptPreamble[0];
  }

  lemma InstructionLastChar(lang: string)
    ensures |Instruction(lang)| > 0 && Instruction(lang)[|Instruction(lang)| - 1] == '.'
  {
  }

  /** Stripping removes exactly the newlines around text that starts and ends with non-space. */
  lemma StripNewlines(a: string, b: string)
    requires |a| > 0 && !IsSpace(a[0]) && |b| > 0 && !IsSpace(b[|b| - 1])
    ensures Strip("\n" + a + b + "\n") == a + b
  {
    var core := a + b;
    assert core[0] == a[0] && core[|core| - 1] == b[|b| - 1];
    assert Stripped(core);
    assert AllSpace("\n") by {
      assert "\n"[0] == '\n';
    }
    StripUnique("\n", core, "\n");
    Regroup("\n", a, b, "\n");
  }

  lemma Regroup(p: string, a: string, b: string, q: string)
    ensures p + a + b + q == p + (a + b) + q
  {
  }

  /** The rendered prompt with its surrounding newlines stripped. */
  lemma PromptContent(lang: string)
    ensures Strip("\n" + PromptText + Instruction(lang) + "\n") == PromptText + Instruction(lang)
  {
    PromptTextFirstChar();
    InstructionLastChar(lang);
    StripNewlines(PromptText, Instruction(lang));
  }

  /**
   `get_structured_prompt(lang)`: a single system message whose content is
   the rendered template, single braces and all, with the surrounding newlines
   stripped, ending with the language instruction right after its label.
   */
  function GetStructuredPrompt(lang: string): (r: seq<Message>)
    ensures |r| == 1 && r[0].role == "system"
    ensures r[0].content == PromptText + Instruction(lang)
    ensures Stripped(r[0].content)
    ensures EndsWith(r[0].content, InstructionLabel + Instruction(lang))
  {
    var instruction := Instruction(lang);
    PromptRenders(instruction);
    PromptContent(lang);
    EndsWithConcat(PromptPreamble, InstructionLabel, instruction);
    var content := Strip(Format(PromptTemplate, InstructionField, instruction).value);
    assert content == PromptPreamble + InstructionLabel + instruction;
    [Message("system", content)]
  }

  /** An unknown language code gets the Tamil prompt. */
  lemma PromptFallsBackToTamil(lang: string)
    requires lang != Language.Tamil && lang != Language.Hindi
    ensures GetStructuredPrompt(lang) == GetStructuredPrompt(Language.Tamil)
    ensures Instruction(lang) == TamilInstruction
  {
    assert Instruction(lang) == Instruction(Language.Tamil);
  }

  /** Each supported code gets its own instruction. */
  lemma PromptPerLanguage()
    ensures EndsWith(GetStructuredPrompt(Language.Tamil)[0].content, InstructionLabel + TamilInstruction)
    ensures EndsWith(GetStructuredPrompt(Language.Hindi)[0].content, InstructionLabel + HindiInstruction)
  {
  }

  // --------------------------------------------------------- text to speech

  /**
   The URL `text_to_speech` returns for a reply whose audio was
   synthesized and saved (`synthesized`) under the fresh name `fileId`
   (`str(uuid.uuid4())`): `base_url` without trailing slashes, one slash,
   and the `.mp3` file name. A failed synthesis or save gives `None`.
   */
  function TextToSpeech(synthesized: bool, baseUrl: string, fileId: string): (r: Option<string>)
    ensures r.Some? <==> synthesized
    ensures r.Some? ==> StartsWith(r.value, RStrip(baseUrl, '/'))
    ensures r.Some? ==> EndsWith(r.value, "/" + fileId + ".mp3")
    ensures r.Some? ==> |r.value| == |RStrip(baseUrl, '/')| + |fileId| + 5
    ensures r.Some? ==> var n := |RStrip(baseUrl, '/')|; n == 0 || r.value[n - 1] != '/'
  {
    if synthesized then
      var base := RStrip(baseUrl, '/');
      var url := base + "/" + fileId + ".mp3";
      assert url[..|base|] == base;
      assert url[|url| - (|fileId| + 5)..] == "/" + fileId + ".mp3";
      Some(url)
    else None
  }

  /** Trailing slashes on the base URL make no difference to the URL. */
  lemma TrailingSlashIgnored(synthesized: bool, baseUrl: string, fileId: string)
    ensures TextToSpeech(synthesized, baseUrl + "/", fileId) == TextToSpeech(synthesized, baseUrl, fileId)
  {
    RStripAppend(baseUrl, '/');
  }
}
