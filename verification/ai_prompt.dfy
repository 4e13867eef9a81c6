/**
 `generateContentWithAI`: the prompt each generation type is sent as, and
 how the answer of the external AI service (or its absence) becomes the
 generated content.
 */
module AiPrompt {
  import opened Outcomes
  import opened GenerationModel
  import opened Effects

  /** What is returned, and later saved, when no API key is configured. */
  const ApiKeyMissing := "Error: AI API key not configured."
  const InvalidType := "Invalid generation type."
  const GenerationFailed := "Failed to generate content with AI."

  // Each instruction is written as its first word and the rest: the first
  // words already tell the three apart.
  const SummaryPrefix :=
    "Please" + " summarize the following text. Keep the summary concise and focused on the main points:\n\n"
  const FlashCardsPrefix :=
    "Generate" + " flashcards from the following text. Each flashcard should have a question on one line and the answer on the next. Separate flashcards with a blank line. Example: \"Q: What is A?\nA: B.\"\n\n"
  const KeyPointsPrefix :=
    "Extract" + " 5 to 6 key points from the following text. Present them as a bulleted list. Each point should be concise. Do not include anything else other than the bulleted list.\n\n"

  /** The instruction that precedes the text for each type. */
  function PromptPrefix(t: GenerationType): string {
    match t
    case Summary => SummaryPrefix
    case FlashCards => FlashCardsPrefix
    case KeyPoints => KeyPointsPrefix
  }

  /** The string sent to the AI service: the instruction, then the text. */
  function Render(p: Prompt): string {
    PromptPrefix(p.generationType) + p.text
  }

  /** The `switch` on the type string: a prompt for the three known types,
      none for any other string. */
  function BuildPrompt(kind: string, text: string): (r: Option<string>)
    ensures r.Some? <==> ParseGenerationType(kind).Some?
    ensures r.Some? ==> ReadPrompt(r.value) == Some((ParseGenerationType(kind).value, text))
  {
    match ParseGenerationType(kind)
    case None => None
    case Some(t) =>
      PromptRoundTrip(Prompt(t, text));
      Some(Render(Prompt(t, text)))
  }

  /** Reading a prompt back: which instruction it starts with, and the text
      after it. */
  function ReadPrompt(prompt: string): Option<(GenerationType, string)> {
    if SummaryPrefix <= prompt then Some((Summary, prompt[|SummaryPrefix|..]))
    else if FlashCardsPrefix <= prompt then Some((FlashCards, prompt[|FlashCardsPrefix|..]))
    else if KeyPointsPrefix <= prompt then Some((KeyPoints, prompt[|KeyPointsPrefix|..]))
    else None
  }

  /** The three instructions begin with different characters, so none is a
      prefix of another prompt's instruction. */
  lemma PrefixesDiffer(t: GenerationType, u: GenerationType, text: string)
    requires u != t
    ensures !(PromptPrefix(u) <= PromptPrefix(t) + text)
  {
    var p := PromptPrefix(t) + text;
    assert p[0] == PromptPrefix(t)[0];
    assert SummaryPrefix[0] == 'P' && FlashCardsPrefix[0] == 'G' && KeyPointsPrefix[0] == 'E';
  }

  /** Every prompt carries its type and the extracted text verbatim: reading
      it back gives both. */
  lemma PromptRoundTrip(p: Prompt)
    ensures ReadPrompt(Render(p)) == Some((p.generationType, p.text))
  {
    var t := p.generationType;
    var s := Render(p);
    assert PromptPrefix(t) <= s;
    assert s[|PromptPrefix(t)|..] == p.text;
    match t
    case Summary =>
    case FlashCards =>
      PrefixesDiffer(t, Summary, p.text);
    case KeyPoints =>
      PrefixesDiffer(t, Summary, p.text);
      PrefixesDiffer(t, FlashCards, p.text);
  }

  /** Different types or different texts never give the same prompt string,
      so a reply that depends on the string depends on the prompt's parts. */
  lemma PromptInjective(p: Prompt, q: Prompt)
    requires Render(p) == Render(q)
    ensures p == q
  {
    PromptRoundTrip(p);
    PromptRoundTrip(q);
  }

  /** `generateContentWithAI(text, kind)` with the API key and the AI
      service as parameters. The key is checked before the type, and a
      missing key is answered, not thrown. */
  function GenerateContent(text: string, kind: string, apiKey: string,
                           ai: Prompt -> Result<string>): (r: Run<string>)
    ensures apiKey == "" ==> r == Run(Ok(ApiKeyMissing), [])
    ensures apiKey != "" && ParseGenerationType(kind).None? ==> r == Run(Thrown(InvalidType), [])
    ensures apiKey != "" && ParseGenerationType(kind).Some? ==>
      var prompt := Prompt(ParseGenerationType(kind).value, text);
      && r.calls == [AiGenerate(prompt)]
      && (ai(prompt).Ok? ==> r.result == ai(prompt))
      && (ai(prompt).Thrown? ==> r.result == Thrown(GenerationFailed))
  {
    if apiKey == "" then Run(Ok(ApiKeyMissing), [])
    else match ParseGenerationType(kind)
      case None => Run(Thrown(InvalidType), [])
      case Some(t) =>
        var prompt := Prompt(t, text);
        match ai(prompt)
        case Ok(answer) => Run(Ok(answer), [AiGenerate(prompt)])
        case Thrown(_) => Run(Thrown(GenerationFailed), [AiGenerate(prompt)])
  }

  /** The AI service is asked at most once, and only with the string the
      `switch` builds, which carries the requested type and the text
      unchanged. */
  lemma AskedOnceWithText(text: string, kind: string, apiKey: string, ai: Prompt -> Result<string>)
    ensures var r := GenerateContent(text, kind, apiKey, ai);
      && |r.calls| <= 1
      && (forall c :: c in r.calls ==>
            && c.AiGenerate?
            && BuildPrompt(kind, text) == Some(Render(c.prompt))
            && ReadPrompt(Render(c.prompt)) == Some((ParseGenerationType(kind).value, text)))
  {
    var r := GenerateContent(text, kind, apiKey, ai);
    if apiKey != "" && ParseGenerationType(kind).Some? {
      PromptRoundTrip(Prompt(ParseGenerationType(kind).value, text));
    }
  }
}
