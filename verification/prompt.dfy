/** The instruction text sent with every analysis request. The prompt is a
    fixed body followed by a language instruction that names the language all
    output text must be in. */
module Prompt {
  import opened Types
  import opened Text

  /** The shared opening of both language instructions. */
  const InstructionStem: string :=
    "All text in the JSON output, including keys and values, must be in "
  const ArabicInstruction: string := InstructionStem + "Arabic."
  const EnglishInstruction: string := InstructionStem + "English."

  /** The rule that the answer is exactly one JSON object. */
  const JsonRule: string :=
    "You MUST provide your response as a single, valid JSON object with no surrounding text or markdown."

  /** The prompt body up to the JSON rule, as laid out in the template literal
      (each line indented by four spaces). */
  const Preamble: string :=
    "\n    You are an expert AI in medical report analysis, trained on WHO and NIH standards."
    + "\n    Analyze the provided medical lab report image."
    + "\n    First, extract the following patient information: Name, Age, Date of the medical test, and the Type"
      + " of medical test (e.g., \"Complete Blood Count\", \"Lipid Panel\")."
      + " If any of this information is not present, use a placeholder like \"Not specified\"."
    + "\n    "
    + "\n    Next, identify key metrics, compare them to standard reference ranges,"
      + " and classify each as 'normal', 'moderate', or 'severe' based on deviation from the norm."
    + "\n    Provide a simplified summary for a patient, a detailed"
      + " academic report for a physician, and actionable recommendations."
    + "\n    "

  /** The line break and indentation that separate the JSON rule from the
      language instruction, and the text that closes the template. */
  const Separator: string := "\n    "
  const Closing: string := "\n  "

  function LanguageInstruction(language: Language): string {
    if language == Ar then ArabicInstruction else EnglishInstruction
  }

  /** Where the JSON rule starts in every prompt. */
  function RulePosition(): nat {
    |Preamble|
  }

  /** Where the language instruction starts in every prompt. */
  function InstructionPosition(): nat {
    |Preamble| + |JsonRule| + |Separator|
  }

  /** The template with an arbitrary body in place of the preamble; the
      facts below hold whatever that body is. */
  function Assemble(body: string, language: Language): string {
    body + JsonRule + Separator + LanguageInstruction(language) + Closing
  }

  /** The prompt for `language`. It contains the JSON rule, and after it the
      instruction for Arabic output when the language is Arabic and the
      instruction for English output otherwise; the instruction is the last
      text before the closing indentation. */
  function GetPrompt(language: Language): (prompt: string)
    ensures OccursAt(prompt, JsonRule, RulePosition())
    ensures RulePosition() + |JsonRule| <= InstructionPosition()
    ensures language == Ar ==> OccursAt(prompt, ArabicInstruction, InstructionPosition())
    ensures language != Ar ==> OccursAt(prompt, EnglishInstruction, InstructionPosition())
    ensures |prompt| == InstructionPosition() + |LanguageInstruction(language)| + |Closing|
  {
    AssembleLayout(Preamble, language);
    Assemble(Preamble, language)
  }

  lemma AssembleLayout(body: string, language: Language)
    ensures OccursAt(Assemble(body, language), JsonRule, |body|)
    ensures OccursAt(Assemble(body, language), LanguageInstruction(language), |body| + |JsonRule| + |Separator|)
    ensures |Assemble(body, language)| == |body| + |JsonRule| + |Separator| + |LanguageInstruction(language)| + |Closing|
  {
    ConcatSlices(body, JsonRule, Separator, LanguageInstruction(language), Closing);
  }

  lemma ConcatSlices(a: string, b: string, c: string, d: string, e: string)
    ensures (a + b + c + d + e)[|a|..|a| + |b|] == b
    ensures (a + b + c + d + e)[|a| + |b| + |c|..|a| + |b| + |c| + |d|] == d
  {
    var s := a + b + c + d + e;
    assert s == a + b + (c + d + e);
    assert s == (a + b + c) + d + e;
  }

  predicate EndsWith(s: string, suffix: string) {
    |suffix| <= |s| && s[|s| - |suffix|..] == suffix
  }

  /** Reads back, from the end of a prompt, which output language it asks for. */
  function PromptLanguage(prompt: string): Option<Language> {
    if EndsWith(prompt, ArabicInstruction + Closing) then Some(Ar)
    else if EndsWith(prompt, EnglishInstruction + Closing) then Some(En)
    else None
  }

  lemma EndsWithConcat(x: string, y: string)
    ensures EndsWith(x + y, y)
  {
    assert (x + y)[|x + y| - |y|..] == y;
  }

  /** Text ending in "English." never ends in "<anything>Arabic.": five
      characters from the end one has 'h' where the other has 'c'. */
  lemma EnglishEndingIsNotArabic(x: string, y: string)
    ensures !EndsWith(x + "English." + Closing, y + "Arabic." + Closing)
  {
    var p, ar := x + "English." + Closing, y + "Arabic." + Closing;
    assert p[|p| - 5] == 'h';
    assert ar[|ar| - 5] == 'c';
  }

  /** Whatever the body, the language can be read back from the end of the
      assembled prompt. */
  lemma {:induction false} AssembleLanguage(body: string, language: Language)
    ensures PromptLanguage(Assemble(body, language)) == Some(language)
  {
    var head := body + JsonRule + Separator;
    assert Assemble(body, language) == head + (LanguageInstruction(language) + Closing);
    EndsWithConcat(head, LanguageInstruction(language) + Closing);
    if language == En {
      assert Assemble(body, En) == (head + InstructionStem) + "English." + Closing;
      EnglishEndingIsNotArabic(head + InstructionStem, InstructionStem);
    }
  }

  /** The prompt determines the language it was built for, so the two
      languages never share a prompt. */
  lemma PromptLanguageRoundTrip(language: Language)
    ensures PromptLanguage(GetPrompt(language)) == Some(language)
  {
    AssembleLanguage(Preamble, language);
  }

  lemma GetPromptInjective(l1: Language, l2: Language)
    ensures GetPrompt(l1) == GetPrompt(l2) <==> l1 == l2
  {
    PromptLanguageRoundTrip(l1);
    PromptLanguageRoundTrip(l2);
  }
}
