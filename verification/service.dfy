/** The analysis service: builds one generation request from the image and
    the language, sends it, trims the response text and parses it, and turns
    every failure into one of two fixed error messages. The inference call and
    the JSON parser are opaque functions supplied by the caller. */
module GeminiService {
  import opened Types
  import opened Text
  import opened Prompt
  import opened Schema

  const ModelName: string := "gemini-2.5-flash"
  const ResponseMimeType: string := "application/json"
  const Temperature: real := 0.2

  const FormatErrorMessage: string :=
    "Failed to get a valid analysis from the AI. The response was not in the expected format."
  const GenericErrorMessage: string :=
    "An error occurred while analyzing the medical report."

  /** What reading `.trim()` of an absent response text throws: a TypeError,
      whose message does not mention JSON. The message is written in pieces
      so that `MissingTextIsGeneric` can check each piece on its own. */
  const MissingTextError: Thrown := ErrorValue("Cannot read " + "properties of " + "undefined " + "(reading 'trim')")

  datatype Part = InlineData(data: string, mimeType: string) | TextPart(text: string)

  datatype GenerationConfig = GenerationConfig(
    responseMimeType: string,
    responseSchema: SchemaNode,
    temperature: real)

  datatype Request = Request(model: string, parts: seq<Part>, config: GenerationConfig)

  /** A generation response; its text may be absent. */
  datatype Response = Response(text: Option<string>)

  /** The inference call, and `JSON.parse` followed by the unchecked cast to
      the result type. Either may throw. */
  type Generate = Request -> Result<Response, Thrown>
  type JsonParse = string -> Result<AnalysisResult, Thrown>

  /** The request for one image in one language: the image part first, then
      the prompt for that language, with the fixed model, MIME type, schema
      and temperature. */
  function BuildRequest(base64Data: string, mimeType: string, language: Language): (r: Request)
    ensures r.model == ModelName
    ensures r.config == GenerationConfig(ResponseMimeType, ResponseSchema, Temperature)
    ensures |r.parts| == 2 && r.parts[0] == InlineData(base64Data, mimeType)
    ensures r.parts[1] == TextPart(GetPrompt(language))
  {
    Request(
      ModelName,
      [InlineData(base64Data, mimeType), TextPart(GetPrompt(language))],
      GenerationConfig(ResponseMimeType, ResponseSchema, Temperature))
  }

  /** Reads the image and the language back out of a request. */
  function RequestImage(r: Request): Option<Part> {
    if |r.parts| > 0 && r.parts[0].InlineData? then Some(r.parts[0]) else None
  }

  function RequestLanguage(r: Request): Option<Language> {
    if |r.parts| > 1 && r.parts[1].TextPart? then PromptLanguage(r.parts[1].text) else None
  }

  /** Requests for different images or languages are different requests: the
      image and the language can be read back from the request. */
  lemma BuildRequestInverse(base64Data: string, mimeType: string, language: Language)
    ensures RequestImage(BuildRequest(base64Data, mimeType, language)) == Some(InlineData(base64Data, mimeType))
    ensures RequestLanguage(BuildRequest(base64Data, mimeType, language)) == Some(language)
  {
    PromptLanguageRoundTrip(language);
  }

  /** The body of the `try` block once the inference call has settled:
      read and trim the response text, and parse it. Reading the text of a
      response without one throws; nothing checks the parsed value against
      the schema. */
  function Attempt(response: Result<Response, Thrown>, parse: JsonParse): Result<AnalysisResult, Thrown> {
    match response
    case Err(e) => Err(e)
    case Ok(response) =>
      match response.text
      case None => Err(MissingTextError)
      case Some(text) => parse(Trim(text))
  }

  /** The `catch` block: an `Error` whose message mentions JSON becomes the
      format error, and every other thrown value the generic error. */
  function Classify(thrown: Thrown): (message: string)
    ensures message == FormatErrorMessage || message == GenericErrorMessage
    ensures message == FormatErrorMessage <==> thrown.ErrorValue? && Contains(thrown.message, "JSON")
  {
    if thrown.ErrorValue? && Contains(thrown.message, "JSON") then FormatErrorMessage else GenericErrorMessage
  }

  /** What the service makes of the settled inference call. It succeeds
      exactly when the call returned a text whose trimmed form parses, and
      then returns that parse unchanged; it fails only with an `Error`
      carrying one of the two fixed messages. */
  function Interpret(response: Result<Response, Thrown>, parse: JsonParse): (r: Result<AnalysisResult, Thrown>)
    ensures r.Ok? <==> response.Ok? && response.value.text.Some? && parse(Trim(response.value.text.value)).Ok?
    ensures r.Ok? ==> r == parse(Trim(response.value.text.value))
    ensures r.Err? ==> r.error == ErrorValue(FormatErrorMessage) || r.error == ErrorValue(GenericErrorMessage)
  {
    match Attempt(response, parse)
    case Ok(result) => Ok(result)
    case Err(thrown) => Err(ErrorValue(Classify(thrown)))
  }

  /** The service call: it sends the request built from its arguments and
      interprets the reply. It succeeds exactly when that request returns a
      text whose trimmed form parses, returns that parse unchanged, and
      otherwise fails with one of the two fixed messages. */
  function AnalyzeMedicalReport(base64Data: string, mimeType: string, language: Language,
                                generate: Generate, parse: JsonParse): (r: Result<AnalysisResult, Thrown>)
    ensures var response := generate(BuildRequest(base64Data, mimeType, language));
      r.Ok? <==> response.Ok? && response.value.text.Some? && parse(Trim(response.value.text.value)).Ok?
    ensures var response := generate(BuildRequest(base64Data, mimeType, language));
      r.Ok? ==> r == parse(Trim(response.value.text.value))
    ensures r.Err? ==> r.error == ErrorValue(FormatErrorMessage) || r.error == ErrorValue(GenericErrorMessage)
  {
    Interpret(generate(BuildRequest(base64Data, mimeType, language)), parse)
  }

  /** A parse failure whose message mentions JSON is reported as the format
      error; an absent response text is reported as the generic error; a
      failed inference call is classified by its own thrown value. */
  lemma FailureClassification(text: string, thrown: Thrown, parse: JsonParse)
    ensures Interpret(Ok(Response(None)), parse) == Err(ErrorValue(GenericErrorMessage))
    ensures parse(Trim(text)).Err? ==>
      Interpret(Ok(Response(Some(text))), parse) == Err(ErrorValue(Classify(parse(Trim(text)).error)))
    ensures Interpret(Err(thrown), parse) == Err(ErrorValue(Classify(thrown)))
  {
    MissingTextIsGeneric();
  }

  lemma MissingTextIsGeneric()
    ensures Classify(MissingTextError) == GenericErrorMessage
  {
    var m := MissingTextError.message;
    assert 'J' !in "Cannot read " && 'J' !in "properties of ";
    assert 'J' !in "undefined " && 'J' !in "(reading 'trim')";
    assert 'J' !in m;
    forall i | 0 <= i <= |m| - 4 ensures !OccursAt(m, "JSON", i) {
      assert m[i] != 'J';
      assert m[i..i + 4][0] != "JSON"[0];
    }
  }

  /** Two response texts that differ only in surrounding whitespace give the
      same outcome. */
  lemma WhitespaceDoesNotMatter(text: string, lead: string, trail: string, parse: JsonParse)
    requires AllWhitespace(lead) && AllWhitespace(trail)
    ensures Interpret(Ok(Response(Some(lead + text + trail))), parse) == Interpret(Ok(Response(Some(text))), parse)
  {
    TrimIgnoresPadding(lead, text, trail);
  }
}
