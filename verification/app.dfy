/** The application shell: the display settings and their toggles, the
    analysis lifecycle over (loading, error, result), the choice of which view
    is shown, and the event-level state machine that ties the upload form to
    the lifecycle.

    The asynchronous analysis handler is split into atomic steps: `Begin`
    resets the state, the file-type check runs at once, and the encoding and
    service calls complete later in one step that publishes either a result or
    an error. The external calls are the opaque functions of an `Env`. */
module App {
  import opened Types
  import opened Text
  import opened GeminiService
  import opened FileUpload

  const OnlyImagesMessage: string :=
    "Only image files are supported for analysis."
  const UnknownErrorMessage: string :=
    "An unknown error occurred during analysis."
  const ImagePrefix: string := "image/"

  datatype FontSize = NormalFont | LargeFont

  datatype Settings = Settings(language: Language, theme: Theme, fontSize: FontSize)

  const InitialSettings: Settings := Settings(En, Light, NormalFont)

  // ----- Display settings -----

  function ToggleLanguage(l: Language): (r: Language)
    ensures r != l
  {
    if l == En then Ar else En
  }

  function ToggleTheme(t: Theme): (r: Theme)
    ensures r != t
  {
    if t == Light then Dark else Light
  }

  function ToggleFontSize(f: FontSize): (r: FontSize)
    ensures r != f
  {
    if f == NormalFont then LargeFont else NormalFont
  }

  /** Each toggle undoes itself. */
  lemma TogglesAreInvolutions(l: Language, t: Theme, f: FontSize)
    ensures ToggleLanguage(ToggleLanguage(l)) == l
    ensures ToggleTheme(ToggleTheme(t)) == t
    ensures ToggleFontSize(ToggleFontSize(f)) == f
  {
  }

  /** The `dir` attribute of the page: right-to-left exactly for Arabic. */
  function Direction(l: Language): (dir: string)
    ensures dir == "rtl" || dir == "ltr"
    ensures dir == "rtl" <==> l == Ar
  {
    if l == Ar then "rtl" else "ltr"
  }

  /** The font family class: the Arabic font exactly for Arabic. */
  function FontFamilyClass(l: Language): (cls: string)
    ensures cls == "font-arabic" || cls == "font-sans"
    ensures cls == "font-arabic" <==> l == Ar
  {
    if l == Ar then "font-arabic" else "font-sans"
  }

  /** The base font size class: the larger size exactly for the large setting. */
  function FontSizeClass(f: FontSize): (cls: string)
    ensures cls == "text-base" || cls == "text-lg"
    ensures cls == "text-lg" <==> f == LargeFont
  {
    match f
    case NormalFont => "text-base"
    case LargeFont => "text-lg"
  }

  // ----- Analysis lifecycle -----

  datatype AnalysisState = AnalysisState(isLoading: bool, error: Option<string>, result: Option<AnalysisResult>)

  const Idle: AnalysisState := AnalysisState(false, None, None)

  /** Error and result are never both present, and while loading neither is. */
  predicate Consistent(a: AnalysisState) {
    && !(a.error.Some? && a.result.Some?)
    && (a.isLoading ==> a.error.None? && a.result.None?)
  }

  /** The file-encoding helper: base64 data and MIME type, or a thrown value. */
  type Encode = File -> Result<Encoded, Thrown>

  /** The external calls an analysis makes. */
  datatype Env = Env(encode: Encode, generate: Generate, parse: JsonParse)

  /** The first thing an analysis does, before any check or call: loading is
      switched on and both the error and the result are cleared, whatever the
      state was. */
  function Begin(a: AnalysisState): (a': AnalysisState)
    ensures a'.isLoading && a'.error.None? && a'.result.None?
    ensures Consistent(a')
  {
    a.(isLoading := true, error := None, result := None)
  }

  /** The message shown for a thrown value: an `Error`'s own message, or the
      fixed unknown-error text for anything else. */
  function ErrorMessage(thrown: Thrown): (message: string)
    ensures thrown.ErrorValue? ==> message == thrown.message
    ensures thrown.NonErrorValue? ==> message == UnknownErrorMessage
  {
    match thrown
    case ErrorValue(m) => m
    case NonErrorValue => UnknownErrorMessage
  }

  /** Publishing an outcome: a result is stored, or the error message is
      stored; either way loading ends and the other field is left as it was. */
  function Settle(a: AnalysisState, outcome: Result<AnalysisResult, Thrown>): (a': AnalysisState)
    ensures !a'.isLoading
    ensures outcome.Ok? ==> a'.result == Some(outcome.value) && a'.error == a.error
    ensures outcome.Err? ==> a'.error == Some(ErrorMessage(outcome.error)) && a'.result == a.result
  {
    match outcome
    case Ok(result) => a.(result := Some(result), isLoading := false)
    case Err(thrown) => a.(error := Some(ErrorMessage(thrown)), isLoading := false)
  }

  predicate IsImage(file: File) {
    StartsWith(file.mimeType, ImagePrefix)
  }

  /** The awaited part of an analysis: encode the file, then call the service
      with the encoded data, the encoder's MIME type and `language`. */
  function Fetch(file: File, language: Language, env: Env): Result<AnalysisResult, Thrown> {
    match env.encode(file)
    case Err(thrown) => Err(thrown)
    case Ok(encoded) =>
      AnalyzeMedicalReport(encoded.base64Data, encoded.mimeType, language, env.generate, env.parse)
  }

  /** The body of the analysis handler's `try` block. */
  function Analysis(file: File, language: Language, env: Env): Result<AnalysisResult, Thrown> {
    if !IsImage(file) then Err(ErrorValue(OnlyImagesMessage)) else Fetch(file, language, env)
  }

  /** One whole analysis of `file` in `language`, from reset to publication.
      Loading always ends. A non-image file ends with the only-images error.
      A result is published exactly when the file is an image and the
      encoding and the service both succeed, and then it is the service's
      value and no error is shown. Any failure shows the thrown value's
      message and no result. */
  function HandleAnalyze(a: AnalysisState, file: File, language: Language, env: Env): (a': AnalysisState)
    ensures !a'.isLoading && Consistent(a')
    ensures !IsImage(file) ==> a'.error == Some(OnlyImagesMessage) && a'.result.None?
    ensures a'.result.Some? <==> IsImage(file) && Fetch(file, language, env).Ok?
    ensures a'.result.Some? ==> a'.result.value == Fetch(file, language, env).value && a'.error.None?
    ensures IsImage(file) && Fetch(file, language, env).Err? ==>
              a'.error == Some(ErrorMessage(Fetch(file, language, env).error)) && a'.result.None?
  {
    Settle(Begin(a), Analysis(file, language, env))
  }

  /** A non-image file is rejected before the encoder or the service is
      consulted: the outcome is the same whatever they would do. */
  lemma NonImageCallsNothing(a: AnalysisState, file: File, language: Language, env1: Env, env2: Env)
    requires !IsImage(file)
    ensures HandleAnalyze(a, file, language, env1) == HandleAnalyze(a, file, language, env2)
  {
  }

  // ----- View selection -----

  /** JavaScript truthiness of the error: absent and empty both read as false. */
  predicate Truthy(error: Option<string>) {
    error.Some? && error.value != ""
  }

  datatype Views = Views(errorBanner: bool, spinner: bool, report: bool, welcome: bool)

  /** Which parts of the main area are rendered for an analysis state. */
  function ViewsOf(a: AnalysisState): Views {
    Views(
      errorBanner := Truthy(a.error),
      spinner := a.isLoading,
      report := a.result.Some? && !a.isLoading,
      welcome := !a.isLoading && a.result.None? && !Truthy(a.error))
  }

  function Count(b: bool): nat {
    if b then 1 else 0
  }

  /** Spinner, report and welcome screen exclude each other in every state. */
  lemma MainViewsExclusive(a: AnalysisState)
    ensures Count(ViewsOf(a).spinner) + Count(ViewsOf(a).report) + Count(ViewsOf(a).welcome) <= 1
    ensures ViewsOf(a).spinner <==> a.isLoading
    ensures ViewsOf(a).report <==> a.result.Some? && !a.isLoading
  {
  }

  /** In a consistent state exactly one of the error banner, the spinner, the
      report and the welcome screen is shown. */
  lemma ExactlyOneView(a: AnalysisState)
    requires Consistent(a)
    ensures var v := ViewsOf(a);
      Count(v.errorBanner) + Count(v.spinner) + Count(v.report) + Count(v.welcome) == 1
  {
  }

  // ----- Event-level state machine -----

  /** An analysis that has passed the type check and awaits its external
      calls, with the language captured when it started. */
  datatype Pending = Pending(file: File, language: Language)

  datatype AppState = AppState(
    settings: Settings,
    upload: UploadState,
    analysis: AnalysisState,
    inFlight: Option<Pending>)

  const InitialState: AppState := AppState(InitialSettings, NoFileChosen, Idle, None)

  datatype Event =
    | ToggleLanguageClicked
    | ToggleThemeClicked
    | ToggleFontSizeClicked
    | FilesChosen(files: Option<seq<File>>)
    | FormSubmitted
    | AnalysisFinished

  /** Starting an analysis of `file`: reset, then either reject a non-image
      file at once or leave the analysis pending in the current language. */
  function Start(s: AppState, file: File): AppState {
    var begun := Begin(s.analysis);
    if IsImage(file) then
      s.(analysis := begun, inFlight := Some(Pending(file, s.settings.language)))
    else
      s.(analysis := Settle(begun, Err(ErrorValue(OnlyImagesMessage))), inFlight := None)
  }

  /** One event. The upload form receives the loading flag as its `disabled`
      input, so while loading the file input ignores choices and the submit
      button ignores presses. */
  function Step(s: AppState, e: Event, env: Env): AppState {
    match e
    case ToggleLanguageClicked =>
      s.(settings := s.settings.(language := ToggleLanguage(s.settings.language)))
    case ToggleThemeClicked =>
      s.(settings := s.settings.(theme := ToggleTheme(s.settings.theme)))
    case ToggleFontSizeClicked =>
      s.(settings := s.settings.(fontSize := ToggleFontSize(s.settings.fontSize)))
    case FilesChosen(files) =>
      if InputDisabled(s.analysis.isLoading) then s
      else s.(upload := HandleFileChange(s.upload, files))
    case FormSubmitted =>
      if SubmitDisabled(s.upload, s.analysis.isLoading) then s
      else
        var calls := HandleSubmit(s.upload);
        if |calls| == 1 then Start(s, calls[0]) else s
    case AnalysisFinished =>
      match s.inFlight
      case None => s
      case Some(p) =>
        s.(analysis := Settle(s.analysis, Fetch(p.file, p.language, env)), inFlight := None)
  }

  function Run(s: AppState, events: seq<Event>, env: Env): AppState
    decreases |events|
  {
    if events == [] then s else Run(Step(s, events[0], env), events[1..], env)
  }

  /** The machine invariant: the analysis state is consistent, and loading
      means exactly that an analysis is pending. */
  predicate Inv(s: AppState) {
    Consistent(s.analysis) && (s.analysis.isLoading <==> s.inFlight.Some?)
  }

  lemma StepPreservesInv(s: AppState, e: Event, env: Env)
    requires Inv(s)
    ensures Inv(Step(s, e, env))
  {
  }

  lemma {:induction false} RunPreservesInv(s: AppState, events: seq<Event>, env: Env)
    requires Inv(s)
    ensures Inv(Run(s, events, env))
    decreases |events|
  {
    if events != [] {
      StepPreservesInv(s, events[0], env);
      RunPreservesInv(Step(s, events[0], env), events[1..], env);
    }
  }

  /** In every state reachable from the initial state, error and result are
      never both set and loading implies neither is set. */
  lemma ReachableStatesConsistent(events: seq<Event>, env: Env)
    ensures Consistent(Run(InitialState, events, env).analysis)
    ensures Run(InitialState, events, env).analysis.isLoading <==> Run(InitialState, events, env).inFlight.Some?
  {
    RunPreservesInv(InitialState, events, env);
  }

  /** While an analysis is loading, pressing submit changes nothing: no second
      analysis can start. */
  lemma NoOverlappingAnalyses(s: AppState, env: Env)
    requires s.analysis.isLoading
    ensures Step(s, FormSubmitted, env) == s
  {
  }

  /** While an analysis is loading, the file input is disabled: choosing
      files changes nothing, not even the chosen file. */
  lemma ChoicesIgnoredWhileLoading(s: AppState, files: Option<seq<File>>, env: Env)
    requires s.analysis.isLoading
    ensures Step(s, FilesChosen(files), env) == s
  {
  }

  /** While loading, events other than the completion leave the analysis
      and the pending call untouched. */
  lemma {:induction false} LoadingIsStable(s: AppState, events: seq<Event>, env: Env)
    requires Inv(s) && s.analysis.isLoading
    requires forall i :: 0 <= i < |events| ==> events[i] != AnalysisFinished
    ensures Run(s, events, env).analysis == s.analysis
    ensures Run(s, events, env).inFlight == s.inFlight
    decreases |events|
  {
    if events != [] {
      var s' := Step(s, events[0], env);
      assert s'.analysis == s.analysis && s'.inFlight == s.inFlight;
      LoadingIsStable(s', events[1..], env);
    }
  }

  /** A submit followed by any other events and then the completion ends in
      the state one whole analysis would produce, run with the language that
      was in effect when the submit happened, even if the language was
      toggled meanwhile. */
  lemma {:induction false} AnalysisUsesStartLanguage(s: AppState, events: seq<Event>, env: Env)
    requires Inv(s) && !SubmitDisabled(s.upload, s.analysis.isLoading)
    requires IsImage(s.upload.file.value)
    requires forall i :: 0 <= i < |events| ==> events[i] != AnalysisFinished
    ensures var started := Step(s, FormSubmitted, env);
      Step(Run(started, events, env), AnalysisFinished, env).analysis
        == HandleAnalyze(s.analysis, s.upload.file.value, s.settings.language, env)
  {
    var started := Step(s, FormSubmitted, env);
    assert started.inFlight == Some(Pending(s.upload.file.value, s.settings.language));
    StepPreservesInv(s, FormSubmitted, env);
    LoadingIsStable(started, events, env);
  }

  /** A submitted non-image file is rejected in the same step, with the
      outcome of one whole analysis and nothing left pending. */
  lemma NonImageRejectedAtOnce(s: AppState, env: Env)
    requires !SubmitDisabled(s.upload, s.analysis.isLoading)
    requires !IsImage(s.upload.file.value)
    ensures Step(s, FormSubmitted, env).analysis
         == HandleAnalyze(s.analysis, s.upload.file.value, s.settings.language, env)
    ensures Step(s, FormSubmitted, env).inFlight.None?
  {
  }
}
