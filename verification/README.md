# Medical report analyzer: a Dafny model of the client core

The application is a single-page React client. A user uploads a photo of a
laboratory report. The client sends it to a hosted multimodal model together
with a fixed prompt and a JSON response schema. It then shows the structured
answer: a patient summary, a physician table and three recommendation lists.
The answer can be exported as a one-page PDF.

This project models the logic of that client as immutable datatypes and pure
functions. The modules follow the source files:

- `Types` (`types.dfy`) holds the records of `types.ts`, plus small wrappers
  for absent values, thrown JavaScript values and uploaded files.
- `Text` (`text.dfy`) models `String.prototype.trim`, `startsWith` and
  `includes`.
- `Prompt`, `Schema` and `GeminiService` (`prompt.dfy`, `schema.dfy`,
  `service.dfy`) model `services/geminiService.ts`:
  - the language-dependent prompt;
  - the response schema, as data;
  - the request;
  - the trim → parse → return path;
  - the two-message error classification.
- `FileUpload` (`upload.dfy`) models the upload form: the chosen file, the
  submit gate, and the disabled and label logic.
- `App` (`app.dfy`) models the application shell:
  - the display toggles and class derivation;
  - the analysis lifecycle over `(isLoading, error, result)`;
  - view selection;
  - an event-level state machine that ties the form's `disabled` input to the
    loading flag.
- `ReportView` and `PdfExport` (`report.dfy`) model the rendered table and
  lists, and the PDF export's guards, capture options and fit-to-page
  geometry.

Calls the model cannot see are function-typed parameters that may fail:
- the inference call;
- `JSON.parse` (with its unchecked cast to the result type);
- the file-to-base64 helper;
- the html2canvas capture;
- the library calls that turn a capture into a saved PDF (`toDataURL`, the
  `jsPDF` constructor, `addImage`, `save`).

The asynchronous analysis handler is cut into atomic steps. Submitting resets
the state, and a non-image file is rejected at once. An image leaves an
analysis pending, with the language captured at that moment. A later
completion event publishes the result or the error. Overlap is impossible only
because the form is disabled while loading; there is no cancellation or
generation counter.

The prompt body is written as one string literal per line of its template
(the longest lines in two or three pieces), joined with `+`; the result is the
same text. Long single literals make every proof that can see the prompt
markedly more expensive to check.

The code makes these choices, and the model follows them:

- No status check: the parsed value is returned unchanged. The service does
  not check `status` against the three literals. The schema declares `status`
  as a plain string, so the model keeps the received string.
- Only two service errors: every failure becomes one of two fixed messages,
  chosen by whether the failure's message contains `JSON`.
- Mime check in the App: the `image/` prefix is checked in the App handler,
  not in the service.
- One PDF page: export places one image on one page. There is no pagination
  and no PNG or HTML export.
- `PatientDetails` is requested by the schema and declared in the types, but
  the report view does not render it.

## Model

| member | source | states |
|---|---|---|
| `Types.StatusLiteral` | types.ts:15 | each of the three declared status literals reads back as the status it names |
| `Types.ParseStatus` | types.ts:15 | a string is a declared status exactly when it is one of `normal`, `moderate`, `severe` |
| `Types.ParseStatusRoundTrip` | types.ts:15 | a recognised status string is printed back unchanged, so literal and status correspond one to one |
| `Text.SkipLeading` | services/geminiService.ts:100 | the scan for the start of the trimmed text stops at the first non-whitespace character at or after its start, passing only whitespace |
| `Text.SkipTrailing` | services/geminiService.ts:100 | the scan for the end of the trimmed text stops just after the last non-whitespace character, passing only whitespace |
| `Text.SkipLeadingExact` | services/geminiService.ts:100 | the leading scan stops exactly at the end of a whitespace run, whatever run it is given |
| `Text.SkipTrailingExact` | services/geminiService.ts:100 | the trailing scan stops exactly at the start of a trailing whitespace run |
| `Text.Trim` | services/geminiService.ts:100 | `trim` returns a contiguous piece of its input with no whitespace at either end, and only whitespace before and after it |
| `Text.TrimDecomposes` | services/geminiService.ts:100 | every string is the text before its trimmed core, the core, and the text after it, in that order |
| `Text.TrimUnique` | services/geminiService.ts:100 | any whitespace around a core that has no whitespace at its ends is removed, leaving exactly that core |
| `Text.TrimIgnoresPadding` | services/geminiService.ts:100 | adding whitespace before or after a string never changes its trimmed form |
| `Text.TrimIdempotent` | services/geminiService.ts:100 | trimming twice is the same as trimming once |
| `Prompt.GetPrompt` | services/geminiService.ts:10-25 | the prompt contains the single-JSON-object rule, and after it the Arabic-output instruction for `ar` and the English-output one for every other language, at a fixed position |
| `Prompt.AssembleLayout` | services/geminiService.ts:10-25 | whatever the body, the assembled prompt holds the JSON rule right after the body and the language instruction after the separator that follows it |
| `Prompt.AssembleLanguage` | services/geminiService.ts:11-13 | whatever the body, the language a prompt was assembled for is read back from its ending |
| `Prompt.PromptLanguageRoundTrip` | services/geminiService.ts:11-13 | the language a prompt was built for can be read back from the prompt's ending |
| `Prompt.GetPromptInjective` | services/geminiService.ts:10-25 | two languages give the same prompt exactly when they are the same language |
| `Schema.ResponseSchemaRequiresAllDeclared` | services/geminiService.ts:27-70 | at every object level of the response schema, `required` names exactly the declared properties, in order |
| `Schema.ResponseSchemaMatchesRecords` | services/geminiService.ts:27-70 | the properties declared at each object level are the fields of the matching record type, in declaration order |
| `Schema.ResponseSchemaNesting` | services/geminiService.ts:29-67 | report items sit under `physicianReport` as an array; the two sub-records sit under `patientDetails` and `recommendations` |
| `Schema.StatusIsUnrestrictedString` | services/geminiService.ts:53 | the schema gives `status` as a plain string with no enumeration |
| `GeminiService.BuildRequest` | services/geminiService.ts:78-98 | the request uses model `gemini-2.5-flash`, MIME type `application/json`, the response schema and temperature 0.2; it has two parts, the image with its MIME type first and then the prompt for `language` |
| `GeminiService.BuildRequestInverse` | services/geminiService.ts:78-92 | the image data, its MIME type and the language can all be recovered from the request |
| `GeminiService.Classify` | services/geminiService.ts:105-110 | a caught value becomes one of exactly two messages; it becomes the format message exactly when it is an `Error` whose message contains `JSON` |
| `GeminiService.Interpret` | services/geminiService.ts:100-110 | a settled call succeeds exactly when it returned a text whose trimmed form parses, and then yields that parse unchanged; every failure is an `Error` with one of the two fixed messages |
| `GeminiService.AnalyzeMedicalReport` | services/geminiService.ts:72-112 | it succeeds exactly when the call returns a text whose trimmed form parses, and it then returns that parse unchanged; otherwise it throws an `Error` carrying one of the two fixed messages |
| `GeminiService.FailureClassification` | services/geminiService.ts:100-110 | an absent response text gives the generic message; a failed parse or a failed call is classified by its own thrown value |
| `GeminiService.MissingTextIsGeneric` | services/geminiService.ts:100 | the error thrown when the response text is absent does not mention JSON, so it becomes the generic message |
| `GeminiService.WhitespaceDoesNotMatter` | services/geminiService.ts:100-102 | two responses that differ only in surrounding whitespace give the same outcome |
| `FileUpload.HandleFileChange` | components/FileUpload.tsx:18-22 | a non-empty selection makes its first file the chosen file; an empty or absent selection keeps the previous choice |
| `FileUpload.HandleSubmit` | components/FileUpload.tsx:24-29 | a submit calls the analysis callback once with the chosen file, and not at all when no file is chosen |
| `FileUpload.SubmitLabel` | components/FileUpload.tsx:62 | the button shows the "analyzing" label exactly when the form is disabled |
| `FileUpload.Caption` | components/FileUpload.tsx:52 | the drop zone shows a file name exactly when a file is chosen, and it is that file's name |
| `FileUpload.EnabledSubmitCallsOnce` | components/FileUpload.tsx:56-58 | an enabled submit button always has a file to hand over, so pressing it calls the callback exactly once |
| `FileUpload.LaterSelectionWins` | components/FileUpload.tsx:18-22 | after two selections only the later non-empty one counts |
| `App.ToggleLanguage` | App.tsx:50 | the language toggle always switches to the other language |
| `App.ToggleTheme` | App.tsx:51 | the theme toggle always switches to the other theme |
| `App.ToggleFontSize` | App.tsx:52 | the font-size toggle always switches to the other size |
| `App.TogglesAreInvolutions` | App.tsx:50-52 | toggling twice restores the language, the theme and the font size |
| `App.Direction` | App.tsx:73 | the page is right-to-left exactly for Arabic, and left-to-right otherwise |
| `App.FontFamilyClass` | App.tsx:74 | the Arabic font is used exactly for Arabic, and the sans font otherwise |
| `App.FontSizeClass` | App.tsx:72 | the large text class is used exactly for the large setting |
| `App.Begin` | App.tsx:31-33 | starting an analysis turns loading on and clears both the error and the result, whatever the state was |
| `App.ErrorMessage` | App.tsx:44 | the shown message is the thrown `Error`'s own message, or the fixed unknown-error text for a non-`Error` value |
| `App.Settle` | App.tsx:41-46 | publishing ends loading and stores either the result or the error message, leaving the other field unchanged |
| `App.HandleAnalyze` | App.tsx:30-48 | loading always ends. A non-image file ends with the only-images error and no result. A result appears exactly when encoding and the service both succeed for an image, and then there is no error. Any failure shows its message and no result |
| `App.NonImageCallsNothing` | App.tsx:36-39 | a non-image file is rejected without consulting the encoder or the service: the outcome is the same whatever they would do |
| `App.MainViewsExclusive` | App.tsx:98-100 | at most one of spinner, report and welcome screen is shown; the spinner shows exactly while loading; the report shows exactly when a result exists and nothing is loading |
| `App.ExactlyOneView` | App.tsx:92-100 | in a consistent state exactly one of the error banner, spinner, report and welcome screen is shown |
| `App.StepPreservesInv` | App.tsx:30-52 | every event keeps error and result apart, keeps both empty while loading, and keeps loading equivalent to a pending analysis |
| `App.RunPreservesInv` | App.tsx:30-52 | any sequence of events preserves that invariant |
| `App.ReachableStatesConsistent` | App.tsx:18-20 | in every state reachable from the initial state, error and result are never both set and loading implies neither is set |
| `App.NoOverlappingAnalyses` | App.tsx:91 | while loading, a submit changes nothing, so no second analysis can start |
| `App.ChoicesIgnoredWhileLoading` | App.tsx:91 | while loading, choosing files changes nothing |
| `App.LoadingIsStable` | App.tsx:91 | while loading, no event other than the completion changes the analysis state or the pending call |
| `App.AnalysisUsesStartLanguage` | App.tsx:40-48 | a submitted image ends in the state of one whole analysis run with the language in effect at the submit, even if the language was toggled meanwhile |
| `App.NonImageRejectedAtOnce` | App.tsx:36-37 | a submitted non-image file is rejected in the same step, with the outcome of one whole analysis and nothing pending |
| `ReportView.TableBody` | components/ReportDisplay.tsx:99-117 | the table body has two rows per item in item order: row 2i holds item i's parameter, value, range and status, and row 2i+1 its explanation |
| `ReportView.TableBodyRoundTrip` | components/ReportDisplay.tsx:99-117 | every field of every item can be read back from the rows, so the table loses and reorders nothing |
| `ReportView.StatusShownAsReceived` | components/ReportDisplay.tsx:101-108 | the data row carries the received status string unchecked; it is one of the declared literals exactly when the item's status is, and then it names that status |
| `ReportView.ListEntries` | components/ReportDisplay.tsx:152 | a list has one entry per advice string, in order |
| `ReportView.ListEntriesRoundTrip` | components/ReportDisplay.tsx:148-155 | the advice strings can be read back from the list entries unchanged |
| `ReportView.RecommendationLists` | components/ReportDisplay.tsx:125-127 | the three lists are general, nutrition and physical therapy, in that order, each with exactly its category's strings |
| `ReportView.Render` | components/ReportDisplay.tsx:83-127 | the report shows the patient summary, a table from which the physician items can be recovered, and three lists holding exactly the general, nutrition and physical-therapy recommendations, in that order |
| `PdfExport.CaptureOptionsFor` | components/ReportDisplay.tsx:35-38 | capture uses scale 2 and cross-origin images; the background is `#1f2937` exactly for the dark theme and `#ffffff` exactly for the light one |
| `PdfExport.FitRatio` | components/ReportDisplay.tsx:46 | the scale is positive, the scaled canvas fits both page dimensions, and it fills at least one of them |
| `PdfExport.Fit` | components/ReportDisplay.tsx:44-49 | the placed image fits the page, keeps the canvas's aspect ratio, fills the page's width or height, is centred horizontally and sits at the top |
| `PdfExport.FitIsLargest` | components/ReportDisplay.tsx:46 | no larger scale keeps the canvas within both page dimensions |
| `PdfExport.ExportToPdf` | components/ReportDisplay.tsx:18-55 | a missing element ends the export first, and a missing library ends it with the not-ready alert. A failed capture, or a throw while the document is built and saved, ends with the failure alert. Otherwise exactly one portrait A4 page is saved, in millimetres, under the fixed file name, holding the fitted capture |
| `PdfExport.GuardsCaptureNothing` | components/ReportDisplay.tsx:24-33 | when a guard stops the export, nothing is captured or written: the outcome does not depend on the capture routine or the library calls |

## Left out

- The inference SDK is an opaque, possibly failing function parameter. This covers the module-level `API_KEY` check and client construction (services/geminiService.ts:4-8), which are environment and network concerns.
- `JSON.parse` is an opaque, possibly failing function parameter whose value is typed as `AnalysisResult`. The source's `: AnalysisResult` annotation (services/geminiService.ts:102) is erased at run time, so any JSON value passes through unchecked. The model does not represent parsed values that are not records of the declared shape.
- App.HandleAnalyze: a parse result that is not a record of the declared shape is not represented. In the source, a response text of `null` (or another falsy JSON value) is stored as the result (App.tsx:41), and the screen then shows the welcome view with neither an error nor a report (App.tsx:99-100). The model's "a result appears exactly when encoding and the service both succeed" holds only for records.
- ReportView.Render: it is total only over records of the declared shape. In the source, a parsed value such as `{}` that lacks `physicianReport` makes rendering throw at `result.physicianReport.map` (components/ReportDisplay.tsx:99).
- The file-to-base64 helper is an opaque, possibly failing function parameter. `utils/fileUtils` is not part of this model.
- html2canvas rasterisation is a function parameter, and so are the library calls after it (`toDataURL`, `new jsPDF`, `addImage`, `save`), as one possibly failing step that writes the planned document. jsPDF's page-size computation, `alert`, `console` and `window.print` are foreign library or DOM effects. The page size is an input, and the saved document and the alert text are returned as data.
- PdfExport.Fit: the geometry uses exact real arithmetic, not IEEE doubles, so rounding is not modelled.
- A canvas or page of zero size is not modelled: dimensions are positive reals. With a zero-size canvas the source divides by zero.
- PdfExport.ExportToPdf: the theme is an input of the export, not read from the DOM. ReportDisplay reads it from the document's class list while rendering (components/ReportDisplay.tsx:61), but App updates that class in an effect that runs after its own render (App.tsx:22-28). So after a theme toggle while a report is shown, the export uses the previous theme's background until ReportDisplay renders again. The model does not represent this lag.
- The fullscreen API, the `dark` class on the document element and the fullscreen listeners (App.tsx:22-28, 54-70) are DOM side effects.
- The header, welcome screen, loading spinner and the string tables of `constants.ts` are presentation and static text. Label texts (including the localised status names and the fallback to the raw status) and the status colours are left out. The table's data row keeps the raw status string instead. ReportDisplay looks up both in a `STATUS_COLORS` table that it imports from constants.ts (components/ReportDisplay.tsx:3), but constants.ts does not export that name. Line 101 indexes the table (`STATUS_COLORS[item.status]`) before any optional chaining, so as written the table cannot render a report with at least one item. `ReportView.TableBody` models the table as if the lookup table were defined.
- The disclaimer footer and the localised error heading are static text.
- The free-text `description` of each schema property is guidance for the model, not structure, so the schema model keeps only types, properties, nesting and `required`.
- React's asynchrony and state batching are modelled as atomic transitions: the submit (reset plus the immediate type check) and the completion (encode and service call, then publish).
- GeminiService.MissingTextIsGeneric: the exact text of the `TypeError` thrown when the response has no text is engine-specific. The model assumes only that it does not contain `JSON`.
- The `accept` attribute of the file input only filters the browser's picker. It does not constrain the files the model accepts, so the App's `image/` check is what rejects other types.
