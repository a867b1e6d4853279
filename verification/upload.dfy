/** The upload form: it remembers the chosen file, hands it to the analysis
    callback on submit, and disables its controls while the parent reports
    that an analysis is running. */
module FileUpload {
  import opened Types

  datatype UploadState = UploadState(file: Option<File>)

  const NoFileChosen: UploadState := UploadState(None)

  /** The submit button's label: the "analyzing" text or the "analyze" text. */
  datatype ButtonLabel = AnalyzingLabel | AnalyzeLabel

  /** What the drop zone shows under the upload prompt. */
  datatype FileCaption = FileName(name: string) | NoFileCaption

  /** A change of the file input. `files` is absent when the input reports no
      file list. A non-empty selection replaces the chosen file with its first
      file; an empty or absent selection keeps the previous choice. */
  function HandleFileChange(u: UploadState, files: Option<seq<File>>): (u': UploadState)
    ensures files.Some? && |files.value| > 0 ==> u'.file == Some(files.value[0])
    ensures files.None? || files.value == [] ==> u' == u
  {
    if files.Some? && |files.value| > 0 then UploadState(Some(files.value[0])) else u
  }

  /** The calls a submit makes to the analysis callback, in order: exactly
      one, with the chosen file, or none when no file is chosen. */
  function HandleSubmit(u: UploadState): (calls: seq<File>)
    ensures u.file.Some? ==> calls == [u.file.value]
    ensures u.file.None? ==> calls == []
  {
    if u.file.Some? then [u.file.value] else []
  }

  /** The submit button is disabled when no file is chosen or the parent
      says so. */
  predicate SubmitDisabled(u: UploadState, disabled: bool) {
    u.file.None? || disabled
  }

  predicate InputDisabled(disabled: bool) {
    disabled
  }

  function SubmitLabel(disabled: bool): (shown: ButtonLabel)
    ensures shown == AnalyzingLabel <==> disabled
  {
    if disabled then AnalyzingLabel else AnalyzeLabel
  }

  function Caption(u: UploadState): (c: FileCaption)
    ensures c.FileName? <==> u.file.Some?
    ensures c.FileName? ==> c.name == u.file.value.name
  {
    if u.file.Some? then FileName(u.file.value.name) else NoFileCaption
  }

  /** An enabled submit button always has a file to hand over, so a submit
      through it calls the callback exactly once. */
  lemma EnabledSubmitCallsOnce(u: UploadState, disabled: bool)
    requires !SubmitDisabled(u, disabled)
    ensures |HandleSubmit(u)| == 1 && HandleSubmit(u)[0] == u.file.value
  {
  }

  /** Choosing files twice keeps only the later non-empty selection. */
  lemma LaterSelectionWins(u: UploadState, first: Option<seq<File>>, second: seq<File>)
    requires |second| > 0
    ensures HandleFileChange(HandleFileChange(u, first), Some(second)) == HandleFileChange(u, Some(second))
  {
  }
}
