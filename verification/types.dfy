/** The domain types shared by the service, the application state and the
    report view, together with the small wrappers the model uses for absent
    values, JavaScript exceptions and uploaded files. */
module Types {

  datatype Option<+T> = None | Some(value: T)

  /** The outcome of a step that may throw: a value, or the thrown value. */
  datatype Result<+T, +E> = Ok(value: T) | Err(error: E)

  /** A value a JavaScript `throw` (or a rejected promise) carries: an `Error`
      instance with its message, or anything that is not an `Error`. */
  datatype Thrown = ErrorValue(message: string) | NonErrorValue

  /** A user-selected file, with its name and its MIME type (`file.type`). */
  datatype File = File(name: string, mimeType: string)

  /** What the file-encoding helper returns: base64 data and a MIME type. */
  datatype Encoded = Encoded(base64Data: string, mimeType: string)

  datatype Language = En | Ar

  /** The page theme; the report export reads it to pick a background colour. */
  datatype Theme = Light | Dark

  /** The three severity literals a physician-report item is declared with. */
  datatype Status = Normal | Moderate | Severe

  function StatusLiteral(st: Status): (lit: string)
    ensures ParseStatus(lit) == Some(st)
  {
    match st
    case Normal => "normal"
    case Moderate => "moderate"
    case Severe => "severe"
  }

  /** Reads a status literal back; case-sensitive and exact. */
  function ParseStatus(s: string): (st: Option<Status>)
    ensures st.Some? <==> s in {"normal", "moderate", "severe"}
  {
    if s == "normal" then Some(Normal)
    else if s == "moderate" then Some(Moderate)
    else if s == "severe" then Some(Severe)
    else None
  }

  /** A parsed literal prints back as the same string. */
  lemma ParseStatusRoundTrip(s: string)
    ensures ParseStatus(s).Some? ==> StatusLiteral(ParseStatus(s).value) == s
  {
  }

  datatype PatientDetails = PatientDetails(name: string, age: string, testDate: string, testType: string)

  /** One physician-report row. The declared type of `status` is one of the
      three literals, but the value arrives from `JSON.parse` unchecked, so the
      model keeps the string that was actually received. */
  datatype PhysicianReportItem = PhysicianReportItem(
    parameter: string,
    value: string,
    referenceRange: string,
    status: string,
    explanation: string)

  /** The item's status is one of the three declared literals. */
  predicate HasDeclaredStatus(item: PhysicianReportItem) {
    ParseStatus(item.status).Some?
  }

  datatype Recommendations = Recommendations(
    general: seq<string>,
    nutrition: seq<string>,
    physicalTherapy: seq<string>)

  datatype AnalysisResult = AnalysisResult(
    patientDetails: PatientDetails,
    patientSummary: string,
    physicianReport: seq<PhysicianReportItem>,
    recommendations: Recommendations)

  /** The field names of each declared record, in declaration order. */
  const PatientDetailsFields: seq<string> := ["name", "age", "testDate", "testType"]
  const PhysicianReportItemFields: seq<string> := ["parameter", "value", "referenceRange", "status", "explanation"]
  const RecommendationsFields: seq<string> := ["general", "nutrition", "physicalTherapy"]
  const AnalysisResultFields: seq<string> := ["patientDetails", "patientSummary", "physicianReport", "recommendations"]
}
