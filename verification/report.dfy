/** The rendered report: the physician table, with a data row and an
    explanation row for every item, and the three recommendation lists. Label
    text and status colours are not modelled; a data row keeps the received
    status string. */
module ReportView {
  import opened Types

  datatype Row =
    | DataRow(parameter: string, value: string, referenceRange: string, status: string)
    | ExplanationRow(explanation: string)

  function RowsOf(item: PhysicianReportItem): seq<Row> {
    [DataRow(item.parameter, item.value, item.referenceRange, item.status), ExplanationRow(item.explanation)]
  }

  /** The table body: two rows per item, in item order; row 2i shows item i's
      data and row 2i+1 its explanation. */
  function TableBody(items: seq<PhysicianReportItem>): (rows: seq<Row>)
    ensures |rows| == 2 * |items|
    ensures forall i :: 0 <= i < |items| ==>
      rows[2 * i] == DataRow(items[i].parameter, items[i].value, items[i].referenceRange, items[i].status)
    ensures forall i :: 0 <= i < |items| ==> rows[2 * i + 1] == ExplanationRow(items[i].explanation)
  {
    if items == [] then []
    else
      var rest := TableBody(items[1..]);
      var rows := RowsOf(items[0]) + rest;
      assert forall i :: 0 <= i < |items| ==> rows[2 * i] == RowsOf(items[i])[0] && rows[2 * i + 1] == RowsOf(items[i])[1] by {
        forall i | 0 <= i < |items|
          ensures rows[2 * i] == RowsOf(items[i])[0] && rows[2 * i + 1] == RowsOf(items[i])[1]
        {
          if i > 0 {
            assert items[1..][i - 1] == items[i];
            assert rows[2 * i] == rest[2 * (i - 1)];
            assert rows[2 * i + 1] == rest[2 * (i - 1) + 1];
          }
        }
      }
      rows
  }

  /** Reads the items back from a table body; None when the rows are not
      data/explanation pairs. */
  function ItemsOf(rows: seq<Row>): Option<seq<PhysicianReportItem>>
    decreases |rows|
  {
    if rows == [] then Some([])
    else if |rows| >= 2 && rows[0].DataRow? && rows[1].ExplanationRow? then
      match ItemsOf(rows[2..])
      case None => None
      case Some(rest) =>
        var d := rows[0];
        Some([PhysicianReportItem(d.parameter, d.value, d.referenceRange, d.status, rows[1].explanation)] + rest)
    else None
  }

  /** The table shows every field of every item: the items can be recovered
      from the rows. */
  lemma {:induction false} TableBodyRoundTrip(items: seq<PhysicianReportItem>)
    ensures ItemsOf(TableBody(items)) == Some(items)
    decreases |items|
  {
    if items != [] {
      var rows := TableBody(items);
      assert rows[2..] == TableBody(items[1..]);
      TableBodyRoundTrip(items[1..]);
      assert [items[0]] + items[1..] == items;
    }
  }

  /** The table does not check an item's status: the data row carries the
      string that was received, whether or not it is one of the three
      declared literals, and a declared literal reads back as the status it
      names. */
  lemma StatusShownAsReceived(items: seq<PhysicianReportItem>, i: int)
    requires 0 <= i < |items|
    ensures TableBody(items)[2 * i].status == items[i].status
    ensures HasDeclaredStatus(items[i]) <==> ParseStatus(TableBody(items)[2 * i].status).Some?
    ensures HasDeclaredStatus(items[i]) ==>
              StatusLiteral(ParseStatus(TableBody(items)[2 * i].status).value) == items[i].status
  {
    ParseStatusRoundTrip(items[i].status);
  }

  /** One list entry per advice string, in order. */
  datatype ListEntry = ListEntry(text: string)

  function ListEntries(items: seq<string>): (entries: seq<ListEntry>)
    ensures |entries| == |items|
    ensures forall i :: 0 <= i < |items| ==> entries[i].text == items[i]
  {
    if items == [] then [] else [ListEntry(items[0])] + ListEntries(items[1..])
  }

  function EntryTexts(entries: seq<ListEntry>): (texts: seq<string>)
    ensures |texts| == |entries|
  {
    if entries == [] then [] else [entries[0].text] + EntryTexts(entries[1..])
  }

  /** A list loses nothing and reorders nothing. */
  lemma {:induction false} ListEntriesRoundTrip(items: seq<string>)
    ensures EntryTexts(ListEntries(items)) == items
    decreases |items|
  {
    if items != [] {
      ListEntriesRoundTrip(items[1..]);
      assert ListEntries(items)[1..] == ListEntries(items[1..]);
      assert [items[0]] + items[1..] == items;
    }
  }

  /** The three recommendation categories in display order: general,
      nutrition, physical therapy. */
  function RecommendationLists(r: Recommendations): (lists: seq<seq<ListEntry>>)
    ensures |lists| == 3
    ensures EntryTexts(lists[0]) == r.general
    ensures EntryTexts(lists[1]) == r.nutrition
    ensures EntryTexts(lists[2]) == r.physicalTherapy
  {
    ListEntriesRoundTrip(r.general);
    ListEntriesRoundTrip(r.nutrition);
    ListEntriesRoundTrip(r.physicalTherapy);
    [ListEntries(r.general), ListEntries(r.nutrition), ListEntries(r.physicalTherapy)]
  }

  /** What the report card shows: the patient summary, the table body and the
      recommendation lists. Patient details are not rendered. */
  datatype Report = Report(summary: string, tableBody: seq<Row>, recommendations: seq<seq<ListEntry>>)

  function Render(result: AnalysisResult): (report: Report)
    ensures report.summary == result.patientSummary
    ensures |report.tableBody| == 2 * |result.physicianReport|
    ensures ItemsOf(report.tableBody) == Some(result.physicianReport)
    ensures |report.recommendations| == 3
    ensures EntryTexts(report.recommendations[0]) == result.recommendations.general
    ensures EntryTexts(report.recommendations[1]) == result.recommendations.nutrition
    ensures EntryTexts(report.recommendations[2]) == result.recommendations.physicalTherapy
  {
    TableBodyRoundTrip(result.physicianReport);
    Report(result.patientSummary, TableBody(result.physicianReport), RecommendationLists(result.recommendations))
  }
}

/** Export to PDF: guard on the report element and the two libraries,
    capture the element at twice the resolution on the theme's background,
    and place the capture on one portrait A4 page, scaled to fit both page
    dimensions with its aspect ratio kept, centred horizontally and aligned to
    the top. Arithmetic is exact over the reals. */
module PdfExport {
  import opened Types

  type PosReal = r: real | r > 0.0 witness 1.0

  const CaptureScale: int := 2
  const DarkBackground: string := "#1f2937"
  const LightBackground: string := "#ffffff"
  const NotReadyAlert: string :=
    "PDF export functionality is not ready. Please try again in a moment."
  const FailedAlert: string :=
    "An error occurred while generating the PDF."
  const PdfFileName: string := "medical-report-analysis.pdf"

  datatype CaptureOptions = CaptureOptions(scale: int, useCors: bool, backgroundColor: string)

  /** The captured canvas and the PDF page, in their own units. */
  datatype Canvas = Canvas(width: PosReal, height: PosReal)
  datatype PageSize = PageSize(width: PosReal, height: PosReal)

  /** Where an image is drawn on a page. */
  datatype Placement = Placement(x: real, y: real, width: real, height: real)

  /** A saved document: orientation, unit, format, the images of each page
      and the file name. */
  datatype PdfDocument = PdfDocument(
    orientation: string,
    unit: string,
    format: string,
    pages: seq<seq<Placement>>,
    fileName: string)

  datatype ExportOutcome =
    | ElementMissing
    | NotReady(alert: string)
    | Failed(alert: string)
    | Saved(options: CaptureOptions, document: PdfDocument)

  /** What the export handler finds when it runs: whether the report element
      and the two libraries are present, the theme, the capture routine, the
      page size the PDF library reports for portrait A4 in millimetres, and
      the library calls that turn a capture into a saved file (`toDataURL`,
      the `jsPDF` constructor, `addImage` and `save`), any of which may throw
      into the same handler as a failed capture. */
  datatype ExportEnv = ExportEnv(
    hasElement: bool,
    hasHtml2Canvas: bool,
    hasJsPdf: bool,
    theme: Theme,
    capture: CaptureOptions -> Result<Canvas, Thrown>,
    page: PageSize,
    write: PdfDocument -> Result<(), Thrown>)

  /** Capture options: scale 2, cross-origin images allowed, and the dark
      background exactly when the theme is dark. */
  function CaptureOptionsFor(theme: Theme): (o: CaptureOptions)
    ensures o.scale == CaptureScale && o.useCors
    ensures o.backgroundColor == DarkBackground <==> theme == Dark
    ensures o.backgroundColor == LightBackground <==> theme == Light
  {
    match theme
    case Dark => CaptureOptions(CaptureScale, true, DarkBackground)
    case Light => CaptureOptions(CaptureScale, true, LightBackground)
  }

  function Min(a: real, b: real): (m: real)
    ensures m <= a && m <= b && (m == a || m == b)
  {
    if a <= b then a else b
  }

  /** The scale factor: the smaller of the two page-to-canvas ratios. */
  function FitRatio(page: PageSize, canvas: Canvas): (ratio: real)
    ensures ratio > 0.0
    ensures canvas.width * ratio <= page.width && canvas.height * ratio <= page.height
    ensures canvas.width * ratio == page.width || canvas.height * ratio == page.height
  {
    var rw, rh := page.width / canvas.width, page.height / canvas.height;
    assert canvas.width * rw == page.width;
    assert canvas.height * rh == page.height;
    var ratio := Min(rw, rh);
    MulMono(canvas.width, ratio, rw);
    MulMono(canvas.height, ratio, rh);
    ratio
  }

  lemma MulMono(c: real, a: real, b: real)
    requires c > 0.0 && a <= b
    ensures c * a <= c * b
  {
  }

  /** The image placement: scaled by the fit ratio on both axes, centred
      horizontally and placed at the top. */
  function Fit(page: PageSize, canvas: Canvas): (p: Placement)
    ensures 0.0 < p.width <= page.width && 0.0 < p.height <= page.height
    ensures p.width * canvas.height == p.height * canvas.width
    ensures p.width == page.width || p.height == page.height
    ensures p.x >= 0.0 && p.x + p.width + p.x == page.width
    ensures p.y == 0.0
  {
    var ratio := FitRatio(page, canvas);
    var w, h := canvas.width * ratio, canvas.height * ratio;
    assert w * canvas.height == h * canvas.width;
    Placement((page.width - w) / 2.0, 0.0, w, h)
  }

  /** No larger scale keeps the image on the page: the fit ratio is the
      largest factor whose scaled canvas fits both page dimensions. */
  lemma FitIsLargest(page: PageSize, canvas: Canvas, k: real)
    requires canvas.width * k <= page.width && canvas.height * k <= page.height
    ensures k <= FitRatio(page, canvas)
  {
    var ratio := FitRatio(page, canvas);
    if canvas.width * ratio == page.width {
      assert canvas.width * k <= canvas.width * ratio;
      if k > ratio { MulStrict(canvas.width, ratio, k); }
    } else {
      assert canvas.height * k <= canvas.height * ratio;
      if k > ratio { MulStrict(canvas.height, ratio, k); }
    }
  }

  lemma MulStrict(c: real, a: real, b: real)
    requires c > 0.0 && a < b
    ensures c * a < c * b
  {
  }

  /** The report element and both libraries are present. */
  predicate Ready(env: ExportEnv) {
    env.hasElement && env.hasHtml2Canvas && env.hasJsPdf
  }

  /** The document the export writes for a capture: one portrait A4 page in
      millimetres holding the fitted capture, under the fixed file name. */
  function DocumentFor(page: PageSize, canvas: Canvas): PdfDocument {
    PdfDocument("p", "mm", "a4", [[Fit(page, canvas)]], PdfFileName)
  }

  /** The export handler. A missing report element ends it before anything
      else is looked at; a missing library ends it with the not-ready alert;
      a failed capture, or a throw while the document is built and saved,
      ends it with the failure alert; otherwise one portrait A4 page holding
      exactly the fitted capture is saved. */
  function ExportToPdf(env: ExportEnv): (r: ExportOutcome)
    ensures !env.hasElement ==> r == ElementMissing
    ensures env.hasElement && !(env.hasHtml2Canvas && env.hasJsPdf) ==> r == NotReady(NotReadyAlert)
    ensures Ready(env) && env.capture(CaptureOptionsFor(env.theme)).Err? ==> r == Failed(FailedAlert)
    ensures (Ready(env) && env.capture(CaptureOptionsFor(env.theme)).Ok?
             && env.write(DocumentFor(env.page, env.capture(CaptureOptionsFor(env.theme)).value)).Err?)
            ==> r == Failed(FailedAlert)
    ensures r.Saved? <==> (Ready(env) && env.capture(CaptureOptionsFor(env.theme)).Ok?
                           && env.write(DocumentFor(env.page, env.capture(CaptureOptionsFor(env.theme)).value)).Ok?)
    ensures r.Saved? ==> r.options == CaptureOptionsFor(env.theme)
    ensures r.Saved? ==> r.document.fileName == PdfFileName
    ensures r.Saved? ==> r.document.orientation == "p" && r.document.unit == "mm" && r.document.format == "a4"
    ensures r.Saved? ==> r.document.pages == [[Fit(env.page, env.capture(CaptureOptionsFor(env.theme)).value)]]
    ensures r.Failed? ==> r.alert == FailedAlert
  {
    if !env.hasElement then ElementMissing
    else if !env.hasHtml2Canvas || !env.hasJsPdf then NotReady(NotReadyAlert)
    else
      var options := CaptureOptionsFor(env.theme);
      match env.capture(options)
      case Err(_) => Failed(FailedAlert)
      case Ok(canvas) =>
        var document := DocumentFor(env.page, canvas);
        match env.write(document)
        case Err(_) => Failed(FailedAlert)
        case Ok(_) => Saved(options, document)
  }

  /** When the export stops at a guard, nothing is captured or written: the
      outcome is the same whatever the capture routine and the library calls
      would do. */
  lemma GuardsCaptureNothing(env: ExportEnv, capture: CaptureOptions -> Result<Canvas, Thrown>,
                             write: PdfDocument -> Result<(), Thrown>)
    requires !Ready(env)
    ensures ExportToPdf(env.(capture := capture, write := write)) == ExportToPdf(env)
    ensures ExportToPdf(env).ElementMissing? || ExportToPdf(env).NotReady?
  {
  }
}
