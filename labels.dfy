/**
 * The label composer: derives the printable fields of each spreadsheet row
 * and draws one 48 x 25 mm page per row. The current date, the random batch
 * suffixes and number parsing are parameters.
 */
module Labels {
  import opened Wrappers
  import opened Text
  import opened Calendar
  import opened Sheet
  import opened Pdf

  /** Page size and layout, in millimetres. */
  const LabelWidth: int := 48
  const LabelHeight: int := 25
  const LeftMargin: int := 2
  const LineYs: seq<int> := [22, 18, 14, 10, 6, 2]
  const LabelFont: Font := Font("Helvetica-Bold", 6)

  /** The sentinel printed when the FSSAI number cannot be read. */
  const NotAvailable: string := "N/A"

  /** What aborts a whole document: a `KeyError`, a `ValueError` or a date past year 9999. */
  datatype LabelError = MissingColumn(column: string) | NotANumber(column: string, text: string) | DateOutOfRange

  /**
   * `float(text)` restricted to finite values: `None` for text that is not a
   * number and for NaN or infinity, which `int()` refuses.
   */
  type Parser = string -> Option<real>

  /** `int(x)` on a finite float: truncation toward zero. */
  function Trunc(x: real): (i: int)
    ensures 0.0 <= x ==> 0 <= i && i as real <= x < i as real + 1.0
    ensures x < 0.0 ==> i <= 0 && i as real - 1.0 < x <= i as real
  {
    if 0.0 <= x then x.Floor else -((-x).Floor)
  }

  /** `float(cell)` followed by `int()`: a missing cell is NaN, which `int()` refuses. */
  function CellNumber(c: Cell, parse: Parser): Option<real> {
    match c
    case Null => None
    case Text(t) => parse(t)
  }

  /** `f"INR {int(float(row['M.R.P']))}"`, with no fallback. */
  function Price(row: Row, parse: Parser): Result<string, LabelError> {
    if PriceColumn !in row then Err(MissingColumn(PriceColumn))
    else match CellNumber(row[PriceColumn], parse)
      case None => Err(NotANumber(PriceColumn, CellText(row[PriceColumn])))
      case Some(x) => Ok("INR " + IntToString(Trunc(x)))
  }

  /** `str(int(float(row['M.F.G. FSAAI'])))`, or "N/A" on any failure. */
  function Fssai(row: Row, parse: Parser): string {
    if FssaiColumn !in row then NotAvailable
    else match CellNumber(row[FssaiColumn], parse)
      case None => NotAvailable
      case Some(x) => IntToString(Trunc(x))
  }

  /** The first two alphanumeric characters of the upper-cased name. */
  function BatchPrefix(name: string): string {
    Take(FilterAlnum(Upper(name)), 2)
  }

  /** `str(n).zfill(3)`. */
  function BatchSuffix(n: int): string
    requires 1 <= n <= 999
  {
    ZFill(NatToString(n), 3)
  }

  function BatchCode(name: string, dateCode: string, n: int): string
    requires 1 <= n <= 999
  {
    BatchPrefix(name) + dateCode + BatchSuffix(n)
  }

  /** The values computed once per document, before the first row. */
  datatype Shared = Shared(mfgDate: string, useBy: string, dateCode: string)

  function SharedFields(today: Date): Result<Shared, LabelError>
    requires ValidDate(today)
  {
    match AddMonths(today, ShelfLifeMonths)
    case None => Err(DateOutOfRange)
    case Some(useBy) => Ok(Shared(LabelDate(today), LabelDate(useBy), DateCode(today)))
  }

  /** The per-row values printed on one label. */
  datatype Fields = Fields(name: string, weight: string, mrp: string, fssai: string, batchCode: string)

  /** The fields of one row, read in the order the composer reads them. */
  function RowFields(row: Row, shared: Shared, suffix: int, parse: Parser): Result<Fields, LabelError>
    requires 1 <= suffix <= 999
  {
    if NameColumn !in row then Err(MissingColumn(NameColumn))
    else if WeightColumn !in row then Err(MissingColumn(WeightColumn))
    else match Price(row, parse)
      case Err(e) => Err(e)
      case Ok(mrp) =>
        var name := CellText(row[NameColumn]);
        Ok(Fields(name, CellText(row[WeightColumn]), mrp, Fssai(row, parse),
                  BatchCode(name, shared.dateCode, suffix)))
  }

  /** The six text lines of a label, top to bottom. */
  function LabelLines(f: Fields, shared: Shared): seq<string> {
    [ "Name: " + f.name,
      "Net Weight: " + f.weight + " Kg",
      "M.R.P: " + f.mrp,
      "M.F.G: " + shared.mfgDate + " | USE BY: " + shared.useBy,
      "Batch Code: " + f.batchCode,
      "M.F.G. FSSAI: " + f.fssai ]
  }

  /** The page of one label: each line at the left margin, at its height, in the label font. */
  function LabelPage(f: Fields, shared: Shared): Page {
    seq(6, k requires 0 <= k < 6 => Draw(LeftMargin, LineYs[k], LabelFont, LabelLines(f, shared)[k]))
  }

  predicate ValidSuffixes(suffixes: seq<int>) {
    forall i :: 0 <= i < |suffixes| ==> 1 <= suffixes[i] <= 999
  }

  /** The label page of one row, or the error that aborts the document. */
  function LabelOf(row: Row, shared: Shared, suffix: int, parse: Parser): Result<Page, LabelError>
    requires 1 <= suffix <= 999
  {
    var f := RowFields(row, shared, suffix, parse);
    if f.Err? then Err(f.error) else Ok(LabelPage(f.value, shared))
  }

  /** Row by row, the page or the error. */
  function RowLabels(rows: seq<Row>, shared: Shared, suffixes: seq<int>, parse: Parser): (rs: seq<Result<Page, LabelError>>)
    requires |suffixes| == |rows| && ValidSuffixes(suffixes)
    ensures |rs| == |rows|
  {
    seq(|rows|, i requires 0 <= i < |rows| => LabelOf(rows[i], shared, suffixes[i], parse))
  }

  /** The pages of the rows in order, or the first error met. */
  function Pages(rows: seq<Row>, shared: Shared, suffixes: seq<int>, parse: Parser): Result<seq<Page>, LabelError>
    requires |suffixes| == |rows| && ValidSuffixes(suffixes)
  {
    Collect(RowLabels(rows, shared, suffixes, parse))
  }

  datatype Document = Document(width: int, height: int, pages: seq<Page>)

  /** The document `generate_pdf` builds, or the error that aborts it. */
  function ComposeDocument(rows: seq<Row>, today: Date, suffixes: seq<int>, parse: Parser): Result<Document, LabelError>
    requires ValidDate(today)
    requires |suffixes| == |rows| && ValidSuffixes(suffixes)
  {
    match SharedFields(today)
    case Err(e) => Err(e)
    case Ok(shared) =>
      match Pages(rows, shared, suffixes, parse)
      case Err(e) => Err(e)
      case Ok(ps) => Ok(Document(LabelWidth, LabelHeight, ps))
  }

  /**
   * Every label page holds six strings, all at the left margin in the label
   * font, at heights 22, 18, 14, 10, 6 and 2, with their fixed captions.
   */
  lemma LabelPageSpelledOut(f: Fields, shared: Shared)
    ensures LabelPage(f, shared) ==
      [ Draw(LeftMargin, 22, LabelFont, "Name: " + f.name),
        Draw(LeftMargin, 18, LabelFont, "Net Weight: " + f.weight + " Kg"),
        Draw(LeftMargin, 14, LabelFont, "M.R.P: " + f.mrp),
        Draw(LeftMargin, 10, LabelFont, "M.F.G: " + shared.mfgDate + " | USE BY: " + shared.useBy),
        Draw(LeftMargin, 6, LabelFont, "Batch Code: " + f.batchCode),
        Draw(LeftMargin, 2, LabelFont, "M.F.G. FSSAI: " + f.fssai) ]
  {
    var p := LabelPage(f, shared);
    var lines := LabelLines(f, shared);
    assert |p| == 6;
    assert p[0].text == lines[0] && p[1].text == lines[1] && p[2].text == lines[2];
    assert p[3].text == lines[3] && p[4].text == lines[4] && p[5].text == lines[5];
  }

  /** Draws the six lines of one label on the current page, in the label font. */
  method DrawLabel(c: Canvas, f: Fields, shared: Shared)
    requires c.current == []
    modifies c
    ensures c.current == LabelPage(f, shared)
    ensures c.font == LabelFont
    ensures c.pages == old(c.pages) && c.saved == old(c.saved)
  {
    c.SetFont(LabelFont);
    c.DrawString(LeftMargin, 22, "Name: " + f.name);
    c.DrawString(LeftMargin, 18, "Net Weight: " + f.weight + " Kg");
    c.DrawString(LeftMargin, 14, "M.R.P: " + f.mrp);
    c.DrawString(LeftMargin, 10, "M.F.G: " + shared.mfgDate + " | USE BY: " + shared.useBy);
    c.DrawString(LeftMargin, 6, "Batch Code: " + f.batchCode);
    c.DrawString(LeftMargin, 2, "M.F.G. FSSAI: " + f.fssai);
    LabelPageSpelledOut(f, shared);
  }

  /**
   * `generate_pdf`: the shared date strings first, then for each row its
   * fields, six strings and `showPage`, then `save`.
   */
  method GeneratePdf(rows: seq<Row>, today: Date, suffixes: seq<int>, parse: Parser)
    returns (doc: Result<Document, LabelError>)
    requires ValidDate(today)
    requires |suffixes| == |rows| && ValidSuffixes(suffixes)
    ensures doc == ComposeDocument(rows, today, suffixes, parse)
  {
    var c := new Canvas(LabelWidth, LabelHeight);
    var mfgDate := LabelDate(today);
    var useBy := AddMonths(today, ShelfLifeMonths);
    if useBy.None? {
      return Err(DateOutOfRange);
    }
    var shared := Shared(mfgDate, LabelDate(useBy.value), DateCode(today));
    ghost var labels := RowLabels(rows, shared, suffixes, parse);
    var i := 0;
    while i < |rows|
      invariant 0 <= i <= |rows|
      invariant c.width == LabelWidth && c.height == LabelHeight && c.current == []
      invariant Collect(labels[..i]) == Ok(c.pages)
    {
      var row := rows[i];
      CollectStep(labels, i);
      if NameColumn !in row || WeightColumn !in row || Price(row, parse).Err? {
        doc := Err(RowFields(row, shared, suffixes[i], parse).error);
        CollectPrefixErr(labels, i + 1);
        return;
      }
      var name := CellText(row[NameColumn]);
      var weight := CellText(row[WeightColumn]);
      var mrp := Price(row, parse).value;
      var fssai := Fssai(row, parse);
      var batchCode := BatchCode(name, shared.dateCode, suffixes[i]);
      DrawLabel(c, Fields(name, weight, mrp, fssai, batchCode), shared);
      c.ShowPage();
      i := i + 1;
    }
    assert labels[..i] == labels;
    c.Save();
    doc := Ok(Document(c.width, c.height, c.pages));
  }
}
