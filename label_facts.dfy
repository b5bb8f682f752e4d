/**
 * What the label composer promises: one page per row in row order, a fixed
 * six-line layout, date strings shared by every page, the shape of batch
 * codes, and which failures abort the document and which become "N/A".
 */
module LabelFacts {
  import opened Wrappers
  import opened Text
  import opened Calendar
  import opened Sheet
  import opened Pdf
  import opened Labels

  predicate AllRowsOk(rows: seq<Row>, shared: Shared, suffixes: seq<int>, parse: Parser)
    requires |suffixes| == |rows| && ValidSuffixes(suffixes)
  {
    forall i :: 0 <= i < |rows| ==> RowFields(rows[i], shared, suffixes[i], parse).Ok?
  }

  /**
   * The pages exist exactly when every row yields its fields, and then page
   * `i` is the label of row `i`.
   */
  lemma PagesOnePerRow(rows: seq<Row>, shared: Shared, suffixes: seq<int>, parse: Parser)
    requires |suffixes| == |rows| && ValidSuffixes(suffixes)
    ensures Pages(rows, shared, suffixes, parse).Ok? <==> AllRowsOk(rows, shared, suffixes, parse)
    ensures Pages(rows, shared, suffixes, parse).Ok? ==>
      var ps := Pages(rows, shared, suffixes, parse).value;
      |ps| == |rows| &&
      forall i :: 0 <= i < |rows| ==> ps[i] == LabelPage(RowFields(rows[i], shared, suffixes[i], parse).value, shared)
  {
    var labels := RowLabels(rows, shared, suffixes, parse);
    CollectOk(labels);
    assert forall i :: 0 <= i < |rows| ==> labels[i] == LabelOf(rows[i], shared, suffixes[i], parse);
  }

  /** When the pages fail, they fail with the error of the first row that fails. */
  lemma PagesFirstError(rows: seq<Row>, shared: Shared, suffixes: seq<int>, parse: Parser)
    requires |suffixes| == |rows| && ValidSuffixes(suffixes)
    requires Pages(rows, shared, suffixes, parse).Err?
    ensures exists j :: (0 <= j < |rows| &&
      RowFields(rows[j], shared, suffixes[j], parse).Err? &&
      Pages(rows, shared, suffixes, parse).error == RowFields(rows[j], shared, suffixes[j], parse).error &&
      forall i :: 0 <= i < j ==> RowFields(rows[i], shared, suffixes[i], parse).Ok?)
  {
    var labels := RowLabels(rows, shared, suffixes, parse);
    CollectFirstErr(labels);
    assert forall i :: 0 <= i < |rows| ==> labels[i] == LabelOf(rows[i], shared, suffixes[i], parse);
  }

  /**
   * The document: a 48 x 25 page per row, in row order, and no page at all
   * for no rows. It exists exactly when the use-by date is in range and every
   * row has a name, a weight and a price that reads as a number.
   */
  lemma DocumentOnePagePerRow(rows: seq<Row>, today: Date, suffixes: seq<int>, parse: Parser)
    requires ValidDate(today)
    requires |suffixes| == |rows| && ValidSuffixes(suffixes)
    ensures ComposeDocument(rows, today, suffixes, parse).Ok? <==>
      AddMonths(today, ShelfLifeMonths).Some? && AllRowsOk(rows, SharedFields(today).value, suffixes, parse)
    ensures ComposeDocument(rows, today, suffixes, parse).Ok? ==>
      var doc := ComposeDocument(rows, today, suffixes, parse).value;
      var shared := SharedFields(today).value;
      doc.width == LabelWidth && doc.height == LabelHeight && |doc.pages| == |rows| &&
      forall i :: 0 <= i < |rows| ==> doc.pages[i] == LabelPage(RowFields(rows[i], shared, suffixes[i], parse).value, shared)
    ensures rows == [] && AddMonths(today, ShelfLifeMonths).Some? ==>
      ComposeDocument(rows, today, suffixes, parse) == Ok(Document(LabelWidth, LabelHeight, []))
  {
    if AddMonths(today, ShelfLifeMonths).Some? {
      PagesOnePerRow(rows, SharedFields(today).value, suffixes, parse);
    }
  }

  /** The date line and the batch code line of one row's label. */
  lemma RowDateLines(row: Row, shared: Shared, suffix: int, parse: Parser)
    requires 1 <= suffix <= 999
    requires RowFields(row, shared, suffix, parse).Ok?
    ensures NameColumn in row
    ensures var p := LabelPage(RowFields(row, shared, suffix, parse).value, shared);
      |p| == 6 &&
      p[3] == Draw(LeftMargin, 10, LabelFont, "M.F.G: " + shared.mfgDate + " | USE BY: " + shared.useBy) &&
      p[3].text == "M.F.G: " + shared.mfgDate + " | USE BY: " + shared.useBy &&
      p[4].text == "Batch Code: " + BatchPrefix(CellText(row[NameColumn])) + shared.dateCode + BatchSuffix(suffix)
  {
    var f := RowFields(row, shared, suffix, parse).value;
    assert f.batchCode == BatchCode(CellText(row[NameColumn]), shared.dateCode, suffix);
    LabelPageSpelledOut(f, shared);
  }

  /**
   * The manufacture and use-by dates are computed once: every page carries
   * the same date line, and every batch code embeds the same date code
   * between the row's name prefix and its own suffix.
   */
  lemma SharedOnEveryPage(rows: seq<Row>, shared: Shared, suffixes: seq<int>, parse: Parser)
    requires |suffixes| == |rows| && ValidSuffixes(suffixes)
    requires Pages(rows, shared, suffixes, parse).Ok?
    ensures var ps := Pages(rows, shared, suffixes, parse).value;
      |ps| == |rows| &&
      (forall i :: 0 <= i < |rows| ==>
        |ps[i]| == 6 &&
        ps[i][3].text == "M.F.G: " + shared.mfgDate + " | USE BY: " + shared.useBy &&
        NameColumn in rows[i] &&
        ps[i][4].text == "Batch Code: " + BatchPrefix(CellText(rows[i][NameColumn])) + shared.dateCode + BatchSuffix(suffixes[i])) &&
      (forall i, j :: 0 <= i < |rows| && 0 <= j < |rows| ==> ps[i][3] == ps[j][3])
  {
    PagesOnePerRow(rows, shared, suffixes, parse);
    var ps := Pages(rows, shared, suffixes, parse).value;
    forall i | 0 <= i < |rows|
      ensures |ps[i]| == 6
      ensures ps[i][3] == Draw(LeftMargin, 10, LabelFont, "M.F.G: " + shared.mfgDate + " | USE BY: " + shared.useBy)
      ensures NameColumn in rows[i]
      ensures ps[i][4].text == "Batch Code: " + BatchPrefix(CellText(rows[i][NameColumn])) + shared.dateCode + BatchSuffix(suffixes[i])
    {
      RowDateLines(rows[i], shared, suffixes[i], parse);
    }
  }

  /**
   * The manufacture date reads back as today, the use-by date as today plus
   * six calendar months (day clamped to the month's end), and the date code
   * as today's day, month and two-digit year.
   */
  lemma SharedDates(today: Date)
    requires ValidDate(today)
    requires SharedFields(today).Ok?
    ensures var s := SharedFields(today).value;
      ParseLabelDate(s.mfgDate) == Some(today) &&
      (exists u :: ParseLabelDate(s.useBy) == Some(u) && ValidDate(u) &&
         MonthIndex(u) == MonthIndex(today) + 6 &&
         u.day == (if today.day <= DaysInMonth(u.year, u.month) then today.day else DaysInMonth(u.year, u.month))) &&
      |s.dateCode| == 6 && AllDigits(s.dateCode) &&
      ParseDigits(s.dateCode[..2]) == today.day &&
      ParseDigits(s.dateCode[2..4]) == today.month &&
      ParseDigits(s.dateCode[4..]) == today.year % 100
  {
    var u := AddMonths(today, ShelfLifeMonths).value;
    LabelDateRoundTrip(today);
    LabelDateRoundTrip(u);
  }

  /** The batch prefix: at most two upper-case letters or digits, taken in order from the name. */
  lemma BatchPrefixShape(name: string)
    ensures var p := BatchPrefix(name);
      var cleaned := FilterAlnum(Upper(name));
      |p| == (if |cleaned| < 2 then |cleaned| else 2) &&
      p <= cleaned &&
      (forall k :: 0 <= k < |p| ==> IsUpperLetter(p[k]) || IsDigit(p[k])) &&
      (p == [] <==> forall k :: 0 <= k < |name| ==> !IsAlnum(name[k]))
  {
    var u := Upper(name);
    var cleaned := FilterAlnum(u);
    forall k | 0 <= k < |u|
      ensures !IsLowerLetter(u[k])
    {
      UpperAt(name, k);
    }
    forall k | 0 <= k < |cleaned|
      ensures IsUpperLetter(cleaned[k]) || IsDigit(cleaned[k])
    {
      FilterAlnumUpper(u, k);
    }
    FilterAlnumEmpty(u);
    forall k | 0 <= k < |name|
      ensures IsAlnum(u[k]) <==> IsAlnum(name[k])
    {
      UpperAt(name, k);
      ToUpperKeepsAlnum(name[k]);
    }
  }

  /** The filter of an upper-cased string keeps only upper-case letters and digits. */
  lemma {:induction false} FilterAlnumUpper(u: string, k: nat)
    requires forall i :: 0 <= i < |u| ==> !IsLowerLetter(u[i])
    requires k < |FilterAlnum(u)|
    ensures IsUpperLetter(FilterAlnum(u)[k]) || IsDigit(FilterAlnum(u)[k])
  {
    if IsAlnum(u[0]) && k == 0 {
    } else if IsAlnum(u[0]) {
      FilterAlnumUpper(u[1..], k - 1);
    } else {
      FilterAlnumUpper(u[1..], k);
    }
  }

  /** The random suffix: exactly three digits that read back as the number drawn. */
  lemma BatchSuffixShape(n: int)
    requires 1 <= n <= 999
    ensures var s := BatchSuffix(n);
      |s| == 3 && AllDigits(s) && ParseDigits(s) == n
  {
    NatToStringShort(n);
    ZFillDigits(NatToString(n), 3);
    NatToStringRoundTrip(n);
  }

  /**
   * A batch code is the name prefix, then the six-digit date code, then the
   * three-digit suffix: 9 to 11 characters in all.
   */
  lemma BatchCodeShape(name: string, dateCode: string, n: int)
    requires |dateCode| == 6 && AllDigits(dateCode)
    requires 1 <= n <= 999
    ensures var b := BatchCode(name, dateCode, n);
      var p := |BatchPrefix(name)|;
      9 <= |b| <= 11 && p <= 2 &&
      b[..p] == BatchPrefix(name) &&
      (forall k :: 0 <= k < p ==> IsUpperLetter(b[k]) || IsDigit(b[k])) &&
      b[p..p + 6] == dateCode &&
      AllDigits(b[p..]) &&
      ParseDigits(b[|b| - 3..]) == n
  {
    BatchPrefixShape(name);
    BatchSuffixShape(n);
    var b := BatchCode(name, dateCode, n);
    var p := |BatchPrefix(name)|;
    assert b[..p] == BatchPrefix(name);
    assert b[p..p + 6] == dateCode;
    assert b[|b| - 3..] == BatchSuffix(n);
    assert b[p..] == dateCode + BatchSuffix(n);
  }

  /**
   * The FSSAI field is "N/A" exactly when the column is absent or its value
   * does not read as a finite number; otherwise it is the truncated number.
   */
  lemma FssaiField(row: Row, parse: Parser)
    ensures Fssai(row, parse) == "N/A" <==>
      FssaiColumn !in row || CellNumber(row[FssaiColumn], parse).None?
    ensures FssaiColumn in row && CellNumber(row[FssaiColumn], parse).Some? ==>
      ParseInt(Fssai(row, parse)) == Some(Trunc(CellNumber(row[FssaiColumn], parse).value))
  {
    if FssaiColumn in row && CellNumber(row[FssaiColumn], parse).Some? {
      var i := Trunc(CellNumber(row[FssaiColumn], parse).value);
      IntToStringRoundTrip(i);
      if i >= 0 {
        assert IsDigit(IntToString(i)[0]);
      }
    }
  }

  /**
   * The composer reads the column "M.F.G. FSAAI": a sheet that spells the
   * column "M.F.G. FSSAI" gets "N/A" on every label, whatever it holds.
   */
  lemma CorrectSpellingIgnored(row: Row, parse: Parser)
    requires "M.F.G. FSSAI" in row && "M.F.G. FSAAI" !in row
    ensures Fssai(row, parse) == "N/A"
  {
  }

  /**
   * The price is "INR " and the truncated number when the column reads as a
   * finite number; otherwise there is no price and the error names the column.
   */
  lemma PriceField(row: Row, parse: Parser)
    ensures Price(row, parse).Ok? <==> PriceColumn in row && CellNumber(row[PriceColumn], parse).Some?
    ensures Price(row, parse).Ok? ==>
      var s := Price(row, parse).value;
      |s| > 4 && s[..4] == "INR " && ParseInt(s[4..]) == Some(Trunc(CellNumber(row[PriceColumn], parse).value))
    ensures Price(row, parse).Err? ==> Price(row, parse).error.column == PriceColumn
  {
    if Price(row, parse).Ok? {
      var i := Trunc(CellNumber(row[PriceColumn], parse).value);
      var s := Price(row, parse).value;
      assert s[4..] == IntToString(i);
      IntToStringRoundTrip(i);
    }
  }

  /**
   * A row yields its label exactly when it has a name, a weight and a price
   * that reads as a number; the FSSAI column plays no part in that, and no
   * row error is ever about it.
   */
  lemma RowFieldsOk(row: Row, shared: Shared, suffix: int, parse: Parser)
    requires 1 <= suffix <= 999
    ensures RowFields(row, shared, suffix, parse).Ok? <==>
      NameColumn in row && WeightColumn in row && Price(row, parse).Ok?
    ensures RowFields(row, shared, suffix, parse).Ok? == RowFields(row - {FssaiColumn}, shared, suffix, parse).Ok?
    ensures RowFields(row, shared, suffix, parse).Err? ==>
      RowFields(row, shared, suffix, parse).error != DateOutOfRange &&
      RowFields(row, shared, suffix, parse).error.column in {NameColumn, WeightColumn, PriceColumn}
  {
  }

  /** One row with an unreadable price aborts the whole document, whatever the other rows hold. */
  lemma UnreadablePriceAborts(rows: seq<Row>, today: Date, suffixes: seq<int>, parse: Parser, j: nat)
    requires ValidDate(today)
    requires |suffixes| == |rows| && ValidSuffixes(suffixes)
    requires j < |rows| && PriceColumn in rows[j] && CellNumber(rows[j][PriceColumn], parse).None?
    ensures ComposeDocument(rows, today, suffixes, parse).Err?
  {
    DocumentOnePagePerRow(rows, today, suffixes, parse);
    if AddMonths(today, ShelfLifeMonths).Some? {
      assert RowFields(rows[j], SharedFields(today).value, suffixes[j], parse).Err?;
    }
  }
}
