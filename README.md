# MRP label generator — a Dafny model

The label generator turns rows of a product spreadsheet (name, net weight,
price, FSSAI licence number) into a PDF of small 48 × 25 mm labels, one page
per row. A user picks a product and a weight, and the tool keeps the rows that
match both. For every kept row the label composer `generate_pdf` derives:

- the manufacture date;
- a use-by date six calendar months later;
- a `DDMMYY` date code;
- a batch code: up to two letters or digits of the upper-cased name, the date code and a random three-digit suffix;
- the price (`INR` and the whole rupees);
- the FSSAI number, or `N/A`.

It then draws six text lines on a fresh page.

This project models that composer and the selection expressions:

- `Wrappers`: `Option`, `Result`, and `Collect`, which gathers a sequence of results into the values or the first error.
- `Text`: ASCII character classes, `str.upper`, the alphanumeric filter, `str(int)`, two-digit fields and `str.zfill`.
- `Calendar`: dates, `relativedelta(months=k)` with the day clamped to the end of the month, and the `%d %b %Y` and `%d%m%y` formats.
- `Sheet`: a loaded spreadsheet, meaning column names and rows of cells. A cell is `Null` (NaN) or the text `str()` gives for it.
- `Pdf`: the ReportLab canvas as a class. It holds the current font, the commands of the page being drawn and the finished pages.
- `Labels`: field derivation, `ComposeDocument` (the document as a function of the rows) and `GeneratePdf`. `GeneratePdf` is the imperative loop that draws on a `Canvas`, and it is proved equal to `ComposeDocument`.
- `LabelFacts`: what the composer promises, such as page count and order, layout, shared dates, batch-code shape, and which failures abort.
- `Selection`: the sorted distinct product names, the weights of one product and the two-column row filter.

The current date, the random suffixes and the number parser are parameters:

- `today` is a `Date`.
- `suffixes` holds one draw of `random.randint(1, 999)` per row.
- `parse: string -> Option<real>` stands for `float()`. It returns `None` for text that is not a number, and also for NaN and infinity, which `int()` refuses.

Two behaviours of the code are modelled as written:

- The code reads only the column `M.F.G. FSAAI`, spelled that way (app.py:31). A sheet whose column is spelled `M.F.G. FSSAI` therefore prints `N/A` on every label.
- There is no `INR N/A` fallback for the price (app.py:27). An unreadable or missing price raises, and the whole document is lost to the error handler at app.py:105-106.

## Model

| member | source | states |
|---|---|---|
| Labels.GeneratePdf | app.py:14-53 | The document built by drawing on the canvas row by row equals `ComposeDocument`. It holds the page size, one page per row in order, or the error that aborts the run. |
| Labels.DrawLabel | app.py:41-47 | Sets the bold 6-point font, then leaves exactly the six label lines on the current page. The finished pages are untouched. |
| Labels.LabelPageSpelledOut | app.py:41-47 | A label page is the six strings at x = 2 mm and y = 22, 18, 14, 10, 6, 2 mm, each with its caption, in Helvetica-Bold 6. |
| Labels.Trunc | app.py:27 | `int()` of a finite float truncates toward zero: the result is within 1 of the value, on the same side of zero. |
| Labels.RowLabels | app.py:23-49 | Exactly one page-or-error per input row. |
| LabelFacts.PagesOnePerRow | app.py:23-49 | The pages exist exactly when every row yields its fields. Then there is one page per row, and page `i` is the label of row `i`. |
| LabelFacts.PagesFirstError | app.py:23-49 | A failed run reports the error of the first row that fails, and every earlier row succeeded. |
| LabelFacts.DocumentOnePagePerRow | app.py:16-49 | A document exists exactly when the use-by date is in range and every row succeeds. It is 48 × 25 mm with one page per row in row order. Zero rows give zero pages. |
| LabelFacts.RowDateLines | app.py:36-38 | A row's page carries the shared date line. Its batch-code line is the name prefix, the shared date code and the row's own suffix. |
| LabelFacts.SharedOnEveryPage | app.py:18-21 | The date strings are computed once. Every page carries the same date line, and every batch code embeds the same date code. |
| LabelFacts.SharedDates | app.py:18-21 | The manufacture date parses back to today. The use-by date parses back to today plus six months, with the day clamped to the month's end. The date code is six digits that decode to day, month and year mod 100. |
| LabelFacts.BatchPrefixShape | app.py:36 | The prefix has min(2, n) characters, where n counts the alphanumeric characters of the upper-cased name. Each is an upper-case letter or a digit, and the prefix starts that filtered name. The prefix is empty exactly when the name has no alphanumeric character. |
| LabelFacts.FilterAlnumUpper | app.py:36 | Filtering an upper-cased string leaves only upper-case letters and digits. |
| LabelFacts.BatchSuffixShape | app.py:37 | For a draw in [1, 999], the suffix is exactly three digits that decode back to the draw. |
| LabelFacts.BatchCodeShape | app.py:36-38 | A batch code is the prefix, the six-digit date code and the three-digit suffix, so it has 9 to 11 characters. Every position after the prefix is a digit. |
| LabelFacts.FssaiField | app.py:29-33 | FSSAI is `N/A` exactly when the `M.F.G. FSAAI` column is absent or does not read as a finite number. Otherwise it is the decimal of the truncated value, and it reads back as that integer. |
| LabelFacts.CorrectSpellingIgnored | app.py:31 | A row with only a correctly spelled `M.F.G. FSSAI` column always gets `N/A`. |
| LabelFacts.PriceField | app.py:27 | A price exists exactly when `M.R.P` is present and reads as a number. It is "INR " followed by the truncated value, and the error names the `M.R.P` column. |
| LabelFacts.RowFieldsOk | app.py:25-38 | A row succeeds exactly when it has a name, a weight and a readable price. The FSSAI column never affects success, and no row error concerns it. |
| LabelFacts.UnreadablePriceAborts | app.py:27 | One row with an unreadable price makes the whole document fail. |
| Calendar.AddMonths | app.py:20 | Adding k months gives a valid date k months on. Its day is the original day, or the target month's last day when that is smaller. The date is absent exactly when the year would pass 9999. |
| Calendar.DaysInMonth | app.py:20 | Month lengths of the Gregorian calendar, with 29 days in February exactly in leap years. |
| Calendar.LabelDate | app.py:19-20 | A formatted date is "DD MON YYYY": spaces at positions 2 and 6, and eleven characters from year 1000 on. |
| Calendar.LabelDateRoundTrip | app.py:19-20 | A label date parses back to the date it came from. |
| Calendar.YearText | app.py:19-20 | `%Y` is the year in decimal and reads back as the year. It has four digits from year 1000 on. |
| Calendar.MonthAbbrev | app.py:19-20 | `%b` upper-cased is three upper-case letters. |
| Calendar.DateCode | app.py:21 | The date code has six digits. They decode to the day, the month and the year mod 100. |
| Text.NatToString | app.py:37 | `str(n)` is a non-empty run of digits with no leading zero. |
| Text.NatToStringRoundTrip | app.py:37 | The digits of `str(n)` read back as n. |
| Text.NatToStringShort | app.py:37 | Numbers below 1000 have at most three digits. |
| Text.IntToStringRoundTrip | app.py:27 | `str(i)` for any integer, sign included, reads back as i. |
| Text.ZFill | app.py:37 | `zfill(w)` gives a string of length max(len, w). |
| Text.ZFillDigits | app.py:37 | Zero-filling digits keeps them digits and keeps their value. |
| Text.LeadingZeros | app.py:37 | Leading zeros do not change a digit string's value. |
| Text.Pad2 | app.py:19-21 | A two-digit field is two digits that read back as the number. |
| Text.ToUpper | app.py:36 | Upper-casing one character turns a lower-case letter into its upper-case letter and leaves every other character alone. |
| Text.UpperAt | app.py:36 | `upper()` upper-cases each character in place. |
| Text.UpperIdempotent | app.py:36 | Upper-casing twice is the same as once. |
| Text.FilterAlnum | app.py:36 | The filter keeps only alphanumeric characters and never lengthens the string. |
| Text.FilterAlnumAppend | app.py:36 | The filter distributes over concatenation, so it keeps the characters' order. |
| Text.FilterAlnumKeepsAlnum | app.py:36 | An all-alphanumeric string passes the filter whole. |
| Text.FilterAlnumEmpty | app.py:36 | The filter gives an empty string exactly when the input has no alphanumeric character. |
| Text.Take | app.py:36 | `s[:n]` is a prefix of length min(n, len(s)). |
| Wrappers.CollectOk | app.py:23-49 | Collecting row results succeeds exactly when every row does, and then keeps every value in order. |
| Wrappers.CollectFirstErr | app.py:23-49 | A failed collection carries the first row error. |
| Wrappers.CollectPrefixErr | app.py:23-49 | An error in a prefix of the rows is the error of the whole loop. |
| Wrappers.CollectStep | app.py:23-49 | A proof step for the `GeneratePdf` loop, not a property of the code: `Collect` of one more element unfolds to the previous result extended by that element's value, or the first error. |
| Sheet.Lookup | app.py:25-27 | `row[column]` gives the cell when the column exists, and `KeyError` for that column otherwise. |
| Sheet.CellText | app.py:25-26 | `str(cell)` of a present value is its text. |
| Pdf.Canvas.constructor | app.py:16 | A new canvas has the given page size, the initial font and no pages. |
| Pdf.Canvas.SetFont | app.py:41 | Changes only the current font. |
| Pdf.Canvas.DrawString | app.py:42-47 | Appends one command, with its position, the current font and its text, to the current page. Nothing else changes. |
| Pdf.Canvas.ShowPage | app.py:49 | Appends the current page to the finished pages, then starts an empty page in the initial font. |
| Pdf.Canvas.Save | app.py:51 | Closes a page that still has content, then marks the document finished. |
| Selection.StrLessTransitive | app.py:78 | Python string order is transitive. |
| Selection.StrLessTotal | app.py:78 | Any two distinct strings are ordered one way or the other. |
| Selection.StrLessIrreflexive | app.py:78 | No string is below itself. |
| Selection.StrLessAsymmetric | app.py:78 | Two strings are never below each other. |
| Selection.Insert | app.py:78 | Inserting into a strictly ascending list keeps it strictly ascending, and its elements are the old ones plus the new one. |
| Selection.SortedUnique | app.py:78 | `sorted(unique(...))` is strictly ascending and has exactly the input's values. |
| Selection.SortedUniqueDetermined | app.py:78 | Two strictly ascending lists with the same elements are equal, so sorting distinct values has one answer. |
| Selection.NonNullTexts | app.py:78 | `dropna()` keeps exactly the present values. |
| Selection.Column | app.py:78 | `df[column]` is that column's cells in row order, or `KeyError` when the column is absent. |
| Selection.ProductOptionsSpec | app.py:78 | The product options are strictly ascending and are exactly the names present in some row. A missing Name column is a `KeyError`. |
| Selection.ProductWeightsSpec | app.py:82 | The weights offered for a product are strictly ascending and are exactly the present weights of rows with that name. A missing column is a `KeyError`. |
| Selection.Where | app.py:82-86 | `df[mask]` keeps the columns, never adds rows, and keeps the sheet well formed. |
| Selection.WhereKeeps | app.py:82-86 | A row is kept exactly when it is a row of the sheet and the mask holds of it. |
| Selection.WhereAppend | app.py:86 | Masking a concatenation concatenates the masked parts, so row order is kept. |
| Selection.WhereAt | app.py:86 | Each row sits in the result between the kept rows before it and the kept rows after it, when the mask holds of it. |
| Selection.FilterRows | app.py:86 | The filter fails with `KeyError`, Name checked first, exactly when a column is missing. Otherwise it keeps the sheet's columns. |
| Selection.FilterRowsSpec | app.py:86 | The filtered rows are exactly the rows matching both choices, in original order. A missing value matches nothing. |
| Selection.OfferedChoicesMatch | app.py:78-86 | A product and a weight chosen from the offered lists always leave at least one row, so the "no matching data" branch is unreachable then. |

## Left out

- Barcode-page lookup, merging a label with a reference page, admin upload and backup: none of these exist in app.py, so none is modelled.
- Streamlit UI (app.py:59-108): page setup, widgets, preview, download button and messages. It is user-interface plumbing. Only the selection expressions at 78-86 are modelled, and the outer handler at 105-106 appears only as the error result of `GeneratePdf`.
- `pd.read_excel` (app.py:71): reading the file is I/O through a library. The loaded sheet is the `Frame` input.
- ReportLab byte output, `BytesIO` and font metrics (app.py:15, 51-53): the PDF is modelled as pages of draw commands. Coordinates are in millimetres rather than points (`mm` scaling). How ReportLab serialises a document with no pages is not modelled.
- `datetime.today()` and `random.randint` (app.py:18, 37): ambient time and entropy. They become the `today` and `suffixes` parameters, and the clock's time of day plays no part.
- `float()` parsing and IEEE arithmetic: `parse` is a parameter and numbers are exact reals. NaN and infinity count as unreadable, because `int()` raises on them.
- `str()` of non-text cells: a cell holds the text `str()` gives. So a number's rendering ("500" or "500.0") is part of the input rather than computed.
- `str.isalnum` and `str.upper` beyond ASCII: non-ASCII letters and digits count as non-alphanumeric, and they are not case-mapped.
- `strftime` under non-English locales: `%b` is the English abbreviation, and `%Y` is the unpadded decimal year.
- Selection.ProductWeightsSpec: weights are ordered by their text. pandas orders a numeric Net Weight column by value. Sorting a column that mixes text and numbers raises `TypeError` in Python, and that is not modelled.
- Selection.ProductOptionsSpec: product names are ordered by their text. pandas orders a numeric Name column by value. Sorting a Name column that mixes text and numbers raises `TypeError` at app.py:78, which the handler at app.py:105-106 reports; the model always returns the options.
- Selection.FilterRows: pandas compares cells by value. The model compares them by their text, so `1` and `1.0` in differently typed cells count as different.
