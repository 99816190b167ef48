/**
 * The table printer of the interactive SQLite browser: the columns are the
 * keys of the first row, each column is as wide as its longest text, and
 * every header, separator and row line pads its cells to those widths.
 */
module SqliteBrowser {
  import opened Wrappers
  import opened Text

  /**
   * A value SQLite hands back for one column of a row. A number comes with
   * the text its `toString()` gives; `Decimal` ties that text to the number.
   */
  datatype Value = Null | Integer(n: int, text: string) | Str(s: string)

  /** A number's text is its decimal rendering. */
  predicate Decimal(v: Value) {
    v.Integer? ==> v.text == IntToString(v.n)
  }

  /**
   * A result row as the JavaScript object the driver builds: its keys in
   * `Object.keys` order, and the value stored under each key.
   */
  datatype Row = Row(keys: seq<string>, fields: map<string, Value>)

  /** `row[col]`, with a missing key read as `Null` (undefined is just as falsy). */
  function Lookup(row: Row, col: string): Value {
    if col in row.fields then row.fields[col] else Null
  }

  /** `null`, `undefined`, `0` and `''` are the falsy values a row can hold. */
  predicate Falsy(v: Value) {
    v.Null? || (v.Integer? && v.n == 0) || v == Str("")
  }

  /** `row[col] ? row[col].toString() : ''`. */
  function CellText(v: Value): (r: string)
    ensures Falsy(v) ==> r == []
  {
    match v
    case Null => ""
    case Integer(n, text) => if n == 0 then "" else text
    case Str(s) => s
  }

  /** A cell is blank exactly when its value is falsy; otherwise it is the value's text. */
  lemma BlankIffFalsy(v: Value)
    requires Decimal(v)
    ensures CellText(v) == [] <==> Falsy(v)
    ensures !Falsy(v) ==> CellText(v) == if v.Str? then v.s else IntToString(v.n)
  {
  }

  function Max(a: nat, b: nat): nat {
    if a < b then b else a
  }

  /**
   * The width of a column over the first `n` rows: the header's length,
   * widened to the longest text of that column in those rows. It is the
   * least such width: it is the header or one of the texts.
   */
  function WidthUpTo(col: string, rows: seq<Row>, n: nat): (w: nat)
    requires n <= |rows|
    ensures |col| <= w
  {
    if n == 0 then |col| else Max(WidthUpTo(col, rows, n - 1), |CellText(Lookup(rows[n - 1], col))|)
  }

  /** Every text of the first `n` rows fits the column. */
  lemma {:induction false} WidthFits(col: string, rows: seq<Row>, n: nat, k: nat)
    requires k < n <= |rows|
    ensures |CellText(Lookup(rows[k], col))| <= WidthUpTo(col, rows, n)
  {
    if k < n - 1 {
      WidthFits(col, rows, n - 1, k);
    }
  }

  /** No column is wider than it must be: its width is its name's length or one of its texts' lengths. */
  lemma {:induction false} WidthAttained(col: string, rows: seq<Row>, n: nat)
    requires n <= |rows|
    ensures WidthUpTo(col, rows, n) == |col| || exists k :: 0 <= k < n && WidthUpTo(col, rows, n) == |CellText(Lookup(rows[k], col))|
  {
    if n > 0 {
      WidthAttained(col, rows, n - 1);
    }
  }

  function ColumnWidth(col: string, rows: seq<Row>): (w: nat) {
    WidthUpTo(col, rows, |rows|)
  }

  function Widths(columns: seq<string>, rows: seq<Row>): (ws: seq<nat>)
    ensures |ws| == |columns|
    ensures forall k {:trigger ws[k]} :: 0 <= k < |columns| ==> ws[k] == ColumnWidth(columns[k], rows)
  {
    if columns == [] then [] else [ColumnWidth(columns[0], rows)] + Widths(columns[1..], rows)
  }

  function Cells(row: Row, columns: seq<string>): (cs: seq<string>)
    ensures |cs| == |columns|
    ensures forall k {:trigger cs[k]} :: 0 <= k < |columns| ==> cs[k] == CellText(Lookup(row, columns[k]))
  {
    if columns == [] then [] else [CellText(Lookup(row, columns[0]))] + Cells(row, columns[1..])
  }

  function Dashes(widths: seq<nat>): (ds: seq<string>)
    ensures |ds| == |widths|
    ensures forall k {:trigger ds[k]} :: 0 <= k < |widths| ==> ds[k] == Repeat('-', widths[k])
  {
    if widths == [] then [] else [Repeat('-', widths[0])] + Dashes(widths[1..])
  }

  /** `` ` ${text.padEnd(width)} |` ``. */
  function Segment(text: string, width: nat): string {
    " " + PadEnd(text, width) + " |"
  }

  /** The segments of a line, one per cell. */
  function Segments(cells: seq<string>, widths: seq<nat>): (ss: seq<string>)
    requires |cells| == |widths|
    ensures |ss| == |cells|
    ensures forall k {:trigger ss[k]} :: 0 <= k < |cells| ==> ss[k] == Segment(cells[k], widths[k])
  {
    seq(|cells|, k requires 0 <= k < |cells| => Segment(cells[k], widths[k]))
  }

  /** The first `n` segments of a line, after its leading `'|'`. */
  function LineUpTo(cells: seq<string>, widths: seq<nat>, n: nat): string
    requires |cells| == |widths| && n <= |cells|
  {
    JoinFrom("|", Segments(cells, widths), n)
  }

  /** A line: `'|'` followed by one segment per cell. */
  function Line(cells: seq<string>, widths: seq<nat>): string
    requires |cells| == |widths|
  {
    LineUpTo(cells, widths, |cells|)
  }

  /** Appending cell `i`'s segment to the first `i` segments gives the first `i + 1`. */
  lemma LineStep(cells: seq<string>, widths: seq<nat>, i: nat, line: string, text: string, width: nat)
    requires |cells| == |widths| && i < |cells|
    requires line == LineUpTo(cells, widths, i) && cells[i] == text && widths[i] == width
    ensures line + Segment(text, width) == LineUpTo(cells, widths, i + 1)
  {
  }

  /** The length of the first `n` segments of a line whose cells fit their widths. */
  function SpanUpTo(widths: seq<nat>, n: nat): nat
    requires n <= |widths|
  {
    if n == 0 then 1 else SpanUpTo(widths, n - 1) + widths[n - 1] + 3
  }

  /** A row's line: its cells laid out in the widths. */
  function RowLine(row: Row, columns: seq<string>, widths: seq<nat>): string
    requires |widths| == |columns|
  {
    Line(Cells(row, columns), widths)
  }

  /** The column names, from the first row. */
  function Columns(rows: seq<Row>): seq<string>
    requires rows != []
  {
    rows[0].keys
  }

  function HeaderLine(rows: seq<Row>): string
    requires rows != []
  {
    Line(Columns(rows), Widths(Columns(rows), rows))
  }

  function SeparatorLine(rows: seq<Row>): string
    requires rows != []
  {
    var ws := Widths(Columns(rows), rows);
    Line(Dashes(ws), ws)
  }

  function BodyLines(rows: seq<Row>): (ls: seq<string>)
    requires rows != []
    ensures |ls| == |rows|
  {
    var ws := Widths(Columns(rows), rows);
    seq(|rows|, j requires 0 <= j < |rows| => RowLine(rows[j], Columns(rows), ws))
  }

  const NoResults := "No results found."

  /** The blank line and the row count printed after the table. */
  function Footer(count: nat): (r: seq<string>)
    ensures |r| == 2 && r[0] == []
  {
    ["", "Total rows: " + NatToString(count)]
  }

  /** What `displayResults` prints, line by line. */
  function Render(rows: Option<seq<Row>>): (out: seq<string>)
    ensures rows.None? || rows.value == [] ==> out == [NoResults]
    ensures rows.Some? && rows.value != [] ==>
              out == [HeaderLine(rows.value), SeparatorLine(rows.value)] + BodyLines(rows.value) + Footer(|rows.value|)
  {
    if rows.None? || rows.value == [] then [NoResults]
    else
      var rs := rows.value;
      [HeaderLine(rs), SeparatorLine(rs)] + BodyLines(rs) + Footer(|rs|)
  }

  /** Whether `columnWidths` maps every column to its width. */
  predicate HoldsWidths(columnWidths: map<string, nat>, columns: seq<string>, ws: seq<nat>)
    requires |ws| == |columns|
  {
    forall k :: 0 <= k < |columns| ==> columns[k] in columnWidths && columnWidths[columns[k]] == ws[k]
  }

  /**
   * One pass of the inner loop of `displayResults`: the column's entry
   * starts at its name's length and widens to each row's text in turn.
   */
  method MeasureColumn(rs: seq<Row>, col: string, columnWidths: map<string, nat>) returns (result: map<string, nat>)
    ensures result == columnWidths[col := ColumnWidth(col, rs)]
  {
    result := columnWidths[col := |col|];
    for j := 0 to |rs|
      invariant result == columnWidths[col := WidthUpTo(col, rs, j)]
    {
      var value := CellText(Lookup(rs[j], col));
      result := result[col := Max(result[col], |value|)];
    }
  }

  /** The outer loop: every column gets its entry in the dictionary of widths. */
  method GatherWidths(rs: seq<Row>, columns: seq<string>) returns (columnWidths: map<string, nat>)
    ensures HoldsWidths(columnWidths, columns, Widths(columns, rs))
  {
    ghost var ws := Widths(columns, rs);
    columnWidths := map[];
    for i := 0 to |columns|
      invariant forall k :: 0 <= k < i ==> columns[k] in columnWidths && columnWidths[columns[k]] == ws[k]
    {
      columnWidths := MeasureColumn(rs, columns[i], columnWidths);
    }
  }

  /** One row's line, built segment by segment with the gathered widths. */
  method FormatRow(row: Row, columns: seq<string>, columnWidths: map<string, nat>, ghost ws: seq<nat>) returns (line: string)
    requires |ws| == |columns| && HoldsWidths(columnWidths, columns, ws)
    ensures line == RowLine(row, columns, ws)
  {
    ghost var cells := Cells(row, columns);
    line := "|";
    for i := 0 to |columns|
      invariant line == LineUpTo(cells, ws, i)
    {
      var col := columns[i];
      var value := CellText(Lookup(row, col));
      assert ws[i] == columnWidths[col];
      LineStep(cells, ws, i, line, value, columnWidths[col]);
      line := line + Segment(value, columnWidths[col]);
    }
  }

  /** The header and separator loop: one segment per column for each. */
  method FormatHeader(columns: seq<string>, columnWidths: map<string, nat>, ghost ws: seq<nat>)
    returns (header: string, separator: string)
    requires |ws| == |columns| && HoldsWidths(columnWidths, columns, ws)
    ensures header == Line(columns, ws) && separator == Line(Dashes(ws), ws)
  {
    header := "|";
    separator := "|";
    ghost var dashes := Dashes(ws);
    for i := 0 to |columns|
      invariant header == LineUpTo(columns, ws, i)
      invariant separator == LineUpTo(dashes, ws, i)
    {
      var col := columns[i];
      assert ws[i] == columnWidths[col];
      LineStep(columns, ws, i, header, col, columnWidths[col]);
      LineStep(dashes, ws, i, separator, Repeat('-', columnWidths[col]), columnWidths[col]);
      header := header + Segment(col, columnWidths[col]);
      separator := separator + Segment(Repeat('-', columnWidths[col]), columnWidths[col]);
    }
  }

  /** The row loop: one line per row. */
  method FormatBody(rs: seq<Row>, columns: seq<string>, columnWidths: map<string, nat>, ghost ws: seq<nat>)
    returns (body: seq<string>)
    requires |ws| == |columns| && HoldsWidths(columnWidths, columns, ws)
    ensures |body| == |rs|
    ensures forall k :: 0 <= k < |rs| ==> body[k] == RowLine(rs[k], columns, ws)
  {
    body := [];
    for j := 0 to |rs|
      invariant |body| == j
      invariant forall k :: 0 <= k < j ==> body[k] == RowLine(rs[k], columns, ws)
    {
      var line := FormatRow(rs[j], columns, columnWidths, ws);
      body := body + [line];
    }
  }

  /**
   * `displayResults`: the widths are gathered in a dictionary, then the
   * header, the separator and each row line are built up segment by segment.
   */
  method DisplayResults(rows: Option<seq<Row>>) returns (output: seq<string>)
    ensures output == Render(rows)
  {
    if rows.None? || |rows.value| == 0 {
      return [NoResults];
    }
    var rs := rows.value;
    var columns := rs[0].keys;
    ghost var ws := Widths(columns, rs);
    var columnWidths := GatherWidths(rs, columns);
    var header, separator := FormatHeader(columns, columnWidths, ws);
    var body := FormatBody(rs, columns, columnWidths, ws);
    assert body == BodyLines(rs);
    output := [header, separator] + body + Footer(|rs|);
  }

  /** A segment is its width plus the two spaces and the bar. */
  lemma SegmentLength(text: string, width: nat)
    requires |text| <= width
    ensures |Segment(text, width)| == width + 3
  {
  }

  /** The first `n` segments of a line whose cells fit their widths are `SpanUpTo` long. */
  lemma {:induction false} LineLength(cells: seq<string>, widths: seq<nat>, n: nat)
    requires |cells| == |widths| && n <= |cells|
    requires forall k :: 0 <= k < |cells| ==> |cells[k]| <= widths[k]
    ensures |LineUpTo(cells, widths, n)| == SpanUpTo(widths, n)
  {
    if n > 0 {
      LineLength(cells, widths, n - 1);
      SegmentLength(cells[n - 1], widths[n - 1]);
    }
  }

  /** Every text of a column fits the column's width, and so does the column's name. */
  lemma {:induction false} CellsFit(rows: seq<Row>, j: nat)
    requires j < |rows|
    ensures var columns := Columns(rows);
            var ws := Widths(columns, rows);
            (forall k :: 0 <= k < |columns| ==> |columns[k]| <= ws[k])
            && (forall k :: 0 <= k < |columns| ==> |Cells(rows[j], columns)[k]| <= ws[k])
  {
    var columns := Columns(rows);
    forall k | 0 <= k < |columns| ensures |Cells(rows[j], columns)[k]| <= Widths(columns, rows)[k] {
      WidthFits(columns[k], rows, |rows|, j);
    }
  }

  /** The length every line of the table has. */
  function TableWidth(rows: seq<Row>): nat
    requires rows != []
  {
    var ws := Widths(Columns(rows), rows);
    SpanUpTo(ws, |ws|)
  }

  /** Row line `j` is as long as the table is wide. */
  lemma RowLineWidth(rows: seq<Row>, j: nat)
    requires j < |rows|
    ensures |BodyLines(rows)[j]| == TableWidth(rows)
  {
    var columns := Columns(rows);
    var ws := Widths(columns, rows);
    CellsFit(rows, j);
    assert BodyLines(rows)[j] == RowLine(rows[j], columns, ws);
    LineLength(Cells(rows[j], columns), ws, |ws|);
  }

  /** The header, the separator and every row line have the same length. */
  lemma TableLinesAligned(rows: seq<Row>)
    requires rows != []
    ensures |HeaderLine(rows)| == TableWidth(rows) && |SeparatorLine(rows)| == TableWidth(rows)
    ensures forall j :: 0 <= j < |rows| ==> |BodyLines(rows)[j]| == TableWidth(rows)
  {
    var columns := Columns(rows);
    var ws := Widths(columns, rows);
    CellsFit(rows, 0);
    LineLength(columns, ws, |ws|);
    LineLength(Dashes(ws), ws, |ws|);
    forall j | 0 <= j < |rows| ensures |BodyLines(rows)[j]| == TableWidth(rows) {
      RowLineWidth(rows, j);
    }
  }

  /** A segment shows its text one space after where it starts. */
  lemma SegmentSlice(text: string, width: nat)
    ensures 1 + |text| <= |Segment(text, width)|
    ensures Segment(text, width)[1..1 + |text|] == text
  {
    var p := PadEnd(text, width);
    PadEndContents(text, width);
    assert Segment(text, width) == " " + p + " |";
    assert (" " + p + " |")[1..1 + |text|] == p[..|text|];
  }

  /** Cell `i` stands one space into its segment, right after the segments before it. */
  lemma LineUpToShowsCell(cells: seq<string>, widths: seq<nat>, i: nat)
    requires |cells| == |widths| && i < |cells|
    ensures |LineUpTo(cells, widths, i)| + 1 + |cells[i]| <= |LineUpTo(cells, widths, |cells|)|
    ensures LineUpTo(cells, widths, |cells|)[|LineUpTo(cells, widths, i)| + 1..|LineUpTo(cells, widths, i)| + 1 + |cells[i]|]
            == cells[i]
  {
    SegmentSlice(cells[i], widths[i]);
    JoinSlice("|", Segments(cells, widths), i, |cells|, 1, |cells[i]|);
  }

  /**
   * Cell `i` can be read back from its line: it starts one space after the
   * `SpanUpTo` of the widths before it.
   */
  lemma LineShowsCell(cells: seq<string>, widths: seq<nat>, i: nat)
    requires |cells| == |widths| && i < |cells|
    requires forall k :: 0 <= k < |cells| ==> |cells[k]| <= widths[k]
    ensures SpanUpTo(widths, i) + 1 + |cells[i]| <= |Line(cells, widths)|
    ensures Line(cells, widths)[SpanUpTo(widths, i) + 1..SpanUpTo(widths, i) + 1 + |cells[i]|] == cells[i]
  {
    LineUpToShowsCell(cells, widths, i);
    LineLength(cells, widths, i);
  }
}
