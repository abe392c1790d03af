/** `display_paths`: the header line and the table of one four-cell row per entry.
    The date and size formatters (`chrono`'s "%F" and `human_bytes`) are foreign
    and are passed in as functions; laying out and printing the table is left to
    the `tabular` crate and is not modelled beyond its format. */
module Listing {
  import opened Style
  import opened Classifier
  import Decimal

  datatype Option<T> = None | Some(value: T)

  /** A directory entry: its final path component and its metadata. */
  datatype Entry = Entry(fileName: string, metadata: Metadata)

  /** One table row: glyph, name, access date and size, each a styled cell. */
  datatype Row = Row(icon: Styled, name: Styled, date: Styled, size: Styled)

  /** The cells of a row, left to right. */
  function Cells(r: Row): seq<Styled> {
    [r.icon, r.name, r.date, r.size]
  }

  /** A column specification of `tabular`: only left alignment is used. */
  datatype Align = Left

  /** The column alignments and the separators between adjacent columns. */
  datatype Format = Format(columns: seq<Align>, separators: seq<string>)

  /** The table format "{:<}  {:<}  {:<} {:<}": four left-aligned columns separated
      by two spaces, two spaces and one space. */
  const RowFormat := Format([Left, Left, Left, Left], ["  ", "  ", " "])

  /** What the listing writes to standard output, in order. */
  datatype Printed = Line(text: string) | TableDump(format: Format, rows: seq<Row>)

  /** The mutable table the rows are appended to. */
  class Table {
    const format: Format
    var rows: seq<Row>

    constructor (format: Format)
      ensures this.format == format && rows == []
    {
      this.format := format;
      rows := [];
    }

    method AddRow(row: Row)
      modifies this
      ensures rows == old(rows) + [row]
    {
      rows := rows + [row];
    }
  }

  // ---------------------------------------------------------------------------
  // The header line

  /** "Reading <root> items[<count>]", the count in decimal. */
  function Header(root: string, count: nat): string {
    "Reading " + root + " items[" + Decimal.Format(count) + "]"
  }

  /** The number of digits at the end of `s`. */
  function TrailingDigits(s: string): (k: nat)
    ensures k <= |s|
    ensures forall i :: |s| - k <= i < |s| ==> Decimal.IsDigit(s[i])
    ensures k < |s| ==> !Decimal.IsDigit(s[|s| - k - 1])
  {
    if s == [] || !Decimal.IsDigit(s[|s| - 1]) then 0
    else TrailingDigits(s[..|s| - 1]) + 1
  }

  /** The text between the "Reading " prefix and the closing "]" of a header line. */
  function HeaderBody(h: string): Option<string> {
    if |h| < 9 || h[..8] != "Reading " || h[|h| - 1] != ']' then None
    else Some(h[8..|h| - 1])
  }

  /** Splits "<root> items[<count>]"'s inside, "<root> items[<count>", at the
      digits that end it. */
  function SplitCount(body: string): Option<(string, nat)> {
    var k := TrailingDigits(body);
    var digits := body[|body| - k..];
    var rest := body[..|body| - k];
    if !Decimal.Canonical(digits) || |rest| < 7 || rest[|rest| - 7..] != " items[" then None
    else Some((rest[..|rest| - 7], Decimal.Value(digits)))
  }

  /** Reads a header line back into its root path and count. */
  function ParseHeader(h: string): Option<(string, nat)> {
    match HeaderBody(h)
    case None => None
    case Some(body) => SplitCount(body)
  }

  /** The digits at the end of `p + d` are exactly `d` when `p` ends in a non-digit. */
  lemma {:induction false} TrailingDigitsOfAppend(p: string, d: string)
    requires |p| > 0 && !Decimal.IsDigit(p[|p| - 1])
    requires Decimal.AllDigits(d)
    ensures TrailingDigits(p + d) == |d|
    decreases |d|
  {
    if d == [] {
      assert p + d == p;
    } else {
      var d' := d[..|d| - 1];
      assert (p + d)[..|p + d| - 1] == p + d';
      TrailingDigitsOfAppend(p, d');
    }
  }

  /** The frame of a header line is read off exactly. */
  lemma HeaderBodyOf(body: string)
    ensures HeaderBody("Reading " + body + "]") == Some(body)
  {
  }

  /** The root and the count are read off exactly from the inside of a header line. */
  lemma SplitCountOf(root: string, count: nat)
    ensures SplitCount(root + " items[" + Decimal.Format(count)) == Some((root, count))
  {
    var digits := Decimal.Format(count);
    var rest := root + " items[";
    var body := rest + digits;
    TrailingDigitsOfAppend(rest, digits);
    assert body[|body| - |digits|..] == digits;
    assert body[..|body| - |digits|] == rest;
    assert rest[|rest| - 7..] == " items[" && rest[..|rest| - 7] == root;
    Decimal.ValueOfFormat(count);
  }

  /** The header can be read back: it names the root path and the entry count. */
  lemma HeaderRoundTrip(root: string, count: nat)
    ensures ParseHeader(Header(root, count)) == Some((root, count))
  {
    var body := root + " items[" + Decimal.Format(count);
    assert Header(root, count) == "Reading " + body + "]";
    HeaderBodyOf(body);
    SplitCountOf(root, count);
  }

  /** A frame read off a line rebuilds the line. */
  lemma HeaderBodySound(h: string, body: string)
    requires HeaderBody(h) == Some(body)
    ensures h == "Reading " + body + "]"
  {
  }

  /** A root and count read off the inside of a header line rebuild it. */
  lemma SplitCountSound(body: string, root: string, count: nat)
    requires SplitCount(body) == Some((root, count))
    ensures body == root + " items[" + Decimal.Format(count)
  {
    var k := TrailingDigits(body);
    var digits := body[|body| - k..];
    var rest := body[..|body| - k];
    Decimal.FormatOfValue(digits);
    assert rest == rest[..|rest| - 7] + rest[|rest| - 7..];
    assert body == rest + digits;
  }

  /** Whatever reads as a header is the header of what it reads as. */
  lemma ParseHeaderSound(h: string, root: string, count: nat)
    requires ParseHeader(h) == Some((root, count))
    ensures h == Header(root, count)
  {
    var body := HeaderBody(h).value;
    HeaderBodySound(h, body);
    SplitCountSound(body, root, count);
  }

  /** The header determines the count it reports. */
  lemma HeaderInjective(root: string, m: nat, n: nat)
    requires Header(root, m) == Header(root, n)
    ensures m == n
  {
    HeaderRoundTrip(root, m);
    HeaderRoundTrip(root, n);
  }

  // ---------------------------------------------------------------------------
  // Rows

  /** The row built for one entry: the classifier's icon, the full file name in
      white, the formatted access date in bright black and the formatted size in red. */
  function RowOf(e: Entry, formatDate: int -> string, humanBytes: nat -> string): Row {
    Row(Icon(e.metadata),
        Styled(e.fileName, White),
        Styled(formatDate(e.metadata.accessed), BrightBlack),
        Styled(humanBytes(e.metadata.len), Red))
  }

  /** The rows for a sequence of entries, one per entry, in order. */
  function Rows(items: seq<Entry>, formatDate: int -> string, humanBytes: nat -> string): seq<Row> {
    if items == [] then []
    else Rows(items[..|items| - 1], formatDate, humanBytes) + [RowOf(items[|items| - 1], formatDate, humanBytes)]
  }

  /** The name column of a table. */
  function NameColumn(rows: seq<Row>): seq<string> {
    seq(|rows|, i requires 0 <= i < |rows| => rows[i].name.text)
  }

  /** The file names of a sequence of entries. */
  function FileNames(items: seq<Entry>): seq<string> {
    seq(|items|, i requires 0 <= i < |items| => items[i].fileName)
  }

  /** The cells of an entry's row, in the fixed layout glyph, name, date, size; the
      name cell is the whole file name, never truncated. */
  lemma RowLayout(e: Entry, formatDate: int -> string, humanBytes: nat -> string)
    ensures var cs := Cells(RowOf(e, formatDate, humanBytes));
      |cs| == 4 &&
      IsIcon(cs[0]) && cs[0] == Icon(e.metadata) &&
      cs[1].text == e.fileName && cs[1].color == White &&
      cs[2].text == formatDate(e.metadata.accessed) && cs[2].color == BrightBlack &&
      cs[3].text == humanBytes(e.metadata.len) && cs[3].color == Red
  {
  }

  /** One row per entry, and row `i` is built from entry `i`. */
  lemma {:induction false} RowsAt(items: seq<Entry>, formatDate: int -> string, humanBytes: nat -> string)
    ensures |Rows(items, formatDate, humanBytes)| == |items|
    ensures forall i :: 0 <= i < |items| ==>
      Rows(items, formatDate, humanBytes)[i] == RowOf(items[i], formatDate, humanBytes)
    decreases |items|
  {
    if items != [] {
      RowsAt(items[..|items| - 1], formatDate, humanBytes);
    }
  }

  /** Listing two runs of entries one after the other lists their rows one after the other. */
  lemma {:induction false} RowsAppend(a: seq<Entry>, b: seq<Entry>, formatDate: int -> string, humanBytes: nat -> string)
    ensures Rows(a + b, formatDate, humanBytes) == Rows(a, formatDate, humanBytes) + Rows(b, formatDate, humanBytes)
    decreases |b|
  {
    if b == [] {
      assert a + b == a;
    } else {
      var b' := b[..|b| - 1];
      assert (a + b)[..|a + b| - 1] == a + b';
      RowsAppend(a, b', formatDate, humanBytes);
    }
  }

  /** The name column is the sequence of file names, unchanged and in order. */
  lemma NamesPreserved(items: seq<Entry>, formatDate: int -> string, humanBytes: nat -> string)
    ensures NameColumn(Rows(items, formatDate, humanBytes)) == FileNames(items)
  {
    RowsAt(items, formatDate, humanBytes);
  }

  // ---------------------------------------------------------------------------
  // display_paths

  /** Prints the header, fills a table with one row per entry in order, then prints the table. */
  method DisplayPaths(items: seq<Entry>, rootPath: string, formatDate: int -> string, humanBytes: nat -> string)
    returns (out: seq<Printed>)
    ensures out == [Line(Header(rootPath, |items|)), TableDump(RowFormat, Rows(items, formatDate, humanBytes))]
    ensures |out[1].rows| == |items|
    ensures forall i :: 0 <= i < |items| ==> out[1].rows[i] == RowOf(items[i], formatDate, humanBytes)
  {
    out := [Line("Reading " + rootPath + " items[" + Decimal.Format(|items|) + "]")];
    var table := new Table(RowFormat);
    for i := 0 to |items|
      invariant table.format == RowFormat
      invariant table.rows == Rows(items[..i], formatDate, humanBytes)
    {
      var metadata := items[i].metadata;
      var fileTypeIcon := FileTypeIcon(metadata);
      assert items[..i + 1][..i] == items[..i];
      table.AddRow(Row(fileTypeIcon,
                       Styled(items[i].fileName, White),
                       Styled(formatDate(metadata.accessed), BrightBlack),
                       Styled(humanBytes(metadata.len), Red)));
    }
    assert items[..|items|] == items;
    out := out + [TableDump(table.format, table.rows)];
    RowsAt(items, formatDate, humanBytes);
  }
}
