/**
  `downloadReport(data, format, fileName)`: export a list of records as a PDF
  table or as an XML document. The PDF library is replaced by the list of
  drawing calls the function makes on it; the XML document is the string it
  builds.
 */
module DownloadReport {
  import opened Wrappers
  import Seqs
  import opened Strings

  /** A field value: `null`, `undefined`, or any other value as its ToString text. */
  datatype Value = Str(s: string) | Null | Undefined

  /** A record: its entries in `Object.entries` order. */
  type Row = seq<(string, Value)>

  /** `` `${value}` ``: a template literal writes `null` and `undefined` out. */
  function Template(v: Value): string {
    match v
    case Str(s) => s
    case Null => "null"
    case Undefined => "undefined"
  }

  /** An element of `values.join(" | ")`: `join` writes `null` and `undefined` as "". */
  function JoinText(v: Value): string {
    if v.Str? then v.s else ""
  }

  /** `Object.keys(row)`. */
  function Keys(row: Row): (r: seq<string>)
    ensures |r| == |row|
    ensures forall i :: 0 <= i < |row| ==> r[i] == row[i].0
  {
    Seqs.Map((e: (string, Value)) => e.0, row)
  }

  /** A JavaScript object never has two entries with the same key. */
  ghost predicate DistinctKeys(row: Row) {
    forall i, j :: 0 <= i < j < |row| ==> row[i].0 != row[j].0
  }

  /**
    A header is listed exactly when some entry has that key, and the headers
    of a record with distinct keys are themselves distinct.
   */
  lemma KeysSpec(row: Row)
    ensures forall h :: h in Keys(row) <==> exists i :: 0 <= i < |row| && row[i].0 == h
    ensures DistinctKeys(row) ==> forall i, j :: 0 <= i < j < |Keys(row)| ==> Keys(row)[i] != Keys(row)[j]
  {
    forall h | h in Keys(row) ensures exists i :: 0 <= i < |row| && row[i].0 == h {
      var i :| 0 <= i < |Keys(row)| && Keys(row)[i] == h;
      assert row[i].0 == h;
    }
  }

  /** `row[h]`: the value of the entry with key `h`, or `undefined` when there is none. */
  function Lookup(row: Row, h: string): Value
    decreases |row|
  {
    if row == [] then Undefined
    else if row[0].0 == h then row[0].1
    else Lookup(row[1..], h)
  }

  /** `headers.map((h) => row[h]).join(" | ")`. */
  function RowLine(row: Row, headers: seq<string>): string {
    Join(Seqs.Map((h: string) => JoinText(Lookup(row, h)), headers), " | ")
  }

  /** A key no entry has looks up `undefined`. */
  lemma {:induction false} LookupMissing(row: Row, h: string)
    requires forall i :: 0 <= i < |row| ==> row[i].0 != h
    ensures Lookup(row, h) == Undefined
    decreases |row|
  {
    if row != [] {
      LookupMissing(row[1..], h);
    }
  }

  /** A key looks up the value of the first entry that has it. */
  lemma {:induction false} LookupFirst(row: Row, h: string, i: nat)
    requires i < |row| && row[i].0 == h
    requires forall j :: 0 <= j < i ==> row[j].0 != h
    ensures Lookup(row, h) == row[i].1
    decreases i
  {
    if i > 0 {
      LookupFirst(row[1..], h, i - 1);
    }
  }

  /** With distinct keys, each key looks up its own entry's value. */
  lemma LookupOwnKey(row: Row, i: nat)
    requires DistinctKeys(row) && i < |row|
    ensures Lookup(row, row[i].0) == row[i].1
  {
    LookupFirst(row, row[i].0, i);
  }

  /**
    The first record, printed by its own keys, prints its own values in entry
    order; a header that a later record lacks prints as "".
   */
  lemma HeaderRowPrintsOwnValues(row: Row)
    requires DistinctKeys(row)
    ensures RowLine(row, Keys(row)) == Join(Seqs.Map((e: (string, Value)) => JoinText(e.1), row), " | ")
    ensures forall h :: h !in Keys(row) ==> JoinText(Lookup(row, h)) == ""
  {
    var a := Seqs.Map((h: string) => JoinText(Lookup(row, h)), Keys(row));
    var b := Seqs.Map((e: (string, Value)) => JoinText(e.1), row);
    forall i | 0 <= i < |row| ensures a[i] == b[i] {
      LookupOwnKey(row, i);
    }
    assert a == b;
    forall h | h !in Keys(row) ensures JoinText(Lookup(row, h)) == "" {
      LookupMissing(row, h);
    }
  }

  // ---------------------------------------------------------------- PDF

  /** The calls the report makes on the PDF document. */
  datatype PdfOp = SetFontSize(size: nat) | DrawText(text: string, x: int, y: int) | AddPage | Save(name: string)

  /** The cursor starts at 10, steps 8 a row and starts a new page past 280. */
  const Top: int := 10
  const Bottom: int := 280
  const LineStep: int := 8

  /** The title at 10 in size 16, then the header line at 20 in size 12. */
  function PdfPrelude(fileName: string, headers: seq<string>): seq<PdfOp> {
    [SetFontSize(16), DrawText(fileName + " Report", 10, Top),
     SetFontSize(12), DrawText(Join(headers, " | "), 10, Top + 10)]
  }

  /** The cursor after a row drawn at `y`: one step down, or back to the top of a new page past the bottom. */
  function NextY(y: int): int {
    if y + LineStep > Bottom then Top else y + LineStep
  }

  /** The page break after a row drawn at `y`. */
  function Break(y: int): seq<PdfOp> {
    if y + LineStep > Bottom then [AddPage] else []
  }

  /** The row loop from cursor `y`: draw the row, step, and break the page past the bottom. */
  function RowOps(rows: seq<Row>, headers: seq<string>, y: int): seq<PdfOp>
    decreases |rows|
  {
    if rows == [] then []
    else [DrawText(RowLine(rows[0], headers), 10, y)] + Break(y) + RowOps(rows[1..], headers, NextY(y))
  }

  /** The whole PDF: the header keys are those of the first record, and the rows start at 28. */
  function PdfDocument(data: seq<Row>, fileName: string): seq<PdfOp>
    requires data != []
  {
    var headers := Keys(data[0]);
    PdfPrelude(fileName, headers) + RowOps(data, headers, Top + 10 + LineStep) + [Save(fileName + ".pdf")]
  }

  /** The PDF branch, with the cursor `y` advanced and reset as the rows are drawn. */
  method RenderPdf(data: seq<Row>, fileName: string) returns (ops: seq<PdfOp>)
    requires data != []
    ensures ops == PdfDocument(data, fileName)
  {
    var y := Top;
    ops := [SetFontSize(16), DrawText(fileName + " Report", 10, y)];
    y := y + 10;
    var headers := Keys(data[0]);
    ops := ops + [SetFontSize(12), DrawText(Join(headers, " | "), 10, y)];
    y := y + LineStep;
    assert ops == PdfPrelude(fileName, headers);
    assert data[0..] == data;
    var i := 0;
    while i < |data|
      invariant 0 <= i <= |data|
      invariant Top <= y <= Bottom
      invariant ops + RowOps(data[i..], headers, y) == PdfPrelude(fileName, headers) + RowOps(data, headers, 28)
    {
      ghost var ops0, y0 := ops, y;
      var line := DrawText(RowLine(data[i], headers), 10, y);
      ops := ops + [line];
      y := y + LineStep;
      if y > Bottom {
        ops := ops + [AddPage];
        y := Top;
      }
      assert ops == ops0 + [line] + Break(y0) && y == NextY(y0);
      RowOpsStep(ops0, data, i, headers, y0);
      i := i + 1;
    }
    assert data[i..] == [];
    ops := ops + [Save(fileName + ".pdf")];
  }

  /** One turn of the row loop: the row's line and page break, then the loop on from the next record. */
  lemma RowOpsStep(ops: seq<PdfOp>, data: seq<Row>, i: nat, headers: seq<string>, y: int)
    requires i < |data|
    ensures ops + [DrawText(RowLine(data[i], headers), 10, y)] + Break(y) + RowOps(data[i + 1..], headers, NextY(y))
      == ops + RowOps(data[i..], headers, y)
  {
    var line := [DrawText(RowLine(data[i], headers), 10, y)];
    assert data[i..][1..] == data[i + 1..];
    assert RowOps(data[i..], headers, y) == line + Break(y) + RowOps(data[i + 1..], headers, NextY(y));
    Seqs.AppendAssoc(ops, line, Break(y));
    Seqs.AppendAssoc(ops, line + Break(y), RowOps(data[i + 1..], headers, NextY(y)));
  }

  /** Every text is drawn at the left margin and at a height between 10 and 280. */
  ghost predicate DrawnOnPage(ops: seq<PdfOp>) {
    forall k :: 0 <= k < |ops| && ops[k].DrawText? ==> ops[k].x == 10 && Top <= ops[k].y <= Bottom
  }

  /** Every row is drawn on the page, wherever on the page the loop starts. */
  lemma {:induction false} RowsDrawnOnPage(rows: seq<Row>, headers: seq<string>, y: int)
    requires Top <= y <= Bottom
    ensures DrawnOnPage(RowOps(rows, headers, y))
    decreases |rows|
  {
    if rows != [] {
      RowsDrawnOnPage(rows[1..], headers, NextY(y));
    }
  }

  /** The texts drawn, in order. */
  function Texts(ops: seq<PdfOp>): seq<string>
    decreases |ops|
  {
    if ops == [] then []
    else (if ops[0].DrawText? then [ops[0].text] else []) + Texts(ops[1..])
  }

  lemma {:induction false} TextsConcat(a: seq<PdfOp>, b: seq<PdfOp>)
    ensures Texts(a + b) == Texts(a) + Texts(b)
    decreases |a|
  {
    if a == [] {
      assert a + b == b;
    } else {
      assert (a + b)[0] == a[0] && (a + b)[1..] == a[1..] + b;
      TextsConcat(a[1..], b);
    }
  }

  /** The row lines, one per record in record order. */
  function PrintedRows(rows: seq<Row>, headers: seq<string>): (r: seq<string>)
    ensures |r| == |rows|
    ensures forall k :: 0 <= k < |rows| ==> r[k] == RowLine(rows[k], headers)
    decreases |rows|
  {
    if rows == [] then [] else [RowLine(rows[0], headers)] + PrintedRows(rows[1..], headers)
  }

  /** The row loop draws exactly one line per record, in record order, each printed by the headers. */
  lemma {:induction false} RowOpsTexts(rows: seq<Row>, headers: seq<string>, y: int)
    ensures Texts(RowOps(rows, headers, y)) == PrintedRows(rows, headers)
    decreases |rows|
  {
    if rows != [] {
      var line := [DrawText(RowLine(rows[0], headers), 10, y)];
      var rest := RowOps(rows[1..], headers, NextY(y));
      TextsConcat(line + Break(y), rest);
      TextsConcat(line, Break(y));
      TextsOne(line[0]);
      if Break(y) != [] {
        TextsOne(AddPage);
      }
      RowOpsTexts(rows[1..], headers, NextY(y));
    }
  }

  /** The texts of a single call. */
  lemma TextsOne(op: PdfOp)
    ensures Texts([op]) == if op.DrawText? then [op.text] else []
  {
    assert [op][1..] == [];
  }

  /** The prelude draws the title, then the header line. */
  lemma PreludeTexts(fileName: string, headers: seq<string>)
    ensures Texts(PdfPrelude(fileName, headers)) == [fileName + " Report", Join(headers, " | ")]
  {
    var p := PdfPrelude(fileName, headers);
    assert p == [p[0]] + [p[1]] + [p[2]] + [p[3]];
    TextsConcat([p[0]] + [p[1]] + [p[2]], [p[3]]);
    TextsConcat([p[0]] + [p[1]], [p[2]]);
    TextsConcat([p[0]], [p[1]]);
    TextsOne(p[0]);
    TextsOne(p[1]);
    TextsOne(p[2]);
    TextsOne(p[3]);
  }

  /**
    The PDF draws the title, the header line, then one line per record in
    order; every row line lies on the page; and the file is saved as
    `<fileName>.pdf`.
   */
  lemma PdfDocumentSpec(data: seq<Row>, fileName: string)
    requires data != []
    ensures Texts(PdfDocument(data, fileName)) == [fileName + " Report", Join(Keys(data[0]), " | ")] + PrintedRows(data, Keys(data[0]))
    ensures PdfDocument(data, fileName)[|PdfDocument(data, fileName)| - 1] == Save(fileName + ".pdf")
    ensures DrawnOnPage(RowOps(data, Keys(data[0]), 28))
  {
    var headers := Keys(data[0]);
    var pre := PdfPrelude(fileName, headers);
    var rows := RowOps(data, headers, 28);
    var save := [Save(fileName + ".pdf")];
    TextsConcat(pre + rows, save);
    TextsConcat(pre, rows);
    RowOpsTexts(data, headers, 28);
    PreludeTexts(fileName, headers);
    TextsOne(save[0]);
    RowsDrawnOnPage(data, headers, 28);
  }

  // ---------------------------------------------------------------- XML

  const XmlHeader: string := "<?xml version='1.0' encoding='UTF-8'?>\n<report>\n"
  const RowOpen: string := "  <row>"
  const RowClose: string := "  </row>"

  /** A line and its line break. */
  function Line(l: string): string {
    l + "\n"
  }

  /** One entry's line: `<key>value</key>` indented by four, nothing escaped. */
  function EntryLine(e: (string, Value)): string {
    "    <" + e.0 + ">" + Template(e.1) + "</" + e.0 + ">"
  }

  /** What one step of the inner `forEach` appends. */
  function EntryText(e: (string, Value)): string {
    Line(EntryLine(e))
  }

  /** One record's block. */
  function XmlRow(row: Row): string {
    Line(RowOpen) + Seqs.FlatMap(EntryText, row) + Line(RowClose)
  }

  function XmlDocument(data: seq<Row>): string {
    XmlHeader + Seqs.FlatMap(XmlRow, data) + "</report>"
  }

  /** The body of the outer `forEach`: one record's block appended to `xml`, an entry at a time. */
  method AppendRow(xml: string, row: Row) returns (out: string)
    ensures out == xml + XmlRow(row)
  {
    out := xml + "  <row>\n";
    assert out == xml + Line(RowOpen);
    var j := 0;
    while j < |row|
      invariant 0 <= j <= |row|
      invariant out == xml + Line(RowOpen) + Seqs.FlatMap(EntryText, row[..j])
    {
      assert row[..j + 1][..j] == row[..j];
      Seqs.AppendAssoc(xml + Line(RowOpen), Seqs.FlatMap(EntryText, row[..j]), EntryText(row[j]));
      var line := "    <" + row[j].0 + ">" + Template(row[j].1) + "</" + row[j].0 + ">" + "\n";
      out := out + line;
      j := j + 1;
    }
    assert row[..j] == row;
    var entries := Seqs.FlatMap(EntryText, row);
    out := out + "  </row>\n";
    assert "  </row>\n" == Line(RowClose);
    Seqs.AppendAssoc(xml, Line(RowOpen), entries);
    Seqs.AppendAssoc(xml, Line(RowOpen) + entries, Line(RowClose));
  }

  /** The XML branch: `xml +=` over the records, then the closing tag. */
  method BuildXml(data: seq<Row>) returns (xml: string)
    ensures xml == XmlDocument(data)
  {
    xml := XmlHeader;
    var i := 0;
    while i < |data|
      invariant 0 <= i <= |data|
      invariant xml == XmlHeader + Seqs.FlatMap(XmlRow, data[..i])
    {
      assert data[..i + 1][..i] == data[..i];
      Seqs.AppendAssoc(XmlHeader, Seqs.FlatMap(XmlRow, data[..i]), XmlRow(data[i]));
      xml := AppendRow(xml, data[i]);
      i := i + 1;
    }
    assert data[..i] == data;
    xml := xml + "</report>";
  }

  /** The lines of one record's block. */
  function RowLines(row: Row): seq<string> {
    [RowOpen] + Seqs.Map(EntryLine, row) + [RowClose]
  }

  /** The lines of the document. */
  function XmlLines(data: seq<Row>): seq<string> {
    HeaderLines + Seqs.FlatMap(RowLines, data) + ["</report>"]
  }

  /** A record's entries are their lines, each with its line break. */
  lemma {:induction false} EntriesAsLines(row: Row)
    ensures Seqs.FlatMap(EntryText, row) == Seqs.FlatMap(Line, Seqs.Map(EntryLine, row))
    decreases |row|
  {
    if row != [] {
      var init := row[..|row| - 1];
      EntriesAsLines(init);
      assert Seqs.Map(EntryLine, row)[..|row| - 1] == Seqs.Map(EntryLine, init);
    }
  }

  /** A record's block is its lines, each with its line break. */
  lemma RowAsLines(row: Row)
    ensures XmlRow(row) == Seqs.FlatMap(Line, RowLines(row))
  {
    var mid := Seqs.Map(EntryLine, row);
    Seqs.FlatMapConcat(Line, [RowOpen] + mid, [RowClose]);
    Seqs.FlatMapConcat(Line, [RowOpen], mid);
    Seqs.FlatMapOne(Line, RowOpen);
    Seqs.FlatMapOne(Line, RowClose);
    EntriesAsLines(row);
  }

  /** Joining lines on line breaks writes every line but the last with its line break. */
  lemma {:induction false} JoinLines(lines: seq<string>, last: string)
    ensures Join(lines + [last], "\n") == Seqs.FlatMap(Line, lines) + last
    decreases |lines|
  {
    if lines == [] {
      assert lines + [last] == [last];
    } else {
      assert (lines + [last])[1..] == lines[1..] + [last];
      JoinLines(lines[1..], last);
      assert lines == [lines[0]] + lines[1..];
      Seqs.FlatMapConcat(Line, [lines[0]], lines[1..]);
      Seqs.FlatMapOne(Line, lines[0]);
    }
  }

  const HeaderLines: seq<string> := ["<?xml version='1.0' encoding='UTF-8'?>", "<report>"]

  /** The opening text is the declaration line and the `<report>` line. */
  lemma HeaderAsLines()
    ensures Seqs.FlatMap(Line, HeaderLines) == XmlHeader
  {
    var h := HeaderLines;
    assert h == [h[0]] + [h[1]];
    Seqs.FlatMapConcat(Line, [h[0]], [h[1]]);
    Seqs.FlatMapOne(Line, h[0]);
    Seqs.FlatMapOne(Line, h[1]);
  }

  /** The document is its lines joined by line breaks. */
  lemma XmlDocumentLines(data: seq<Row>)
    ensures XmlDocument(data) == Join(XmlLines(data), "\n")
  {
    var body := Seqs.FlatMap(RowLines, data);
    forall i | 0 <= i < |data| ensures XmlRow(data[i]) == Seqs.FlatMap(Line, RowLines(data[i])) {
      RowAsLines(data[i]);
    }
    Seqs.FlatMapFlatMap(XmlRow, Line, RowLines, data);
    Seqs.FlatMapConcat(Line, HeaderLines, body);
    HeaderAsLines();
    JoinLines(HeaderLines + body, "</report>");
  }

  /** No key and no text value contains a line break. */
  predicate NoLineBreaks(data: seq<Row>) {
    forall i, j :: 0 <= i < |data| && 0 <= j < |data[i]| ==>
      '\n' !in data[i][j].0 && (data[i][j].1.Str? ==> '\n' !in data[i][j].1.s)
  }

  lemma EntryLineNoBreak(e: (string, Value))
    requires '\n' !in e.0 && (e.1.Str? ==> '\n' !in e.1.s)
    ensures '\n' !in EntryLine(e)
  {
    var t := Template(e.1);
    assert '\n' !in t;
    forall k | 0 <= k < |EntryLine(e)| ensures EntryLine(e)[k] != '\n' {
      var a := "    <" + e.0 + ">";
      var b := a + t + "</";
      assert EntryLine(e) == b + e.0 + ">";
      if k < |a| {
        assert EntryLine(e)[k] == a[k];
      } else if k < |a| + |t| {
        assert EntryLine(e)[k] == t[k - |a|];
      } else if k < |b| {
      } else if k < |b| + |e.0| {
        assert EntryLine(e)[k] == e.0[k - |b|];
      }
    }
  }

  lemma {:induction false} RowLinesNoBreak(data: seq<Row>)
    requires NoLineBreaks(data)
    ensures forall k :: 0 <= k < |Seqs.FlatMap(RowLines, data)| ==> '\n' !in Seqs.FlatMap(RowLines, data)[k]
    decreases |data|
  {
    if data != [] {
      var init, last := data[..|data| - 1], data[|data| - 1];
      assert NoLineBreaks(init) by {
        forall i, j | 0 <= i < |init| && 0 <= j < |init[i]|
          ensures '\n' !in init[i][j].0 && (init[i][j].1.Str? ==> '\n' !in init[i][j].1.s)
        {
          assert init[i] == data[i];
        }
      }
      RowLinesNoBreak(init);
      forall j | 0 <= j < |last| ensures '\n' !in EntryLine(last[j]) {
        EntryLineNoBreak(last[j]);
      }
    }
  }

  lemma OuterLinesNoBreak()
    ensures forall k :: 0 <= k < |HeaderLines| ==> '\n' !in HeaderLines[k]
    ensures '\n' !in "</report>"
  {
  }

  /**
    When no key or text value holds a line break, the document reads back,
    line by line, as the declaration, `<report>`, a `<row>` ... `</row>` block
    per record in order with one `<key>value</key>` line per entry in entry
    order, and `</report>`.
   */
  lemma XmlReadsBackByLines(data: seq<Row>)
    requires NoLineBreaks(data)
    ensures Split(XmlDocument(data), '\n') == XmlLines(data)
  {
    XmlDocumentLines(data);
    RowLinesNoBreak(data);
    var lines := XmlLines(data);
    OuterLinesNoBreak();
    forall k | 0 <= k < |lines| ensures '\n' !in lines[k] {
      if k < |HeaderLines| {
        assert lines[k] == HeaderLines[k];
      } else if k < |lines| - 1 {
        assert lines[k] == Seqs.FlatMap(RowLines, data)[k - 2];
      } else {
        assert lines[k] == "</report>";
      }
    }
    SplitJoin(lines, '\n');
  }

  /** Exporting two lists of records one after the other gives the blocks of both, in order. */
  lemma XmlRowsConcat(a: seq<Row>, b: seq<Row>)
    ensures XmlDocument(a + b) == XmlHeader + Seqs.FlatMap(XmlRow, a) + Seqs.FlatMap(XmlRow, b) + "</report>"
  {
    Seqs.FlatMapConcat(XmlRow, a, b);
    Seqs.AppendAssoc(XmlHeader, Seqs.FlatMap(XmlRow, a), Seqs.FlatMap(XmlRow, b));
  }

  // ---------------------------------------------------------------- entry point

  /** What a call produces. */
  datatype Export = NoDataAlert | PdfFile(ops: seq<PdfOp>) | XmlFile(name: string, content: string) | NoExport

  /**
    `downloadReport(data, format = "pdf", fileName = "report")`; an absent
    argument is `undefined`, which takes the default.
   */
  method Download(data: Option<seq<Row>>, format: Option<string>, fileName: Option<string>) returns (e: Export)
    ensures e == NoDataAlert <==> data.None? || data.value == []
    ensures e.PdfFile? <==> data.Some? && data.value != [] && format.GetOr("pdf") == "pdf"
    ensures e.PdfFile? ==> e.ops == PdfDocument(data.value, fileName.GetOr("report"))
    ensures e.XmlFile? <==> data.Some? && data.value != [] && format.GetOr("pdf") == "xml"
    ensures e.XmlFile? ==> e.name == fileName.GetOr("report") + ".xml" && e.content == XmlDocument(data.value)
    ensures e == NoExport <==> data.Some? && data.value != [] && format.GetOr("pdf") !in {"pdf", "xml"}
  {
    var fmt, name := format.GetOr("pdf"), fileName.GetOr("report");
    if data.None? || |data.value| == 0 {
      return NoDataAlert;
    }
    e := NoExport;
    if fmt == "pdf" {
      var ops := RenderPdf(data.value, name);
      e := PdfFile(ops);
    }
    if fmt == "xml" {
      var xml := BuildXml(data.value);
      e := XmlFile(name + ".xml", xml);
    }
  }
}
