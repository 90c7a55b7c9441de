/** Writing the invoice page: the text stream, the objects, and the table of their offsets. */
module InvoicePdf {
  import opened Text
  import opened Whitespace

  /** Replace every occurrence of a character. */
  function Replace(s: string, c: char, with: string): string {
    if s == "" then "" else (if s[0] == c then with else [s[0]]) + Replace(s[1..], c, with)
  }

  /** `_escape` */
  function Escape(s: string): string {
    Replace(Replace(Replace(s, '\\', "\\\\"), '(', "\\("), ')', "\\)")
  }

  function Latin1Char(c: char): char {
    if c as int < 256 then c else '?'
  }

  /** One byte per character; a character without one becomes a question mark. */
  function Latin1(s: string): (t: string)
    ensures |t| == |s| && forall i :: 0 <= i < |s| ==> t[i] == Latin1Char(s[i])
  {
    seq(|s|, i requires 0 <= i < |s| => Latin1Char(s[i]))
  }

  function Concat(parts: seq<string>): string {
    if parts == [] then "" else parts[0] + Concat(parts[1..])
  }

  // ---------------------------------------------------------------- the content stream

  const PROLOGUE := ["BT", "/F1 11 Tf", "14 TL", "50 780 Td"]

  function LineParts(lines: seq<string>, first: bool): seq<string> {
    if lines == [] then ["ET"]
    else (if first then [] else ["T*"]) + (["(" + Escape(lines[0]) + ") Tj"] + LineParts(lines[1..], false))
  }

  function Content(lines: seq<string>): string {
    Latin1(JoinLines(PROLOGUE + LineParts(lines, true)))
  }

  method BuildContent(lines: seq<string>) returns (stream: string)
    ensures stream == Content(lines)
  {
    var parts := PROLOGUE;
    var first := true;
    for n := 0 to |lines|
      invariant first <==> n == 0
      invariant parts + LineParts(lines[n..], first) == PROLOGUE + LineParts(lines, true)
    {
      var esc := Escape(lines[n]);
      assert lines[n..][1..] == lines[n + 1..];
      OneMoreLine(parts, lines[n..], first);
      if first {
        parts := parts + ["(" + esc + ") Tj"];
        first := false;
      } else {
        parts := parts + ["T*"];
        parts := parts + ["(" + esc + ") Tj"];
      }
    }
    assert lines[|lines|..] == [];
    parts := parts + ["ET"];
    stream := Latin1(JoinLines(parts));
  }

  lemma OneMoreLine(parts: seq<string>, lines: seq<string>, first: bool)
    requires lines != []
    ensures var part := "(" + Escape(lines[0]) + ") Tj";
            parts + LineParts(lines, first)
            == (if first then parts + [part] else parts + ["T*"] + [part]) + LineParts(lines[1..], false)
  {
    assert parts + (["T*"] + (["(" + Escape(lines[0]) + ") Tj"] + LineParts(lines[1..], false)))
        == parts + ["T*"] + ["(" + Escape(lines[0]) + ") Tj"] + LineParts(lines[1..], false);
  }

  // ---------------------------------------------------------------- the file

  const HEADER := "%PDF-1.4\n"
  const CATALOG := "1" + (" 0 obj<< /Type /Catalog /Pages " + ("2" + (" 0 R" + " >>endobj\n")))
  const PAGES := "2" + (" 0 obj<< /Type /Pages /Kids [" + ("3" + (" 0 R" + "] /Count 1 >>endobj\n")))
  const PAGE := "3" + ((" 0 obj" + "<< /Type /Page /Parent 2 0 R /MediaBox [0 0 612 792] /Contents ")
                + ("4" + (" 0 R" + (" /Resources << /Font << /F1 " + ("5" + (" 0 R" + " >> >> >>endobj\n"))))))
  const FONT := "5" + (" 0 obj<< /Type /Font /Subtype /Type1 /BaseFont /Helvetica" + " >>endobj\n")

  function StreamObject(stream: string): string {
    "4" + (" 0 obj<< /Length " + (Decimal(|stream|) + (" >>stream\n" + (stream + "\nendstream\nendobj\n"))))
  }

  function Objects(stream: string): seq<string> {
    [CATALOG, PAGES, PAGE, StreamObject(stream), FONT]
  }

  /** Where each object starts. */
  function Offsets(start: nat, objects: seq<string>): seq<nat>
    decreases |objects|
  {
    if objects == [] then [] else [start] + Offsets(start + |objects[0]|, objects[1..])
  }

  const FREE_ENTRY := "0000000000 65535 f \n"

  function Entry(offset: nat): string {
    Padded(offset, 10) + " 00000 n \n"
  }

  function Entries(offsets: seq<nat>): string {
    if offsets == [] then "" else Entry(offsets[0]) + Entries(offsets[1..])
  }

  function Table(offsets: seq<nat>): string {
    "xref\n0 " + (Decimal(|offsets| + 1) + ("\n" + (FREE_ENTRY + Entries(offsets))))
  }

  function Trailer(size: nat, table: nat): string {
    "trailer<< /Size " + Decimal(size) + " /Root 1 0 R >>\n" + "startxref\n" + Decimal(table) + "\n" + "%%EOF\n"
  }

  function File(header: string, objects: seq<string>): string {
    var body := header + Concat(objects);
    body + (Table(Offsets(|header|, objects)) + Trailer(|objects| + 1, |body|))
  }

  /** The objects are written one after the other and the place of each is noted. */
  method WriteObjects(header: string, objects: seq<string>) returns (out: string, offsets: seq<nat>)
    ensures out == header + Concat(objects)
    ensures offsets == [0] + Offsets(|header|, objects)
  {
    out := header;
    offsets := [0];
    for n := 0 to |objects|
      invariant out + Concat(objects[n..]) == header + Concat(objects)
      invariant offsets + Offsets(|out|, objects[n..]) == [0] + Offsets(|header|, objects)
    {
      assert objects[n..][1..] == objects[n + 1..];
      offsets := offsets + [|out|];
      out := out + objects[n];
    }
    assert objects[|objects|..] == [];
  }

  method WriteTable(offsets: seq<nat>) returns (table: string)
    requires offsets != []
    ensures table == Table(offsets[1..])
  {
    table := "xref\n0 " + (Decimal(|offsets|) + ("\n" + FREE_ENTRY));
    ghost var heading := table;
    for n := 1 to |offsets|
      invariant table + Entries(offsets[n..]) == heading + Entries(offsets[1..])
    {
      assert offsets[n..][1..] == offsets[n + 1..];
      table := table + Entry(offsets[n]);
    }
    assert offsets[|offsets|..] == [];
    assert |offsets[1..]| + 1 == |offsets|;
    AppendInside("xref\n0 ", Decimal(|offsets|), "\n", FREE_ENTRY, Entries(offsets[1..]));
  }

  lemma AppendInside(a: string, b: string, c: string, d: string, e: string)
    ensures a + (b + (c + d)) + e == a + (b + (c + (d + e)))
  {
  }

  method WriteInvoicePdf(lines: seq<string>) returns (out: string)
    ensures out == File(HEADER, Objects(Content(lines)))
  {
    var stream := BuildContent(lines);
    var objects := Objects(stream);
    var offsets;
    out, offsets := WriteObjects(HEADER, objects);
    var table := WriteTable(offsets);
    LengthOfOffsets(|HEADER|, objects);
    assert offsets[1..] == Offsets(|HEADER|, objects);
    out := out + (table + Trailer(|offsets|, |out|));
  }

  lemma {:induction false} LengthOfOffsets(start: nat, objects: seq<string>)
    ensures |Offsets(start, objects)| == |objects|
    decreases |objects|
  {
    if objects != [] {
      LengthOfOffsets(start + |objects[0]|, objects[1..]);
    }
  }
}
