/** The way from the end of the file to the page: trailer, catalogue, page tree, page, contents and font. */
module PdfDocument {
  import opened Text
  import opened PdfReader
  import opened InvoicePdf
  import opened PdfRoundTrip
  import opened PdfFile

  // ---------------------------------------------------------------- the reader

  const PAGE_HEAD := " 0 obj" + "<< /Type /Page /Parent 2 0 R /MediaBox [0 0 612 792] /Contents "

  /** The root that the trailer dictionary names. */
  function ReadRoot(line: string): Option<nat> {
    match Expect(line, "trailer<< /Size ")
    case None => None
    case Some(dictionary) =>
      match ReadNumber(dictionary)
      case None => None
      case Some(size) =>
        match Expect(size.rest, " /Root ")
        case None => None
        case Some(reference) =>
          match ReadNumber(reference)
          case None => None
          case Some(root) => if root.rest == " 0 R >>" then Some(root.value) else None
  }

  /** The dictionary stands in the line before the last three. */
  function ReadTrailer(file: string): Option<nat> {
    match SplitLastLine(file)
    case None => None
    case Some(eof) =>
      match SplitLastLine(eof.before)
      case None => None
      case Some(offset) =>
        match SplitLastLine(offset.before)
        case None => None
        case Some(keyword) =>
          match SplitLastLine(keyword.before)
          case None => None
          case Some(dictionary) => ReadRoot(dictionary.line)
  }

  /** An object that starts so and then refers to another one; and what follows the reference. */
  function ReadReference(s: string, id: nat, head: string): Option<Number> {
    match ReadNumber(s)
    case None => None
    case Some(number) =>
      if number.value != id then None
      else
        match Expect(number.rest, head)
        case None => None
        case Some(reference) => ReadTarget(reference)
  }

  function ReadTarget(s: string): Option<Number> {
    match ReadNumber(s)
    case None => None
    case Some(target) =>
      match Expect(target.rest, " 0 R")
      case None => None
      case Some(rest) => Some(Number(target.value, rest))
  }

  /** The text of the file from where the table says that an object starts. */
  function ObjectAt(file: string, id: nat): Option<string> {
    match Locate(file, id)
    case None => None
    case Some(at) => if at <= |file| then Some(file[at..]) else None
  }

  function Follow(file: string, id: nat, head: string): Option<Number> {
    match ObjectAt(file, id)
    case None => None
    case Some(text) => ReadReference(text, id, head)
  }

  /** From the trailer over the catalogue and the page tree to the page: its contents, and what follows them there. */
  function ReadContents(file: string): Option<Number> {
    match ReadTrailer(file)
    case None => None
    case Some(root) =>
      match Follow(file, root, " 0 obj<< /Type /Catalog /Pages ")
      case None => None
      case Some(pages) =>
        match Follow(file, pages.value, " 0 obj<< /Type /Pages /Kids [")
        case None => None
        case Some(page) =>
          Follow(file, page.value, PAGE_HEAD)
  }

  function ReadDocument(file: string): Option<seq<Shown>> {
    match ReadContents(file)
    case None => None
    case Some(contents) =>
      match ObjectAt(file, contents.value)
      case None => None
      case Some(text) =>
        match ReadStream(text, contents.value)
        case None => None
        case Some(content) => if "%PDF-1.4\n" <= file then Some(Show(content, 0, None)) else None
  }

  /** The object of the font that the page names F1. */
  function ReadFont(file: string): Option<string> {
    match ReadContents(file)
    case None => None
    case Some(contents) =>
      match Expect(contents.rest, " /Resources << /Font << /F1 ")
      case None => None
      case Some(reference) =>
        match ReadTarget(reference)
        case None => None
        case Some(font) => ObjectAt(file, font.value)
  }

  // ---------------------------------------------------------------- the trailer

  lemma RootReads(size: nat, root: nat)
    ensures ReadRoot("trailer<< /Size " + (Decimal(size) + (" /Root " + (Decimal(root) + " 0 R >>")))) == Some(root)
  {
    var reference := Decimal(root) + " 0 R >>";
    ExpectOf("trailer<< /Size ", Decimal(size) + (" /Root " + reference));
    ReadNumberOf(size, " /Root " + reference);
    ExpectOf(" /Root ", reference);
    ReadNumberOf(root, " 0 R >>");
  }

  lemma TrailerFrom(file: string, offset: string, keyword: string, front: string, before: string,
                    a: string, b: string, c: string, d: string)
    requires SplitLastLine(file) == Some(Line(offset, a)) && SplitLastLine(offset) == Some(Line(keyword, b))
    requires SplitLastLine(keyword) == Some(Line(front, c)) && SplitLastLine(front) == Some(Line(before, d))
    ensures ReadTrailer(file) == ReadRoot(d)
  {
  }

  lemma TrailerOf(before: string, dictionary: string, table: nat)
    requires EndsLine(before) && Free(dictionary, '\n')
    ensures ReadTrailer(before + dictionary + "\n" + "startxref\n" + Decimal(table) + "\n" + "%%EOF\n") == ReadRoot(dictionary)
  {
    var front := before + dictionary + "\n";
    var keyword := front + "startxref\n";
    var offset := keyword + Decimal(table) + "\n";
    SplitTextOf(offset, "%%EOF", "%%EOF\n");
    SplitLastLineOf(keyword, Decimal(table));
    SplitTextOf(front, "startxref", "startxref\n");
    SplitLastLineOf(before, dictionary);
    TrailerFrom(offset + "%%EOF\n", offset, keyword, front, before, "%%EOF", Decimal(table), "startxref", dictionary);
  }

  lemma FreeParts(a: string, b: string, c: char)
    requires Free(a, c) && Free(b, c)
    ensures Free(a + b, c)
  {
  }

  lemma DictionaryIsOneLine(size: nat)
    ensures Free("trailer<< /Size " + (Decimal(size) + (" /Root " + (Decimal(1) + " 0 R >>"))), '\n')
  {
    FreeParts(Decimal(1), " 0 R >>", '\n');
    FreeParts(" /Root ", Decimal(1) + " 0 R >>", '\n');
    FreeParts(Decimal(size), " /Root " + (Decimal(1) + " 0 R >>"), '\n');
    FreeParts("trailer<< /Size ", Decimal(size) + (" /Root " + (Decimal(1) + " 0 R >>")), '\n');
  }

  lemma HeadingEndsLine(count: string, free: string, entries: string)
    requires EndsLine(entries) && free != "" && EndsLine(free)
    ensures EndsLine("xref\n0 " + (count + ("\n" + (free + entries))))
  {
    LastOf(free, entries);
    AfterLine("\n", free + entries);
    AfterLine(count, "\n" + (free + entries));
    AfterLine("xref\n0 ", count + ("\n" + (free + entries)));
  }

  lemma AfterLine(a: string, b: string)
    requires b != "" && EndsLine(b)
    ensures a + b != "" && EndsLine(a + b)
  {
  }

  lemma FreeEntryEndsLine()
    ensures FREE_ENTRY != "" && EndsLine(FREE_ENTRY)
  {
  }

  lemma TableEndsLine(offsets: seq<nat>)
    ensures EndsLine(Table(offsets))
  {
    EntriesEndLine(offsets);
    FreeEntryEndsLine();
    HeadingEndsLine(Decimal(|offsets| + 1), FREE_ENTRY, Entries(offsets));
  }

  lemma LastOf(a: string, b: string)
    requires EndsLine(a) && EndsLine(b)
    ensures EndsLine(a + b)
  {
  }

  lemma {:induction false} EntriesEndLine(offsets: seq<nat>)
    ensures EndsLine(Entries(offsets))
    decreases |offsets|
  {
    if offsets != [] {
      EntriesEndLine(offsets[1..]);
      LastOf(Entry(offsets[0]), Entries(offsets[1..]));
    }
  }

  lemma TrailerText(body: string, table: string, size: nat, at: nat)
    ensures var dictionary := "trailer<< /Size " + (Decimal(size) + (" /Root " + (Decimal(1) + " 0 R >>")));
            body + (table + Trailer(size, at)) == body + table + dictionary + "\n" + "startxref\n" + Decimal(at) + "\n" + "%%EOF\n"
  {
    assert Decimal(1) == "1";
    TrailerParts(Decimal(size), Decimal(at));
    Joined(body, table, "trailer<< /Size " + (Decimal(size) + (" /Root " + (Decimal(1) + " 0 R >>"))), Decimal(at));
  }

  lemma TrailerParts(size: string, at: string)
    ensures "trailer<< /Size " + size + " /Root 1 0 R >>\n" + "startxref\n" + at + "\n" + "%%EOF\n"
            == "trailer<< /Size " + (size + (" /Root " + ("1" + " 0 R >>"))) + "\n" + "startxref\n" + at + "\n" + "%%EOF\n"
  {
    assert " /Root 1 0 R >>\n" == " /Root " + ("1" + " 0 R >>") + "\n";
  }

  lemma Joined(body: string, table: string, dictionary: string, at: string)
    ensures body + (table + (dictionary + "\n" + "startxref\n" + at + "\n" + "%%EOF\n"))
            == body + table + dictionary + "\n" + "startxref\n" + at + "\n" + "%%EOF\n"
  {
  }

  lemma TrailerNamesTheCatalog(header: string, objects: seq<string>)
    requires EndsLine(header + Concat(objects))
    ensures ReadTrailer(File(header, objects)) == Some(1)
  {
    var body, table := header + Concat(objects), Table(Offsets(|header|, objects));
    var size := |objects| + 1;
    TrailerText(body, table, size, |body|);
    TableEndsLine(Offsets(|header|, objects));
    LastOf(body, table);
    DictionaryIsOneLine(size);
    TrailerOf(body + table, "trailer<< /Size " + (Decimal(size) + (" /Root " + (Decimal(1) + " 0 R >>"))), |body|);
    RootReads(size, 1);
  }

  // ---------------------------------------------------------------- the references

  lemma TargetReads(target: nat, rest: string)
    ensures ReadTarget(Decimal(target) + (" 0 R" + rest)) == Some(Number(target, rest))
  {
    ReadNumberOf(target, " 0 R" + rest);
    ExpectOf(" 0 R", rest);
  }

  lemma ReferenceReads(id: nat, head: string, target: nat, rest: string)
    requires head != "" && !IsDigit(head[0])
    ensures ReadReference(Decimal(id) + (head + (Decimal(target) + (" 0 R" + rest))), id, head) == Some(Number(target, rest))
  {
    var reference := Decimal(target) + (" 0 R" + rest);
    ReadNumberOf(id, head + reference);
    ExpectOf(head, reference);
    TargetReads(target, rest);
  }

  /** What the table leads to when an object is written there. */
  lemma ObjectIsThere(file: string, header: string, objects: seq<string>, id: nat) returns (after: string)
    requires Indexed(file, header, objects) && 1 <= id <= |objects| && FitsField(Offsets(|header|, objects), id)
    ensures ObjectAt(file, id) == Some(objects[id - 1] + after)
  {
    var before;
    before, after := TableLeadsToObjects(header, objects, file, id);
    assert file[|before|..] == objects[id - 1] + after;
  }

  lemma FollowFinds(file: string, header: string, objects: seq<string>, id: nat, head: string, target: nat, tail: string)
      returns (after: string)
    requires Indexed(file, header, objects) && 1 <= id <= |objects| && FitsField(Offsets(|header|, objects), id)
    requires head != "" && !IsDigit(head[0]) && objects[id - 1] == Decimal(id) + (head + (Decimal(target) + (" 0 R" + tail)))
    ensures Follow(file, id, head) == Some(Number(target, tail + after))
  {
    after := ObjectIsThere(file, header, objects, id);
    Tail(Decimal(id), head, Decimal(target), " 0 R", tail, after);
    ReferenceReads(id, head, target, tail + after);
  }

  lemma Tail(a: string, b: string, c: string, d: string, e: string, f: string)
    ensures a + (b + (c + (d + e))) + f == a + (b + (c + (d + (e + f))))
  {
  }

  lemma SmallNumerals()
    ensures Decimal(1) == "1" && Decimal(2) == "2" && Decimal(3) == "3" && Decimal(4) == "4" && Decimal(5) == "5"
  {
  }

  lemma ContentsFrom(file: string, root: nat, pages: Number, page: Number, contents: Number)
    requires ReadTrailer(file) == Some(root)
    requires Follow(file, root, " 0 obj<< /Type /Catalog /Pages ") == Some(pages)
    requires Follow(file, pages.value, " 0 obj<< /Type /Pages /Kids [") == Some(page)
    requires Follow(file, page.value, PAGE_HEAD) == Some(contents)
    ensures ReadContents(file) == Some(contents)
  {
  }

  lemma CatalogLeads(file: string, header: string, objects: seq<string>) returns (after: string)
    requires Indexed(file, header, objects) && |objects| == 5 && objects[0] == CATALOG && FitsField(Offsets(|header|, objects), 1)
    ensures Follow(file, 1, " 0 obj<< /Type /Catalog /Pages ") == Some(Number(2, " >>endobj\n" + after))
  {
    SmallNumerals();
    after := FollowFinds(file, header, objects, 1, " 0 obj<< /Type /Catalog /Pages ", 2, " >>endobj\n");
  }

  lemma PagesLead(file: string, header: string, objects: seq<string>) returns (after: string)
    requires Indexed(file, header, objects) && |objects| == 5 && objects[1] == PAGES && FitsField(Offsets(|header|, objects), 2)
    ensures Follow(file, 2, " 0 obj<< /Type /Pages /Kids [") == Some(Number(3, "] /Count 1 >>endobj\n" + after))
  {
    SmallNumerals();
    after := FollowFinds(file, header, objects, 2, " 0 obj<< /Type /Pages /Kids [", 3, "] /Count 1 >>endobj\n");
  }

  const RESOURCES := " /Resources << /Font << /F1 " + ("5" + (" 0 R" + " >> >> >>endobj\n"))

  lemma PageText(head: string)
    requires head == PAGE_HEAD
    ensures PAGE == "3" + (head + ("4" + (" 0 R" + RESOURCES)))
  {
  }

  lemma PageHeadIsNoNumber()
    ensures PAGE_HEAD != "" && PAGE_HEAD[0] == ' '
  {
  }

  lemma PageLeads(file: string, header: string, objects: seq<string>) returns (after: string)
    requires Indexed(file, header, objects) && |objects| == 5 && objects[2] == PAGE && FitsField(Offsets(|header|, objects), 3)
    ensures Follow(file, 3, PAGE_HEAD) == Some(Number(4, RESOURCES + after))
  {
    SmallNumerals();
    PageText(PAGE_HEAD);
    PageHeadIsNoNumber();
    after := FollowFinds(file, header, objects, 3, PAGE_HEAD, 4, RESOURCES);
  }

  /** Over the trailer, the catalogue and the page tree the reader comes to the contents of the page. */
  lemma WalkFindsContents(file: string, header: string, objects: seq<string>) returns (after: string)
    requires Indexed(file, header, objects) && ReadTrailer(file) == Some(1)
    requires |objects| == 5 && objects[0] == CATALOG && objects[1] == PAGES && objects[2] == PAGE
    requires FitsField(Offsets(|header|, objects), 4)
    ensures ReadContents(file) == Some(Number(4, RESOURCES + after))
  {
    var a := CatalogLeads(file, header, objects);
    var b := PagesLead(file, header, objects);
    after := PageLeads(file, header, objects);
    ContentsFrom(file, 1, Number(2, " >>endobj\n" + a), Number(3, "] /Count 1 >>endobj\n" + b), Number(4, RESOURCES + after));
  }

  lemma ObjectsEndLine(stream: string)
    ensures EndsLine(HEADER + Concat(Objects(stream)))
  {
    var o := Objects(stream);
    ConcatEndsLine(o);
    LastOf(HEADER, Concat(o));
  }

  lemma {:induction false} ConcatEndsLine(parts: seq<string>)
    requires forall i :: 0 <= i < |parts| ==> EndsLine(parts[i])
    ensures EndsLine(Concat(parts))
  {
    if parts != [] {
      ConcatEndsLine(parts[1..]);
      LastOf(parts[0], Concat(parts[1..]));
    }
  }

  /** Whatever the lines: the reader that walks from the trailer gets the page with every line in its row. */
  lemma DocumentRoundTrip(lines: seq<string>)
    ensures ReadDocument(File(HEADER, Objects(Content(lines)))) == Some(Page(lines, 0))
  {
    var stream := Content(lines);
    var objects := Objects(stream);
    var file := File(HEADER, objects);
    var rest := WalkOfWritten(stream);
    WrittenIsIndexed(HEADER, objects);
    var after := ObjectIsThere(file, HEADER, objects, 4);
    StreamReads(stream, after);
    DocumentFrom(file, Number(4, RESOURCES + rest), StreamObject(stream) + after, stream);
    ContentShowsItsLines(lines);
    ShowPrinted(lines, true, 0);
  }

  lemma DocumentFrom(file: string, contents: Number, text: string, stream: string)
    requires HEADER <= file && ReadContents(file) == Some(contents)
    requires ObjectAt(file, contents.value) == Some(text) && ReadStream(text, contents.value) == Some(stream)
    ensures ReadDocument(file) == Some(Show(stream, 0, None))
  {
  }

  lemma WalkOfWritten(stream: string) returns (after: string)
    ensures ReadContents(File(HEADER, Objects(stream))) == Some(Number(4, RESOURCES + after))
    ensures FitsField(Offsets(|HEADER|, Objects(stream)), 4) && HEADER <= File(HEADER, Objects(stream))
  {
    var objects := Objects(stream);
    ContentsFit(stream);
    WrittenIsIndexed(HEADER, objects);
    ObjectsEndLine(stream);
    TrailerNamesTheCatalog(HEADER, objects);
    after := WalkFindsContents(File(HEADER, objects), HEADER, objects);
  }

  lemma FifthOffset(start: nat, objects: seq<string>)
    requires |objects| == 5
    ensures var o := Offsets(start, objects); |o| == 5 && o[4] == o[3] + |objects[3]|
  {
    LengthOfOffsets(start, objects);
    OffsetsContinue(start, objects, 3);
  }

  lemma {:induction false} OffsetsContinue(start: nat, objects: seq<string>, k: nat)
    requires k + 1 < |objects| && |Offsets(start, objects)| == |objects|
    ensures Offsets(start, objects)[k + 1] == Offsets(start, objects)[k] + |objects[k]|
    decreases k
  {
    LengthOfOffsets(start + |objects[0]|, objects[1..]);
    if k > 0 {
      OffsetsContinue(start + |objects[0]|, objects[1..], k - 1);
    }
  }

  lemma TenDigits()
    ensures Power10(10) == 10_000_000_000
  {
    assert Power10(5) == 100000 by {
      assert Power10(3) == 1000;
    }
    assert Power10(10) == 10 * Power10(9) && Power10(9) == 10 * Power10(8) && Power10(8) == 10 * Power10(7);
    assert Power10(7) == 10 * Power10(6) && Power10(6) == 10 * Power10(5);
  }

  lemma StreamObjectIsShort(stream: string)
    requires |stream| < 9_000_000_000
    ensures |StreamObject(stream)| < |stream| + 100
  {
    TenDigits();
    DecimalLength(|stream|, 10, 10_000_000_000);
  }

  lemma FontFits(stream: string)
    requires |stream| < 9_000_000_000
    ensures FitsField(Offsets(|HEADER|, Objects(stream)), 5)
  {
    FourOffsets(|HEADER|, Objects(stream));
    FifthOffset(|HEADER|, Objects(stream));
    ShortObjects();
    TenDigits();
    StreamObjectIsShort(stream);
  }

  lemma ReferenceBehind(prefix: string, target: nat, tail: string, after: string)
    ensures Expect(prefix + (Decimal(target) + (" 0 R" + tail)) + after, prefix) == Some(Decimal(target) + (" 0 R" + (tail + after)))
    ensures ReadTarget(Decimal(target) + (" 0 R" + (tail + after))) == Some(Number(target, tail + after))
  {
    var reference := Decimal(target) + (" 0 R" + (tail + after));
    ShortTail(prefix, Decimal(target), " 0 R", tail, after);
    ExpectOf(prefix, reference);
    TargetReads(target, tail + after);
  }

  lemma ShortTail(a: string, b: string, c: string, d: string, e: string)
    ensures a + (b + (c + d)) + e == a + (b + (c + (d + e)))
  {
  }

  lemma FontReferenceReads(rest: string, after: string)
    requires rest == RESOURCES + after
    ensures Expect(rest, " /Resources << /Font << /F1 ").Some?
    ensures var font := ReadTarget(Expect(rest, " /Resources << /Font << /F1 ").value); font.Some? && font.value.value == 5
  {
    SmallNumerals();
    ReferenceBehind(" /Resources << /Font << /F1 ", 5, " >> >> >>endobj\n", after);
  }

  lemma FontFrom(file: string, contents: Number, text: string)
    requires ReadContents(file) == Some(contents)
    requires Expect(contents.rest, " /Resources << /Font << /F1 ").Some?
    requires var font := ReadTarget(Expect(contents.rest, " /Resources << /Font << /F1 ").value);
             font.Some? && ObjectAt(file, font.value.value) == Some(text)
    ensures ReadFont(file) == Some(text)
  {
  }

  /** And the font that the page names is the one in the file, as long as the table's fields are wide enough. */
  lemma FontIsFound(stream: string)
    requires |stream| < 9_000_000_000
    ensures var font := ReadFont(File(HEADER, Objects(stream))); font.Some? && FONT <= font.value
    ensures FONT == "5" + (" 0 obj<< /Type /Font /Subtype /Type1 /BaseFont /Helvetica" + " >>endobj\n")
  {
    var objects := Objects(stream);
    var file := File(HEADER, objects);
    var rest := WalkOfWritten(stream);
    FontFits(stream);
    WrittenIsIndexed(HEADER, objects);
    var after := ObjectIsThere(file, HEADER, objects, 5);
    FontReferenceReads(RESOURCES + rest, rest);
    FontFrom(file, Number(4, RESOURCES + rest), FONT + after);
  }

  /** The table begins with the free entry that the format asks for. */
  lemma FreeEntryComesFirst(header: string, objects: seq<string>)
    ensures var file, at := File(header, objects), |header + Concat(objects)|;
            && at <= |file| && ReadStartXref(file) == Some(at)
            && ReadHeading(file[at..]).Some? && "0000000000 65535 f \n" <= ReadHeading(file[at..]).value.rest
  {
    var body, offsets := header + Concat(objects), Offsets(|header|, objects);
    var rest := Trailer(|objects| + 1, |body|);
    TableIsFound(header, objects);
    HeadingReads(offsets, rest);
    assert File(header, objects)[|body|..] == Table(offsets) + rest;
  }
}
