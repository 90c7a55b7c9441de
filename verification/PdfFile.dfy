/** The reader finds the page content through the table of offsets, and with it every printed line. */
module PdfFile {
  import opened Text
  import opened Whitespace
  import opened PdfReader
  import opened InvoicePdf
  import opened PdfRoundTrip

  // ---------------------------------------------------------------- numbers and fixed words

  lemma ExpectOf(prefix: string, rest: string)
    ensures Expect(prefix + rest, prefix) == Some(rest)
  {
  }

  lemma {:induction false} DigitRunOf(d: string, rest: string)
    requires AllDigits(d) && (rest == "" || !IsDigit(rest[0]))
    ensures DigitRun(d + rest) == |d|
  {
    if d == "" {
      assert d + rest == rest;
    } else {
      assert (d + rest)[1..] == d[1..] + rest;
      DigitRunOf(d[1..], rest);
    }
  }

  lemma ReadNumberOf(n: nat, rest: string)
    requires rest == "" || !IsDigit(rest[0])
    ensures ReadNumber(Decimal(n) + rest) == Some(Number(n, rest))
  {
    DigitRunOf(Decimal(n), rest);
    DecimalRoundTrip(n);
  }

  // ---------------------------------------------------------------- the end of the file

  predicate EndsLine(s: string) {
    s == "" || s[|s| - 1] == '\n'
  }

  lemma {:induction false} LastLineStartOf(front: string, line: string)
    requires EndsLine(front) && Free(line, '\n')
    ensures LastLineStart(front + line) == |front|
    decreases |line|
  {
    if line == "" {
      assert front + line == front;
    } else {
      assert (front + line)[..|front| + |line| - 1] == front + line[..|line| - 1];
      LastLineStartOf(front, line[..|line| - 1]);
    }
  }

  lemma SplitLastLineOf(front: string, line: string)
    requires EndsLine(front) && Free(line, '\n')
    ensures SplitLastLine(front + line + "\n") == Some(Line(front, line))
  {
    var s := front + line + "\n";
    assert s[..|s| - 1] == front + line;
    LastLineStartOf(front, line);
  }

  lemma SplitTextOf(front: string, line: string, text: string)
    requires EndsLine(front) && Free(line, '\n') && text == line + "\n"
    ensures SplitLastLine(front + text) == Some(Line(front, line))
  {
    SplitLastLineOf(front, line);
    assert front + text == front + line + "\n";
  }

  lemma StartXrefFrom(file: string, offset: string, keyword: string, front: string, table: nat)
    requires SplitLastLine(file) == Some(Line(offset, "%%EOF"))
    requires SplitLastLine(offset) == Some(Line(keyword, Decimal(table)))
    requires SplitLastLine(keyword) == Some(Line(front, "startxref"))
    ensures ReadStartXref(file) == Some(table)
  {
    DecimalRoundTrip(table);
  }

  lemma StartXrefOf(front: string, table: nat)
    requires EndsLine(front)
    ensures ReadStartXref(front + "startxref\n" + Decimal(table) + "\n" + "%%EOF\n") == Some(table)
  {
    var keyword := front + "startxref\n";
    var offset := keyword + Decimal(table) + "\n";
    SplitTextOf(offset, "%%EOF", "%%EOF\n");
    SplitLastLineOf(keyword, Decimal(table));
    SplitTextOf(front, "startxref", "startxref\n");
    StartXrefFrom(offset + "%%EOF\n", offset, keyword, front, table);
  }

  // ---------------------------------------------------------------- the table

  const FIELD := 10

  lemma EntryReads(offset: nat)
    requires offset < Power10(FIELD)
    ensures |Entry(offset)| == ENTRY && ReadEntry(Entry(offset)) == Some(offset)
  {
    PaddedWidth(offset, FIELD);
    PaddedRoundTrip(offset, FIELD);
    var e, rest := Entry(offset), " 00000 n \n";
    assert |rest| == 10 && rest[0] == ' ' && rest[7] == 'n';
    assert e[..10] == Padded(offset, 10) && e[10] == rest[0] && e[17] == rest[7];
  }

  ghost predicate FitsField(offsets: seq<nat>, n: nat) {
    forall i :: 0 <= i < n && i < |offsets| ==> offsets[i] < Power10(FIELD)
  }

  lemma FitsTail(offsets: seq<nat>, n: nat)
    requires offsets != [] && n > 0 && FitsField(offsets, n)
    ensures offsets[0] < Power10(FIELD) && FitsField(offsets[1..], n - 1)
  {
    forall i | 0 <= i < n - 1 && i < |offsets[1..]|
      ensures offsets[1..][i] < Power10(FIELD)
    {
      assert offsets[1..][i] == offsets[i + 1];
    }
  }

  lemma LeftToRight(a: string, b: string, c: string)
    ensures a + (b + c) == a + b + c
  {
  }

  /** Entries that fit their field are all twenty bytes, so each is found at a multiple of twenty. */
  lemma {:induction false} EntriesSplit(offsets: seq<nat>, k: nat) returns (before: string, after: string)
    requires k < |offsets| && FitsField(offsets, k + 1)
    ensures Entries(offsets) == before + (Entry(offsets[k]) + after) && |before| == ENTRY * k
    decreases k
  {
    FitsTail(offsets, k + 1);
    if k == 0 {
      before, after := "", Entries(offsets[1..]);
    } else {
      EntryReads(offsets[0]);
      before, after := EntriesSplit(offsets[1..], k - 1);
      LeftToRight(Entry(offsets[0]), before, Entry(offsets[k]) + after);
      before := Entry(offsets[0]) + before;
    }
  }

  lemma Middle(a: string, b: string, c: string)
    ensures (a + (b + c))[|a|..|a| + |b|] == b
  {
  }

  lemma Nested(a: string, b: string, c: string, d: string, e: string, rest: string)
    ensures a + (b + (c + (d + e))) + rest == a + (b + (c + (d + (e + rest))))
  {
  }

  lemma HeadingReads(offsets: seq<nat>, rest: string)
    ensures ReadHeading(Table(offsets) + rest) == Some(Number(|offsets| + 1, FREE_ENTRY + (Entries(offsets) + rest)))
  {
    var n, mark, free := |offsets| + 1, "xref\n0 ", FREE_ENTRY;
    var entries := free + (Entries(offsets) + rest);
    Nested(mark, Decimal(n), "\n", free, Entries(offsets), rest);
    HeadingOf(n, mark, entries);
  }

  lemma HeadingOf(n: nat, mark: string, entries: string)
    requires mark == "xref\n0 "
    ensures ReadHeading(mark + (Decimal(n) + ("\n" + entries))) == Some(Number(n, entries))
  {
    ExpectOf(mark, Decimal(n) + ("\n" + entries));
    ReadNumberOf(n, "\n" + entries);
    ExpectOf("\n", entries);
  }

  lemma Spread(a: string, b: string, c: string, d: string, e: string)
    ensures a + (b + (c + d) + e) == a + b + (c + (d + e))
  {
  }

  lemma EntryBehind(free: string, entries: string, before: string, entry: string, after: string, rest: string, i: nat, j: nat)
    requires entries == before + (entry + after) && i == |free| + |before| && j == i + |entry|
    ensures j <= |free + (entries + rest)| && (free + (entries + rest))[i..j] == entry
  {
    Spread(free, before, entry, after, rest);
    Middle(free + before, entry, after + rest);
  }

  lemma EntryBehindFree(free: string, offsets: seq<nat>, rest: string, id: nat)
    requires |free| == ENTRY && 1 <= id <= |offsets| && FitsField(offsets, id)
    ensures var s := free + (Entries(offsets) + rest);
            ENTRY * id + ENTRY <= |s| && s[ENTRY * id..ENTRY * id + ENTRY] == Entry(offsets[id - 1])
  {
    var before, after := EntriesSplit(offsets, id - 1);
    EntryReads(offsets[id - 1]);
    EntryBehind(free, Entries(offsets), before, Entry(offsets[id - 1]), after, rest, ENTRY * id, ENTRY * id + ENTRY);
  }

  lemma XrefReads(offsets: seq<nat>, rest: string, id: nat)
    requires 1 <= id <= |offsets| && FitsField(offsets, id)
    ensures ReadXref(Table(offsets) + rest, id) == Some(offsets[id - 1])
  {
    HeadingReads(offsets, rest);
    FreeEntryLength();
    EntryBehindFree(FREE_ENTRY, offsets, rest, id);
    EntryReads(offsets[id - 1]);
    XrefFrom(Table(offsets) + rest, |offsets| + 1, FREE_ENTRY + (Entries(offsets) + rest), id, offsets[id - 1]);
  }

  lemma XrefFrom(table: string, count: nat, entries: string, id: nat, offset: nat)
    requires ReadHeading(table) == Some(Number(count, entries)) && id < count
    requires ENTRY * id + ENTRY <= |entries|
    requires ReadEntry(entries[ENTRY * id..ENTRY * id + ENTRY]) == Some(offset)
    ensures ReadXref(table, id) == Some(offset)
  {
  }

  lemma FreeEntryLength()
    ensures |FREE_ENTRY| == ENTRY
  {
  }

  // ---------------------------------------------------------------- where the objects are

  /** Every recorded offset is the length of what is written before its object. */
  lemma {:induction false} OffsetIsPosition(front: string, objects: seq<string>, k: nat) returns (before: string, after: string)
    requires k < |objects|
    ensures k < |Offsets(|front|, objects)| && Offsets(|front|, objects)[k] == |before|
    ensures front + Concat(objects) == before + (objects[k] + after)
    decreases |objects|
  {
    LengthOfOffsets(|front|, objects);
    if k == 0 {
      before, after := front, Concat(objects[1..]);
    } else {
      before, after := OffsetIsPosition(front + objects[0], objects[1..], k - 1);
      assert front + Concat(objects) == front + objects[0] + Concat(objects[1..]);
    }
  }

  lemma TableIsFound(header: string, objects: seq<string>)
    ensures ReadStartXref(File(header, objects)) == Some(|header + Concat(objects)|)
  {
    var body := header + Concat(objects);
    var table := Table(Offsets(|header|, objects));
    var dictionary := "trailer<< /Size " + Decimal(|objects| + 1) + " /Root 1 0 R >>\n";
    var front := body + (table + dictionary);
    Reassociate(body, table, dictionary, "startxref\n", Decimal(|body|), "\n", "%%EOF\n");
    EndOfDictionary("trailer<< /Size " + Decimal(|objects| + 1));
    assert front[|front| - 1] == dictionary[|dictionary| - 1];
    StartXrefOf(front, |body|);
  }

  lemma EndOfDictionary(s: string)
    ensures (s + " /Root 1 0 R >>\n") != "" && (s + " /Root 1 0 R >>\n")[|s| + 15] == '\n' && |s + " /Root 1 0 R >>\n"| == |s| + 16
  {
  }

  lemma Reassociate(a: string, b: string, c: string, d: string, e: string, f: string, g: string)
    ensures a + (b + (c + d + e + f + g)) == a + (b + c) + d + e + f + g
  {
  }

  lemma LocateFrom(file: string, body: string, offsets: seq<nat>, rest: string, id: nat)
    requires file == body + (Table(offsets) + rest) && ReadStartXref(file) == Some(|body|)
    requires 1 <= id <= |offsets| && FitsField(offsets, id)
    ensures Locate(file, id) == Some(offsets[id - 1])
  {
    XrefReads(offsets, rest, id);
    assert file[|body|..] == Table(offsets) + rest;
  }

  /** The table leads to the recorded offset of every object whose offset, like those before it, fits its field. */
  lemma LocateFinds(header: string, objects: seq<string>, id: nat)
    requires 1 <= id <= |objects| && FitsField(Offsets(|header|, objects), id)
    ensures id - 1 < |Offsets(|header|, objects)|
    ensures Locate(File(header, objects), id) == Some(Offsets(|header|, objects)[id - 1])
  {
    var body := header + Concat(objects);
    LengthOfOffsets(|header|, objects);
    TableIsFound(header, objects);
    LocateFrom(File(header, objects), body, Offsets(|header|, objects), Trailer(|objects| + 1, |body|), id);
  }

  /** The file starts with the objects, and its table leads to where each of them was noted to start. */
  ghost predicate Indexed(file: string, header: string, objects: seq<string>) {
    && header + Concat(objects) <= file
    && |Offsets(|header|, objects)| == |objects|
    && forall id :: 1 <= id <= |objects| && FitsField(Offsets(|header|, objects), id) ==>
         Locate(file, id) == Some(Offsets(|header|, objects)[id - 1])
  }

  lemma WrittenIsIndexed(header: string, objects: seq<string>)
    ensures Indexed(File(header, objects), header, objects)
  {
    LengthOfOffsets(|header|, objects);
    forall id | 1 <= id <= |objects| && FitsField(Offsets(|header|, objects), id)
      ensures Locate(File(header, objects), id) == Some(Offsets(|header|, objects)[id - 1])
    {
      LocateFinds(header, objects, id);
    }
  }

  /** So following the table leads to the object itself. */
  lemma TableLeadsToObjects(header: string, objects: seq<string>, file: string, id: nat) returns (before: string, after: string)
    requires Indexed(file, header, objects)
    requires 1 <= id <= |objects| && FitsField(Offsets(|header|, objects), id)
    ensures file == before + (objects[id - 1] + after) && Locate(file, id) == Some(|before|)
  {
    before, after := OffsetIsPosition(header, objects, id - 1);
    after := Extend(file, header + Concat(objects), before, objects[id - 1], after);
  }

  lemma Extend(file: string, body: string, a: string, b: string, c: string) returns (d: string)
    requires body <= file && body == a + (b + c)
    ensures file == a + (b + d)
  {
    var rest := file[|body|..];
    Regroup(a, b, c, rest);
    d := c + rest;
  }

  lemma Regroup(a: string, b: string, c: string, d: string)
    ensures a + (b + c) + d == a + (b + (c + d))
  {
  }

  // ---------------------------------------------------------------- the content

  lemma StreamReads(stream: string, rest: string)
    ensures ReadStream(StreamObject(stream) + rest, CONTENTS) == Some(stream)
  {
    var bytes := stream + ("\nendstream\nendobj\n" + rest);
    var length := Decimal(|stream|) + (" >>stream\n" + bytes);
    var dictionary := " 0 obj<< /Length " + length;
    assert StreamObject(stream) + rest == "4" + dictionary;
    assert Decimal(4) == "4";
    ReadNumberOf(4, dictionary);
    ExpectOf(" 0 obj<< /Length ", length);
    ReadNumberOf(|stream|, " >>stream\n" + bytes);
    ExpectOf(" >>stream\n", bytes);
    assert bytes[..|stream|] == stream;
  }

  lemma ShortObjects()
    ensures |HEADER| < 100 && |CATALOG| < 100 && |PAGES| < 100 && |PAGE| < 200
  {
  }

  lemma BigField()
    ensures Power10(FIELD) > 10000
  {
    assert Power10(5) == 100000 by {
      assert Power10(3) == 1000;
    }
    assert Power10(10) == 10 * Power10(9) && Power10(9) == 10 * Power10(8) && Power10(8) == 10 * Power10(7);
    assert Power10(7) == 10 * Power10(6) && Power10(6) == 10 * Power10(5);
  }

  lemma FourOffsets(start: nat, objects: seq<string>)
    requires |objects| == 5
    ensures var o := Offsets(start, objects);
            |o| == 5 && o[0] == start && o[1] == start + |objects[0]| && o[2] == o[1] + |objects[1]| && o[3] == o[2] + |objects[2]|
  {
    var s1, s2, s3 := start + |objects[0]|, start + |objects[0]| + |objects[1]|, start + |objects[0]| + |objects[1]| + |objects[2]|;
    LengthOfOffsets(start, objects);
    assert Offsets(start, objects) == [start] + Offsets(s1, objects[1..]);
    assert Offsets(s1, objects[1..]) == [s1] + Offsets(s2, objects[1..][1..]);
    assert objects[1..][1..] == objects[2..];
    assert Offsets(s2, objects[2..]) == [s2] + Offsets(s3, objects[2..][1..]);
    assert objects[2..][1..] == objects[3..];
    assert Offsets(s3, objects[3..])[0] == s3;
  }

  lemma ContentsFit(stream: string)
    ensures FitsField(Offsets(|HEADER|, Objects(stream)), CONTENTS)
  {
    FourOffsets(|HEADER|, Objects(stream));
    ShortObjects();
    BigField();
  }

  lemma PageFrom(file: string, before: string, tail: string, stream: string)
    requires file == before + tail && Locate(file, CONTENTS) == Some(|before|) && ReadStream(tail, CONTENTS) == Some(stream)
    ensures ReadPage(file) == Some(Show(stream, 0, None))
  {
    assert file[|before|..] == tail;
  }

  lemma PageBehind(file: string, before: string, stream: string, after: string)
    requires file == before + (StreamObject(stream) + after) && Locate(file, CONTENTS) == Some(|before|)
    ensures ReadPage(file) == Some(Show(stream, 0, None))
  {
    StreamReads(stream, after);
    PageFrom(file, before, StreamObject(stream) + after, stream);
  }

  lemma ContentsAt(file: string, header: string, objects: seq<string>, text: string) returns (before: string, after: string)
    requires Indexed(file, header, objects) && |objects| >= CONTENTS && objects[CONTENTS - 1] == text
    requires FitsField(Offsets(|header|, objects), CONTENTS)
    ensures file == before + (text + after) && Locate(file, CONTENTS) == Some(|before|)
  {
    before, after := TableLeadsToObjects(header, objects, file, CONTENTS);
  }

  lemma ContentIsFoundIn(file: string, header: string, objects: seq<string>, stream: string)
    requires Indexed(file, header, objects) && |objects| >= CONTENTS && objects[CONTENTS - 1] == StreamObject(stream)
    requires FitsField(Offsets(|header|, objects), CONTENTS)
    ensures ReadPage(file) == Some(Show(stream, 0, None))
  {
    var before, after := ContentsAt(file, header, objects, objects[CONTENTS - 1]);
    PageBehind(file, before, stream, after);
  }

  /** Whatever the lines, the reader finds the content stream whole. */
  lemma ContentIsFound(stream: string)
    ensures ReadPage(File(HEADER, Objects(stream))) == Some(Show(stream, 0, None))
  {
    ContentsFit(stream);
    WrittenIsIndexed(HEADER, Objects(stream));
    ContentIsFoundIn(File(HEADER, Objects(stream)), HEADER, Objects(stream), stream);
  }

  // ---------------------------------------------------------------- the whole way

  /** A word that is not one of the text operators is passed over, with the space after it. */
  lemma SkipWord(text: string, c: char, w: string, space: char, rest: string)
    requires !IsPdfSpace(c) && c != '(' && AllRegular(w) && IsPdfSpace(space)
    requires text == [c] + w + ([space] + rest)
    requires c !in {'E', 'T'} || (|w| == 1 && w[0] !in {'T', '*', 'j'})
    ensures Show(text, 0, None) == Show(rest, 0, None)
  {
    var word := [c] + w;
    assert word[0] == c && (|w| == 1 ==> word[1] == w[0]);
    ShowOther(c, w, [space] + rest, 0, None);
    ShowSpace(space, rest, 0, None);
  }

  lemma BeginText(rest: string)
    ensures Show("BT" + "\n" + rest, 0, None) == Show(rest, 0, None)
  {
    SkipWord("BT" + "\n" + rest, 'B', "T", '\n', rest);
  }

  /** A number or a name. */
  predicate IsOperand(w: string) {
    w != "" && (IsDigit(w[0]) || w[0] == '/') && AllRegular(w[1..])
  }

  /** An operator of two characters that neither shows text nor ends it nor moves to another line. */
  predicate IsPassive(w: string) {
    |w| == 2 && IsRegular(w[0]) && IsRegular(w[1]) && w[0] != 'E' && w[1] !in {'T', '*', 'j'}
  }

  lemma SkipOperator(w: string, rest: string)
    requires IsPassive(w)
    ensures Show(w + "\n" + rest, 0, None) == Show(rest, 0, None)
  {
    assert w == [w[0]] + [w[1]];
    SkipWord(w + "\n" + rest, w[0], [w[1]], '\n', rest);
  }

  /** A number or a name before other operands. */
  lemma SkipOperand(w: string, rest: string)
    requires IsOperand(w)
    ensures Show(w + " " + rest, 0, None) == Show(rest, 0, None)
  {
    assert w == [w[0]] + w[1..];
    SkipWord(w + " " + rest, w[0], w[1..], ' ', rest);
  }

  lemma SkipOne(a: string, w: string, rest: string)
    requires IsOperand(a) && IsPassive(w)
    ensures Show(a + " " + w + "\n" + rest, 0, None) == Show(rest, 0, None)
  {
    SkipOperand(a, w + "\n" + rest);
    SkipOperator(w, rest);
    assert a + " " + w + "\n" + rest == a + " " + (w + "\n" + rest);
  }

  lemma SkipTwo(a: string, b: string, w: string, rest: string)
    requires IsOperand(a) && IsOperand(b) && IsPassive(w)
    ensures Show(a + " " + (b + " " + w) + "\n" + rest, 0, None) == Show(rest, 0, None)
  {
    var more := b + " " + w + "\n" + rest;
    SkipOperand(a, more);
    SkipOne(b, w, rest);
    assert a + " " + (b + " " + w) + "\n" + rest == a + " " + more;
  }

  lemma FontWords()
    ensures "/F1 11 Tf" == "/F1" + " " + ("11" + " " + "Tf")
  {
    assert "11" + " " == "11 ";
    assert "11 " + "Tf" == "11 Tf";
    assert "/F1" + " " == "/F1 ";
    assert "/F1 " + "11 Tf" == "/F1 11 Tf";
  }

  lemma MoveWords()
    ensures "50 780 Td" == "50" + " " + ("780" + " " + "Td")
  {
    assert "780" + " " == "780 ";
    assert "780 " + "Td" == "780 Td";
    assert "50" + " " == "50 ";
    assert "50 " + "780 Td" == "50 780 Td";
  }

  lemma SetFont(rest: string)
    ensures Show("/F1 11 Tf" + "\n" + rest, 0, None) == Show(rest, 0, None)
  {
    FontWords();
    SkipTwo("/F1", "11", "Tf", rest);
  }

  lemma SetLeading(rest: string)
    ensures Show("14 TL" + "\n" + rest, 0, None) == Show(rest, 0, None)
  {
    SkipOne("14", "TL", rest);
    assert "14 TL" == "14" + " " + "TL";
  }

  lemma MoveTo(rest: string)
    ensures Show("50 780 Td" + "\n" + rest, 0, None) == Show(rest, 0, None)
  {
    MoveWords();
    SkipTwo("50", "780", "Td", rest);
  }

  lemma JoinTwo(a: string, b: string, parts: seq<string>)
    requires parts != []
    ensures JoinLines([a] + ([b] + parts)) == a + "\n" + (b + "\n" + JoinLines(parts))
  {
    JoinCons(b, parts);
    JoinCons(a, [b] + parts);
  }

  lemma Four(a: string, b: string, c: string, d: string, parts: seq<string>)
    ensures [a, b, c, d] + parts == [a] + ([b] + ([c] + ([d] + parts)))
  {
  }

  lemma JoinFour(a: string, b: string, c: string, d: string, parts: seq<string>)
    requires parts != []
    ensures JoinLines([a, b, c, d] + parts) == a + "\n" + (b + "\n" + (c + "\n" + (d + "\n" + JoinLines(parts))))
  {
    Four(a, b, c, d, parts);
    var rest := [c] + ([d] + parts);
    JoinTwo(c, d, parts);
    JoinTwo(a, b, rest);
  }

  lemma Latin1Line(s: string, rest: string)
    requires forall i :: 0 <= i < |s| ==> s[i] as int < 256
    ensures Latin1(s + "\n" + rest) == s + "\n" + Latin1(rest)
  {
    Latin1Concat(s + "\n", rest);
    assert Latin1(s + "\n") == s + "\n";
  }

  /** One line of the prologue, encoded, shows nothing. */
  lemma Preamble(s: string, rest: string)
    requires s in PROLOGUE
    ensures Show(Latin1(s + "\n" + rest), 0, None) == Show(Latin1(rest), 0, None)
  {
    if s == PROLOGUE[0] {
      Latin1Line("BT", rest);
      BeginText(Latin1(rest));
    } else if s == PROLOGUE[1] {
      Latin1Line("/F1 11 Tf", rest);
      SetFont(Latin1(rest));
    } else if s == PROLOGUE[2] {
      Latin1Line("14 TL", rest);
      SetLeading(Latin1(rest));
    } else {
      Latin1Line("50 780 Td", rest);
      MoveTo(Latin1(rest));
    }
  }

  lemma PrologueShows(a: string, b: string, c: string, d: string, s4: string)
    requires a in PROLOGUE && b in PROLOGUE && c in PROLOGUE && d in PROLOGUE
    ensures Show(Latin1(a + "\n" + (b + "\n" + (c + "\n" + (d + "\n" + s4)))), 0, None) == Show(Latin1(s4), 0, None)
  {
    var s3 := d + "\n" + s4;
    var s2 := c + "\n" + s3;
    var s1 := b + "\n" + s2;
    Preamble(a, s1);
    Preamble(b, s2);
    Preamble(c, s3);
    Preamble(d, s4);
  }

  /** The content shows what its lines show. */
  lemma ContentShowsItsLines(lines: seq<string>)
    ensures Show(Content(lines), 0, None) == Show(Printed(lines, true), 0, None)
  {
    var parts := LineParts(lines, true);
    JoinedIsPrinted(lines, true);
    JoinFour(PROLOGUE[0], PROLOGUE[1], PROLOGUE[2], PROLOGUE[3], parts);
    PrologueShows(PROLOGUE[0], PROLOGUE[1], PROLOGUE[2], PROLOGUE[3], JoinLines(parts));
    assert PROLOGUE == [PROLOGUE[0], PROLOGUE[1], PROLOGUE[2], PROLOGUE[3]];
  }

  /** The page shows every line in its row, after Latin-1 replacement and with line ends as line feeds. */
  lemma PageRoundTrip(lines: seq<string>)
    ensures ReadPage(File(HEADER, Objects(Content(lines)))) == Some(Page(lines, 0))
  {
    ContentIsFound(Content(lines));
    ContentShowsItsLines(lines);
    ShowPrinted(lines, true, 0);
  }

  /** A line comes back unchanged exactly when it has no carriage return and nothing beyond Latin-1. */
  lemma LineSurvives(line: string)
    ensures Eol(Latin1(line)) == line <==> forall i :: 0 <= i < |line| ==> line[i] != '\r' && line[i] as int < 256
  {
    var bytes := Latin1(line);
    EolOfCrFree(bytes);
    if Eol(bytes) == line {
      assert Free(line, '\r');
      forall i | 0 <= i < |line|
        ensures bytes[i] != '\r'
      {
        assert bytes[i] == Latin1Char(line[i]);
      }
      forall i | 0 <= i < |line|
        ensures line[i] as int < 256
      {
        assert bytes[i] == line[i];
      }
    }
  }
}
