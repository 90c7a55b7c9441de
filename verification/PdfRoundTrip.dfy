/** What a reader finds in the page that the writer produced: every line, in its row. */
module PdfRoundTrip {
  import opened Text
  import opened Whitespace
  import opened PdfReader
  import opened InvoicePdf

  // ---------------------------------------------------------------- escaping, character by character

  function EscapeChar(c: char): string {
    if c in {'\\', '(', ')'} then ['\\', c] else [c]
  }

  function EscapeEach(s: string): string {
    if s == "" then "" else EscapeChar(s[0]) + EscapeEach(s[1..])
  }

  lemma {:induction false} ReplaceConcat(a: string, b: string, c: char, with: string)
    ensures Replace(a + b, c, with) == Replace(a, c, with) + Replace(b, c, with)
    decreases |a|
  {
    if a == "" {
      assert a + b == b;
    } else {
      assert (a + b)[1..] == a[1..] + b;
      ReplaceConcat(a[1..], b, c, with);
    }
  }

  lemma ReplaceOne(x: char, c: char, with: string)
    ensures Replace([x], c, with) == if x == c then with else [x]
  {
    assert [x][1..] == "";
  }

  lemma ReplaceTwo(x: char, y: char, c: char, with: string)
    ensures Replace([x, y], c, with) == (if x == c then with else [x]) + (if y == c then with else [y])
  {
    assert [x, y] == [x] + [y];
    ReplaceConcat([x], [y], c, with);
    ReplaceOne(x, c, with);
    ReplaceOne(y, c, with);
  }

  lemma EscapeConcat(a: string, b: string)
    ensures Escape(a + b) == Escape(a) + Escape(b)
  {
    ReplaceConcat(a, b, '\\', "\\\\");
    var a1, b1 := Replace(a, '\\', "\\\\"), Replace(b, '\\', "\\\\");
    ReplaceConcat(a1, b1, '(', "\\(");
    ReplaceConcat(Replace(a1, '(', "\\("), Replace(b1, '(', "\\("), ')', "\\)");
  }

  lemma EscapeOne(c: char)
    ensures Escape([c]) == EscapeChar(c)
  {
    ReplaceOne(c, '\\', "\\\\");
    if c == '\\' {
      ReplaceTwo('\\', '\\', '(', "\\(");
      ReplaceTwo('\\', '\\', ')', "\\)");
      assert "\\\\" == ['\\', '\\'];
    } else {
      ReplaceOne(c, '(', "\\(");
      if c == '(' {
        assert "\\(" == ['\\', '('];
        ReplaceTwo('\\', '(', ')', "\\)");
      } else {
        ReplaceOne(c, ')', "\\)");
        assert "\\)" == ['\\', ')'];
      }
    }
  }

  /** The three replacements in their order escape each character on its own. */
  lemma {:induction false} EscapeIsPerCharacter(s: string)
    ensures Escape(s) == EscapeEach(s)
  {
    if s != "" {
      EscapeConcat([s[0]], s[1..]);
      assert [s[0]] + s[1..] == s;
      EscapeOne(s[0]);
      EscapeIsPerCharacter(s[1..]);
    }
  }

  lemma Latin1Concat(a: string, b: string)
    ensures Latin1(a + b) == Latin1(a) + Latin1(b)
  {
  }

  /** Encoding after escaping is escaping after encoding. */
  lemma {:induction false} Latin1Escape(s: string)
    ensures Latin1(EscapeEach(s)) == EscapeEach(Latin1(s))
  {
    if s != "" {
      Latin1Concat(EscapeChar(s[0]), EscapeEach(s[1..]));
      Latin1Escape(s[1..]);
      assert Latin1(s)[1..] == Latin1(s[1..]);
      assert Latin1(EscapeChar(s[0])) == EscapeChar(Latin1Char(s[0]));
    }
  }

  // ---------------------------------------------------------------- literal strings

  /** An end-of-line marker inside a string reads as one line feed. */
  function Eol(s: string): string {
    if s == "" then ""
    else if s[0] == '\r' then "\n" + Eol(s[AfterEol(s)..])
    else [s[0]] + Eol(s[1..])
  }

  lemma ReadEscapedChar(c: char, rest: string, depth: nat)
    requires c in {'\\', '(', ')'}
    ensures ReadLiteral(['\\', c] + rest, depth) == Put([c], ReadLiteral(rest, depth))
  {
    var s := ['\\', c] + rest;
    assert s[1..] == [c] + rest;
    assert ReadEscape(s[1..]) == Escaped([c], 1);
    assert s[2..] == rest;
  }

  lemma ReadPlainChar(c: char, rest: string, depth: nat)
    requires c !in {'\\', '(', ')', '\r'}
    ensures ReadLiteral([c] + rest, depth) == Put([c], ReadLiteral(rest, depth))
  {
    assert ([c] + rest)[1..] == rest;
  }

  lemma ReadCarriageReturn(s: string, depth: nat)
    requires s != "" && s[0] == '\r'
    ensures ReadLiteral(s, depth) == Put("\n", ReadLiteral(s[AfterEol(s)..], depth))
  {
  }

  /** A printed line reads back as itself, with its end-of-line markers as line feeds. */
  lemma {:induction false} LiteralRoundTrip(t: string, rest: string)
    ensures ReadLiteral(EscapeEach(t) + (")" + rest), 0) == Some(Read(Eol(t), rest))
    decreases |t|
  {
    var tail := ")" + rest;
    if t == "" {
      assert EscapeEach(t) + tail == tail;
      assert tail[1..] == rest;
    } else if t[0] == '\r' {
      CarriageReturnRoundTrip(t, rest);
    } else {
      LiteralRoundTrip(t[1..], rest);
      var more := EscapeEach(t[1..]) + tail;
      assert EscapeEach(t) + tail == EscapeChar(t[0]) + more;
      if t[0] in {'\\', '(', ')'} {
        ReadEscapedChar(t[0], more, 0);
      } else {
        ReadPlainChar(t[0], more, 0);
      }
    }
  }

  lemma {:induction false} CarriageReturnRoundTrip(t: string, rest: string)
    requires t != "" && t[0] == '\r'
    ensures ReadLiteral(EscapeEach(t) + (")" + rest), 0) == Some(Read(Eol(t), rest))
    decreases |t|, 0
  {
    var n, s := AfterEol(t), EscapeEach(t) + (")" + rest);
    LiteralRoundTrip(t[n..], rest);
    SameEol(t, ")" + rest);
    ReadCarriageReturn(s, 0);
  }

  lemma SameEol(t: string, tail: string)
    requires t != "" && t[0] == '\r' && tail != "" && tail[0] == ')'
    ensures var s, n := EscapeEach(t) + tail, AfterEol(t);
            s[0] == '\r' && AfterEol(s) == n && s[n..] == EscapeEach(t[n..]) + tail
  {
    EscapedEol(t);
  }

  lemma EscapeCons(c: char, s: string)
    ensures EscapeEach([c] + s) == EscapeChar(c) + EscapeEach(s)
  {
    assert ([c] + s)[1..] == s;
  }

  lemma FirstEscaped(s: string)
    ensures s != "" ==> EscapeEach(s) != "" && (EscapeEach(s)[0] == '\n' <==> s[0] == '\n')
  {
  }

  /** A line end is not escaped, and nothing is printed between its two characters. */
  lemma EscapedEol(t: string)
    requires t != "" && t[0] == '\r'
    ensures EscapeEach(t) == t[..AfterEol(t)] + EscapeEach(t[AfterEol(t)..])
    ensures AfterEol(t) == 1 && |t| >= 2 ==> |EscapeEach(t)| >= 2 && EscapeEach(t)[1] != '\n'
  {
    assert t == ['\r'] + t[1..];
    EscapeCons('\r', t[1..]);
    FirstEscaped(t[1..]);
    if AfterEol(t) == 2 {
      assert t[1..] == ['\n'] + t[2..];
      EscapeCons('\n', t[2..]);
      assert t[..2] == ['\r', '\n'];
    } else {
      assert t[..1] == ['\r'];
    }
  }

  lemma {:induction false} EolOfCrFree(s: string)
    ensures Eol(s) == s <==> Free(s, '\r')
    ensures |Eol(s)| <= |s| && Free(Eol(s), '\r')
    decreases |s|
  {
    if s != "" {
      assert s == [s[0]] + s[1..];
      if s[0] == '\r' {
        EolOfCrFree(s[AfterEol(s)..]);
      } else {
        EolOfCrFree(s[1..]);
        assert Free(s, '\r') <==> Free(s[1..], '\r') by {
          if Free(s[1..], '\r') {
            forall i | 0 <= i < |s|
              ensures s[i] != '\r'
            {
              assert i > 0 ==> s[i] == s[1..][i - 1];
            }
          }
        }
      }
    }
  }

  // ---------------------------------------------------------------- tokens

  predicate AllRegular(w: string) {
    forall i :: 0 <= i < |w| ==> IsRegular(w[i])
  }

  /** The text ends here, or a character follows that ends a word. */
  predicate WordEnds(rest: string) {
    rest == "" || !IsRegular(rest[0])
  }

  lemma {:induction false} RegularRunOf(w: string, rest: string)
    requires AllRegular(w) && WordEnds(rest)
    ensures RegularRun(w + rest) == |w|
  {
    if w == "" {
      assert w + rest == rest;
    } else {
      assert (w + rest)[1..] == w[1..] + rest;
      RegularRunOf(w[1..], rest);
    }
  }

  lemma TokenOfWord(c: char, w: string, rest: string)
    requires !IsPdfSpace(c) && c != '(' && AllRegular(w) && WordEnds(rest)
    ensures NextToken([c] + w + rest) == Scan(Word([c] + w), rest)
  {
    var s := [c] + w + rest;
    assert s[1..] == w + rest;
    RegularRunOf(w, rest);
    assert s[..1 + |w|] == [c] + w && s[1 + |w|..] == rest;
  }

  lemma TokenAfterSpace(c: char, s: string)
    requires IsPdfSpace(c)
    ensures NextToken([c] + s) == NextToken(s)
  {
    assert ([c] + s)[1..] == s;
  }

  lemma TokenOfLiteral(t: string, rest: string)
    ensures NextToken("(" + (EscapeEach(t) + (")" + rest))) == Scan(Str(Eol(t)), rest)
  {
    var s := "(" + (EscapeEach(t) + (")" + rest));
    assert s[1..] == EscapeEach(t) + (")" + rest);
    LiteralRoundTrip(t, rest);
  }

  // ---------------------------------------------------------------- executing the content

  lemma ShowSpace(c: char, s: string, row: nat, operand: Option<string>)
    requires IsPdfSpace(c)
    ensures Show([c] + s, row, operand) == Show(s, row, operand)
  {
    TokenAfterSpace(c, s);
  }

  /** A word that is no operator of interest. */
  lemma ShowOther(c: char, w: string, rest: string, row: nat, operand: Option<string>)
    requires !IsPdfSpace(c) && c != '(' && AllRegular(w) && WordEnds(rest)
    requires [c] + w !in {"ET", "T*", "Tj"}
    ensures Show([c] + w + rest, row, operand) == Show(rest, row, None)
  {
    TokenOfWord(c, w, rest);
  }

  lemma ShowNextLine(rest: string, row: nat, operand: Option<string>)
    requires WordEnds(rest)
    ensures Show("T*" + rest, row, operand) == Show(rest, row + 1, None)
  {
    assert "T*" == ['T'] + "*";
    TokenOfWord('T', "*", rest);
  }

  lemma ShowText(t: string, rest: string, row: nat, operand: Option<string>)
    requires WordEnds(rest)
    ensures Show("(" + (EscapeEach(t) + (")" + (" " + ("Tj" + rest)))), row, operand)
            == [Shown(row, Eol(t))] + Show(rest, row, None)
  {
    TokenOfLiteral(t, " " + ("Tj" + rest));
    ShowSpace(' ', "Tj" + rest, row, Some(Eol(t)));
    assert "Tj" == ['T'] + "j";
    TokenOfWord('T', "j", rest);
  }

  lemma ShowEnd(row: nat, operand: Option<string>)
    ensures Show("ET", row, operand) == []
  {
    assert "ET" == ['E'] + "T" + "";
    TokenOfWord('E', "T", "");
  }

  /** What a reader should see: the lines in consecutive rows, as far as the encoding can show them. */
  function Page(lines: seq<string>, row: nat): seq<Shown> {
    if lines == [] then [] else [Shown(row, Eol(Latin1(lines[0])))] + Page(lines[1..], row + 1)
  }

  // The parts joined and encoded, written so that the reader can take them one after the other.
  function Printed(lines: seq<string>, first: bool): string {
    if lines == [] then "ET"
    else (if first then "" else "T*" + "\n") + TextLine(lines[0], "\n" + Printed(lines[1..], false))
  }

  function TextLine(line: string, rest: string): string {
    "(" + (EscapeEach(Latin1(line)) + (")" + (" " + ("Tj" + rest))))
  }

  lemma ShowTextLine(line: string, more: string, row: nat)
    ensures Show(TextLine(line, "\n" + more), row, None) == [Shown(row, Eol(Latin1(line)))] + Show(more, row, None)
  {
    ShowText(Latin1(line), "\n" + more, row, None);
    ShowSpace('\n', more, row, None);
  }

  lemma ShowAdvance(text: string, row: nat)
    ensures Show("T*" + "\n" + text, row, None) == Show(text, row + 1, None)
  {
    assert "T*" + "\n" + text == "T*" + ("\n" + text);
    ShowNextLine("\n" + text, row, None);
    ShowSpace('\n', text, row + 1, None);
  }

  lemma {:induction false} ShowPrinted(lines: seq<string>, first: bool, row: nat)
    ensures Show(Printed(lines, first), row, None) == Page(lines, if first then row else row + 1)
  {
    if lines == [] {
      ShowEnd(row, None);
    } else {
      var more := Printed(lines[1..], false);
      var at := if first then row else row + 1;
      ShowTextLine(lines[0], more, at);
      ShowPrinted(lines[1..], false, at);
      PrintedCons(lines, first, TextLine(lines[0], "\n" + more));
      if !first {
        ShowAdvance(TextLine(lines[0], "\n" + more), row);
      }
      assert Page(lines, at) == [Shown(at, Eol(Latin1(lines[0])))] + Page(lines[1..], at + 1);
    }
  }

  lemma PrintedCons(lines: seq<string>, first: bool, text: string)
    requires lines != [] && text == TextLine(lines[0], "\n" + Printed(lines[1..], false))
    ensures Printed(lines, first) == if first then text else "T*" + "\n" + text
  {
  }

  // ---------------------------------------------------------------- what the writer joined

  lemma JoinCons(part: string, parts: seq<string>)
    requires parts != []
    ensures JoinLines([part] + parts) == part + "\n" + JoinLines(parts)
  {
    assert ([part] + parts)[1..] == parts;
  }

  lemma Latin1Marks()
    ensures Latin1("(") == "(" && Latin1(") Tj\n") == ") Tj\n" && ") Tj\n" == ")" + (" " + ("Tj" + "\n"))
  {
  }

  lemma TextPart(line: string, rest: string)
    ensures Latin1("(" + Escape(line) + ") Tj" + "\n" + rest) == TextLine(line, "\n" + Latin1(rest))
  {
    EscapeIsPerCharacter(line);
    Latin1Escape(line);
    Latin1Marks();
    var e := EscapeEach(line);
    var mark := ") Tj\n";
    assert "(" + e + ") Tj" + "\n" + rest == "(" + (e + (mark + rest)) by {
      assert ") Tj" + "\n" == mark;
    }
    Latin1Concat("(", e + (mark + rest));
    Latin1Concat(e, mark + rest);
    Latin1Concat(mark, rest);
    assert mark + Latin1(rest) == ")" + (" " + ("Tj" + ("\n" + Latin1(rest))));
  }

  lemma NextLinePart(rest: string)
    ensures Latin1("T*" + "\n" + rest) == "T*" + "\n" + Latin1(rest)
  {
    Latin1Concat("T*" + "\n", rest);
    assert Latin1("T*" + "\n") == "T*" + "\n";
  }

  lemma {:induction false} JoinedIsPrinted(lines: seq<string>, first: bool)
    ensures LineParts(lines, first) != [] && Latin1(JoinLines(LineParts(lines, first))) == Printed(lines, first)
  {
    if lines == [] {
      assert Latin1("ET") == "ET";
    } else {
      var rest := LineParts(lines[1..], false);
      var part := "(" + Escape(lines[0]) + ") Tj";
      JoinedIsPrinted(lines[1..], false);
      JoinCons(part, rest);
      TextPart(lines[0], JoinLines(rest));
      var text := TextLine(lines[0], "\n" + Printed(lines[1..], false));
      assert Latin1(JoinLines([part] + rest)) == text;
      if first {
        assert LineParts(lines, first) == [part] + rest;
      } else {
        JoinCons("T*", [part] + rest);
        NextLinePart(JoinLines([part] + rest));
      }
    }
  }
}
