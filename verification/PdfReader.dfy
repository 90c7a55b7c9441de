/**
 * Reading the text of a one-page document back: ISO 32000-1, sections 7.3.4.2 (literal strings),
 * 7.3.8 (streams), 7.5.4 (cross-reference table) and 7.5.5 (file trailer).
 */
module PdfReader {
  import opened Text

  // ---------------------------------------------------------------- literal strings

  predicate IsOctal(c: char) {
    '0' <= c <= '7'
  }

  function OctalRun(s: string, most: nat): (n: nat)
    ensures n <= most && n <= |s|
    ensures forall i :: 0 <= i < n ==> IsOctal(s[i])
  {
    if most == 0 || s == "" || !IsOctal(s[0]) then 0 else 1 + OctalRun(s[1..], most - 1)
  }

  function OctalValue(s: string): nat
    requires forall i :: 0 <= i < |s| ==> IsOctal(s[i])
  {
    if s == "" then 0
    else
      assert IsOctal(s[|s| - 1]);
      OctalValue(s[..|s| - 1]) * 8 + DigitValue(s[|s| - 1])
  }

  /** Where the text goes on after an end-of-line marker at the front. */
  function AfterEol(s: string): (n: nat)
    requires s != ""
    ensures 1 <= n <= |s|
  {
    if |s| >= 2 && s[0] == '\r' && s[1] == '\n' then 2 else 1
  }

  datatype Escaped = Escaped(text: string, length: nat)

  /** What the characters after a reverse solidus stand for, and how many of them belong to it. */
  function ReadEscape(s: string): (e: Escaped)
    requires s != ""
    ensures 1 <= e.length <= |s|
  {
    match s[0]
    case 'n' => Escaped("\n", 1)
    case 'r' => Escaped("\r", 1)
    case 't' => Escaped("\t", 1)
    case 'b' => Escaped("\U{8}", 1)
    case 'f' => Escaped("\U{C}", 1)
    case '\r' => Escaped("", AfterEol(s))
    case '\n' => Escaped("", 1)
    case c =>
      var octal := OctalRun(s, 3);
      if octal > 0 then Escaped([(OctalValue(s[..octal]) % 256) as char], octal) else Escaped([c], 1)
  }

  /** A string that was read, and what follows it. */
  datatype Read = Read(text: string, rest: string)

  function Put(text: string, r: Option<Read>): Option<Read> {
    if r.None? then None else Some(Read(text + r.value.text, r.value.rest))
  }

  /** The string after its opening parenthesis; `depth` balanced parentheses are open inside it. */
  function ReadLiteral(s: string, depth: nat): (r: Option<Read>)
    ensures r.Some? ==> |r.value.rest| < |s|
    decreases |s|
  {
    if s == "" then None
    else
      match s[0]
      case '(' => Put("(", ReadLiteral(s[1..], depth + 1))
      case ')' => if depth == 0 then Some(Read("", s[1..])) else Put(")", ReadLiteral(s[1..], depth - 1))
      case '\\' =>
        if |s| == 1 then None
        else
          var e := ReadEscape(s[1..]);
          Put(e.text, ReadLiteral(s[1 + e.length..], depth))
      case '\r' => Put("\n", ReadLiteral(s[AfterEol(s)..], depth))
      case c => Put([c], ReadLiteral(s[1..], depth))
  }

  // ---------------------------------------------------------------- content streams

  predicate IsPdfSpace(c: char) {
    c in {'\0', '\t', '\n', '\U{C}', '\r', ' '}
  }

  predicate IsDelimiter(c: char) {
    c in {'(', ')', '<', '>', '[', ']', '{', '}', '/', '%'}
  }

  predicate IsRegular(c: char) {
    !IsPdfSpace(c) && !IsDelimiter(c)
  }

  function RegularRun(s: string): (n: nat)
    ensures n <= |s|
  {
    if s == "" || !IsRegular(s[0]) then 0 else 1 + RegularRun(s[1..])
  }

  datatype Token = End | Word(word: string) | Str(value: string)

  datatype Scan = Scan(token: Token, rest: string)

  /** The next word, name or string; an unterminated string ends the content. */
  function NextToken(s: string): (t: Scan)
    ensures t.token != End ==> |t.rest| < |s|
    decreases |s|
  {
    if s == "" then Scan(End, "")
    else if IsPdfSpace(s[0]) then NextToken(s[1..])
    else if s[0] == '(' then
      match ReadLiteral(s[1..], 0)
      case None => Scan(End, "")
      case Some(r) => Scan(Str(r.text), r.rest)
    else
      var n := 1 + RegularRun(s[1..]);
      Scan(Word(s[..n]), s[n..])
  }

  /** A line of the page: how many line advances it lies below the first, and its text. */
  datatype Shown = Shown(row: nat, text: string)

  /** Execute the text operators; the operand of `Tj` is the string right before it. */
  function Show(s: string, row: nat, operand: Option<string>): seq<Shown>
    decreases |s|
  {
    var t := NextToken(s);
    match t.token
    case End => []
    case Str(value) => Show(t.rest, row, Some(value))
    case Word(word) =>
      if word == "ET" then []
      else if word == "T*" then Show(t.rest, row + 1, None)
      else if word == "Tj" && operand.Some? then [Shown(row, operand.value)] + Show(t.rest, row, None)
      else Show(t.rest, row, None)
  }

  // ---------------------------------------------------------------- the file

  function Expect(s: string, prefix: string): (rest: Option<string>)
    ensures rest.Some? <==> prefix <= s
    ensures rest.Some? ==> s == prefix + rest.value
  {
    if prefix <= s then Some(s[|prefix|..]) else None
  }

  function DigitRun(s: string): (n: nat)
    ensures n <= |s| && AllDigits(s[..n])
  {
    if s == "" || !IsDigit(s[0]) then 0 else 1 + DigitRun(s[1..])
  }

  datatype Number = Number(value: nat, rest: string)

  function ReadNumber(s: string): Option<Number> {
    var n := DigitRun(s);
    if n == 0 then None else Some(Number(Value(s[..n]), s[n..]))
  }

  function LastLineStart(s: string): (i: nat)
    ensures i <= |s|
  {
    if s == "" || s[|s| - 1] == '\n' then |s| else LastLineStart(s[..|s| - 1])
  }

  datatype Line = Line(before: string, line: string)

  /** The last line of a text that ends with a line feed. */
  function SplitLastLine(s: string): Option<Line> {
    if s == "" || s[|s| - 1] != '\n' then None
    else
      var t := s[..|s| - 1];
      Some(Line(t[..LastLineStart(t)], t[LastLineStart(t)..]))
  }

  /** From the end of the file: the marker, the offset, the keyword. */
  function ReadStartXref(file: string): Option<nat> {
    match SplitLastLine(file)
    case None => None
    case Some(eof) =>
      match SplitLastLine(eof.before)
      case None => None
      case Some(offset) =>
        match SplitLastLine(offset.before)
        case None => None
        case Some(keyword) =>
          if eof.line == "%%EOF" && keyword.line == "startxref" && offset.line != "" && AllDigits(offset.line)
          then Some(Value(offset.line)) else None
  }

  const ENTRY := 20

  /** The offset in a table entry of twenty bytes, if the object is in use. */
  function ReadEntry(entry: string): Option<nat>
    requires |entry| == ENTRY
  {
    if AllDigits(entry[..10]) && entry[10] == ' ' && entry[17] == 'n' then Some(Value(entry[..10])) else None
  }

  /** The entries after the heading of a section that starts at object 0. */
  function ReadHeading(table: string): Option<Number> {
    match Expect(table, "xref\n0 ")
    case None => None
    case Some(heading) =>
      match ReadNumber(heading)
      case None => None
      case Some(count) =>
        match Expect(count.rest, "\n")
        case None => None
        case Some(entries) => Some(Number(count.value, entries))
  }

  function ReadXref(table: string, id: nat): Option<nat> {
    match ReadHeading(table)
    case None => None
    case Some(section) =>
      if id < section.value && ENTRY * id + ENTRY <= |section.rest|
      then ReadEntry(section.rest[ENTRY * id..ENTRY * id + ENTRY]) else None
  }

  /** The bytes of a stream object, by its declared length. */
  function ReadStream(s: string, id: nat): Option<string> {
    match ReadNumber(s)
    case None => None
    case Some(number) =>
      match Expect(number.rest, " 0 obj<< /Length ")
      case None => None
      case Some(dictionary) =>
        match ReadNumber(dictionary)
        case None => None
        case Some(length) =>
          match Expect(length.rest, " >>stream\n")
          case None => None
          case Some(bytes) =>
            if number.value == id && length.value <= |bytes| then Some(bytes[..length.value]) else None
  }

  const CONTENTS := 4

  /** Where the table says that an object starts. */
  function Locate(file: string, id: nat): Option<nat> {
    match ReadStartXref(file)
    case None => None
    case Some(table) => if table <= |file| then ReadXref(file[table..], id) else None
  }

  /** The lines on the page. */
  function ReadPage(file: string): Option<seq<Shown>> {
    match Locate(file, CONTENTS)
    case None => None
    case Some(at) =>
      if at > |file| then None
      else
        match ReadStream(file[at..], CONTENTS)
        case None => None
        case Some(content) => Some(Show(content, 0, None))
  }
}
