/** The eighteen lines of an invoice page: labels, dates and amounts of money, and what of them can be read back. */
module InvoiceLines {
  import opened Calendar
  import opened Periods
  import opened Text
  import opened InvoicePdf
  import opened PdfReader
  import opened PdfRoundTrip
  import opened PdfFile
  import opened PdfDocument

  // ---------------------------------------------------------------- money

  /** A comma before every group of three digits. */
  function Grouped(s: string): string {
    if |s| <= 3 then s else Grouped(s[..|s| - 3]) + ("," + s[|s| - 3..])
  }

  function Unsigned(n: nat): string {
    Grouped(Decimal(n / 100)) + ("." + Padded(n % 100, 2))
  }

  /** An amount in minor units, in major units with two decimals. */
  function Amount(a: int): string {
    if a < 0 then "-" + Unsigned(-a) else Unsigned(a)
  }

  /** `_money` */
  function Money(amount: int, currency: string): string {
    currency + (" " + Amount(amount))
  }

  function Digits(s: string): (d: string)
    ensures AllDigits(d)
  {
    if s == "" then "" else DigitOnly(s[0]) + Digits(s[1..])
  }

  /** The amount that a printed text denotes. */
  function ReadAmount(s: string): int {
    var n: int := Value(Digits(s));
    if s != "" && s[0] == '-' then -n else n
  }

  function DigitOnly(c: char): string {
    if IsDigit(c) then [c] else ""
  }

  lemma DigitsFirst(s: string)
    requires s != ""
    ensures Digits(s) == DigitOnly(s[0]) + Digits(s[1..])
  {
  }

  lemma DigitsOfBoth(a: string, b: string)
    requires a != ""
    ensures Digits(a + b) == DigitOnly(a[0]) + Digits(a[1..] + b)
  {
    DigitsFirst(a + b);
    assert (a + b)[0] == a[0] && (a + b)[1..] == a[1..] + b;
  }

  lemma Regrouped(x: string, y: string, z: string)
    ensures x + (y + z) == (x + y) + z
  {
  }

  lemma {:induction false} DigitsConcat(a: string, b: string)
    ensures Digits(a + b) == Digits(a) + Digits(b)
  {
    if a == "" {
      assert a + b == b;
    } else {
      DigitsFirst(a);
      DigitsConcat(a[1..], b);
      DigitsOfBoth(a, b);
      Regrouped(DigitOnly(a[0]), Digits(a[1..]), Digits(b));
    }
  }

  lemma {:induction false} DigitsOfDigits(s: string)
    requires AllDigits(s)
    ensures Digits(s) == s
  {
    if s != "" {
      DigitsOfDigits(s[1..]);
    }
  }

  lemma DigitsAfter(c: char, s: string)
    requires !IsDigit(c)
    ensures Digits([c] + s) == Digits(s)
  {
    assert ([c] + s)[1..] == s;
  }

  lemma GroupedLonger(front: string, group: string)
    requires front != "" && |group| == 3
    ensures Grouped(front + group) == Grouped(front) + ("," + group)
  {
    var s := front + group;
    assert s[..|s| - 3] == front && s[|s| - 3..] == group;
  }

  lemma {:induction false} DigitsGrouped(s: string)
    requires AllDigits(s)
    ensures Digits(Grouped(s)) == s
    decreases |s|
  {
    if |s| <= 3 {
      DigitsOfDigits(s);
    } else {
      var front, group := s[..|s| - 3], s[|s| - 3..];
      assert s == front + group;
      GroupedLonger(front, group);
      DigitsGrouped(front);
      DigitsConcat(Grouped(front), "," + group);
      DigitsAfter(',', group);
      DigitsOfDigits(group);
    }
  }

  lemma ValueOfTwo(a: string, b: string)
    requires AllDigits(a) && AllDigits(b) && |b| == 2
    ensures AllDigits(a + b) && Value(a + b) == Value(a) * 100 + Value(b)
  {
    var s, t := a + b, a + b[..1];
    assert s[..|s| - 1] == t && s[|s| - 1] == b[1];
    assert t[..|t| - 1] == a && t[|t| - 1] == b[0];
    assert b[..1][..0] == "" && Value(b[..1]) == DigitValue(b[0]);
    assert AllDigits(s) && AllDigits(t);
  }

  lemma DigitsOfParts(major: string, minor: string)
    requires AllDigits(major) && AllDigits(minor)
    ensures Digits(Grouped(major) + ("." + minor)) == major + minor
  {
    DigitsConcat(Grouped(major), "." + minor);
    DigitsGrouped(major);
    DigitsAfter('.', minor);
    DigitsOfDigits(minor);
  }

  lemma ValueOfParts(n: nat)
    ensures AllDigits(Decimal(n / 100) + Padded(n % 100, 2)) && Value(Decimal(n / 100) + Padded(n % 100, 2)) == n
  {
    DecimalRoundTrip(n / 100);
    PaddedRoundTrip(n % 100, 2);
    assert Power10(2) == 100;
    PaddedWidth(n % 100, 2);
    ValueOfTwo(Decimal(n / 100), Padded(n % 100, 2));
  }

  lemma UnsignedDigits(n: nat)
    ensures Value(Digits(Unsigned(n))) == n
  {
    DigitsOfParts(Decimal(n / 100), Padded(n % 100, 2));
    ValueOfParts(n);
  }

  /** Plain text: printable ASCII without the space. */
  predicate Plain(s: string) {
    forall i :: 0 <= i < |s| ==> 0x20 < s[i] as int < 0x7F
  }

  lemma {:induction false} GroupedIsPlain(s: string)
    requires AllDigits(s) && s != ""
    ensures Plain(Grouped(s)) && Grouped(s) != "" && IsDigit(Grouped(s)[0])
    decreases |s|
  {
    if |s| > 3 {
      GroupedIsPlain(s[..|s| - 3]);
    }
  }

  lemma AmountIsPlain(a: int)
    ensures Plain(Amount(a))
  {
    var n := if a < 0 then -a else a;
    GroupedIsPlain(Decimal(n / 100));
  }

  /** What is printed for an amount denotes that amount, so different amounts are printed differently. */
  lemma AmountRoundTrip(a: int)
    ensures ReadAmount(Amount(a)) == a
  {
    var n := if a < 0 then -a else a;
    UnsignedDigits(n);
    GroupedIsPlain(Decimal(n / 100));
    DigitsAfter('-', Unsigned(n));
  }

  // ---------------------------------------------------------------- the lines

  datatype Fields = Fields(
    issuer: string, number: string, tenantName: string, tenantSlug: string,
    amount: int, currency: string, tax: int, status: string, notes: string, issued: DateTime,
    start: Option<DateTime>, end: Option<DateTime>, due: Option<DateTime>, paid: Option<DateTime>)

  const DASH := "\U{2014}"
  const ARROW := " \U{2192} "

  function DateText(d: DateTime): string {
    Dashed(Padded(d.year, 4), Padded(d.month, 2), Padded(d.day, 2))
  }

  function Dashed(y: string, m: string, d: string): string {
    y + ("-" + (m + ("-" + d)))
  }

  function TimeText(d: DateTime): string {
    var minutes := d.micros / (60 * MICROS_PER_SECOND);
    Padded(minutes / 60, 2) + ":" + Padded(minutes % 60, 2)
  }

  function DateOr(d: Option<DateTime>, otherwise: string): string {
    if d.Some? then DateText(d.value) else otherwise
  }

  function PeriodText(start: Option<DateTime>, end: Option<DateTime>): string {
    if start.Some? || end.Some? then DateOr(start, "?") + (ARROW + DateOr(end, "?")) else DASH
  }

  /** A line with its title. */
  function Titled(title: string, rest: string): string {
    title + rest
  }

  function IssuedText(d: DateTime): string {
    DateText(d) + (" " + (TimeText(d) + " UTC"))
  }

  function NotesText(notes: string): string {
    if notes != "" then notes else DASH
  }

  function HeadingTitle(i: nat): string {
    if i == 0 then "Invoice: " else if i == 1 then "Status:  " else if i == 2 then "Issued:  " else "Bill to: "
  }

  function HeadingEntry(f: Fields, i: nat): string {
    if i == 0 then f.number else if i == 1 then f.status else if i == 2 then IssuedText(f.issued) else Customer(f)
  }

  function Customer(f: Fields): string {
    f.tenantName + (" (" + (f.tenantSlug + ")"))
  }

  function DateTitle(i: nat): string {
    if i == 0 then "Due:     " else "Paid:    "
  }

  function DateOf(f: Fields, i: nat): Option<DateTime> {
    if i == 0 then f.due else f.paid
  }

  function MoneyTitle(i: nat): string {
    if i == 0 then "Subtotal: " else if i == 1 then "Tax/VAT:  " else "Total:    "
  }

  function MoneyOf(f: Fields, i: nat): int {
    if i == 0 then f.amount - f.tax else if i == 1 then f.tax else f.amount
  }

  const SUBJECT := "SaaS " + "Invoice"
  const PERIOD := "Period:  "
  const NOTES := "Notes: "
  const CLOSING := "This document " + ("is generated " + ("by Multi-Academy " + "Control."))

  function Headings(f: Fields): (lines: seq<string>)
    ensures |lines| == 4
  {
    seq(4, i requires 0 <= i < 4 => Titled(HeadingTitle(i), HeadingEntry(f, i)))
  }

  function Dates(f: Fields): (lines: seq<string>)
    ensures |lines| == 2
  {
    seq(2, i requires 0 <= i < 2 => Titled(DateTitle(i), DateOr(DateOf(f, i), DASH)))
  }

  function Totals(f: Fields): (lines: seq<string>)
    ensures |lines| == 3
  {
    seq(3, i requires 0 <= i < 3 => Titled(MoneyTitle(i), Money(MoneyOf(f, i), f.currency)))
  }

  function Lines(f: Fields): (lines: seq<string>)
    ensures |lines| == 18
  {
    Blocks([f.issuer, SUBJECT, ""], Headings(f), Titled(PERIOD, PeriodText(f.start, f.end)), Dates(f), Totals(f),
           Titled(NOTES, NotesText(f.notes)), CLOSING)
  }

  function Blocks(top: seq<string>, headings: seq<string>, period: string, dates: seq<string>, totals: seq<string>,
                  notes: string, closing: string): (lines: seq<string>)
    requires |top| == 3 && |headings| == 4 && |dates| == 2 && |totals| == 3
    ensures |lines| == 18
    ensures forall i :: 0 <= i < 3 ==> lines[i] == top[i]
    ensures forall i :: 0 <= i < 4 ==> lines[3 + i] == headings[i]
    ensures forall i :: 0 <= i < 2 ==> lines[8 + i] == dates[i]
    ensures forall i :: 0 <= i < 3 ==> lines[11 + i] == totals[i]
    ensures lines[7] == period && lines[15] == notes && lines[17] == closing
  {
    top + headings + [period] + dates + [""] + totals + ["", notes, "", closing]
  }

  // ---------------------------------------------------------------- what a reader gets

  lemma {:induction false} PageAt(lines: seq<string>, row: nat, i: nat)
    requires i < |lines|
    ensures |Page(lines, row)| == |lines| && Page(lines, row)[i] == Shown(row + i, Eol(Latin1(lines[i])))
    decreases i
  {
    if i > 0 {
      PageAt(lines[1..], row + 1, i - 1);
    } else {
      PageLength(lines, row);
    }
  }

  lemma {:induction false} PageLength(lines: seq<string>, row: nat)
    ensures |Page(lines, row)| == |lines|
    decreases |lines|
  {
    if lines != [] {
      PageLength(lines[1..], row + 1);
    }
  }

  /** The text after the last space. */
  function LastWord(s: string): string {
    if s == "" || s[|s| - 1] == ' ' then "" else LastWord(s[..|s| - 1]) + [s[|s| - 1]]
  }

  lemma {:induction false} LastWordIs(front: string, word: string)
    requires Plain(word)
    ensures LastWord(front + (" " + word)) == word
    decreases |word|
  {
    if word == "" {
      assert (front + (" " + word))[|front|] == ' ';
    } else {
      var n := |word| - 1;
      LastWordIs(front, word[..n]);
      LastWordLonger(front + (" " + word[..n]), word[n]);
      assert word == word[..n] + [word[n]];
      assert front + (" " + word) == front + (" " + word[..n]) + [word[n]];
    }
  }

  lemma LastWordLonger(s: string, c: char)
    requires c != ' '
    ensures LastWord(s + [c]) == LastWord(s) + [c]
  {
    assert (s + [c])[..|s|] == s;
  }

  lemma EolFirst(u: string)
    requires u != ""
    ensures Eol(u) == if u[0] == '\r' then "\n" + Eol(u[AfterEol(u)..]) else [u[0]] + Eol(u[1..])
  {
  }

  lemma SameAfterEol(u: string, v: string)
    requires u != "" && v != "" && v[0] != '\n'
    ensures (u + v)[0] == u[0] && AfterEol(u + v) == AfterEol(u) && (u + v)[AfterEol(u)..] == u[AfterEol(u)..] + v
  {
  }

  lemma EolOfCr(u: string, v: string)
    requires u != "" && u[0] == '\r' && v != "" && v[0] != '\n'
    ensures Eol(u + v) == "\n" + Eol(u[AfterEol(u)..] + v)
  {
    SameAfterEol(u, v);
    EolFirst(u + v);
  }

  lemma EolOfOther(u: string, v: string)
    requires u != "" && u[0] != '\r'
    ensures Eol(u + v) == [u[0]] + Eol(u[1..] + v)
  {
    assert (u + v)[0] == u[0] && (u + v)[1..] == u[1..] + v;
    EolFirst(u + v);
  }

  /** Text after which no line feed follows is read on its own. */
  lemma {:induction false} EolThenPlain(u: string, v: string)
    requires v != "" && v[0] != '\n' && forall i :: 0 <= i < |v| ==> v[i] != '\r'
    ensures Eol(u + v) == Eol(u) + v
    decreases |u|
  {
    if u == "" {
      assert u + v == v;
      EolOfCrFree(v);
    } else {
      EolFirst(u);
      if u[0] == '\r' {
        EolOfCr(u, v);
        EolThenPlain(u[AfterEol(u)..], v);
        Regrouped("\n", Eol(u[AfterEol(u)..]), v);
      } else {
        EolOfOther(u, v);
        EolThenPlain(u[1..], v);
        Regrouped([u[0]], Eol(u[1..]), v);
      }
    }
  }

  lemma ShownWord(front: string, word: string)
    requires Plain(word)
    ensures LastWord(Eol(Latin1(front + (" " + word)))) == word
  {
    assert Latin1(front + (" " + word)) == Latin1(front) + (" " + word);
    EolThenPlain(Latin1(front), " " + word);
    LastWordIs(Eol(Latin1(front)), word);
  }

  lemma ShownMoney(title: string, amount: int, currency: string)
    ensures ReadAmount(LastWord(Seen(Titled(title, Money(amount, currency))))) == amount
  {
    assert Titled(title, Money(amount, currency)) == (title + currency) + (" " + Amount(amount));
    AmountIsPlain(amount);
    ShownWord(title + currency, Amount(amount));
    AmountRoundTrip(amount);
  }

  /** What the page shows of a text. */
  function Seen(text: string): string {
    Eol(Latin1(text))
  }

  /** A character that is shown as it is. */
  predicate Shows(c: char) {
    c != '\r' && c as int < 256
  }

  predicate AllShow(s: string) {
    forall i :: 0 <= i < |s| ==> Shows(s[i])
  }

  lemma {:induction false} EolAfterShown(u: string, v: string)
    requires forall i :: 0 <= i < |u| ==> u[i] != '\r'
    ensures Eol(u + v) == u + Eol(v)
    decreases |u|
  {
    if u == "" {
      assert u + v == v;
    } else {
      EolOfOther(u, v);
      EolAfterShown(u[1..], v);
      Regrouped([u[0]], u[1..], Eol(v));
      assert [u[0]] + u[1..] == u;
    }
  }

  /** A title of plain characters is shown as it is, and the rest of the line after it. */
  lemma TitleIsSeen(title: string, rest: string)
    requires AllShow(title)
    ensures Seen(Titled(title, rest)) == title + Seen(rest)
  {
    assert Latin1(Titled(title, rest)) == title + Latin1(rest);
    EolAfterShown(title, Latin1(rest));
  }

  lemma AllShown(text: string)
    requires AllShow(text)
    ensures Seen(text) == text
  {
    LineSurvives(text);
  }

  /** The row of the page reads the title and then the text. */
  predicate Says(page: seq<Shown>, row: nat, title: string, text: string) {
    row < |page| && page[row].row == row && page[row].text == title + text
  }

  lemma RowSays(lines: seq<string>, row: nat, title: string, rest: string)
    requires row < |lines| && lines[row] == Titled(title, rest) && AllShow(title)
    ensures Says(Page(lines, 0), row, title, Seen(rest))
  {
    PageAt(lines, 0, row);
    TitleIsSeen(title, rest);
  }

  /** The amount in a row of the page, as its last word denotes it. */
  function AmountIn(page: seq<Shown>, row: nat): int {
    if row < |page| then ReadAmount(LastWord(page[row].text)) else 0
  }

  lemma MoneyRow(lines: seq<string>, row: nat, title: string, amount: int, currency: string)
    requires row < |lines| && lines[row] == Titled(title, Money(amount, currency))
    ensures AmountIn(Page(lines, 0), row) == amount
  {
    PageAt(lines, 0, row);
    ShownMoney(title, amount, currency);
  }

  lemma MoneyTitleShows(i: nat)
    ensures AllShow(MoneyTitle(i))
  {
  }

  lemma HeadingTitleShows(i: nat)
    ensures AllShow(HeadingTitle(i))
  {
  }

  lemma DateTitleShows(i: nat)
    ensures AllShow(DateTitle(i))
  {
  }

  /** The money rows: title, text and amount. */
  lemma MoneyRows(f: Fields, i: nat)
    requires i < 3
    ensures Says(Page(Lines(f), 0), 11 + i, MoneyTitle(i), Seen(Money(MoneyOf(f, i), f.currency)))
    ensures AmountIn(Page(Lines(f), 0), 11 + i) == MoneyOf(f, i)
  {
    assert Lines(f)[11 + i] == Totals(f)[i];
    MoneyTitleShows(i);
    RowSays(Lines(f), 11 + i, MoneyTitle(i), Money(MoneyOf(f, i), f.currency));
    MoneyRow(Lines(f), 11 + i, MoneyTitle(i), MoneyOf(f, i), f.currency);
  }

  /** The date rows; a missing date is a question mark. */
  lemma DateRows(f: Fields, i: nat)
    requires i < 2
    ensures Says(Page(Lines(f), 0), 8 + i, DateTitle(i), SeenDateOr(DateOf(f, i)))
  {
    assert Lines(f)[8 + i] == Dates(f)[i];
    DateTitleShows(i);
    RowSays(Lines(f), 8 + i, DateTitle(i), DateOr(DateOf(f, i), DASH));
    SeenDate(DateOf(f, i));
  }

  /** The arrow between two dates, and the dash for none, show as question marks. */
  function SeenPeriod(start: Option<DateTime>, end: Option<DateTime>): string {
    if start.Some? || end.Some? then SeenDateOr(start) + (" ? " + SeenDateOr(end)) else "?"
  }

  lemma SeenPeriodText(start: Option<DateTime>, end: Option<DateTime>)
    ensures Seen(PeriodText(start, end)) == SeenPeriod(start, end)
  {
    if start.Some? || end.Some? {
      var a, b := SeenDateOr(start), SeenDateOr(end);
      DateOrShows(start);
      DateOrShows(end);
      EncodedArrow(a, b);
      ShowsAllParts(" ? ", b);
      ShowsAllParts(a, " ? " + b);
      EolOfCrFree(a + (" ? " + b));
    } else {
      assert Latin1(DASH) == "?";
      EolOfCrFree("?");
    }
  }

  lemma EncodedArrow(a: string, b: string)
    requires AllShow(a) && AllShow(b)
    ensures Latin1(a + (ARROW + b)) == a + (" ? " + b)
  {
    Latin1Concat(a, ARROW + b);
    Latin1Concat(ARROW, b);
    assert Latin1(ARROW) == " ? ";
    assert Latin1(a) == a && Latin1(b) == b;
  }

  lemma DateOrShows(d: Option<DateTime>)
    ensures AllShow(SeenDateOr(d)) && DateOr(d, "?") == SeenDateOr(d)
  {
    if d.Some? {
      DateIsPlain(d.value);
    }
  }

  lemma PeriodRow(f: Fields)
    ensures Says(Page(Lines(f), 0), 7, PERIOD, SeenPeriod(f.start, f.end))
  {
    RowSays(Lines(f), 7, PERIOD, PeriodText(f.start, f.end));
    SeenPeriodText(f.start, f.end);
  }

  lemma PlainRow(f: Fields, row: nat, text: string)
    requires row < 18 && Lines(f)[row] == text
    ensures Says(Page(Lines(f), 0), row, "", Seen(text))
  {
    PageAt(Lines(f), 0, row);
    assert "" + Seen(text) == Seen(text);
  }

  lemma FixedTextsShow()
    ensures Seen(SUBJECT) == SUBJECT && Seen(CLOSING) == CLOSING
  {
    ShowsAllParts("SaaS ", "Invoice");
    AllShown(SUBJECT);
    ShowsAllParts("by Multi-Academy ", "Control.");
    ShowsAllParts("is generated ", "by Multi-Academy " + "Control.");
    ShowsAllParts("This document ", "is generated " + ("by Multi-Academy " + "Control."));
    AllShown(CLOSING);
  }

  function SeenDateOr(d: Option<DateTime>): string {
    if d.Some? then DateText(d.value) else "?"
  }

  lemma HeadingRows(f: Fields, i: nat)
    requires i < 4
    ensures Says(Page(Lines(f), 0), 3 + i, HeadingTitle(i), Seen(HeadingEntry(f, i)))
  {
    assert Lines(f)[3 + i] == Headings(f)[i];
    HeadingTitleShows(i);
    RowSays(Lines(f), 3 + i, HeadingTitle(i), HeadingEntry(f, i));
  }

  lemma NotesRow(f: Fields)
    ensures Says(Page(Lines(f), 0), 15, NOTES, if f.notes == "" then "?" else Seen(f.notes))
  {
    RowSays(Lines(f), 15, NOTES, NotesText(f.notes));
    SeenNotes(f.notes);
  }

  lemma SeenDate(d: Option<DateTime>)
    ensures Seen(DateOr(d, DASH)) == SeenDateOr(d)
  {
    if d.Some? {
      DateIsPlain(d.value);
      AllShown(DateText(d.value));
    } else {
      assert Latin1(DASH) == "?";
      EolOfCrFree("?");
    }
  }

  /** The issue date and time are shown as they are, the date first. */
  lemma IssuedReads(d: DateTime)
    requires d.year <= 9999
    ensures var t := Seen(IssuedText(d)); |t| == 20 && t[..10] == DateText(d) && t[11..16] == TimeText(d)
  {
    DateReads(d);
    TimeReads(d);
    DateIsPlain(d);
    TimeIsPlain(d);
    ShowsAllParts(DateText(d), " " + (TimeText(d) + " UTC"));
    AllShown(IssuedText(d));
  }

  lemma SeenNotes(notes: string)
    ensures Seen(NotesText(notes)) == if notes == "" then "?" else Seen(notes)
  {
    assert Latin1(DASH) == "?";
    EolOfCrFree("?");
  }

  /**
   * Whatever the names, the currency and the notes are: the last words of the three money rows of the page
   * denote the subtotal, the tax and the total, and the first two add up to the third.
   */
  lemma PrintedAmountsReadBack(f: Fields)
    ensures var page := Page(Lines(f), 0);
            && AmountIn(page, 11) == f.amount - f.tax && AmountIn(page, 12) == f.tax && AmountIn(page, 13) == f.amount
            && AmountIn(page, 11) + AmountIn(page, 12) == AmountIn(page, 13)
  {
    MoneyRows(f, 0);
    MoneyRows(f, 1);
    MoneyRows(f, 2);
  }

  /** What the rows of an invoice page say. */
  ghost predicate InvoicePage(f: Fields, page: seq<Shown>) {
    && |page| == 18
    && (forall i :: 0 <= i < 4 ==> Says(page, 3 + i, HeadingTitle(i), Seen(HeadingEntry(f, i))))
    && (forall i :: 0 <= i < 2 ==> Says(page, 8 + i, DateTitle(i), SeenDateOr(DateOf(f, i))))
    && (forall i :: 0 <= i < 3 ==> Says(page, 11 + i, MoneyTitle(i), Seen(Money(MoneyOf(f, i), f.currency))))
    && (forall i :: 0 <= i < 3 ==> AmountIn(page, 11 + i) == MoneyOf(f, i))
    && Says(page, 7, PERIOD, SeenPeriod(f.start, f.end))
    && Says(page, 15, NOTES, if f.notes == "" then "?" else Seen(f.notes))
    && Says(page, 0, "", Seen(f.issuer)) && Says(page, 1, "", SUBJECT) && Says(page, 17, "", CLOSING)
  }

  lemma PageOfInvoice(f: Fields)
    ensures InvoicePage(f, Page(Lines(f), 0))
  {
    PageLength(Lines(f), 0);
    forall i | 0 <= i < 4
      ensures Says(Page(Lines(f), 0), 3 + i, HeadingTitle(i), Seen(HeadingEntry(f, i)))
    {
      HeadingRows(f, i);
    }
    forall i | 0 <= i < 2
      ensures Says(Page(Lines(f), 0), 8 + i, DateTitle(i), SeenDateOr(DateOf(f, i)))
    {
      DateRows(f, i);
    }
    forall i | 0 <= i < 3
      ensures Says(Page(Lines(f), 0), 11 + i, MoneyTitle(i), Seen(Money(MoneyOf(f, i), f.currency)))
      ensures AmountIn(Page(Lines(f), 0), 11 + i) == MoneyOf(f, i)
    {
      MoneyRows(f, i);
    }
    NotesRow(f);
    PeriodRow(f);
    PlainRow(f, 0, f.issuer);
    PlainRow(f, 1, SUBJECT);
    PlainRow(f, 17, CLOSING);
    FixedTextsShow();
  }

  /** Which title and which amount or date belong to which row. */
  lemma TitlesAndContents(f: Fields)
    ensures MoneyTitle(0) == "Subtotal: " && MoneyOf(f, 0) == f.amount - f.tax
    ensures MoneyTitle(1) == "Tax/VAT:  " && MoneyOf(f, 1) == f.tax
    ensures MoneyTitle(2) == "Total:    " && MoneyOf(f, 2) == f.amount
    ensures DateTitle(0) == "Due:     " && DateOf(f, 0) == f.due
    ensures DateTitle(1) == "Paid:    " && DateOf(f, 1) == f.paid
    ensures HeadingTitle(0) == "Invoice: " && HeadingEntry(f, 0) == f.number
    ensures HeadingTitle(1) == "Status:  " && HeadingEntry(f, 1) == f.status
    ensures HeadingTitle(2) == "Issued:  " && HeadingEntry(f, 2) == IssuedText(f.issued)
    ensures HeadingTitle(3) == "Bill to: " && HeadingEntry(f, 3) == f.tenantName + " (" + f.tenantSlug + ")"
    ensures PERIOD == "Period:  " && NOTES == "Notes: " && SUBJECT == "SaaS " + "Invoice"
    ensures CLOSING == "This document " + ("is generated " + ("by Multi-Academy " + "Control."))
  {
    assert f.tenantName + (" (" + (f.tenantSlug + ")")) == f.tenantName + " (" + f.tenantSlug + ")";
  }

  /** The file, the page that a reader gets from it, and what the rows of that page say. */
  method BuildInvoicePdf(f: Fields) returns (out: string)
    ensures out == File(HEADER, Objects(Content(Lines(f))))
    ensures ReadDocument(out).Some? && InvoicePage(f, ReadDocument(out).value)
    ensures MoneyTitle(0) == "Subtotal: " && MoneyOf(f, 0) == f.amount - f.tax
    ensures MoneyTitle(1) == "Tax/VAT:  " && MoneyOf(f, 1) == f.tax
    ensures MoneyTitle(2) == "Total:    " && MoneyOf(f, 2) == f.amount
    ensures DateTitle(0) == "Due:     " && DateOf(f, 0) == f.due
    ensures DateTitle(1) == "Paid:    " && DateOf(f, 1) == f.paid
  {
    var lines := Lines(f);
    out := WriteInvoicePdf(lines);
    DocumentRoundTrip(lines);
    PageOfInvoice(f);
    TitlesAndContents(f);
  }

  // ---------------------------------------------------------------- dates, times and grouping

  lemma ShowsAllParts(a: string, b: string)
    requires AllShow(a) && AllShow(b)
    ensures AllShow(a + b)
  {
  }

  lemma PlainParts(a: string, b: string)
    requires Plain(a) && Plain(b)
    ensures Plain(a + b)
  {
  }

  lemma DateIsPlain(d: DateTime)
    ensures Plain(DateText(d))
  {
    var y, m, day := Padded(d.year, 4), Padded(d.month, 2), Padded(d.day, 2);
    PlainParts("-", day);
    PlainParts(m, "-" + day);
    PlainParts("-", m + ("-" + day));
    PlainParts(y, "-" + (m + ("-" + day)));
  }

  lemma SurvivesExactly(title: string, d: Option<DateTime>)
    requires AllShow(title)
    ensures Seen(Titled(title, DateOr(d, DASH))) == Titled(title, DateOr(d, DASH)) <==> d.Some?
  {
    var line := Titled(title, DateOr(d, DASH));
    LineSurvives(line);
    if d.Some? {
      DateIsPlain(d.value);
    } else {
      assert line[|title|] == DASH[0];
    }
  }

  lemma BeyondLatin1(line: string, i: nat)
    requires i < |line| && line[i] as int >= 256
    ensures Seen(line) != line
  {
    LineSurvives(line);
  }

  lemma PeriodIsLost(title: string, start: Option<DateTime>, end: Option<DateTime>)
    ensures Seen(Titled(title, PeriodText(start, end))) != Titled(title, PeriodText(start, end))
  {
    var text := PeriodText(start, end);
    var line := Titled(title, text);
    if start.Some? || end.Some? {
      var front := DateOr(start, "?");
      assert text[|front| + 1] == ARROW[1];
      assert line[|title| + (|front| + 1)] == ARROW[1];
      BeyondLatin1(line, |title| + (|front| + 1));
    } else {
      assert line[|title|] == DASH[0];
      BeyondLatin1(line, |title|);
    }
  }

  lemma DateSurvives(f: Fields, i: nat)
    requires i < 2
    ensures Seen(Lines(f)[8 + i]) == Lines(f)[8 + i] <==> DateOf(f, i).Some?
  {
    assert Lines(f)[8 + i] == Dates(f)[i];
    DateTitleShows(i);
    SurvivesExactly(DateTitle(i), DateOf(f, i));
  }

  /** A date comes back from the page exactly when it was given; the period never does: Latin-1 has no arrow and no dash. */
  lemma DatesSurviveExactly(f: Fields)
    ensures var lines := Lines(f);
            && (Seen(lines[8]) == lines[8] <==> f.due.Some?)
            && (Seen(lines[9]) == lines[9] <==> f.paid.Some?)
            && Seen(lines[7]) != lines[7]
  {
    DateSurvives(f, 0);
    DateSurvives(f, 1);
    PeriodIsLost(PERIOD, f.start, f.end);
  }

  lemma TimeIsPlain(d: DateTime)
    ensures AllShow(" " + (TimeText(d) + " UTC"))
  {
    var minutes := d.micros / 60_000_000;
    var h, m := Padded(minutes / 60, 2), Padded(minutes % 60, 2);
    ShowsAllParts(":", m);
    ShowsAllParts(h, ":" + m);
    assert TimeText(d) == h + (":" + m);
    ShowsAllParts(TimeText(d), " UTC");
    ShowsAllParts(" ", TimeText(d) + " UTC");
  }

  lemma NestedPartsAt(y: string, m: string, d: string)
    requires |y| == 4 && |m| == 2 && |d| == 2
    ensures var t := Dashed(y, m, d);
            |t| == 10 && t[..4] == y && t[4] == '-' && t[5..7] == m && t[7] == '-' && t[8..10] == d
  {
    var rest := m + ("-" + d);
    var t := y + ("-" + rest);
    assert rest[..2] == m && rest[3..5] == d;
    assert t[5..] == rest;
    assert t[5..7] == t[5..][..2] && t[8..10] == t[5..][3..5];
  }

  /** A printed date is its year, month and day. */
  lemma DateReads(d: DateTime)
    requires d.year <= 9999
    ensures var t := DateText(d);
            && |t| == 10 && t[4] == '-' && t[7] == '-'
            && Reads(t[..4], d.year) && Reads(t[5..7], d.month) && Reads(t[8..10], d.day)
  {
    var y, m, day := Padded(d.year, 4), Padded(d.month, 2), Padded(d.day, 2);
    DatePartsRead(d);
    NestedPartsAt(y, m, day);
    PartsRead(DateText(d), y, m, day, d);
  }

  lemma PartsRead(t: string, y: string, m: string, day: string, d: DateTime)
    requires |t| == 10 && t[..4] == y && t[5..7] == m && t[8..10] == day
    requires Reads(y, d.year) && Reads(m, d.month) && Reads(day, d.day)
    ensures Reads(t[..4], d.year) && Reads(t[5..7], d.month) && Reads(t[8..10], d.day)
  {
  }

  /** A printed time is its hour and minute. */
  lemma TimeReads(d: DateTime)
    ensures var t := TimeText(d);
            && |t| == 5 && t[2] == ':'
            && Reads(t[..2], d.micros / 3_600_000_000) && Reads(t[3..], d.micros / 60_000_000 % 60)
  {
    var minutes := d.micros / 60_000_000;
    var h, m := Padded(minutes / 60, 2), Padded(minutes % 60, 2);
    assert Power10(2) == 100;
    assert minutes < 1440 && minutes / 60 == d.micros / 3_600_000_000;
    PaddedReads(minutes / 60, 2, 100);
    PaddedReads(minutes % 60, 2, 100);
    ClockParts(h, m);
    assert TimeText(d) == h + ":" + m;
  }

  lemma ClockParts(h: string, m: string)
    requires |h| == 2 && |m| == 2
    ensures var t := h + ":" + m; |t| == 5 && t[..2] == h && t[2] == ':' && t[3..] == m
  {
  }

  /** Counted from the end, every fourth character of a grouped numeral is a comma and the others are digits. */
  lemma {:induction false} GroupedCommas(s: string, j: nat)
    requires AllDigits(s) && s != "" && j < |Grouped(s)|
    ensures var c := Grouped(s)[|Grouped(s)| - 1 - j]; if j % 4 == 3 then c == ',' else IsDigit(c)
    decreases |s|
  {
    if |s| > 3 {
      var front, group := s[..|s| - 3], s[|s| - 3..];
      assert s == front + group;
      GroupedLonger(front, group);
      if j >= 4 {
        GroupedCommas(front, j - 4);
      }
    }
  }

  lemma FromTheEnd(grouped: string, minor: string, j: nat)
    requires |minor| == 2 && 3 <= j < |grouped| + 3
    ensures var t := grouped + ("." + minor); |t| == |grouped| + 3 && t[|t| - 1 - j] == grouped[|grouped| - 1 - (j - 3)]
  {
  }

  lemma PointAndDecimals(grouped: string, minor: string)
    requires |minor| == 2
    ensures var t := grouped + ("." + minor); t[|t| - 3] == '.' && t[|t| - 2..] == minor
  {
  }

  /** Two decimals after a point, and counted from the end a comma in every fourth place before it. */
  predicate Shaped(t: string, j: nat) {
    && |t| >= 4 && t[|t| - 3] == '.' && AllDigits(t[|t| - 2..])
    && (3 <= j < |t| ==> if j % 4 == 2 then t[|t| - 1 - j] == ',' else IsDigit(t[|t| - 1 - j]))
  }

  lemma ShapeFromTheEnd(major: string, minor: string, j: nat)
    requires AllDigits(major) && major != "" && AllDigits(minor) && |minor| == 2
    ensures Shaped(Grouped(major) + ("." + minor), j)
  {
    GroupedIsPlain(major);
    if 3 <= j < |Grouped(major)| + 3 {
      GroupedCommas(major, j - 3);
    }
    ShapeOf(Grouped(major), minor, j);
  }

  lemma ShapeOf(grouped: string, minor: string, j: nat)
    requires grouped != "" && AllDigits(minor) && |minor| == 2
    requires 3 <= j < |grouped| + 3 ==>
               var c := grouped[|grouped| - 1 - (j - 3)]; if (j - 3) % 4 == 3 then c == ',' else IsDigit(c)
    ensures Shaped(grouped + ("." + minor), j)
  {
    PointAndDecimals(grouped, minor);
    if 3 <= j < |grouped| + 3 {
      FromTheEnd(grouped, minor, j);
      assert (j - 3) % 4 == 3 <==> j % 4 == 2;
    }
  }

  lemma UnsignedShape(n: nat, j: nat)
    ensures Shaped(Unsigned(n), j)
  {
    assert Power10(2) == 100;
    PaddedWidth(n % 100, 2);
    ShapeFromTheEnd(Decimal(n / 100), Padded(n % 100, 2), j);
  }

  /** An amount is printed with two decimals and grouped thousands; below zero, behind a sign. */
  lemma AmountShape(a: int, j: nat)
    ensures a >= 0 ==> Shaped(Amount(a), j)
    ensures a < 0 ==> Amount(a) == "-" + Amount(0 - a)
  {
    if a >= 0 {
      UnsignedShape(a, j);
    }
  }
}
