/** Cutting a document into overlapping chunks without losing any of it. */
module Chunking {
  import opened Counting
  import opened Numbers
  import opened Whitespace

  // ---------------------------------------------------------------- normalising

  function FirstBreak(s: string): (i: nat)
    ensures i <= |s| && (i < |s| ==> IsLineBreak(s[i]))
  {
    if s == "" || IsLineBreak(s[0]) then 0 else 1 + FirstBreak(s[1..])
  }

  /** Where the line after the break at `i` starts; a carriage return and a line feed are one break. */
  function AfterBreak(s: string, i: nat): (j: nat)
    requires i < |s|
    ensures i < j <= |s|
  {
    if s[i] == '\r' && i + 1 < |s| && s[i + 1] == '\n' then i + 2 else i + 1
  }

  function SplitLines(s: string): seq<string> {
    var i := FirstBreak(s);
    if s == "" then [] else if i == |s| then [s] else [s[..i]] + SplitLines(s[AfterBreak(s, i)..])
  }

  function KeptLines(lines: seq<string>): seq<string> {
    if lines == [] then []
    else (if Strip(lines[0]) != "" then [Strip(lines[0])] else []) + KeptLines(lines[1..])
  }

  /** The stripped lines that are not blank, one per line. */
  function Normalized(text: string): string {
    JoinLines(KeptLines(SplitLines(text)))
  }

  function NotSpace(): char -> bool {
    (c: char) => !IsSpace(c)
  }

  /** What can be read of a text. */
  function Ink(s: string): string {
    Filter(s, NotSpace())
  }

  lemma {:induction false} InkConcat(a: string, b: string)
    ensures Ink(a + b) == Ink(a) + Ink(b)
    decreases |a|
  {
    if a == "" {
      assert a + b == b;
    } else {
      assert (a + b)[1..] == a[1..] + b;
      InkConcat(a[1..], b);
    }
  }

  lemma {:induction false} BlankHasNoInk(s: string)
    requires Blank(s)
    ensures Ink(s) == ""
  {
    if s != "" {
      BlankHasNoInk(s[1..]);
    }
  }

  lemma StripKeepsInk(s: string)
    ensures Ink(Strip(s)) == Ink(s)
  {
    var a, b := StripKeeps(s);
    assert s == s[..a] + (s[a..b] + s[b..]);
    InkConcat(s[..a], s[a..b] + s[b..]);
    InkConcat(s[a..b], s[b..]);
    BlankHasNoInk(s[..a]);
    BlankHasNoInk(s[b..]);
  }

  lemma InkOfThree(a: string, b: string, c: string)
    requires Blank(b)
    ensures Ink(a + (b + c)) == Ink(a) + Ink(c)
  {
    InkConcat(a, b + c);
    InkConcat(b, c);
    BlankHasNoInk(b);
    assert "" + Ink(c) == Ink(c);
  }

  lemma BreakIsBlank(s: string, i: nat)
    requires i < |s| && IsLineBreak(s[i])
    ensures Blank(s[i..AfterBreak(s, i)])
  {
    BreaksAreSpaces(s[i]);
  }

  function InkOf(lines: seq<string>): string {
    if lines == [] then "" else Ink(lines[0]) + InkOf(lines[1..])
  }

  lemma {:induction false} SplittingKeepsInk(s: string)
    ensures InkOf(SplitLines(s)) == Ink(s)
    decreases |s|
  {
    var i := FirstBreak(s);
    if s != "" {
      if i == |s| {
        assert [s][1..] == [];
      } else {
        var j := AfterBreak(s, i);
        SplittingKeepsInk(s[j..]);
        BreakIsBlank(s, i);
        assert s == s[..i] + (s[i..j] + s[j..]);
        InkOfThree(s[..i], s[i..j], s[j..]);
        assert ([s[..i]] + SplitLines(s[j..]))[1..] == SplitLines(s[j..]);
      }
    }
  }

  lemma {:induction false} KeepingKeepsInk(lines: seq<string>)
    ensures InkOf(KeptLines(lines)) == InkOf(lines)
  {
    if lines != [] {
      var rest, line := KeptLines(lines[1..]), Strip(lines[0]);
      KeepingKeepsInk(lines[1..]);
      StripKeepsInk(lines[0]);
      if line != "" {
        assert KeptLines(lines) == [line] + rest;
        assert ([line] + rest)[1..] == rest;
      } else {
        assert KeptLines(lines) == rest;
        assert InkOf(lines) == "" + InkOf(lines[1..]);
      }
    }
  }

  lemma {:induction false} JoiningKeepsInk(lines: seq<string>)
    ensures Ink(JoinLines(lines)) == InkOf(lines)
  {
    if |lines| == 1 {
      assert lines[1..] == [];
    } else if lines != [] {
      JoiningKeepsInk(lines[1..]);
      InkConcat(lines[0] + "\n", JoinLines(lines[1..]));
      InkConcat(lines[0], "\n");
      BlankHasNoInk("\n");
    }
  }

  /** Normalising drops nothing but white space and keeps the rest in order. */
  lemma NormalizingKeepsInk(text: string)
    ensures Ink(Normalized(text)) == Ink(text)
  {
    SplittingKeepsInk(text);
    KeepingKeepsInk(SplitLines(text));
    JoiningKeepsInk(KeptLines(SplitLines(text)));
  }

  /** A line of clean text: not empty, no break inside, no white space at its ends. */
  predicate CleanLine(l: string) {
    && l != "" && !IsSpace(l[0]) && !IsSpace(l[|l| - 1])
    && forall i :: 0 <= i < |l| ==> !IsLineBreak(l[i])
  }

  predicate CleanLines(lines: seq<string>) {
    forall k :: 0 <= k < |lines| ==> CleanLine(lines[k])
  }

  lemma {:induction false} FirstBreakIs(s: string, i: nat)
    requires i <= |s| && (forall k :: 0 <= k < i ==> !IsLineBreak(s[k])) && (i < |s| ==> IsLineBreak(s[i]))
    ensures FirstBreak(s) == i
    decreases i
  {
    if i > 0 {
      FirstBreakIs(s[1..], i - 1);
    }
  }

  lemma {:induction false} NoBreakBefore(s: string)
    ensures forall k :: 0 <= k < FirstBreak(s) ==> !IsLineBreak(s[k])
  {
    if s != "" && !IsLineBreak(s[0]) {
      NoBreakBefore(s[1..]);
    }
  }

  lemma {:induction false} SplitLinesHaveNoBreaks(s: string, k: nat)
    requires k < |SplitLines(s)|
    ensures forall i :: 0 <= i < |SplitLines(s)[k]| ==> !IsLineBreak(SplitLines(s)[k][i])
    decreases |s|
  {
    NoBreakBefore(s);
    var i := FirstBreak(s);
    if i < |s| && k > 0 {
      SplitLinesHaveNoBreaks(s[AfterBreak(s, i)..], k - 1);
    }
  }

  lemma StrippedIsClean(l: string)
    requires forall i :: 0 <= i < |l| ==> !IsLineBreak(l[i])
    ensures Strip(l) != "" ==> CleanLine(Strip(l))
  {
    var a, b := StripKeeps(l);
  }

  lemma CleanIsStripped(l: string)
    requires CleanLine(l)
    ensures Strip(l) == l
  {
    var a, b := StripKeeps(l);
    assert l[a..b] == l;
  }

  lemma {:induction false} KeptLinesAreClean(lines: seq<string>)
    requires forall k, i :: 0 <= k < |lines| && 0 <= i < |lines[k]| ==> !IsLineBreak(lines[k][i])
    ensures CleanLines(KeptLines(lines))
  {
    if lines != [] {
      StrippedIsClean(lines[0]);
      KeptLinesAreClean(lines[1..]);
    }
  }

  lemma {:induction false} CleanLinesAreKept(lines: seq<string>)
    requires CleanLines(lines)
    ensures KeptLines(lines) == lines
  {
    if lines != [] {
      CleanIsStripped(lines[0]);
      CleanLinesAreKept(lines[1..]);
      assert lines == [lines[0]] + lines[1..];
    }
  }

  /** Joined clean lines split into the same lines. */
  lemma {:induction false} SplitJoined(lines: seq<string>)
    requires CleanLines(lines)
    ensures SplitLines(JoinLines(lines)) == lines
  {
    if |lines| == 1 {
      FirstBreakIs(lines[0], |lines[0]|);
    } else if lines != [] {
      SplitJoined(lines[1..]);
      SplitFirst(lines[0], JoinLines(lines[1..]));
      assert lines == [lines[0]] + lines[1..];
    }
  }

  lemma SplitFirst(first: string, rest: string)
    requires CleanLine(first)
    ensures SplitLines(first + "\n" + rest) == [first] + SplitLines(rest)
  {
    var s := first + "\n" + rest;
    FirstBreakIs(s, |first|);
    assert s[|first|] == '\n';
    assert s[..|first|] == first && s[|first| + 1..] == rest;
    SplitAt(s, |first|);
  }

  lemma SplitAt(s: string, i: nat)
    requires FirstBreak(s) == i < |s| && s[i] == '\n'
    ensures SplitLines(s) == [s[..i]] + SplitLines(s[i + 1..])
  {
  }

  /** The lines of the normalised text are the kept lines, clean each, and normalising again changes nothing. */
  lemma NormalizedLines(text: string)
    ensures SplitLines(Normalized(text)) == KeptLines(SplitLines(text))
    ensures forall k :: 0 <= k < |SplitLines(Normalized(text))| ==> CleanLine(SplitLines(Normalized(text))[k])
    ensures Normalized(Normalized(text)) == Normalized(text)
  {
    var lines := SplitLines(text);
    forall k, i | 0 <= k < |lines| && 0 <= i < |lines[k]|
      ensures !IsLineBreak(lines[k][i])
    {
      SplitLinesHaveNoBreaks(text, k);
    }
    KeptLinesAreClean(lines);
    SplitJoined(KeptLines(lines));
    CleanLinesAreKept(KeptLines(lines));
  }

  // ---------------------------------------------------------------- windows

  datatype Window = Window(start: nat, end: nat)

  /** The windows from `start` on over a text of length `n`. */
  function Windows(n: nat, size: nat, overlap: nat, start: nat): seq<Window>
    decreases n - start
  {
    if start >= n then []
    else
      var end := Min(n, start + size);
      [Window(start, end)] + if end >= n then [] else Windows(n, size, overlap, Max(end - overlap, start + 1))
  }

  ghost predicate Fit(ws: seq<Window>, n: nat, size: nat) {
    forall i :: 0 <= i < |ws| ==> ws[i].start <= ws[i].end <= n && ws[i].end - ws[i].start <= size
  }

  lemma {:induction false} WindowsFit(n: nat, size: nat, overlap: nat, start: nat)
    ensures Fit(Windows(n, size, overlap, start), n, size)
    decreases n - start
  {
    if start < n && start + size < n {
      var next := Max(start + size - overlap, start + 1);
      WindowsFit(n, size, overlap, next);
      assert Windows(n, size, overlap, start) == [Window(start, start + size)] + Windows(n, size, overlap, next);
    }
  }

  /** What each window shows. */
  function Raw(s: string, ws: seq<Window>): seq<string> {
    if ws == [] then []
    else [if ws[0].start <= ws[0].end <= |s| then s[ws[0].start..ws[0].end] else ""] + Raw(s, ws[1..])
  }

  function RawWindows(s: string, size: nat, overlap: nat): seq<string> {
    Raw(s, Windows(|s|, size, overlap, 0))
  }

  function NotEmpty(): string -> bool {
    (c: string) => c != ""
  }

  function StripAll(raws: seq<string>): seq<string> {
    if raws == [] then [] else [Strip(raws[0])] + StripAll(raws[1..])
  }

  function Chunks(s: string, size: nat, overlap: nat): seq<string> {
    if |s| <= size then (if s != "" then [s] else [])
    else Filter(StripAll(RawWindows(s, size, overlap)), NotEmpty())
  }

  /** The stripped windows from `start` on. */
  function Cut(s: string, size: nat, overlap: nat, start: nat): seq<string> {
    StripAll(Raw(s, Windows(|s|, size, overlap, start)))
  }

  lemma StripAllCons(raw: string, raws: seq<string>)
    ensures StripAll([raw] + raws) == [Strip(raw)] + StripAll(raws)
  {
    assert ([raw] + raws)[1..] == raws;
  }

  lemma RawCons(s: string, w: Window, ws: seq<Window>)
    requires w.start <= w.end <= |s|
    ensures Raw(s, [w] + ws) == [s[w.start..w.end]] + Raw(s, ws)
  {
    assert ([w] + ws)[1..] == ws;
  }

  lemma CutFirst(s: string, w: Window, rest: seq<Window>)
    requires w.start <= w.end <= |s|
    ensures StripAll(Raw(s, [w] + rest)) == [Strip(s[w.start..w.end])] + StripAll(Raw(s, rest))
  {
    RawCons(s, w, rest);
    StripAllCons(s[w.start..w.end], Raw(s, rest));
  }

  lemma WindowsCons(n: nat, size: nat, overlap: nat, start: nat) returns (rest: seq<Window>)
    requires start < n
    ensures var end := Min(n, start + size);
            && Windows(n, size, overlap, start) == [Window(start, end)] + rest
            && rest == if end >= n then [] else Windows(n, size, overlap, Max(end - overlap, start + 1))
  {
    rest := if Min(n, start + size) >= n then []
            else Windows(n, size, overlap, Max(Min(n, start + size) - overlap, start + 1));
  }

  lemma CutNothing(s: string)
    ensures StripAll(Raw(s, [])) == []
  {
  }

  lemma CutLast(s: string, size: nat, overlap: nat, start: nat)
    requires start < |s| <= start + size
    ensures Cut(s, size, overlap, start) == [Strip(s[start..|s|])]
  {
    var rest := WindowsCons(|s|, size, overlap, start);
    CutFirst(s, Window(start, |s|), rest);
    CutNothing(s);
  }

  lemma CutMore(s: string, size: nat, overlap: nat, start: nat)
    requires start + size < |s|
    ensures Cut(s, size, overlap, start)
            == [Strip(s[start..start + size])] + Cut(s, size, overlap, Max(start + size - overlap, start + 1))
  {
    var rest := WindowsCons(|s|, size, overlap, start);
    CutFirst(s, Window(start, start + size), rest);
  }

  /** `cut(start)` is what the loop still has to cut when it stands at `start`. */
  ghost predicate Describes(cut: nat -> seq<string>, s: string, size: nat, overlap: nat) {
    forall start: nat {:trigger Cut(s, size, overlap, start)} :: cut(start) == Cut(s, size, overlap, start)
  }

  lemma CutStepOf(cut: nat -> seq<string>, s: string, size: nat, overlap: nat, start: nat)
    requires Describes(cut, s, size, overlap)
    ensures start >= |s| ==> cut(start) == []
    ensures start < |s| ==>
              var end := Min(|s|, start + size);
              cut(start) == [Strip(s[start..end])] + if end >= |s| then [] else cut(Max(end - overlap, start + 1))
  {
    assert cut(start) == Cut(s, size, overlap, start);
    if start >= |s| {
      CutNothing(s);
    } else if start + size >= |s| {
      CutLast(s, size, overlap, start);
    } else {
      CutMore(s, size, overlap, start);
      var next := Max(start + size - overlap, start + 1);
      assert cut(next) == Cut(s, size, overlap, next);
    }
  }

  method CutAll(s: string, size: nat, overlap: nat, ghost cut: nat -> seq<string>) returns (chunks: seq<string>)
    requires Describes(cut, s, size, overlap)
    ensures chunks == cut(0)
  {
    chunks := [];
    var start := 0;
    while start < |s|
      invariant 0 <= start
      invariant chunks + cut(start) == cut(0)
      decreases |s| - start
    {
      CutStepOf(cut, s, size, overlap, start);
      var end := Min(|s|, start + size);
      chunks := chunks + [Strip(s[start..end])];
      if end >= |s| {
        return;
      }
      start := Max(end - overlap, start + 1);
    }
    CutStepOf(cut, s, size, overlap, start);
  }

  /** The loop that cuts the text. */
  method ChunkText(text: string, size: nat, overlap: nat) returns (result: seq<string>)
    ensures result == Chunks(Normalized(text), size, overlap)
  {
    var normalized := Normalized(text);
    if |normalized| <= size {
      return if normalized != "" then [normalized] else [];
    }
    var chunks := CutAll(normalized, size, overlap, (start: nat) => Cut(normalized, size, overlap, start));
    result := Filter(chunks, NotEmpty());
  }

  // ---------------------------------------------------------------- what the chunks cover

  lemma {:induction false} StripAllAt(raws: seq<string>, i: nat)
    requires i < |raws|
    ensures i < |StripAll(raws)| && StripAll(raws)[i] == Strip(raws[i])
  {
    if i > 0 {
      StripAllAt(raws[1..], i - 1);
    }
  }

  lemma {:induction false} RawAt(s: string, ws: seq<Window>, i: nat)
    requires i < |ws| && ws[i].start <= ws[i].end <= |s|
    ensures i < |Raw(s, ws)| && Raw(s, ws)[i] == s[ws[i].start..ws[i].end]
  {
    if i > 0 {
      RawAt(s, ws[1..], i - 1);
    }
  }

  lemma {:induction false} SameLengths(s: string, ws: seq<Window>)
    ensures |StripAll(Raw(s, ws))| == |ws|
  {
    if ws != [] {
      SameLengths(s, ws[1..]);
      assert Raw(s, ws)[1..] == Raw(s, ws[1..]);
    }
  }

  /** A cut piece is the text between two positions of its window, with only blanks left of and right of them there. */
  ghost predicate PieceOf(s: string, w: Window, piece: string, a: nat, b: nat) {
    && w.start <= a <= b <= w.end <= |s| && piece == s[a..b]
    && forall p :: w.start <= p < w.end && !IsSpace(s[p]) ==> a <= p < b
  }

  lemma SliceOfSlice(s: string, start: nat, end: nat, i: nat, j: nat)
    requires start <= end <= |s| && i <= j <= end - start
    ensures s[start..end][i..j] == s[start + i..start + j]
  {
    assert s[start..end][..j] == s[start..start + j];
  }

  lemma StrippedWindow(s: string, w: Window) returns (a: nat, b: nat)
    requires w.start <= w.end <= |s|
    ensures PieceOf(s, w, Strip(s[w.start..w.end]), a, b)
  {
    var raw := s[w.start..w.end];
    var i, j := StripKeeps(raw);
    a, b := w.start + i, w.start + j;
    SliceOfSlice(s, w.start, w.end, i, j);
    forall p | w.start <= p < w.end && !IsSpace(s[p])
      ensures a <= p < b
    {
      assert raw[p - w.start] == s[p];
    }
  }

  lemma CutAt(s: string, size: nat, overlap: nat, i: nat) returns (a: nat, b: nat)
    requires i < |Windows(|s|, size, overlap, 0)|
    ensures i < |Cut(s, size, overlap, 0)|
    ensures PieceOf(s, Windows(|s|, size, overlap, 0)[i], Cut(s, size, overlap, 0)[i], a, b)
  {
    var ws := Windows(|s|, size, overlap, 0);
    WindowsFit(|s|, size, overlap, 0);
    RawAt(s, ws, i);
    StripAllAt(Raw(s, ws), i);
    a, b := StrippedWindow(s, ws[i]);
  }

  ghost predicate IsStretch(s: string, c: string) {
    exists a, b :: 0 <= a <= b <= |s| && c == s[a..b]
  }

  /** A chunk is a stretch of the text, never longer than asked for and never empty. */
  lemma ChunksAreShort(s: string, size: nat, overlap: nat, c: string)
    requires c in Chunks(s, size, overlap)
    ensures 0 < |c| <= size && IsStretch(s, c)
  {
    if |s| <= size {
      assert c == s[0..|s|];
    } else {
      var ws, cut := Windows(|s|, size, overlap, 0), Cut(s, size, overlap, 0);
      WindowsFit(|s|, size, overlap, 0);
      FilterMember(cut, NotEmpty(), c);
      SameLengths(s, ws);
      var i :| 0 <= i < |cut| && cut[i] == c;
      var a, b := CutAt(s, size, overlap, i);
    }
  }

  /** Some window holds position `p`. */
  lemma {:induction false} WindowOf(n: nat, size: nat, overlap: nat, start: nat, p: nat) returns (i: nat)
    requires size >= 1 && start <= p < n
    ensures var ws := Windows(n, size, overlap, start); i < |ws| && ws[i].start <= p < ws[i].end
    decreases n - start
  {
    i := 0;
    if p >= start + size {
      i := WindowOf(n, size, overlap, Max(start + size - overlap, start + 1), p);
      i := i + 1;
    }
  }

  ghost predicate Covered(s: string, chunks: seq<string>, p: nat) {
    exists a, b :: 0 <= a <= p < b <= |s| && s[a..b] in chunks
  }

  /** Every position that is not white space lies in a chunk that is returned. */
  lemma NothingIsLost(s: string, size: nat, overlap: nat, p: nat)
    requires size >= 1 && p < |s| && !IsSpace(s[p])
    ensures Covered(s, Chunks(s, size, overlap), p)
  {
    if |s| <= size {
      assert s[0..|s|] == s && s in Chunks(s, size, overlap);
    } else {
      var cut := Cut(s, size, overlap, 0);
      var i := WindowOf(|s|, size, overlap, 0, p);
      var a, b := CutAt(s, size, overlap, i);
      assert a <= p < b;
      FilterMember(cut, NotEmpty(), cut[i]);
    }
  }

  // ---------------------------------------------------------------- the windows rebuild the text

  /** How much two neighbouring windows share: the overlap, unless the loop has to move on by one. */
  function Shared(size: nat, overlap: nat): nat
    requires size >= 1
  {
    Min(overlap, size - 1)
  }

  /** All windows in a row, without what each shares with the one before it. */
  function Glue(raws: seq<string>, shared: nat): string {
    if raws == [] then ""
    else raws[0] + GlueRest(raws[1..], shared)
  }

  function GlueRest(raws: seq<string>, shared: nat): string {
    if raws == [] then ""
    else (if shared <= |raws[0]| then raws[0][shared..] else "") + GlueRest(raws[1..], shared)
  }

  lemma GlueRestCons(raw: string, raws: seq<string>, shared: nat)
    requires shared <= |raw|
    ensures GlueRest([raw] + raws, shared) == raw[shared..] + GlueRest(raws, shared)
  {
    assert ([raw] + raws)[1..] == raws;
  }

  lemma GlueStep(s: string, w: Window, rest: seq<Window>, shared: nat)
    requires w.start + shared <= w.end <= |s|
    requires GlueRest(Raw(s, rest), shared) == s[w.end..]
    ensures GlueRest(Raw(s, [w] + rest), shared) == s[w.start + shared..]
  {
    RawCons(s, w, rest);
    GlueRestCons(s[w.start..w.end], Raw(s, rest), shared);
    assert s[w.start..w.end][shared..] + s[w.end..] == s[w.start + shared..];
  }

  lemma WindowsUnfold(n: nat, size: nat, overlap: nat, start: nat)
    requires size >= 1 && start < n
    ensures start + size >= n ==> Windows(n, size, overlap, start) == [Window(start, n)]
    ensures start + size < n ==>
              Windows(n, size, overlap, start)
              == [Window(start, start + size)] + Windows(n, size, overlap, start + size - Shared(size, overlap))
  {
  }

  lemma GlueNothing(s: string, shared: nat)
    ensures GlueRest(Raw(s, []), shared) == s[|s|..]
  {
  }

  /** Each window starts `shared` before the end of the one before it, and the last ends with the text. */
  ghost predicate Chained(ws: seq<Window>, n: nat, shared: nat)
    decreases |ws|
  {
    && ws != [] && ws[0].start + shared <= ws[0].end <= n
    && if |ws| == 1 then ws[0].end == n else ws[1].start + shared == ws[0].end && Chained(ws[1..], n, shared)
  }

  lemma ChainedCons(w: Window, rest: seq<Window>, n: nat, shared: nat)
    requires Chained(rest, n, shared) && w.start + shared <= w.end && rest[0].start + shared == w.end <= n
    ensures Chained([w] + rest, n, shared)
  {
    assert ([w] + rest)[1..] == rest;
  }

  lemma {:induction false} WindowsAreChained(n: nat, size: nat, overlap: nat, start: nat)
    requires size >= 1 && start + Shared(size, overlap) < n
    ensures Windows(n, size, overlap, start) != [] && Windows(n, size, overlap, start)[0].start == start
    ensures Chained(Windows(n, size, overlap, start), n, Shared(size, overlap))
    decreases n - start
  {
    WindowsUnfold(n, size, overlap, start);
    if start + size < n {
      var next := start + size - Shared(size, overlap);
      WindowsAreChained(n, size, overlap, next);
      ChainedCons(Window(start, start + size), Windows(n, size, overlap, next), n, Shared(size, overlap));
    }
  }

  lemma LastWindowShows(s: string, w: Window, shared: nat)
    requires w.start + shared <= w.end == |s|
    ensures GlueRest(Raw(s, [w]), shared) == s[w.start + shared..]
  {
    GlueNothing(s, shared);
    GlueStep(s, w, [], shared);
    assert [w] + [] == [w];
  }

  /** Chained windows show, without what the first shares with its predecessor, the text from there on. */
  lemma {:induction false} ChainShows(s: string, ws: seq<Window>, shared: nat)
    requires Chained(ws, |s|, shared)
    ensures GlueRest(Raw(s, ws), shared) == s[ws[0].start + shared..]
    decreases |ws|
  {
    if |ws| == 1 {
      LastWindowShows(s, ws[0], shared);
      assert ws == [ws[0]];
    } else {
      ChainShows(s, ws[1..], shared);
      GlueStep(s, ws[0], ws[1..], shared);
      assert ws == [ws[0]] + ws[1..];
    }
  }

  lemma WholeFromFirst(s: string, first: string, rest: string)
    requires |first| <= |s| && first == s[..|first|] && rest == s[|first|..]
    ensures first + rest == s
  {
  }

  lemma GlueFirst(s: string, w: Window, rest: seq<Window>, shared: nat)
    requires w.start == 0 && w.end <= |s|
    ensures Glue(Raw(s, [w] + rest), shared) == s[..w.end] + GlueRest(Raw(s, rest), shared)
  {
    RawCons(s, w, rest);
    assert ([s[0..w.end]] + Raw(s, rest))[1..] == Raw(s, rest);
  }

  lemma ChainIsWhole(s: string, ws: seq<Window>, shared: nat)
    requires Chained(ws, |s|, shared) && |ws| > 1 && ws[0].start == 0
    ensures Glue(Raw(s, ws), shared) == s
  {
    ChainShows(s, ws[1..], shared);
    GlueFirst(s, ws[0], ws[1..], shared);
    assert ws == [ws[0]] + ws[1..];
    WholeFromFirst(s, s[..ws[0].end], s[ws[0].end..]);
  }

  /** Dropping from each window but the first what it shares with its predecessor gives the text back. */
  lemma WindowsRebuildTheText(s: string, size: nat, overlap: nat)
    requires size >= 1 && |s| > size
    ensures Glue(RawWindows(s, size, overlap), Shared(size, overlap)) == s
  {
    WindowsAreChained(|s|, size, overlap, 0);
    WindowsUnfold(|s|, size, overlap, 0);
    WindowsAreChained(|s|, size, overlap, size - Shared(size, overlap));
    ChainIsWhole(s, Windows(|s|, size, overlap, 0), Shared(size, overlap));
  }

  // ---------------------------------------------------------------- how many windows there are

  /** Rounded up. */
  function Ceiling(a: nat, b: nat): nat
    requires b > 0
  {
    (a + b - 1) / b
  }

  lemma CeilingOneMore(a: nat, b: nat)
    requires b > 0
    ensures Ceiling(a + b, b) == Ceiling(a, b) + 1
  {
    assert (a + b - 1) / b == (a + b - 1 + b) / b - 1 by {
      AddOne(a + b - 1, b);
    }
  }

  lemma AddOne(x: nat, b: nat)
    requires b > 0
    ensures (x + b) / b == x / b + 1
  {
    var quotient, rest := x / b, x % b;
    assert x + b == (quotient + 1) * b + rest;
    DivisionIsUnique(x + b, b, quotient + 1, rest);
  }

  lemma DivisionIsUnique(x: nat, b: nat, quotient: nat, rest: nat)
    requires b > 0 && x == quotient * b + rest && rest < b
    ensures x / b == quotient
  {
    var other := x / b;
    assert x == other * b + x % b;
    assert (other - quotient) * b == rest - x % b;
    Multiples(other - quotient, b);
  }

  lemma Multiples(d: int, b: nat)
    ensures d >= 1 ==> d * b >= b
    ensures d <= -1 ==> d * b + b <= 0
  {
  }

  /** From `start` on there are as many windows as steps of `size - shared` fit before the last one. */
  lemma {:induction false} WindowCountFrom(n: nat, size: nat, overlap: nat, start: nat)
    requires size >= 1 && start + Shared(size, overlap) < n
    ensures |Windows(n, size, overlap, start)| == Ceiling(n - start - Shared(size, overlap), size - Shared(size, overlap))
    decreases n - start
  {
    var shared := Shared(size, overlap);
    var step := size - shared;
    if start + size >= n {
      DivisionIsUnique(n - start - shared + step - 1, step, 1, n - start - shared - 1);
    } else {
      WindowCountFrom(n, size, overlap, start + step);
      CeilingOneMore(n - start - size, step);
    }
  }

  lemma WindowCount(n: nat, size: nat, overlap: nat)
    requires overlap < size < n
    ensures |Windows(n, size, overlap, 0)| == Ceiling(n - overlap, size - overlap)
  {
    WindowCountFrom(n, size, overlap, 0);
  }
}
