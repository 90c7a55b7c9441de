/** White space, lines, and stripping. */
module Whitespace {
  /** The characters at which a line ends. */
  predicate IsLineBreak(c: char) {
    || '\n' <= c <= '\r'
    || '\U{1C}' <= c <= '\U{1E}'
    || c in {'\U{85}', '\U{2028}', '\U{2029}'}
  }

  /** The characters that stripping removes. */
  predicate IsSpace(c: char) {
    || '\t' <= c <= '\r'
    || '\U{1C}' <= c <= ' '
    || '\U{2000}' <= c <= '\U{200A}'
    || c in {'\U{85}', '\U{A0}', '\U{1680}', '\U{2028}', '\U{2029}', '\U{202F}', '\U{205F}', '\U{3000}'}
  }

  lemma BreaksAreSpaces(c: char)
    ensures IsLineBreak(c) ==> IsSpace(c)
  {
  }

  ghost predicate Blank(s: string) {
    forall i :: 0 <= i < |s| ==> IsSpace(s[i])
  }

  function StripLeft(s: string): string {
    if s != "" && IsSpace(s[0]) then StripLeft(s[1..]) else s
  }

  function StripRight(s: string): string {
    if s != "" && IsSpace(s[|s| - 1]) then StripRight(s[..|s| - 1]) else s
  }

  function Strip(s: string): string {
    StripRight(StripLeft(s))
  }

  lemma {:induction false} StripLeftKeeps(s: string) returns (a: nat)
    ensures a <= |s| && StripLeft(s) == s[a..] && Blank(s[..a])
    ensures a < |s| ==> !IsSpace(s[a])
  {
    a := 0;
    if s != "" && IsSpace(s[0]) {
      a := StripLeftKeeps(s[1..]);
      assert s[..a + 1] == [s[0]] + s[1..][..a];
      a := a + 1;
    }
  }

  lemma {:induction false} StripRightKeeps(s: string) returns (b: nat)
    ensures b <= |s| && StripRight(s) == s[..b] && Blank(s[b..])
    ensures b > 0 ==> !IsSpace(s[b - 1])
  {
    b := |s|;
    if s != "" && IsSpace(s[|s| - 1]) {
      b := StripRightKeeps(s[..|s| - 1]);
      assert s[b..] == s[..|s| - 1][b..] + [s[|s| - 1]];
    }
  }

  /** Stripping keeps a stretch of the text with only blanks before and after it, and none at its ends. */
  lemma StripKeeps(s: string) returns (a: nat, b: nat)
    ensures a <= b <= |s| && Strip(s) == s[a..b] && Blank(s[..a]) && Blank(s[b..])
    ensures forall p :: 0 <= p < |s| && !IsSpace(s[p]) ==> a <= p < b
    ensures a < b ==> !IsSpace(s[a]) && !IsSpace(s[b - 1])
  {
    a := StripLeftKeeps(s);
    var n := StripRightKeeps(s[a..]);
    b := a + n;
    assert s[a..][n..] == s[b..];
    assert n > 0 ==> s[a..][n - 1] == s[b - 1];
    forall p | 0 <= p < a
      ensures IsSpace(s[p])
    {
      assert s[..a][p] == s[p];
    }
    forall p | b <= p < |s|
      ensures IsSpace(s[p])
    {
      assert s[b..][p - b] == s[p];
    }
  }

  /** Nothing is left exactly of a text that is all white space. */
  lemma StripBlank(s: string)
    ensures Strip(s) == "" <==> forall i :: 0 <= i < |s| ==> IsSpace(s[i])
  {
    var a, b := StripKeeps(s);
  }

  /** The white space among the ASCII characters, and the line ends among it. */
  lemma AsciiBlanks(c: char)
    requires c as int < 128
    ensures IsSpace(c) <==> c as int in {9, 10, 11, 12, 13, 28, 29, 30, 31, 32}
    ensures IsLineBreak(c) <==> c as int in {10, 11, 12, 13, 28, 29, 30}
  {
  }

  function JoinLines(lines: seq<string>): string {
    if lines == [] then "" else if |lines| == 1 then lines[0] else lines[0] + "\n" + JoinLines(lines[1..])
  }
}
