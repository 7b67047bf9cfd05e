/** Splitting, joining and trimming of text as the JavaScript string library does it. */
module Strings {

  /** White space and line terminators as String.prototype.trim removes them. */
  predicate IsSpace(c: char) {
    var n := c as int;
    || 9 <= n <= 13 || n == 32 || n == 0xA0 || n == 0x1680 || 0x2000 <= n <= 0x200A
    || n == 0x2028 || n == 0x2029 || n == 0x202F || n == 0x205F || n == 0x3000 || n == 0xFEFF
  }

  predicate AllSpace(s: string) {
    forall i | 0 <= i < |s| :: IsSpace(s[i])
  }

  function TrimStart(s: string): string {
    if s != [] && IsSpace(s[0]) then TrimStart(s[1..]) else s
  }

  function TrimEnd(s: string): string {
    if s != [] && IsSpace(s[|s| - 1]) then TrimEnd(s[..|s| - 1]) else s
  }

  function Trim(s: string): string {
    TrimEnd(TrimStart(s))
  }

  /** Nothing to trim. */
  predicate Clean(s: string) {
    s == [] || (!IsSpace(s[0]) && !IsSpace(s[|s| - 1]))
  }

  lemma {:induction false} TrimStartIsSuffix(s: string)
    ensures |TrimStart(s)| <= |s| && TrimStart(s) == s[|s| - |TrimStart(s)|..]
    ensures AllSpace(s[..|s| - |TrimStart(s)|])
    ensures TrimStart(s) == [] || !IsSpace(TrimStart(s)[0])
  {
    if s != [] && IsSpace(s[0]) {
      TrimStartIsSuffix(s[1..]);
    }
  }

  lemma {:induction false} TrimEndOfBlank(s: string)
    ensures AllSpace(s) ==> TrimEnd(s) == []
    ensures TrimEnd(s) == [] ==> AllSpace(s)
  {
    if s != [] && IsSpace(s[|s| - 1]) {
      TrimEndOfBlank(s[..|s| - 1]);
    }
  }

  lemma AllSpaceOfParts(s: string, k: nat)
    requires k <= |s|
    ensures AllSpace(s) <==> AllSpace(s[..k]) && AllSpace(s[k..])
  {
    assert forall i | 0 <= i < |s| :: s[i] == if i < k then s[..k][i] else s[k..][i - k];
  }

  /** A text trims to nothing exactly when it is all white space. */
  lemma TrimIsEmptyIff(s: string)
    ensures Trim(s) == [] <==> AllSpace(s)
  {
    TrimStartIsSuffix(s);
    TrimEndOfBlank(TrimStart(s));
    AllSpaceOfParts(s, |s| - |TrimStart(s)|);
  }

  predicate Lacks(s: string, c: char) {
    forall i | 0 <= i < |s| :: s[i] != c
  }

  /** The pieces between the separators; never empty. */
  function Split(s: string, c: char): (r: seq<string>)
    ensures |r| >= 1
  {
    if s == [] then [""]
    else if s[0] == c then [""] + Split(s[1..], c)
    else
      var rest := Split(s[1..], c);
      [[s[0]] + rest[0]] + rest[1..]
  }

  function Join(parts: seq<string>, c: char): string {
    if parts == [] then ""
    else if |parts| == 1 then parts[0]
    else parts[0] + [c] + Join(parts[1..], c)
  }

  lemma {:induction false} JoinOfSplit(s: string, c: char)
    ensures Join(Split(s, c), c) == s
  {
    if s != [] {
      JoinOfSplit(s[1..], c);
      var rest := Split(s[1..], c);
      var all := Split(s, c);
      if s[0] == c {
        assert all[1..] == rest;
      } else {
        assert all[1..] == rest[1..];
      }
    }
  }

  lemma {:induction false} SplitOfLacking(s: string, c: char)
    requires Lacks(s, c)
    ensures Split(s, c) == [s]
  {
    if s != [] {
      SplitOfLacking(s[1..], c);
      assert [s[0]] + s[1..] == s;
    }
  }

  /** The first piece ends at the first separator. */
  lemma {:induction false} SplitAtFirst(a: string, b: string, c: char)
    requires Lacks(a, c)
    ensures Split(a + [c] + b, c) == [a] + Split(b, c)
  {
    var s := a + [c] + b;
    if a == [] {
      assert s[1..] == b;
    } else {
      assert s[1..] == a[1..] + [c] + b;
      SplitAtFirst(a[1..], b, c);
      assert [s[0]] + a[1..] == a;
      assert Split(s, c) == [a] + ([a[1..]] + Split(b, c))[1..];
    }
  }

  /** Splitting undoes joining when no part holds the separator. */
  lemma {:induction false} SplitOfJoin(parts: seq<string>, c: char)
    requires parts != [] && forall i | 0 <= i < |parts| :: Lacks(parts[i], c)
    ensures Split(Join(parts, c), c) == parts
  {
    if |parts| == 1 {
      SplitOfLacking(parts[0], c);
    } else {
      SplitOfJoin(parts[1..], c);
      SplitAtFirst(parts[0], Join(parts[1..], c), c);
    }
  }

  lemma {:induction false} SplitPartsLack(s: string, c: char)
    ensures forall i | 0 <= i < |Split(s, c)| :: Lacks(Split(s, c)[i], c)
  {
    if s != [] {
      SplitPartsLack(s[1..], c);
    }
  }

  function StripCr(s: string): string {
    if s != [] && s[|s| - 1] == '\r' then s[..|s| - 1] else s
  }

  function StripAllButLast(parts: seq<string>): seq<string> {
    if |parts| <= 1 then parts else [StripCr(parts[0])] + StripAllButLast(parts[1..])
  }

  /** Split at line feeds, each with the carriage return right before it if there is one. */
  function SplitLines(text: string): seq<string> {
    StripAllButLast(Split(text, '\n'))
  }

  /** Lines put together with either line ending after each line but the last. */
  function TextOf(lines: seq<string>, crlf: seq<bool>): string
    requires lines != [] && |crlf| == |lines|
  {
    if |lines| == 1 then lines[0]
    else (if crlf[0] then lines[0] + "\r" else lines[0]) + ['\n'] + TextOf(lines[1..], crlf[1..])
  }

  /** A line a text file can hold unambiguously. */
  predicate IsLine(s: string) {
    Lacks(s, '\n') && (s == [] || s[|s| - 1] != '\r')
  }

  lemma {:induction false} SplitLinesOfText(lines: seq<string>, crlf: seq<bool>)
    requires lines != [] && |crlf| == |lines| && forall i | 0 <= i < |lines| :: IsLine(lines[i])
    ensures SplitLines(TextOf(lines, crlf)) == lines
  {
    if |lines| == 1 {
      SplitOfLacking(lines[0], '\n');
    } else {
      var first := if crlf[0] then lines[0] + "\r" else lines[0];
      var rest := TextOf(lines[1..], crlf[1..]);
      SplitLinesOfText(lines[1..], crlf[1..]);
      SplitAtFirst(first, rest, '\n');
      assert Split(first + ['\n'] + rest, '\n')[1..] == Split(rest, '\n');
      assert StripCr(first) == lines[0];
      assert lines == [lines[0]] + lines[1..];
    }
  }

  function LowerChar(c: char): char {
    if 'A' <= c <= 'Z' then (c as int + 32) as char else c
  }

  /** Lower case of ASCII letters. */
  function ToLower(s: string): (r: string)
    ensures |r| == |s|
  {
    seq(|s|, i requires 0 <= i < |s| => LowerChar(s[i]))
  }

  predicate Includes(s: string, part: string)
    requires part != []
  {
    |s| >= |part| && (s[..|part|] == part || Includes(s[1..], part))
  }
}
