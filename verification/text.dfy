/** The handful of Python string operations the scripts rely on, on ASCII text:
    `str.lower`, `str.upper`, `str.rstrip()`, `str.replace(',', '')` and `file.readlines()`. */
module Text {

  predicate IsUpperLetter(c: char) { 'A' <= c <= 'Z' }

  predicate IsLowerLetter(c: char) { 'a' <= c <= 'z' }

  /** `c.lower()` for one character. */
  function Lower(c: char): (r: char)
    ensures !IsUpperLetter(r)
  {
    if IsUpperLetter(c) then (c as int + 32) as char else c
  }

  /** `c.upper()` for one character. */
  function Upper(c: char): (r: char)
    ensures !IsLowerLetter(r)
  {
    if IsLowerLetter(c) then (c as int - 32) as char else c
  }

  /** Upper-casing a letter before lower-casing it loses nothing. */
  lemma LowerAfterUpper(c: char)
    ensures Lower(Upper(c)) == Lower(c)
  {
  }

  /** `s.lower()` for a whole string. */
  function LowerStr(s: string): (r: string)
    ensures |r| == |s|
    ensures forall i :: 0 <= i < |s| ==> r[i] == Lower(s[i])
  {
    seq(|s|, i requires 0 <= i < |s| => Lower(s[i]))
  }

  /** The characters Python 2's `str.rstrip()` removes: the C locale's
      `isspace`, that is space, tab, newline, vertical tab, form feed and
      carriage return. */
  predicate IsSpace(c: char)
  {
    var n := c as int;
    n == 32 || 9 <= n <= 13
  }

  /** `s.rstrip()`: the longest prefix of `s` that does not end in whitespace. */
  function RStrip(s: string): (r: string)
    ensures r <= s
    ensures r == [] || !IsSpace(r[|r| - 1])
    ensures forall i :: |r| <= i < |s| ==> IsSpace(s[i])
    decreases |s|
  {
    if s != [] && IsSpace(s[|s| - 1]) then RStrip(s[..|s| - 1]) else s
  }

  /** What `replace(',', '')` keeps of one character. */
  function Kept(c: char): string
  {
    if c == ',' then [] else [c]
  }

  /** `s.replace(',', '')`: every comma removed, every other character kept in order. */
  function RemoveCommas(s: string): (r: string)
    ensures ',' !in r
    ensures |r| <= |s|
    decreases |s|
  {
    if s == [] then [] else Kept(s[0]) + RemoveCommas(s[1..])
  }

  /** Only the commas go: the length drops by their number and every other
      character keeps its count. */
  lemma {:induction false} RemoveCommasCounts(s: string)
    ensures |RemoveCommas(s)| == |s| - multiset(s)[',']
    ensures forall c :: c != ',' ==> multiset(RemoveCommas(s))[c] == multiset(s)[c]
    decreases |s|
  {
    if s != [] {
      assert s == [s[0]] + s[1..];
      assert multiset(s) == multiset{s[0]} + multiset(s[1..]);
      RemoveCommasCounts(s[1..]);
      assert multiset(RemoveCommas(s)) == multiset(Kept(s[0])) + multiset(RemoveCommas(s[1..]));
    }
  }

  lemma RemoveCommasCons(c: char, s: string)
    ensures RemoveCommas([c] + s) == Kept(c) + RemoveCommas(s)
  {
    var t := [c] + s;
    assert t[0] == c && t[1..] == s;
  }

  lemma {:induction false} RemoveCommasAppend(a: string, b: string)
    ensures RemoveCommas(a + b) == RemoveCommas(a) + RemoveCommas(b)
    decreases |a|
  {
    if a == [] {
      assert a + b == b;
    } else {
      var x, t := a[0], a[1..];
      calc {
        RemoveCommas(a + b);
        { assert a + b == [x] + (t + b); }
        RemoveCommas([x] + (t + b));
        { RemoveCommasCons(x, t + b); }
        Kept(x) + RemoveCommas(t + b);
        { RemoveCommasAppend(t, b); }
        Kept(x) + (RemoveCommas(t) + RemoveCommas(b));
        (Kept(x) + RemoveCommas(t)) + RemoveCommas(b);
        { RemoveCommasCons(x, t); assert a == [x] + t; }
        RemoveCommas(a) + RemoveCommas(b);
      }
    }
  }

  /** The text of a list of lines, as `''.join(lines)`. */
  function Join(lines: seq<string>): string
    decreases |lines|
  {
    if lines == [] then [] else lines[0] + Join(lines[1..])
  }

  /** A line as `readlines` returns it: non-empty, with a newline at most at its end. */
  predicate IsLine(l: string)
  {
    |l| > 0 && forall i :: 0 <= i < |l| - 1 ==> l[i] != '\n'
  }

  /** A line that ends in its newline. */
  predicate IsClosedLine(l: string)
  {
    IsLine(l) && l[|l| - 1] == '\n'
  }

  /** The length of the first line of a non-empty text, newline included. */
  function FirstLineLength(text: string): (n: nat)
    requires text != []
    ensures 0 < n <= |text|
    ensures IsLine(text[..n])
    ensures n < |text| ==> text[n - 1] == '\n'
    decreases |text|
  {
    if text[0] == '\n' || |text| == 1 then 1
    else
      var n := 1 + FirstLineLength(text[1..]);
      assert text[..n] == [text[0]] + text[1..][..n - 1];
      n
  }

  /** `file.readlines()` on a text: the text cut after every newline. */
  function ReadLines(text: string): (lines: seq<string>)
    ensures Join(lines) == text
    ensures forall i :: 0 <= i < |lines| ==> IsLine(lines[i])
    ensures forall i :: 0 <= i < |lines| - 1 ==> IsClosedLine(lines[i])
    decreases |text|
  {
    if text == [] then []
    else
      var n := FirstLineLength(text);
      var rest := ReadLines(text[n..]);
      assert ([text[..n]] + rest)[1..] == rest;
      assert text == text[..n] + text[n..];
      [text[..n]] + rest
  }

  lemma {:induction false} FirstLineOfClosed(l: string, rest: string)
    requires IsClosedLine(l)
    ensures FirstLineLength(l + rest) == |l|
    decreases |l|
  {
    if |l| > 1 {
      assert (l + rest)[1..] == l[1..] + rest;
      FirstLineOfClosed(l[1..], rest);
    }
  }

  /** Reading back lines that each end in a newline gives those lines. */
  lemma {:induction false} ReadLinesOfJoin(lines: seq<string>)
    requires forall i :: 0 <= i < |lines| ==> IsClosedLine(lines[i])
    ensures ReadLines(Join(lines)) == lines
    decreases |lines|
  {
    if lines != [] {
      var text := Join(lines);
      FirstLineOfClosed(lines[0], Join(lines[1..]));
      var n := |lines[0]|;
      assert text[..n] == lines[0];
      assert text[n..] == Join(lines[1..]);
      ReadLinesOfJoin(lines[1..]);
      assert lines == [lines[0]] + lines[1..];
    }
  }
}
