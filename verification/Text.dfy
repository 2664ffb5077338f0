/** Python's text primitives, as far as the line-oriented modules use them. */
module Text {

  /** `str.isspace` for one character. */
  predicate IsSpace(c: char) {
    || '\t' <= c <= '\r' || '\U{1c}' <= c <= ' '
    || c == '\U{85}' || c == '\U{a0}' || c == '\U{1680}' || '\U{2000}' <= c <= '\U{200a}'
    || c == '\U{2028}' || c == '\U{2029}' || c == '\U{202f}' || c == '\U{205f}' || c == '\U{3000}'
  }

  /** The characters `str.splitlines` breaks at. */
  predicate IsBreak(c: char) {
    '\n' <= c <= '\r' || '\U{1c}' <= c <= '\U{1e}' || c == '\U{85}' || c == '\U{2028}' || c == '\U{2029}'
  }

  predicate IsDigit(c: char) { '0' <= c <= '9' }

  predicate StartsWith(s: string, p: string) { p <= s }

  predicate NoBreaks(s: string) { forall c | c in s :: !IsBreak(c) }

  predicate NoSpaces(s: string) { forall c | c in s :: !IsSpace(c) }

  // ---- Lines ----

  function LineLength(s: string): (n: nat)
    ensures n <= |s|
    ensures forall i | 0 <= i < n :: !IsBreak(s[i])
    ensures n < |s| ==> IsBreak(s[n])
  {
    if s == "" || IsBreak(s[0]) then 0 else 1 + LineLength(s[1..])
  }

  /** `str.splitlines`; CR LF is one break. */
  function SplitLines(s: string): seq<string>
    decreases |s|
  {
    if s == "" then []
    else
      var n := LineLength(s);
      if n == |s| then [s]
      else
        [s[..n]] + SplitLines(s[n + BreakLength(s, n)..])
  }

  function BreakLength(s: string, n: nat): (k: nat)
    requires n < |s|
    ensures 1 <= k <= 2 && n + k <= |s|
  {
    if s[n] == '\r' && n + 1 < |s| && s[n + 1] == '\n' then 2 else 1
  }

  lemma {:induction false} FirstCut(s: string)
    requires LineLength(s) < |s|
    ensures var n := LineLength(s); SplitLines(s) == [s[..n]] + SplitLines(s[n + BreakLength(s, n)..])
  {
    hide LineLength, IsBreak, BreakLength;
    var n := LineLength(s);
    var skip := BreakLength(s, n);
    assert SplitLines(s) == [s[..n]] + SplitLines(s[n + skip..]);
  }

  /** `"\n".join(lines)`. */
  function JoinLines(lines: seq<string>): string {
    if lines == [] then ""
    else if |lines| == 1 then lines[0]
    else lines[0] + "\n" + JoinLines(lines[1..])
  }

  /** `"".join(f"{line}\n" for line in lines)`. */
  function EndLines(lines: seq<string>): string {
    if lines == [] then "" else lines[0] + "\n" + EndLines(lines[1..])
  }

  lemma {:induction false} LineLengthIs(line: string, rest: string)
    requires NoBreaks(line) && (rest == "" || IsBreak(rest[0]))
    ensures LineLength(line + rest) == |line|
  {
    if line == "" {
      assert line + rest == rest;
    } else {
      assert line[0] in line;
      assert (line + rest)[1..] == line[1..] + rest;
      assert forall c | c in line[1..] :: c in line;
      LineLengthIs(line[1..], rest);
    }
  }

  lemma FirstLine(line: string, rest: string)
    requires NoBreaks(line)
    ensures SplitLines(line + "\n" + rest) == [line] + SplitLines(rest)
  {
    var s := line + ("\n" + rest);
    assert line + "\n" + rest == s;
    LineLengthIs(line, "\n" + rest);
    assert s[|line|] == '\n' && s[..|line|] == line && s[|line| + 1..] == rest;
  }

  /** Lines without breaks, the last not empty, survive being joined and split again. */
  lemma {:induction false} SplitJoined(lines: seq<string>)
    requires forall line | line in lines :: NoBreaks(line)
    requires lines != [] ==> lines[|lines| - 1] != ""
    ensures SplitLines(JoinLines(lines)) == lines
  {
    if |lines| == 1 {
      LineLengthIs(lines[0], "");
      assert lines[0] + "" == lines[0];
    } else if |lines| > 1 {
      SplitJoined(lines[1..]);
      FirstLine(lines[0], JoinLines(lines[1..]));
    }
  }

  /** Lines without breaks survive being ended and split again. */
  lemma {:induction false} SplitEnded(lines: seq<string>)
    requires forall line | line in lines :: NoBreaks(line)
    ensures SplitLines(EndLines(lines)) == lines
  {
    if lines != [] {
      SplitEnded(lines[1..]);
      FirstLine(lines[0], EndLines(lines[1..]));
    }
  }

  // ---- Lines that are broken ----

  /** The lines a written line reads back as: itself, unless it holds a break. */
  function Broken(line: string): (pieces: seq<string>)
    ensures pieces != []
  {
    SplitLines(line + "\n")
  }

  function ReadBack(lines: seq<string>): seq<string> {
    if lines == [] then [] else Broken(lines[0]) + ReadBack(lines[1..])
  }

  lemma UnbrokenLine(line: string)
    requires NoBreaks(line)
    ensures Broken(line) == [line]
  {
    FirstLine(line, "");
    assert line + "\n" + "" == line + "\n";
  }

  lemma {:induction false} LineLengthAfter(p: string, s: string)
    requires NoBreaks(p)
    ensures LineLength(p + s) == |p| + LineLength(s)
  {
    if p == "" {
      assert p + s == s;
    } else {
      assert p[0] in p && (p + s)[1..] == p[1..] + s;
      assert forall c | c in p[1..] :: c in p;
      LineLengthAfter(p[1..], s);
    }
  }

  /** A prefix without breaks goes to the first piece. */
  lemma BrokenAfter(p: string, line: string)
    requires NoBreaks(p)
    ensures Broken(p + line) == [p + Broken(line)[0]] + Broken(line)[1..]
  {
    hide SplitLines, IsBreak, LineLength;
    var s := line + "\n";
    assert p + line + "\n" == p + s;
    LineLengthAfter(p, s);
    var n := LineLength(s);
    LastIsBreak(line);
    assert (p + s)[..|p| + n] == p + s[..n];
    FirstCut(s);
    FirstCut(p + s);
    var skip := BreakLength(s, n);
    assert BreakLength(p + s, |p| + n) == skip;
    assert (p + s)[|p| + n + skip..] == s[n + skip..];
  }

  lemma LastIsBreak(line: string)
    ensures LineLength(line + "\n") < |line + "\n"|
  {
    assert IsBreak((line + "\n")[|line|]);
  }

  lemma {:induction false} LineLengthBefore(line: string, rest: string)
    ensures LineLength(line + ("\n" + rest)) == LineLength(line + "\n")
  {
    if line == "" {
      assert line + ("\n" + rest) == "\n" + rest && line + "\n" == "\n";
    } else if !IsBreak(line[0]) {
      assert (line + ("\n" + rest))[1..] == line[1..] + ("\n" + rest);
      assert (line + "\n")[1..] == line[1..] + "\n";
      LineLengthBefore(line[1..], rest);
    }
  }

  /** A written line reads back on its own, whatever follows it. */
  lemma {:induction false} SplitAfterNewline(line: string, rest: string)
    ensures SplitLines(line + ("\n" + rest)) == Broken(line) + SplitLines(rest)
    decreases |line|
  {
    hide SplitLines, IsBreak, LineLength;
    var s, t := line + ("\n" + rest), line + "\n";
    LineLengthBefore(line, rest);
    LastIsBreak(line);
    FirstCut(s);
    FirstCut(t);
    var n := LineLength(t);
    assert s[..n] == t[..n];
    var skip := BreakLength(t, n);
    assert BreakLength(s, n) == skip;
    if n + skip <= |line| {
      var tail := line[n + skip..];
      assert s[n + skip..] == tail + ("\n" + rest) && t[n + skip..] == tail + "\n";
      SplitAfterNewline(tail, rest);
      assert [s[..n]] + (Broken(tail) + SplitLines(rest)) == [t[..n]] + Broken(tail) + SplitLines(rest);
    } else {
      assert s[n + skip..] == rest && t[n + skip..] == "";
      SplitNothing();
      assert [t[..n]] + [] == [t[..n]];
    }
  }

  lemma SplitNothing()
    ensures SplitLines("") == []
  {
  }

  /** Written lines read back as their pieces. */
  lemma {:induction false} SplitWritten(lines: seq<string>)
    ensures SplitLines(EndLines(lines)) == ReadBack(lines)
  {
    if lines != [] {
      SplitWritten(lines[1..]);
      SplitAfterNewline(lines[0], EndLines(lines[1..]));
      assert lines[0] + "\n" + EndLines(lines[1..]) == lines[0] + ("\n" + EndLines(lines[1..]));
    }
  }

  lemma {:induction false} EndLinesConcat(a: seq<string>, b: seq<string>)
    ensures EndLines(a + b) == EndLines(a) + EndLines(b)
  {
    if a == [] {
      assert a + b == b;
    } else {
      assert (a + b)[1..] == a[1..] + b;
      EndLinesConcat(a[1..], b);
    }
  }

  lemma {:induction false} LinesHaveNoBreaks(s: string)
    ensures forall line | line in SplitLines(s) :: NoBreaks(line)
    decreases |s|
  {
    if s != "" {
      var n := LineLength(s);
      if n < |s| {
        LinesHaveNoBreaks(s[n + BreakLength(s, n)..]);
      }
    }
  }

  // ---- Decimal numbers ----

  function Decimal(n: nat): (s: string)
    ensures |s| > 0 && forall c | c in s :: IsDigit(c)
  {
    var last := [('0' as int + n % 10) as char];
    if n < 10 then last else Decimal(n / 10) + last
  }

  function ParseDecimal(s: string): nat
    requires forall c | c in s :: IsDigit(c)
  {
    if s == "" then 0
    else
      assert s[|s| - 1] in s && IsDigit(s[|s| - 1]);
      ParseDecimal(s[..|s| - 1]) * 10 + (s[|s| - 1] as int - '0' as int)
  }

  /** Digits read as decimal numbers do: every further one counts ten times less than what precedes it. */
  lemma DigitsCountInTens(s: string, digit: nat)
    requires (forall c | c in s :: IsDigit(c)) && digit < 10
    ensures ParseDecimal("") == 0
    ensures var longer := s + [('0' as int + digit) as char];
            (forall c | c in longer :: IsDigit(c)) && ParseDecimal(longer) == 10 * ParseDecimal(s) + digit
  {
    var longer := s + [('0' as int + digit) as char];
    assert longer[..|longer| - 1] == s;
  }

  lemma {:induction false} ParseOfDecimal(n: nat)
    ensures ParseDecimal(Decimal(n)) == n
  {
    var last := [('0' as int + n % 10) as char];
    if n >= 10 {
      ParseOfDecimal(n / 10);
      assert (Decimal(n / 10) + last)[..|Decimal(n / 10)|] == Decimal(n / 10);
    }
  }

  function LeadingDigits(s: string): (n: nat)
    ensures n <= |s| && forall c | c in s[..n] :: IsDigit(c)
  {
    if s == "" || !IsDigit(s[0]) then 0
    else
      var n := LeadingDigits(s[1..]);
      assert s[..1 + n] == [s[0]] + s[1..][..n];
      1 + n
  }

  lemma {:induction false} LeadingDigitsAre(d: string, rest: string)
    requires (forall c | c in d :: IsDigit(c)) && (rest == "" || !IsDigit(rest[0]))
    ensures LeadingDigits(d + rest) == |d|
  {
    if d == "" {
      assert d + rest == rest;
    } else {
      assert (d + rest)[1..] == d[1..] + rest;
      LeadingDigitsAre(d[1..], rest);
    }
  }
}
