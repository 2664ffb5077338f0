/** The unified-diff annotator: a line-by-line machine that puts `file:line:` before every added
    line, and when the line numbers it computes are the true ones. */
module DiffAnnotator {
  import opened Wrappers
  import opened Text

  // ---- The two header patterns ----

  function LeadingNonSpaces(s: string): (n: nat)
    ensures n <= |s| && NoSpaces(s[..n])
  {
    if s == "" || IsSpace(s[0]) then 0
    else
      var n := LeadingNonSpaces(s[1..]);
      assert s[..1 + n] == [s[0]] + s[1..][..n];
      1 + n
  }

  /** `^diff --git a/(\S+) b/(\S+)`: the second path. */
  function ParseFileHeader(line: string): (path: Option<string>)
    ensures path.Some? ==> IsPlainPath(path.value)
  {
    if !StartsWith(line, "diff --git a/") then None
    else
      var a := line[13..];
      var n := LeadingNonSpaces(a);
      if n == 0 || !StartsWith(a[n..], " b/") then None
      else
        var b := a[n..][3..];
        var m := LeadingNonSpaces(b);
        if m == 0 then None else Some(b[..m])
  }

  /** A path the pattern can read: not empty, and without whitespace. */
  predicate IsPlainPath(path: string) {
    path != "" && NoSpaces(path)
  }

  /** `(?:,\d+)?` */
  function SkipCount(s: string): string {
    if s != "" && s[0] == ',' && LeadingDigits(s[1..]) > 0 then s[1..][LeadingDigits(s[1..])..] else s
  }

  /** `^@@ -\d+(?:,\d+)? \+(\d+)(?:,\d+)? @@`: the first new-file line. */
  function ParseHunkHeader(line: string): Option<nat> {
    if !StartsWith(line, "@@ -") then None
    else
      var s := line[4..];
      var n := LeadingDigits(s);
      var t := SkipCount(s[n..]);
      if n == 0 || !StartsWith(t, " +") then None
      else
        var u := t[2..];
        var m := LeadingDigits(u);
        if m == 0 || !StartsWith(SkipCount(u[m..]), " @@") then None else Some(ParseDecimal(u[..m]))
  }

  // ---- The annotator ----

  datatype State = State(file: Option<string>, lineno: Option<nat>)

  const START := State(None, None)

  datatype OutLine = Plain(line: string) | Tagged(file: string, n: nat, line: string)

  function Show(o: OutLine): string {
    match o
    case Plain(line) => line
    case Tagged(file, n, line) => file + ":" + Decimal(n) + ": " + line
  }

  function ShowAll(out: seq<OutLine>): seq<string> {
    seq(|out|, i requires 0 <= i < |out| => Show(out[i]))
  }

  lemma NothingShown()
    ensures ShowAll([]) == []
  {
  }

  lemma ShowAppend(out: seq<OutLine>, o: OutLine)
    ensures ShowAll(out + [o]) == ShowAll(out) + [Show(o)]
  {
  }

  const NO_NEWLINE := "\\ No newline at end of file"

  function Step(st: State, line: string): (State, OutLine) {
    var header := ParseFileHeader(line);
    var hunk := ParseHunkHeader(line);
    if header.Some? then (State(header, None), Plain(line))
    else if hunk.Some? then (st.(lineno := hunk), Plain(line))
    else if st.file.None? || st.lineno.None? then (st, Plain(line))
    else
      var n := st.lineno.value;
      if StartsWith(line, "+") && !StartsWith(line, "+++")
      then (st.(lineno := Some(n + 1)), Tagged(st.file.value, n, line))
      else if StartsWith(line, "-") && !StartsWith(line, "---") then (st, Plain(line))
      else if StartsWith(line, NO_NEWLINE) then (st, Plain(line))
      else (st.(lineno := Some(n + 1)), Plain(line))
  }

  function Tag(st: State, lines: seq<string>): (out: seq<OutLine>)
    ensures |out| == |lines|
    decreases |lines|
  {
    if lines == [] then []
    else
      var (next, o) := Step(st, lines[0]);
      [o] + Tag(next, lines[1..])
  }

  function Run(st: State, lines: seq<string>): State
    decreases |lines|
  {
    if lines == [] then st else Run(Step(st, lines[0]).0, lines[1..])
  }

  /** `done` is what the annotator wrote when it stands before line `i` in state `st`. */
  ghost predicate Progress(lines: seq<string>, done: seq<OutLine>, st: State, i: nat)
    requires i <= |lines|
  {
    done + Tag(st, lines[i..]) == Tag(START, lines)
  }

  lemma ProgressStarts(lines: seq<string>)
    ensures Progress(lines, [], START, 0)
  {
    assert lines[0..] == lines;
    assert [] + Tag(START, lines) == Tag(START, lines);
  }

  lemma ProgressMoves(lines: seq<string>, done: seq<OutLine>, st: State, i: nat)
    requires i < |lines| && Progress(lines, done, st, i)
    ensures Progress(lines, done + [Step(st, lines[i]).1], Step(st, lines[i]).0, i + 1)
  {
    hide Step;
    var o, rest := Step(st, lines[i]).1, Tag(Step(st, lines[i]).0, lines[i + 1..]);
    assert lines[i..][0] == lines[i] && lines[i..][1..] == lines[i + 1..];
    assert done + ([o] + rest) == done + [o] + rest;
  }

  lemma ProgressEnds(lines: seq<string>, done: seq<OutLine>, st: State)
    requires Progress(lines, done, st, |lines|)
    ensures done == Tag(START, lines)
  {
    assert lines[|lines|..] == [];
    assert done + [] == done;
  }

  /** `_annotate`. */
  method Annotate(rawDiff: string) returns (text: string)
    ensures text == JoinLines(ShowAll(Tag(START, SplitLines(rawDiff))))
    ensures forall files | (forall f | f in files :: WellFormed(f)) && Rejoins(Render(files)) && FilesSafe(files)
                           && rawDiff == JoinLines(Render(files)) :: PointsIntoFiles(SplitLines(text), files)
  {
    hide ParseFileHeader, ParseHunkHeader, Decimal, ShowAll, SplitLines, JoinLines, Progress, Tag, WellFormed, Rejoins,
      FilesSafe, Render, PointsIntoFiles;
    var lines := SplitLines(rawDiff);
    var outLines: seq<string> := [];
    var currentFile: Option<string> := None;
    var newLineno: Option<nat> := None;
    ghost var done: seq<OutLine> := [];
    NothingShown();
    ProgressStarts(lines);
    for i := 0 to |lines|
      invariant outLines == ShowAll(done)
      invariant Progress(lines, done, State(currentFile, newLineno), i)
    {
      var line := lines[i];
      ghost var o := Step(State(currentFile, newLineno), line).1;
      ProgressMoves(lines, done, State(currentFile, newLineno), i);
      ShowAppend(done, o);
      var fileMatch := ParseFileHeader(line);
      var hunkMatch := ParseHunkHeader(line);
      if fileMatch.Some? {
        currentFile := fileMatch;
        newLineno := None;
        outLines := outLines + [line];
      } else if hunkMatch.Some? {
        newLineno := hunkMatch;
        outLines := outLines + [line];
      } else if currentFile.None? || newLineno.None? {
        outLines := outLines + [line];
      } else if StartsWith(line, "+") && !StartsWith(line, "+++") {
        outLines := outLines + [currentFile.value + ":" + Decimal(newLineno.value) + ": " + line];
        newLineno := Some(newLineno.value + 1);
      } else if StartsWith(line, "-") && !StartsWith(line, "---") {
        outLines := outLines + [line];
      } else if StartsWith(line, NO_NEWLINE) {
        outLines := outLines + [line];
      } else {
        outLines := outLines + [line];
        newLineno := Some(newLineno.value + 1);
      }
      done := done + [o];
    }
    ProgressEnds(lines, done, State(currentFile, newLineno));
    text := JoinLines(outLines);
    forall files | (forall f | f in files :: WellFormed(f)) && Rejoins(Render(files)) && FilesSafe(files)
                   && rawDiff == JoinLines(Render(files))
      ensures PointsIntoFiles(SplitLines(text), files)
    {
      AnnotatedTextPointsIntoFiles(files, text);
    }
  }

  // ---- Nothing is lost ----

  function Erase(out: seq<OutLine>): seq<string> {
    seq(|out|, i requires 0 <= i < |out| => out[i].line)
  }

  /** Without its prefixes the output is the input, line for line, whatever the input. */
  lemma {:induction false} ErasingRestoresInput(st: State, lines: seq<string>)
    ensures Erase(Tag(st, lines)) == lines
    decreases |lines|
  {
    hide ParseFileHeader, ParseHunkHeader;
    if lines != [] {
      var (next, o) := Step(st, lines[0]);
      ErasingRestoresInput(next, lines[1..]);
      assert Erase([o] + Tag(next, lines[1..])) == [o.line] + Erase(Tag(next, lines[1..]));
    }
  }

  lemma {:induction false} TagConcat(st: State, a: seq<string>, b: seq<string>)
    ensures Tag(st, a + b) == Tag(st, a) + Tag(Run(st, a), b)
    ensures Run(st, a + b) == Run(Run(st, a), b)
    decreases |a|
  {
    hide Step;
    if a == [] {
      assert a + b == b;
    } else {
      assert (a + b)[0] == a[0] && (a + b)[1..] == a[1..] + b;
      TagConcat(Step(st, a[0]).0, a[1..], b);
    }
  }

  // ---- Rendered diffs ----

  datatype HunkLine = Context(text: string) | Added(text: string) | Removed(text: string) | NoNewline
  {
    /** Part of the new file. */
    predicate New() { Context? || Added? }
  }

  datatype Hunk = Hunk(oldStart: nat, oldCount: Option<nat>, newStart: nat, newCount: Option<nat>,
                       section: string, lines: seq<HunkLine>)

  /** One file's patch: `meta` is what may stand between the file header and the first hunk. */
  datatype FilePatch = FilePatch(path: string, meta: seq<string>, newFile: seq<string>, hunks: seq<Hunk>)

  function RenderLine(h: HunkLine): string {
    match h
    case Context(text) => " " + text
    case Added(text) => "+" + text
    case Removed(text) => "-" + text
    case NoNewline => NO_NEWLINE
  }

  function RenderLines(lines: seq<HunkLine>): seq<string> {
    seq(|lines|, i requires 0 <= i < |lines| => RenderLine(lines[i]))
  }

  function RenderCount(count: Option<nat>): string {
    if count.None? then "" else "," + Decimal(count.value)
  }

  function HunkHeader(h: Hunk): string {
    "@@ -" + (Decimal(h.oldStart) + (RenderCount(h.oldCount) + (" +" + (Decimal(h.newStart)
    + (RenderCount(h.newCount) + (" @@" + h.section))))))
  }

  function FileHeader(path: string): string {
    "diff --git a/" + (path + (" b/" + path))
  }

  function RenderHunk(h: Hunk): seq<string> {
    [HunkHeader(h)] + RenderLines(h.lines)
  }

  function RenderHunks(hunks: seq<Hunk>): seq<string> {
    if hunks == [] then [] else RenderHunk(hunks[0]) + RenderHunks(hunks[1..])
  }

  function RenderFile(f: FilePatch): seq<string> {
    [FileHeader(f.path)] + (f.meta + RenderHunks(f.hunks))
  }

  function Render(files: seq<FilePatch>): seq<string> {
    if files == [] then [] else RenderFile(files[0]) + Render(files[1..])
  }

  function NewSide(lines: seq<HunkLine>): seq<string> {
    if lines == [] then []
    else (if lines[0].New() then [lines[0].text] else []) + NewSide(lines[1..])
  }

  /** The hunk's new side is what the new file holds from `newStart` on. */
  predicate Fits(h: Hunk, newFile: seq<string>) {
    var text := NewSide(h.lines);
    text != [] ==> 1 <= h.newStart && h.newStart - 1 + |text| <= |newFile|
                   && newFile[h.newStart - 1..h.newStart - 1 + |text|] == text
  }

  /** A line `_annotate` would tag if it met it inside a hunk. */
  predicate LooksAdded(line: string) {
    StartsWith(line, "+") && !StartsWith(line, "+++")
  }

  /** Any path; the lines before the first hunk look like no header and like no added line. */
  predicate WellFormed(f: FilePatch) {
    && (forall line | line in f.meta ::
          ParseFileHeader(line).None? && ParseHunkHeader(line).None? && !LooksAdded(line))
    && (forall h | h in f.hunks :: Fits(h, f.newFile))
  }

  // ---- What a truthful annotation is ----

  /** Added lines whose text starts with "++" look like a `+++` header and are left alone. */
  predicate Taggable(h: HunkLine) {
    h.Added? && !StartsWith(h.text, "++")
  }

  /** The removed lines the annotator mistakes for `---` headers, and so for context. */
  predicate Miscounted(h: HunkLine) {
    h.Removed? && StartsWith(h.text, "--")
  }

  /** Annotations when the new-file position of the first line is `position` and the annotator's
      count is `drift` ahead of it. */
  function TagHunkLines(path: string, position: nat, drift: nat, lines: seq<HunkLine>): (out: seq<OutLine>)
    ensures |out| == |lines|
    decreases |lines|
  {
    if lines == [] then []
    else
      var h := lines[0];
      var o := if Taggable(h) then Tagged(path, position + drift, RenderLine(h)) else Plain(RenderLine(h));
      [o] + TagHunkLines(path, if h.New() then position + 1 else position,
                         if Miscounted(h) then drift + 1 else drift, lines[1..])
  }

  function Plains(lines: seq<string>): seq<OutLine> {
    seq(|lines|, i requires 0 <= i < |lines| => Plain(lines[i]))
  }

  /** Every added line with its position in the new file. */
  function TrueLines(path: string, position: nat, lines: seq<HunkLine>): (out: seq<OutLine>)
    ensures |out| == |lines|
    decreases |lines|
  {
    if lines == [] then []
    else
      var h := lines[0];
      var o := if Taggable(h) then Tagged(path, position, RenderLine(h)) else Plain(RenderLine(h));
      [o] + TrueLines(path, if h.New() then position + 1 else position, lines[1..])
  }

  function TrueHunks(path: string, hunks: seq<Hunk>): (out: seq<OutLine>)
    ensures |out| == |RenderHunks(hunks)|
  {
    if hunks == [] then []
    else
      ([Plain(HunkHeader(hunks[0]))] + TrueLines(path, hunks[0].newStart, hunks[0].lines))
      + TrueHunks(path, hunks[1..])
  }

  function TrueFile(f: FilePatch): (out: seq<OutLine>)
    ensures |out| == |RenderFile(f)|
  {
    [Plain(FileHeader(f.path))] + (Plains(f.meta) + TrueHunks(f.path, f.hunks))
  }

  function TrueTags(files: seq<FilePatch>): (out: seq<OutLine>)
    ensures |out| == |Render(files)|
  {
    if files == [] then [] else TrueFile(files[0]) + TrueTags(files[1..])
  }

  lemma TaggableIsAdded(h: HunkLine)
    ensures Taggable(h) ==> h.Added? && RenderLine(h) == "+" + h.text
  {
  }

  /** A truthful tag names the new file and the line of it that holds the added text. */
  lemma {:induction false} TrueLinesPointAtFile(path: string, position: nat, lines: seq<HunkLine>,
                                                newFile: seq<string>, i: nat)
    requires i < |lines| && Taggable(lines[i])
    requires 1 <= position && position - 1 + |NewSide(lines)| <= |newFile|
    requires newFile[position - 1..position - 1 + |NewSide(lines)|] == NewSide(lines)
    ensures TrueLines(path, position, lines)[i].Tagged?
    ensures var o := TrueLines(path, position, lines)[i];
            o.file == path && 1 <= o.n <= |newFile| && o.line == "+" + newFile[o.n - 1]
    decreases |lines|
  {
    hide Taggable;
    TaggableIsAdded(lines[i]);
    var side := NewSide(lines);
    if lines[0].New() {
      assert side[0] == newFile[position - 1];
      assert side[1..] == NewSide(lines[1..]);
      assert newFile[position..position + |side[1..]|] == side[1..];
    }
    if i > 0 {
      TrueLinesPointAtFile(path, if lines[0].New() then position + 1 else position, lines[1..], newFile, i - 1);
    }
  }

  /** Line `i` of hunk `k` of a well-formed file patch: a truthful tag reads the new file. */
  lemma TruthReadsTheNewFile(f: FilePatch, k: nat, i: nat)
    requires WellFormed(f) && k < |f.hunks| && i < |f.hunks[k].lines| && Taggable(f.hunks[k].lines[i])
    ensures var o := TrueLines(f.path, f.hunks[k].newStart, f.hunks[k].lines)[i];
            o.Tagged? && o.file == f.path && 1 <= o.n <= |f.newFile| && o.line == "+" + f.newFile[o.n - 1]
  {
    var h := f.hunks[k];
    assert h in f.hunks && Fits(h, f.newFile);
    TaggableIsNew(h.lines, i);
    TrueLinesPointAtFile(f.path, h.newStart, h.lines, f.newFile, i);
  }

  lemma {:induction false} TaggableIsNew(lines: seq<HunkLine>, i: nat)
    requires i < |lines| && Taggable(lines[i])
    ensures NewSide(lines) != []
  {
    if i > 0 {
      TaggableIsNew(lines[1..], i - 1);
    }
  }

  // ---- Parsing what was rendered ----

  lemma {:induction false} LeadingNonSpacesAre(s: string, rest: string)
    requires NoSpaces(s) && (rest == "" || IsSpace(rest[0]))
    ensures LeadingNonSpaces(s + rest) == |s|
  {
    if s == "" {
      assert s + rest == rest;
    } else {
      assert (s + rest)[1..] == s[1..] + rest;
      LeadingNonSpacesAre(s[1..], rest);
    }
  }

  lemma FileHeaderParses(path: string)
    requires path != "" && NoSpaces(path)
    ensures ParseFileHeader(FileHeader(path)) == Some(path)
  {
    var line := FileHeader(path);
    var tail := " b/" + path;
    assert line[13..] == path + tail;
    LeadingNonSpacesAre(path, tail);
    assert (path + tail)[|path|..] == tail && tail[3..] == path;
    LeadingNonSpacesAre(path, "");
    assert path + "" == path;
  }

  lemma CountIsSkipped(count: Option<nat>, rest: string)
    requires rest != "" && rest[0] == ' '
    ensures SkipCount(RenderCount(count) + rest) == rest
    ensures !IsDigit((RenderCount(count) + rest)[0])
  {
    hide Decimal, LeadingDigits;
    if count.Some? {
      var d := Decimal(count.value);
      var s := [','] + (d + rest);
      assert RenderCount(count) + rest == s;
      assert s[0] == ',' && s[1..] == d + rest;
      LeadingDigitsAre(d, rest);
      assert (d + rest)[|d|..] == rest;
      assert SkipCount(s) == s[1..][|d|..];
    } else {
      assert RenderCount(count) + rest == rest;
    }
  }

  lemma {:induction false} HunkHeaderParses(h: Hunk)
    ensures ParseHunkHeader(HunkHeader(h)) == Some(h.newStart)
    ensures ParseFileHeader(HunkHeader(h)).None?
  {
    hide LeadingDigits, SkipCount, Decimal, ParseDecimal, RenderCount;
    var d, e := Decimal(h.oldStart), Decimal(h.newStart);
    var v := " @@" + h.section;
    var u := e + (RenderCount(h.newCount) + v);
    var t := " +" + u;
    var s := d + (RenderCount(h.oldCount) + t);
    assert HunkHeader(h)[4..] == s;
    CountIsSkipped(h.oldCount, t);
    LeadingDigitsAre(d, RenderCount(h.oldCount) + t);
    assert s[|d|..] == RenderCount(h.oldCount) + t;
    assert t[2..] == u;
    CountIsSkipped(h.newCount, v);
    LeadingDigitsAre(e, RenderCount(h.newCount) + v);
    assert u[|e|..] == RenderCount(h.newCount) + v && u[..|e|] == e;
    ParseOfDecimal(h.newStart);
    assert HunkHeader(h)[0] == '@';
  }

  // ---- What the annotator does on a rendered diff ----

  lemma NotAHeader(line: string)
    requires line != "" && line[0] != 'd' && line[0] != '@'
    ensures ParseFileHeader(line).None? && ParseHunkHeader(line).None?
  {
  }

  lemma StepOnHeader(path: string, lineno: Option<nat>, h: Hunk)
    ensures Step(State(Some(path), lineno), HunkHeader(h))
         == (State(Some(path), Some(h.newStart)), Plain(HunkHeader(h)))
  {
    hide ParseFileHeader, ParseHunkHeader, HunkHeader;
    HunkHeaderParses(h);
  }

  lemma StepOnHunkLine(path: string, n: nat, h: HunkLine)
    ensures Step(State(Some(path), Some(n)), RenderLine(h)) ==
            (State(Some(path), Some(if h.New() || Miscounted(h) then n + 1 else n)),
             if Taggable(h) then Tagged(path, n, RenderLine(h)) else Plain(RenderLine(h)))
  {
    hide ParseFileHeader, ParseHunkHeader;
    var line := RenderLine(h);
    NotAHeader(line);
    if h.Added? {
      assert StartsWith(line, "+++") <==> StartsWith(h.text, "++") by {
        assert line[1..] == h.text;
        if StartsWith(h.text, "++") {
          assert line == "+" + ("++" + h.text[2..]);
        }
      }
    }
    if h.Removed? {
      assert StartsWith(line, "---") <==> StartsWith(h.text, "--") by {
        assert line[1..] == h.text;
        if StartsWith(h.text, "--") {
          assert line == "-" + ("--" + h.text[2..]);
        }
      }
    }
  }

  /** Inside a hunk the annotator's number is the true position plus the number of miscounted
      lines before it: exactly that far off, on every line. */
  lemma {:induction false} TagOnHunkLines(path: string, position: nat, drift: nat, lines: seq<HunkLine>)
    ensures Tag(State(Some(path), Some(position + drift)), RenderLines(lines))
              == TagHunkLines(path, position, drift, lines)
    ensures Run(State(Some(path), Some(position + drift)), RenderLines(lines)).file == Some(path)
    decreases |lines|
  {
    hide Step, Taggable, RenderLine;
    if lines != [] {
      var h := lines[0];
      StepOnHunkLine(path, position + drift, h);
      assert RenderLines(lines)[0] == RenderLine(h) && RenderLines(lines)[1..] == RenderLines(lines[1..]);
      TagOnHunkLines(path, if h.New() then position + 1 else position,
                     if Miscounted(h) then drift + 1 else drift, lines[1..]);
    }
  }

  function TagHunks(path: string, hunks: seq<Hunk>): (out: seq<OutLine>)
    ensures |out| == |RenderHunks(hunks)|
  {
    if hunks == [] then []
    else
      ([Plain(HunkHeader(hunks[0]))] + TagHunkLines(path, hunks[0].newStart, 0, hunks[0].lines))
      + TagHunks(path, hunks[1..])
  }

  function TagFile(f: FilePatch): (out: seq<OutLine>)
    ensures |out| == |RenderFile(f)|
  {
    [Plain(FileHeader(f.path))] + (Plains(f.meta) + TagHunks(f.path, f.hunks))
  }

  lemma {:induction false} TagOnHunks(path: string, lineno: Option<nat>, hunks: seq<Hunk>)
    ensures Tag(State(Some(path), lineno), RenderHunks(hunks)) == TagHunks(path, hunks)
    decreases |hunks|
  {
    hide Step, HunkHeader;
    if hunks != [] {
      var st, h := State(Some(path), lineno), hunks[0];
      StepOnHeader(path, lineno, h);
      var inside := State(Some(path), Some(h.newStart));
      TagOnHunkLines(path, h.newStart, 0, h.lines);
      assert RenderHunk(h)[0] == HunkHeader(h) && RenderHunk(h)[1..] == RenderLines(h.lines);
      TagConcat(st, RenderHunk(h), RenderHunks(hunks[1..]));
      var after := Run(st, RenderHunk(h));
      assert after == Run(inside, RenderLines(h.lines));
      TagOnHunks(path, after.lineno, hunks[1..]);
      assert after == State(Some(path), after.lineno);
    }
  }

  lemma {:induction false} TagOnMeta(path: string, meta: seq<string>)
    requires forall line | line in meta :: ParseFileHeader(line).None? && ParseHunkHeader(line).None?
    ensures Tag(State(Some(path), None), meta) == Plains(meta)
    ensures Run(State(Some(path), None), meta) == State(Some(path), None)
  {
    if meta != [] {
      TagOnMeta(path, meta[1..]);
      assert Plains(meta) == [Plain(meta[0])] + Plains(meta[1..]);
    }
  }

  lemma TagOnFile(st: State, f: FilePatch)
    requires WellFormed(f) && IsPlainPath(f.path)
    ensures Tag(st, RenderFile(f)) == TagFile(f)
  {
    FileHeaderParses(f.path);
    var inFile := State(Some(f.path), None);
    var rest := f.meta + RenderHunks(f.hunks);
    assert RenderFile(f)[0] == FileHeader(f.path) && RenderFile(f)[1..] == rest;
    TagOnMeta(f.path, f.meta);
    TagConcat(inFile, f.meta, RenderHunks(f.hunks));
    TagOnHunks(f.path, None, f.hunks);
  }

  // ---- When the numbers are true ----

  const DASHES_THEN_ADD := [Removed("-- drop"), Added("x")]
  const EXAMPLE := FilePatch("a", [], ["x"], [Hunk(1, Some(1), 1, Some(1), "", DASHES_THEN_ADD)])

  /** No miscounted removed line comes before a line to be tagged in the same hunk. */
  predicate Safe(lines: seq<HunkLine>) {
    forall i, j | 0 <= i < j < |lines| :: !(Miscounted(lines[i]) && Taggable(lines[j]))
  }

  predicate SafeHunks(hunks: seq<Hunk>) {
    forall h | h in hunks :: Safe(h.lines)
  }

  lemma {:induction false} DriftIsVisible(path: string, position: nat, drift: nat, lines: seq<HunkLine>)
    requires drift > 0
    ensures TagHunkLines(path, position, drift, lines) == TrueLines(path, position, lines)
       <==> forall j | 0 <= j < |lines| :: !Taggable(lines[j])
    decreases |lines|
  {
    if lines != [] {
      var h := lines[0];
      var p, d := if h.New() then position + 1 else position, if Miscounted(h) then drift + 1 else drift;
      DriftIsVisible(path, p, d, lines[1..]);
      var x, y := TagHunkLines(path, position, drift, lines), TrueLines(path, position, lines);
      assert x[1..] == TagHunkLines(path, p, d, lines[1..]) && y[1..] == TrueLines(path, p, lines[1..]);
      assert x == y <==> x[0] == y[0] && x[1..] == y[1..] by {
        assert x == [x[0]] + x[1..] && y == [y[0]] + y[1..];
      }
      assert forall j | 1 <= j < |lines| :: lines[j] == lines[1..][j - 1];
    }
  }

  lemma {:induction false} TrueIffSafe(path: string, position: nat, lines: seq<HunkLine>)
    ensures TagHunkLines(path, position, 0, lines) == TrueLines(path, position, lines) <==> Safe(lines)
    decreases |lines|
  {
    if lines != [] {
      var h, rest := lines[0], lines[1..];
      var p := if h.New() then position + 1 else position;
      var x, y := TagHunkLines(path, position, 0, lines), TrueLines(path, position, lines);
      assert x[0] == y[0] && y[1..] == TrueLines(path, p, rest);
      assert x == y <==> x[1..] == y[1..] by {
        assert x == [x[0]] + x[1..] && y == [y[0]] + y[1..];
      }
      SafeSplits(lines);
      if Miscounted(h) {
        DriftIsVisible(path, p, 1, rest);
        if forall j | 0 <= j < |rest| :: !Taggable(rest[j]) {
          assert Safe(rest);
        }
      } else {
        TrueIffSafe(path, p, rest);
      }
    }
  }

  lemma SafeSplits(lines: seq<HunkLine>)
    requires lines != []
    ensures Safe(lines) <==>
              Safe(lines[1..]) && (Miscounted(lines[0]) ==>
                  forall j | 0 <= j < |lines[1..]| :: !Taggable(lines[1..][j]))
  {
    var rest := lines[1..];
    assert forall j | 1 <= j < |lines| :: lines[j] == rest[j - 1];
    if Safe(lines) {
      forall i, j | 0 <= i < j < |rest|
        ensures !(Miscounted(rest[i]) && Taggable(rest[j]))
      {
        assert rest[i] == lines[i + 1] && rest[j] == lines[j + 1];
      }
      forall j | 0 <= j < |rest| && Miscounted(lines[0])
        ensures !Taggable(rest[j])
      {
        assert rest[j] == lines[j + 1];
      }
    }
  }

  lemma PiecesEqual<T>(x: seq<T>, y: seq<T>, u: seq<T>, v: seq<T>)
    requires |x| == |y|
    ensures x + u == y + v <==> x == y && u == v
  {
    if x + u == y + v {
      assert x == (x + u)[..|x|] && y == (y + v)[..|y|];
      assert u == (x + u)[|x|..] && v == (y + v)[|y|..];
    }
  }

  lemma {:induction false} HunksTrueIffSafe(path: string, hunks: seq<Hunk>)
    ensures TagHunks(path, hunks) == TrueHunks(path, hunks) <==> SafeHunks(hunks)
  {
    if hunks != [] {
      var h := hunks[0];
      var header := [Plain(HunkHeader(h))];
      TrueIffSafe(path, h.newStart, h.lines);
      HunksTrueIffSafe(path, hunks[1..]);
      PiecesEqual(header, header, TagHunkLines(path, h.newStart, 0, h.lines), TrueLines(path, h.newStart, h.lines));
      PiecesEqual(header + TagHunkLines(path, h.newStart, 0, h.lines), header + TrueLines(path, h.newStart, h.lines),
                  TagHunks(path, hunks[1..]), TrueHunks(path, hunks[1..]));
      assert SafeHunks(hunks) <==> Safe(h.lines) && SafeHunks(hunks[1..]) by {
        assert hunks == [h] + hunks[1..];
      }
    }
  }

  // ---- Paths the pattern cannot read ----

  predicate NothingToTag(f: FilePatch) {
    forall h | h in f.hunks :: forall l | l in h.lines :: !Taggable(l)
  }

  /** The file is annotated truthfully: no hunk drifts, and its path can be read if it is needed. */
  predicate FileSafe(f: FilePatch) {
    SafeHunks(f.hunks) && (IsPlainPath(f.path) || NothingToTag(f))
  }

  /** Every path the annotator holds came out of the pattern. */
  predicate PlainState(st: State) {
    st.file.Some? ==> IsPlainPath(st.file.value)
  }

  lemma StepKeepsPlain(st: State, line: string)
    requires PlainState(st)
    ensures PlainState(Step(st, line).0)
    ensures Step(st, line).1.Tagged? ==> IsPlainPath(Step(st, line).1.file) && LooksAdded(line)
    ensures Step(st, line).1.line == line
  {
    hide ParseFileHeader, ParseHunkHeader, IsPlainPath;
  }

  lemma {:induction false} TagsArePlain(st: State, lines: seq<string>)
    requires PlainState(st)
    ensures PlainState(Run(st, lines))
    ensures forall o | o in Tag(st, lines) :: o.Tagged? ==> IsPlainPath(o.file)
    decreases |lines|
  {
    hide Step, IsPlainPath;
    if lines != [] {
      StepKeepsPlain(st, lines[0]);
      TagsArePlain(Step(st, lines[0]).0, lines[1..]);
    }
  }

  lemma {:induction false} NothingAdded(st: State, lines: seq<string>)
    requires PlainState(st) && forall line | line in lines :: !LooksAdded(line)
    ensures Tag(st, lines) == Plains(lines)
    decreases |lines|
  {
    hide Step, LooksAdded, IsPlainPath;
    if lines != [] {
      assert lines[0] in lines && forall line | line in lines[1..] :: line in lines;
      StepKeepsPlain(st, lines[0]);
      NothingAdded(Step(st, lines[0]).0, lines[1..]);
      assert Plains(lines) == [Plain(lines[0])] + Plains(lines[1..]);
    }
  }

  lemma RenderedLooksAdded(h: HunkLine)
    ensures LooksAdded(RenderLine(h)) <==> Taggable(h)
  {
    var line := RenderLine(h);
    if h.Added? {
      assert line[..1] == "+" && line[1..] == h.text;
      if StartsWith(h.text, "++") {
        assert line == "+" + ("++" + h.text[2..]);
      }
      if StartsWith(line, "+++") {
        assert h.text[..2] == line[1..3] == "++";
      }
    } else {
      assert line[0] != '+';
    }
  }

  lemma {:induction false} QuietTruth(path: string, position: nat, lines: seq<HunkLine>)
    requires forall l | l in lines :: !Taggable(l)
    ensures TrueLines(path, position, lines) == Plains(RenderLines(lines))
    decreases |lines|
  {
    hide Taggable, RenderLine;
    if lines != [] {
      var l, rest := lines[0], lines[1..];
      assert l in lines && forall x | x in rest :: x in lines;
      QuietTruth(path, if l.New() then position + 1 else position, rest);
      assert RenderLines(lines) == [RenderLine(l)] + RenderLines(rest);
      assert Plains(RenderLines(lines)) == [Plain(RenderLine(l))] + Plains(RenderLines(rest));
    }
  }

  lemma {:induction false} TaggingTruth(path: string, position: nat, lines: seq<HunkLine>, l: HunkLine)
    requires l in lines && Taggable(l)
    ensures exists o :: o in TrueLines(path, position, lines) && o.Tagged? && o.file == path
    decreases |lines|
  {
    hide Taggable, RenderLine;
    var truth := TrueLines(path, position, lines);
    if Taggable(lines[0]) {
      assert truth[0] in truth && truth[0].Tagged?;
    } else {
      var p := if lines[0].New() then position + 1 else position;
      TaggingTruth(path, p, lines[1..], l);
      var o :| o in TrueLines(path, p, lines[1..]) && o.Tagged? && o.file == path;
      assert o in truth[1..];
    }
  }

  lemma {:induction false} TruthErasesLines(path: string, position: nat, lines: seq<HunkLine>)
    ensures Erase(TrueLines(path, position, lines)) == RenderLines(lines)
    decreases |lines|
  {
    hide Taggable, RenderLine;
    if lines != [] {
      var p := if lines[0].New() then position + 1 else position;
      TruthErasesLines(path, p, lines[1..]);
      var truth := TrueLines(path, position, lines);
      assert truth[1..] == TrueLines(path, p, lines[1..]);
      assert RenderLines(lines) == [RenderLine(lines[0])] + RenderLines(lines[1..]);
      assert Erase(truth) == [RenderLine(lines[0])] + Erase(truth[1..]);
    }
  }

  /** A truthful annotation tags with the path wherever there is something to tag, and nothing else. */
  lemma TruthOnLines(path: string, position: nat, lines: seq<HunkLine>)
    ensures (forall l | l in lines :: !Taggable(l)) ==> TrueLines(path, position, lines) == Plains(RenderLines(lines))
    ensures (exists l | l in lines :: Taggable(l)) ==>
              exists o :: o in TrueLines(path, position, lines) && o.Tagged? && o.file == path
    ensures Erase(TrueLines(path, position, lines)) == RenderLines(lines)
  {
    hide Taggable, TrueLines, Erase, Plains, RenderLines;
    TruthErasesLines(path, position, lines);
    if exists l | l in lines :: Taggable(l) {
      var l :| l in lines && Taggable(l);
      TaggingTruth(path, position, lines, l);
    } else {
      QuietTruth(path, position, lines);
    }
  }

  lemma EraseConcat(a: seq<OutLine>, b: seq<OutLine>)
    ensures Erase(a + b) == Erase(a) + Erase(b)
  {
  }

  lemma PlainsConcat(a: seq<string>, b: seq<string>)
    ensures Plains(a + b) == Plains(a) + Plains(b) && Erase(Plains(a)) == a
  {
  }

  lemma {:induction false} TruthOnHunks(path: string, hunks: seq<Hunk>)
    ensures (forall h | h in hunks :: forall l | l in h.lines :: !Taggable(l)) ==>
              TrueHunks(path, hunks) == Plains(RenderHunks(hunks))
    ensures (exists h | h in hunks :: exists l | l in h.lines :: Taggable(l)) ==>
              exists o :: o in TrueHunks(path, hunks) && o.Tagged? && o.file == path
    ensures Erase(TrueHunks(path, hunks)) == RenderHunks(hunks)
  {
    hide Taggable, HunkHeader, TrueLines, Erase, Plains, RenderLines;
    if hunks == [] {
      assert Erase([]) == [] && Plains([]) == [] by { EmptyTexts(); }
    } else {
      var h, rest := hunks[0], hunks[1..];
      var header, body := HunkHeader(h), TrueLines(path, h.newStart, h.lines);
      assert h in hunks && forall x | x in rest :: x in hunks;
      TruthOnLines(path, h.newStart, h.lines);
      TruthOnHunks(path, rest);
      OneLine(header);
      EraseConcat([Plain(header)], body);
      EraseConcat([Plain(header)] + body, TrueHunks(path, rest));
      PlainsConcat([header], RenderLines(h.lines));
      PlainsConcat(RenderHunk(h), RenderHunks(rest));
      if exists x | x in hunks :: exists l | l in x.lines :: Taggable(l) {
        if exists l | l in h.lines :: Taggable(l) {
          var o :| o in body && o.Tagged? && o.file == path;
          assert o in TrueHunks(path, hunks);
        } else {
          assert exists x | x in rest :: exists l | l in x.lines :: Taggable(l);
          var o :| o in TrueHunks(path, rest) && o.Tagged? && o.file == path;
          assert o in TrueHunks(path, hunks);
        }
      }
    }
  }

  lemma EmptyTexts()
    ensures Erase([]) == [] && Plains([]) == []
  {
  }

  lemma OneLine(line: string)
    ensures Erase([Plain(line)]) == [line] && Plains([line]) == [Plain(line)]
  {
  }

  lemma TruthOnFile(f: FilePatch)
    ensures NothingToTag(f) ==> TrueFile(f) == Plains(RenderFile(f))
    ensures !NothingToTag(f) ==> exists o :: o in TrueFile(f) && o.Tagged? && o.file == f.path
    ensures Erase(TrueFile(f)) == RenderFile(f)
  {
    hide Taggable, TrueHunks, RenderHunks, FileHeader, Erase, Plains;
    var header := FileHeader(f.path);
    TruthOnHunks(f.path, f.hunks);
    OneLine(header);
    PlainsConcat(f.meta, RenderHunks(f.hunks));
    PlainsConcat([header], f.meta + RenderHunks(f.hunks));
    EraseConcat(Plains(f.meta), TrueHunks(f.path, f.hunks));
    EraseConcat([Plain(header)], Plains(f.meta) + TrueHunks(f.path, f.hunks));
    if !NothingToTag(f) {
      var o :| o in TrueHunks(f.path, f.hunks) && o.Tagged? && o.file == f.path;
      assert o in TrueFile(f);
    }
  }

  lemma {:induction false} HunksLookPlain(hunks: seq<Hunk>)
    requires forall h | h in hunks :: forall l | l in h.lines :: !Taggable(l)
    ensures forall line | line in RenderHunks(hunks) :: !LooksAdded(line)
  {
    hide Taggable;
    if hunks != [] {
      var h, rest := hunks[0], hunks[1..];
      assert h in hunks && forall x | x in rest :: x in hunks;
      HunksLookPlain(rest);
      forall line | line in RenderHunk(h)
        ensures !LooksAdded(line)
      {
        if line != HunkHeader(h) {
          var i :| 0 <= i < |h.lines| && line == RenderLine(h.lines[i]);
          RenderedLooksAdded(h.lines[i]);
        } else {
          assert HunkHeader(h)[0] == '@';
        }
      }
    }
  }

  /** A file whose path the pattern cannot read is annotated truthfully exactly if there is nothing to tag:
      what there is gets the name of some other file, or none. */
  lemma {:induction false} UnreadablePath(st: State, f: FilePatch)
    requires PlainState(st) && WellFormed(f) && !IsPlainPath(f.path)
    ensures Tag(st, RenderFile(f)) == TrueFile(f) <==> NothingToTag(f)
  {
    hide IsPlainPath, Tag, Taggable, LooksAdded, TrueFile, RenderHunks, Plains, ParseFileHeader, ParseHunkHeader;
    TruthOnFile(f);
    TagsArePlain(st, RenderFile(f));
    if NothingToTag(f) {
      HunksLookPlain(f.hunks);
      HeaderLooksPlain(f.path);
      NothingAdded(st, RenderFile(f));
    }
  }

  lemma HeaderLooksPlain(path: string)
    ensures !LooksAdded(FileHeader(path))
  {
    assert FileHeader(path)[0] == 'd';
  }

  lemma {:induction false} NothingToTagIsSafe(f: FilePatch)
    requires NothingToTag(f)
    ensures SafeHunks(f.hunks)
  {
    hide Taggable, Miscounted;
    forall h | h in f.hunks
      ensures Safe(h.lines)
    {
      assert forall j | 0 <= j < |h.lines| :: h.lines[j] in h.lines;
    }
  }

  lemma FileTrueIffSafe(st: State, f: FilePatch)
    requires PlainState(st) && WellFormed(f)
    ensures Tag(st, RenderFile(f)) == TrueFile(f) <==> FileSafe(f)
  {
    hide Tag, TagHunks, TrueHunks, SafeHunks, WellFormed, NothingToTag, IsPlainPath, Plains, FileHeader;
    if IsPlainPath(f.path) {
      var header, meta := [Plain(FileHeader(f.path))], Plains(f.meta);
      TagOnFile(st, f);
      HunksTrueIffSafe(f.path, f.hunks);
      PiecesEqual(meta, meta, TagHunks(f.path, f.hunks), TrueHunks(f.path, f.hunks));
      PiecesEqual(header, header, meta + TagHunks(f.path, f.hunks), meta + TrueHunks(f.path, f.hunks));
    } else {
      UnreadablePath(st, f);
      if NothingToTag(f) {
        NothingToTagIsSafe(f);
      }
    }
  }

  lemma {:induction false} FilesTrueIffSafe(st: State, files: seq<FilePatch>)
    requires PlainState(st) && forall f | f in files :: WellFormed(f)
    ensures Tag(st, Render(files)) == TrueTags(files) <==> forall f | f in files :: FileSafe(f)
    decreases |files|
  {
    hide RenderFile, TrueFile, FileSafe, WellFormed, PlainState;
    if files != [] {
      var f, rest := files[0], files[1..];
      assert files == [f] + rest;
      TagConcat(st, RenderFile(f), Render(rest));
      FileTrueIffSafe(st, f);
      TagsArePlain(st, RenderFile(f));
      FilesTrueIffSafe(Run(st, RenderFile(f)), rest);
      PiecesEqual(Tag(st, RenderFile(f)), TrueFile(f), Tag(Run(st, RenderFile(f)), Render(rest)), TrueTags(rest));
    }
  }

  /** Over any rendered diff, every annotation is the true one if and only if no hunk removes a line
      starting with "--" before a line it tags, and every path with something to tag is free of spaces. */
  lemma {:induction false} AnnotationIsTrueIff(files: seq<FilePatch>)
    requires forall f | f in files :: WellFormed(f)
    ensures Tag(START, Render(files)) == TrueTags(files) <==> forall f | f in files :: FileSafe(f)
  {
    FilesTrueIffSafe(START, files);
  }

  /** Removing the line "-- drop" and then adding "x" as line 1 gets "x" numbered 2. */
  lemma DashesShiftTheCount()
    ensures TagHunkLines("a", 1, 0, DASHES_THEN_ADD)[1] == Tagged("a", 2, RenderLine(Added("x")))
    ensures TrueLines("a", 1, DASHES_THEN_ADD)[1] == Tagged("a", 1, RenderLine(Added("x")))
  {
    var lines := DASHES_THEN_ADD;
    assert Miscounted(lines[0]) && !Taggable(lines[0]);
    assert lines[1..] == [Added("x")] && Taggable(lines[1]);
    assert TagHunkLines("a", 1, 1, lines[1..])[0] == Tagged("a", 2, RenderLine(Added("x")));
    assert TrueLines("a", 1, lines[1..])[0] == Tagged("a", 1, RenderLine(Added("x")));
  }

  lemma ExampleIsUnsafe()
    ensures !SafeHunks(EXAMPLE.hunks)
  {
    assert Miscounted(DASHES_THEN_ADD[0]) && Taggable(DASHES_THEN_ADD[1]);
    assert EXAMPLE.hunks[0] in EXAMPLE.hunks && !Safe(EXAMPLE.hunks[0].lines);
  }

  lemma ExampleIsWellFormed()
    ensures WellFormed(EXAMPLE)
  {
    assert DASHES_THEN_ADD[1..] == [Added("x")];
    assert NewSide(DASHES_THEN_ADD) == ["x"];
    assert ["x"][0..1] == ["x"];
  }

  /** So that diff, of a well-formed patch, is annotated wrongly. */
  lemma {:induction false} RemovedDashesMisnumber()
    ensures WellFormed(EXAMPLE) && Tag(START, Render([EXAMPLE])) != TrueTags([EXAMPLE])
  {
    hide Tag, Render, TrueTags, WellFormed, SafeHunks;
    ExampleIsWellFormed();
    ExampleIsUnsafe();
    assert EXAMPLE in [EXAMPLE];
    AnnotationIsTrueIff([EXAMPLE]);
  }

  function AddsOne(path: string, text: string): FilePatch {
    FilePatch(path, [], [text], [Hunk(0, Some(0), 1, None, "", [Added(text)])])
  }

  lemma AddsOneIsWellFormed(path: string, text: string)
    ensures WellFormed(AddsOne(path, text)) && SafeHunks(AddsOne(path, text).hunks)
    ensures NothingToTag(AddsOne(path, text)) <==> StartsWith(text, "++")
  {
    var f, lines := AddsOne(path, text), [Added(text)];
    assert lines[1..] == [];
    assert NewSide(lines) == [text];
    assert [text][0..1] == [text];
    assert f.hunks[0] in f.hunks && lines[0] in f.hunks[0].lines;
    assert Taggable(lines[0]) <==> !StartsWith(text, "++");
  }

  /** A file whose path holds a space, annotated wrongly. */
  lemma {:induction false} SpacedPathIsMislabelled(st: State)
    requires PlainState(st)
    ensures WellFormed(AddsOne("a b", "x")) && Tag(st, RenderFile(AddsOne("a b", "x"))) != TrueFile(AddsOne("a b", "x"))
  {
    hide WellFormed, NothingToTag, Tag, RenderFile, TrueFile, AddsOne;
    AddsOneIsWellFormed("a b", "x");
    AddsOnePath("a b", "x");
    assert "a b"[1] in "a b" && IsSpace("a b"[1]);
    UnreadablePath(st, AddsOne("a b", "x"));
  }

  lemma AddsOnePath(path: string, text: string)
    ensures AddsOne(path, text).path == path && |AddsOne(path, text).hunks| == 1
  {
  }

  // ---- On text ----

  lemma {:induction false} TruthErases(files: seq<FilePatch>)
    ensures Erase(TrueTags(files)) == Render(files)
  {
    hide TrueFile, RenderFile, Erase;
    if files == [] {
      EmptyTexts();
    } else {
      TruthOnFile(files[0]);
      TruthErases(files[1..]);
      EraseConcat(TrueFile(files[0]), TrueTags(files[1..]));
    }
  }

  lemma PlainPathHasNoBreaks(path: string)
    requires IsPlainPath(path)
    ensures NoBreaks(path)
  {
    assert forall c :: IsBreak(c) ==> IsSpace(c);
  }

  lemma NumbersHaveNoBreaks(n: nat)
    ensures NoBreaks(": " + Decimal(n)) && NoBreaks(Decimal(n))
  {
    assert forall c :: IsDigit(c) ==> !IsBreak(c);
  }

  lemma ShownHasNoBreaks(o: OutLine)
    requires NoBreaks(o.line) && (o.Tagged? ==> IsPlainPath(o.file))
    ensures NoBreaks(Show(o))
  {
    hide Decimal, IsPlainPath;
    if o.Tagged? {
      PlainPathHasNoBreaks(o.file);
      NumbersHaveNoBreaks(o.n);
    }
  }

  lemma ShownHoldsLine(o: OutLine)
    ensures NoBreaks(Show(o)) ==> NoBreaks(o.line)
  {
    hide Decimal;
    assert forall c | c in o.line :: c in Show(o);
  }

  /** Two annotations of one line that look the same are the same. */
  lemma {:induction false} ShowIsInjective(a: OutLine, b: OutLine)
    requires a.line == b.line && Show(a) == Show(b)
    ensures a == b
  {
    hide Decimal;
    if a.Tagged? && b.Tagged? {
      var x, y := a.file + ":" + Decimal(a.n), b.file + ":" + Decimal(b.n);
      assert Show(a) == x + (": " + a.line) && Show(b) == y + (": " + a.line);
      assert |x| == |y|;
      assert x == Show(a)[..|x|] && y == Show(b)[..|y|];
      LastColon(a.file, Decimal(a.n), b.file, Decimal(b.n));
      ParseOfDecimal(a.n);
      ParseOfDecimal(b.n);
    }
  }

  lemma LastColon(f: string, d: string, g: string, e: string)
    requires (forall c | c in d :: IsDigit(c)) && (forall c | c in e :: IsDigit(c)) && f + ":" + d == g + ":" + e
    ensures f == g && d == e
  {
    var s := f + ":" + d;
    assert s[|f|] == ':' && s[|g|] == ':';
    assert forall i | |f| < i < |s| :: s[i] == d[i - |f| - 1] && s[i] in d;
    assert forall i | |g| < i < |s| :: s[i] == e[i - |g| - 1] && s[i] in e;
    assert |f| == |g|;
    assert f == s[..|f|] && g == s[..|f|] && d == s[|f| + 1..] && e == s[|f| + 1..];
  }

  /** The condition for text to come apart into the lines that were joined. */
  predicate Rejoins(lines: seq<string>) {
    (forall line | line in lines :: NoBreaks(line)) && (lines != [] ==> lines[|lines| - 1] != "")
  }

  predicate FilesSafe(files: seq<FilePatch>) {
    forall f | f in files :: FileSafe(f)
  }

  lemma ShownEqualIffEqual(a: seq<OutLine>, b: seq<OutLine>)
    requires Erase(a) == Erase(b)
    ensures ShowAll(a) == ShowAll(b) <==> a == b
  {
    hide Show;
    assert |a| == |Erase(a)| && |b| == |Erase(b)|;
    if ShowAll(a) == ShowAll(b) {
      forall i | 0 <= i < |a|
        ensures a[i] == b[i]
      {
        assert a[i].line == Erase(a)[i] && b[i].line == Erase(b)[i];
        assert Show(a[i]) == ShowAll(a)[i] && Show(b[i]) == ShowAll(b)[i];
        ShowIsInjective(a[i], b[i]);
      }
    }
  }

  /** A line that holds a break cannot come out whole: no output line holds one. */
  lemma {:induction false} BrokenLinesAreCut(text: string, truth: seq<OutLine>)
    requires ShowAll(Tag(START, SplitLines(text))) == ShowAll(truth)
    ensures forall o | o in truth :: NoBreaks(o.line)
  {
    hide Tag, Show, SplitLines, IsPlainPath, NoBreaks;
    var lines := SplitLines(text);
    var out := Tag(START, lines);
    LinesHaveNoBreaks(text);
    TagsArePlain(START, lines);
    ErasingRestoresInput(START, lines);
    assert |out| == |ShowAll(out)| == |ShowAll(truth)| == |truth|;
    forall o | o in truth
      ensures NoBreaks(o.line)
    {
      var i :| 0 <= i < |truth| && truth[i] == o;
      assert out[i] in out && out[i].line == lines[i] && lines[i] in lines;
      ShownHasNoBreaks(out[i]);
      assert Show(out[i]) == ShowAll(out)[i] == ShowAll(truth)[i] == Show(o);
      ShownHoldsLine(o);
    }
  }

  lemma {:induction false} LostLastLine(lines: seq<string>)
    requires lines != [] && lines[|lines| - 1] == "" && forall line | line in lines :: NoBreaks(line)
    ensures SplitLines(JoinLines(lines)) == lines[..|lines| - 1]
  {
    JoinedIsEnded(lines);
    SplitEnded(lines[..|lines| - 1]);
  }

  lemma {:induction false} JoinedIsEnded(lines: seq<string>)
    requires lines != [] && lines[|lines| - 1] == ""
    ensures JoinLines(lines) == EndLines(lines[..|lines| - 1])
  {
    if |lines| > 1 {
      JoinedIsEnded(lines[1..]);
      assert lines[..|lines| - 1][0] == lines[0] && lines[..|lines| - 1][1..] == lines[1..][..|lines| - 2];
    }
  }

  /** The whole function on the text `fetch_pr_diff` joins: its lines are the truthful ones if and only if
      no line of the diff holds another line break, the last one is not empty, and every file is safe. */
  lemma {:induction false} AnnotatedTextIsTrueIff(files: seq<FilePatch>)
    requires forall f | f in files :: WellFormed(f)
    ensures ShowAll(Tag(START, SplitLines(JoinLines(Render(files))))) == ShowAll(TrueTags(files)) <==>
              Rejoins(Render(files)) && FilesSafe(files)
  {
    hide Tag, Show, SplitLines, JoinLines, Render, TrueTags, WellFormed, FileSafe, NoBreaks;
    var lines, truth := Render(files), TrueTags(files);
    TruthErases(files);
    if exists line | line in lines :: !NoBreaks(line) {
      var i :| 0 <= i < |lines| && !NoBreaks(lines[i]);
      assert |truth| == |lines| && truth[i].line == lines[i] && truth[i] in truth;
      if ShowAll(Tag(START, SplitLines(JoinLines(lines)))) == ShowAll(truth) {
        BrokenLinesAreCut(JoinLines(lines), truth);
      }
    } else if lines != [] && lines[|lines| - 1] == "" {
      LostLastLine(lines);
      assert |ShowAll(Tag(START, SplitLines(JoinLines(lines))))| == |lines| - 1;
    } else {
      SplitJoined(lines);
      ErasingRestoresInput(START, lines);
      ShownEqualIffEqual(Tag(START, lines), truth);
      AnnotationIsTrueIff(files);
    }
  }

  /** An added line that holds a form feed is cut in two, in a diff that is safe line by line. */
  lemma {:induction false} FormFeedCutsLine()
    ensures var f := AddsOne("a", "x\U{c}y");
            && WellFormed(f) && FilesSafe([f])
            && ShowAll(Tag(START, SplitLines(JoinLines(Render([f]))))) != ShowAll(TrueTags([f]))
  {
    hide WellFormed, SafeHunks, Tag, ShowAll, SplitLines, JoinLines, Render, TrueTags, AddsOne;
    var text := "x\U{c}y";
    var f := AddsOne("a", text);
    AddsOneIsWellFormed("a", text);
    AddsOnePath("a", text);
    RenderedLineIsThere(f, text);
    FormFeedBreaks();
    assert IsPlainPath("a");
    AnnotatedTextIsTrueIff([f]);
  }

  lemma FormFeedBreaks()
    ensures !NoBreaks("+" + "x\U{c}y")
  {
    assert ("+" + "x\U{c}y")[2] == '\U{c}' && IsBreak('\U{c}');
  }

  lemma RenderedLineIsThere(f: FilePatch, text: string)
    requires f == AddsOne(f.path, text)
    ensures "+" + text in Render([f])
  {
    var h := f.hunks[0];
    assert RenderLines(h.lines)[0] == RenderLine(h.lines[0]) == "+" + text;
    assert RenderHunks(f.hunks) == RenderHunk(h) + RenderHunks(f.hunks[1..]);
    assert RenderHunk(h)[1] == "+" + text;
    assert RenderFile(f)[2] == "+" + text;
    assert Render([f]) == RenderFile(f) + Render([f][1..]);
    assert Render([f])[2] == "+" + text;
  }

  // ---- What the text says ----

  /** The file patch line `i` of the rendered diff belongs to. */
  function FileAt(files: seq<FilePatch>, i: nat): FilePatch
    requires i < |Render(files)|
  {
    if i < |RenderFile(files[0])| then files[0] else FileAt(files[1..], i - |RenderFile(files[0])|)
  }

  /** `out` is the added line `line` behind its path and the number of the line of the new file that holds
      it, in digits. */
  ghost predicate PointsAt(out: string, line: string, f: FilePatch) {
    exists digits: string ::
      && digits != "" && (forall c | c in digits :: IsDigit(c))
      && out == f.path + ":" + digits + ": " + line
      && 1 <= ParseDecimal(digits) <= |f.newFile| && line == "+" + f.newFile[ParseDecimal(digits) - 1]
  }

  /** Every added line points into its file, and every other line is as it was. */
  ghost predicate PointsIntoFiles(out: seq<string>, files: seq<FilePatch>) {
    && |out| == |Render(files)|
    && forall i | 0 <= i < |out| ::
         var line := Render(files)[i];
         if StartsWith(line, "+") && !StartsWith(line, "+++") then PointsAt(out[i], line, FileAt(files, i))
         else out[i] == line
  }

  predicate ReadsFile(o: OutLine, line: string, f: FilePatch) {
    if LooksAdded(line)
    then o.Tagged? && o.file == f.path && 1 <= o.n <= |f.newFile| && o.line == line == "+" + f.newFile[o.n - 1]
    else o == Plain(line)
  }

  predicate AllReadFile(out: seq<OutLine>, lines: seq<string>, f: FilePatch) {
    |out| == |lines| && forall i | 0 <= i < |out| :: ReadsFile(out[i], lines[i], f)
  }

  lemma AllReadConcat(a: seq<OutLine>, x: seq<string>, b: seq<OutLine>, y: seq<string>, f: FilePatch)
    requires AllReadFile(a, x, f) && AllReadFile(b, y, f)
    ensures AllReadFile(a + b, x + y, f)
  {
    hide ReadsFile;
    forall i | 0 <= i < |a + b|
      ensures ReadsFile((a + b)[i], (x + y)[i], f)
    {
      if i >= |a| {
        assert ReadsFile(b[i - |a|], y[i - |a|], f);
      }
    }
  }

  lemma {:induction false} UntaggedIsPlain(path: string, position: nat, lines: seq<HunkLine>, i: nat)
    requires i < |lines| && !Taggable(lines[i])
    ensures TrueLines(path, position, lines)[i] == Plain(RenderLine(lines[i]))
    decreases |lines|
  {
    hide Taggable, RenderLine;
    if i > 0 {
      UntaggedIsPlain(path, if lines[0].New() then position + 1 else position, lines[1..], i - 1);
    }
  }

  lemma {:induction false} HunkReadsFile(f: FilePatch, k: nat)
    requires WellFormed(f) && k < |f.hunks|
    ensures AllReadFile([Plain(HunkHeader(f.hunks[k]))] + TrueLines(f.path, f.hunks[k].newStart, f.hunks[k].lines),
                        RenderHunk(f.hunks[k]), f)
  {
    hide WellFormed, Taggable, HunkHeader, LooksAdded, RenderLine;
    var h := f.hunks[k];
    var out := TrueLines(f.path, h.newStart, h.lines);
    forall i | 0 <= i < |out|
      ensures ReadsFile(out[i], RenderLines(h.lines)[i], f)
    {
      RenderedLooksAdded(h.lines[i]);
      if Taggable(h.lines[i]) {
        TruthReadsTheNewFile(f, k, i);
        TaggedLine(f.path, h.newStart, h.lines, i);
      } else {
        UntaggedIsPlain(f.path, h.newStart, h.lines, i);
      }
    }
    HunkHeaderLooksPlain(h);
    assert AllReadFile([Plain(HunkHeader(h))], [HunkHeader(h)], f);
    AllReadConcat([Plain(HunkHeader(h))], [HunkHeader(h)], out, RenderLines(h.lines), f);
  }

  lemma {:induction false} TaggedLine(path: string, position: nat, lines: seq<HunkLine>, i: nat)
    requires i < |lines|
    ensures TrueLines(path, position, lines)[i].line == RenderLine(lines[i])
    decreases |lines|
  {
    hide Taggable, RenderLine;
    if i > 0 {
      TaggedLine(path, if lines[0].New() then position + 1 else position, lines[1..], i - 1);
    }
  }

  lemma HunkHeaderLooksPlain(h: Hunk)
    ensures !LooksAdded(HunkHeader(h))
  {
    assert HunkHeader(h)[0] == '@';
  }

  lemma {:induction false} HunksReadFile(f: FilePatch, k: nat)
    requires WellFormed(f) && k <= |f.hunks|
    ensures AllReadFile(TrueHunks(f.path, f.hunks[k..]), RenderHunks(f.hunks[k..]), f)
    decreases |f.hunks| - k
  {
    hide WellFormed, AllReadFile, RenderHunk, HunkHeader;
    if k == |f.hunks| {
      NoHunksRead(f);
    } else {
      var h, rest := f.hunks[k], f.hunks[k + 1..];
      assert f.hunks[k..][0] == h && f.hunks[k..][1..] == rest;
      HunkReadsFile(f, k);
      HunksReadFile(f, k + 1);
      AllReadConcat([Plain(HunkHeader(h))] + TrueLines(f.path, h.newStart, h.lines), RenderHunk(h),
                    TrueHunks(f.path, rest), RenderHunks(rest), f);
    }
  }

  lemma NoHunksRead(f: FilePatch)
    ensures AllReadFile(TrueHunks(f.path, []), RenderHunks([]), f) && f.hunks[|f.hunks|..] == []
  {
  }

  lemma {:induction false} FileReadsFile(f: FilePatch)
    requires WellFormed(f)
    ensures AllReadFile(TrueFile(f), RenderFile(f), f)
  {
    hide TrueHunks, RenderHunks, FileHeader, LooksAdded;
    var header := FileHeader(f.path);
    HeaderLooksPlain(f.path);
    assert f.hunks[0..] == f.hunks;
    HunksReadFile(f, 0);
    assert AllReadFile([Plain(header)], [header], f);
    forall i | 0 <= i < |f.meta|
      ensures ReadsFile(Plains(f.meta)[i], f.meta[i], f)
    {
      assert f.meta[i] in f.meta;
    }
    AllReadConcat(Plains(f.meta), f.meta, TrueHunks(f.path, f.hunks), RenderHunks(f.hunks), f);
    AllReadConcat([Plain(header)], [header], Plains(f.meta) + TrueHunks(f.path, f.hunks),
                  f.meta + RenderHunks(f.hunks), f);
  }

  /** Line `i` of the truthful annotation of a diff: the file's line, if it is an added one. */
  lemma {:induction false} TruthReadsItsFile(files: seq<FilePatch>, i: nat)
    requires (forall f | f in files :: WellFormed(f)) && i < |Render(files)|
    ensures ReadsFile(TrueTags(files)[i], Render(files)[i], FileAt(files, i))
    decreases |files|
  {
    hide WellFormed, ReadsFile, TrueFile, RenderFile;
    var f, rest := files[0], files[1..];
    assert f in files && forall x | x in rest :: x in files;
    FileReadsFile(f);
    if i >= |RenderFile(f)| {
      TruthReadsItsFile(rest, i - |RenderFile(f)|);
    }
  }

  /** A tag shows its path, its number in digits and its line. */
  lemma ShownPointsAtFile(o: OutLine, line: string, f: FilePatch)
    requires ReadsFile(o, line, f)
    ensures if LooksAdded(line) then PointsAt(Show(o), line, f) else Show(o) == line
  {
    hide Decimal, ParseDecimal, LooksAdded;
    if LooksAdded(line) {
      ParseOfDecimal(o.n);
      var digits := Decimal(o.n);
      assert digits != "" && forall c | c in digits :: IsDigit(c);
      assert Show(o) == f.path + ":" + digits + ": " + line;
    }
  }

  lemma {:induction false} ShownLinesRejoin(out: seq<OutLine>, lines: seq<string>)
    requires Rejoins(lines) && Erase(out) == lines && forall o | o in out :: o.Tagged? ==> IsPlainPath(o.file)
    ensures SplitLines(JoinLines(ShowAll(out))) == ShowAll(out)
  {
    hide Show, IsPlainPath, NoBreaks, SplitLines, JoinLines;
    assert |out| == |lines|;
    forall line | line in ShowAll(out)
      ensures NoBreaks(line)
    {
      var i :| 0 <= i < |out| && line == Show(out[i]);
      assert out[i].line == Erase(out)[i] && lines[i] in lines && out[i] in out;
      ShownHasNoBreaks(out[i]);
    }
    if out != [] {
      var last := out[|out| - 1];
      assert last.line == Erase(out)[|out| - 1];
      ShownIsNotEmpty(last);
    }
    SplitJoined(ShowAll(out));
  }

  lemma ShownIsNotEmpty(o: OutLine)
    requires o.line != ""
    ensures Show(o) != ""
  {
    hide Decimal;
  }

  /** On safe files the annotator's text, line by line: an added line reads `path:d: +x` where line d of the
      new file is x, and every other line is the diff's own. */
  lemma {:induction false} AnnotatedTextPointsIntoFiles(files: seq<FilePatch>, text: string)
    requires (forall f | f in files :: WellFormed(f)) && Rejoins(Render(files)) && FilesSafe(files)
    requires text == JoinLines(ShowAll(Tag(START, SplitLines(JoinLines(Render(files))))))
    ensures PointsIntoFiles(SplitLines(text), files)
  {
    hide WellFormed, FileSafe, NoBreaks, Tag, Show, SplitLines, JoinLines, Render, TrueTags, Erase, ReadsFile, PointsAt,
      FileAt;
    var lines := Render(files);
    var out := Tag(START, lines);
    SplitJoined(lines);
    AnnotationIsTrueIff(files);
    TagsArePlain(START, lines);
    ErasingRestoresInput(START, lines);
    ShownLinesRejoin(out, lines);
    forall i | 0 <= i < |lines|
      ensures if LooksAdded(lines[i]) then PointsAt(Show(out[i]), lines[i], FileAt(files, i))
              else Show(out[i]) == lines[i]
    {
      TruthReadsItsFile(files, i);
      ShownPointsAtFile(out[i], lines[i], FileAt(files, i));
    }
  }

  // ---- The token budget ----

  const CHARS_PER_TOKEN := 4
  const TRUNCATION_MARKER := "\n[... diff truncated: exceeded token budget ...]\n"

  /** `annotate_and_cap`: the annotated text, or as much of it as fits and a visible marker. */
  method AnnotateAndCap(rawDiff: string, maxTokens: nat) returns (text: string, truncated: bool)
    ensures var whole := JoinLines(ShowAll(Tag(START, SplitLines(rawDiff))));
            && (truncated <==> |whole| > maxTokens * CHARS_PER_TOKEN)
            && (!truncated ==> text == whole)
            && (truncated ==> exists kept :: kept <= whole && |kept| == maxTokens * CHARS_PER_TOKEN
                                             && text == kept + TRUNCATION_MARKER)
  {
    hide Tag, SplitLines, ShowAll, JoinLines;
    text := Annotate(rawDiff);
    var budget := maxTokens * CHARS_PER_TOKEN;
    truncated := |text| > budget;
    if truncated {
      var kept := text[..budget];
      assert kept <= text;
      text := kept + TRUNCATION_MARKER;
    }
  }
}
