/** What a merge promises of the file it writes. Values come from a prompt, so they may hold line breaks
    other than a newline; each promise comes with the values it holds for. */
module EnvText {
  import opened Wrappers
  import opened Text
  import opened EnvMerge

  // ---- The lines of a merge ----

  /** What a merge writes: a new line for an update, or a line of the file, which holds no break. */
  ghost predicate Written(line: string, updates: map<string, string>) {
    || NoBreaks(line)
    || (KeyOf(line).Some? && KeyOf(line).value in updates
        && line == NewLine(KeyOf(line).value, updates[KeyOf(line).value]))
  }

  lemma {:induction false} RewriteWrites(lines: seq<string>, updates: map<string, string>, seen: set<string>)
    requires (forall line | line in lines :: NoBreaks(line)) && AllNames(updates)
    ensures forall line | line in Rewrite(lines, updates, seen) :: Written(line, updates)
    decreases |lines|
  {
    hide KeyOf, NewLine, IsName;
    if lines != [] {
      var k := KeyOf(lines[0]);
      assert lines[0] in lines && forall line | line in lines[1..] :: line in lines;
      RewriteWrites(lines[1..], updates, if k.Some? then seen + {k.value} else seen);
      RewriteWrites(lines[1..], updates, seen);
      if k.Some? && k.value in updates {
        NewLineDefines(k.value, updates[k.value]);
      }
    }
  }

  lemma {:induction false} FreshWrites(names: seq<string>, updates: map<string, string>, present: set<string>)
    requires (forall n | n in names :: n in updates) && AllNames(updates)
    ensures forall line | line in Fresh(names, updates, present) :: Written(line, updates)
  {
    hide KeyOf, NewLine, IsName;
    if names != [] {
      assert names[0] in names && forall n | n in names[1..] :: n in names;
      FreshWrites(names[1..], updates, present);
      NewLineDefines(names[0], updates[names[0]]);
    }
  }

  lemma MergeWrites(text: string, names: seq<string>, updates: map<string, string>)
    requires IsDict(names, updates) && AllNames(updates)
    ensures forall line | line in MergeLines(SplitLines(text), names, updates) :: Written(line, updates)
  {
    var lines := SplitLines(text);
    LinesHaveNoBreaks(text);
    RewriteWrites(lines, updates, {});
    FreshWrites(names, updates, KeyNames(lines));
  }

  lemma NamesHaveNoBreaks(name: string)
    requires IsName(name)
    ensures NoBreaks(name + "=")
  {
    forall c | c in name + "="
      ensures !IsBreak(c)
    {
      assert c in name || c == '=';
    }
  }

  /** A new line reads back as the key's line up to the value's first break, and what the value broke off. */
  lemma NewLinePieces(name: string, value: string)
    requires IsName(name)
    ensures Broken(NewLine(name, value)) == [NewLine(name, Broken(value)[0])] + Broken(value)[1..]
  {
    NamesHaveNoBreaks(name);
    BrokenAfter(name + "=", value);
    assert NewLine(name, value) == (name + "=") + value;
    assert NewLine(name, Broken(value)[0]) == (name + "=") + Broken(value)[0];
  }

  // ---- Map update ----

  ghost predicate PlainValues(updates: map<string, string>) {
    forall n | n in updates :: NoBreaks(updates[n])
  }

  function Expected(lines: seq<string>, updates: map<string, string>, key: string): seq<string> {
    if key in updates then [NewLine(key, updates[key])]
    else if Defining(lines, key) == [] then [] else [Defining(lines, key)[0]]
  }

  ghost predicate IsMapUpdate(before: seq<string>, after: seq<string>, updates: map<string, string>) {
    (forall key :: Defining(after, key) == Expected(before, updates, key)) && Unkeyed(after) == Unkeyed(before)
  }

  lemma {:induction false} PlainReadsBack(lines: seq<string>)
    requires forall line | line in lines :: NoBreaks(line)
    ensures ReadBack(lines) == lines
  {
    SplitEnded(lines);
    SplitWritten(lines);
  }

  lemma {:induction false} DefiningAreLines(lines: seq<string>, key: string, line: string)
    requires line in Defining(lines, key)
    ensures line in lines
  {
    if KeyOf(lines[0]) != Some(key) || line != lines[0] {
      DefiningAreLines(lines[1..], key, line);
    }
  }

  /** The written file holds every update once with its value, every other key's first line and every
      other line in order, if and only if no value holds a line break. */
  lemma {:induction false} FileIsMapUpdateIff(text: string, names: seq<string>, updates: map<string, string>)
    requires IsDict(names, updates) && AllNames(updates)
    ensures IsMapUpdate(SplitLines(text), SplitLines(MergeText(text, names, updates)), updates) <==>
              PlainValues(updates)
  {
    hide KeyOf, NewLine, Rewrite, Fresh, Defining, Unkeyed, IsName;
    var lines := SplitLines(text);
    var merged := MergeLines(lines, names, updates);
    SplitWritten(merged);
    if PlainValues(updates) {
      MergeWrites(text, names, updates);
      forall line | line in merged
        ensures NoBreaks(line)
      {
        if !NoBreaks(line) {
          PlainNewLine(KeyOf(line).value, updates[KeyOf(line).value]);
        }
      }
      PlainReadsBack(merged);
      forall key
        ensures Defining(merged, key) == Expected(lines, updates, key) && Unkeyed(merged) == Unkeyed(lines)
      {
        MergeIsMapUpdate(lines, names, updates, key);
      }
      MergeIsMapUpdate(lines, names, updates, "");
    } else {
      var n :| n in updates && !NoBreaks(updates[n]);
      var written := SplitLines(MergeText(text, names, updates));
      if Defining(written, n) == Expected(lines, updates, n) {
        assert NewLine(n, updates[n]) in Defining(written, n);
        DefiningAreLines(written, n, NewLine(n, updates[n]));
        LinesHaveNoBreaks(MergeText(text, names, updates));
        ValueInNewLine(n, updates[n]);
      }
    }
  }

  lemma PlainNewLine(name: string, value: string)
    requires IsName(name) && NoBreaks(value)
    ensures NoBreaks(NewLine(name, value))
  {
    NamesHaveNoBreaks(name);
    assert NewLine(name, value) == (name + "=") + value;
  }

  lemma ValueInNewLine(name: string, value: string)
    ensures NoBreaks(NewLine(name, value)) ==> NoBreaks(value)
  {
    assert forall c | c in value :: c in NewLine(name, value);
  }

  // ---- Duplicates ----

  /** Some line a value breaks off defines a key. */
  predicate Plants(value: string) {
    exists i | 1 <= i < |Broken(value)| :: KeyOf(Broken(value)[i]).Some?
  }

  lemma {:induction false} UnkeyedDefineNothing(lines: seq<string>, key: string)
    requires forall line | line in lines :: KeyOf(line).None?
    ensures Defining(lines, key) == []
  {
    hide KeyOf;
    if lines != [] {
      assert lines[0] in lines && forall line | line in lines[1..] :: line in lines;
      UnkeyedDefineNothing(lines[1..], key);
    }
  }

  lemma DefiningOne(first: string, rest: seq<string>, key: string)
    ensures Defining([first] + rest, key) == (if KeyOf(first) == Some(key) then [first] else []) + Defining(rest, key)
  {
    hide KeyOf;
    assert ([first] + rest)[1..] == rest;
  }

  /** A written line defines its key in its first piece, and another only if its value plants one. */
  lemma PiecesDefine(line: string, updates: map<string, string>, key: string)
    requires Written(line, updates) && AllNames(updates)
    ensures |Defining(Broken(line), key)| >= if KeyOf(line) == Some(key) then 1 else 0
    ensures (forall n | n in updates :: !Plants(updates[n])) ==>
              |Defining(Broken(line), key)| == if KeyOf(line) == Some(key) then 1 else 0
  {
    hide KeyOf, NewLine, IsName, Broken, Defining;
    if NoBreaks(line) {
      UnbrokenLine(line);
      DefiningOne(line, [], key);
      assert [line] + [] == [line];
      UnkeyedDefineNothing([], key);
    } else {
      var n := KeyOf(line).value;
      var pieces := Broken(updates[n]);
      NewLinePieces(n, updates[n]);
      NewLineDefines(n, pieces[0]);
      DefiningOne(NewLine(n, pieces[0]), pieces[1..], key);
      if !Plants(updates[n]) {
        assert forall i | 0 <= i < |pieces[1..]| :: pieces[1..][i] == pieces[i + 1];
        UnkeyedDefineNothing(pieces[1..], key);
      }
    }
  }

  lemma {:induction false} ReadBackDefines(lines: seq<string>, updates: map<string, string>, key: string)
    requires (forall line | line in lines :: Written(line, updates)) && AllNames(updates)
    ensures |Defining(ReadBack(lines), key)| >= |Defining(lines, key)|
    ensures (forall n | n in updates :: !Plants(updates[n])) ==>
              |Defining(ReadBack(lines), key)| == |Defining(lines, key)|
  {
    hide KeyOf, NewLine, IsName, Written, Broken, Plants;
    if lines != [] {
      assert lines[0] in lines && forall line | line in lines[1..] :: line in lines;
      ReadBackDefines(lines[1..], updates, key);
      PiecesDefine(lines[0], updates, key);
      DefiningConcat(Broken(lines[0]), ReadBack(lines[1..]), key);
      DefiningOne(lines[0], lines[1..], key);
      assert [lines[0]] + lines[1..] == lines;
    }
  }

  /** A planted key is defined once more than the merge meant it to be. */
  lemma {:induction false} PlantedIsExtra(lines: seq<string>, updates: map<string, string>, name: string, i: nat,
                                          key: string)
    requires (forall line | line in lines :: Written(line, updates)) && AllNames(updates)
    requires name in updates && NewLine(name, updates[name]) in lines
    requires 1 <= i < |Broken(updates[name])| && KeyOf(Broken(updates[name])[i]) == Some(key)
    ensures |Defining(ReadBack(lines), key)| > |Defining(lines, key)|
  {
    hide KeyOf, NewLine, IsName, Written, Broken;
    var line := NewLine(name, updates[name]);
    assert forall l | l in lines[1..] :: l in lines;
    DefiningConcat(Broken(lines[0]), ReadBack(lines[1..]), key);
    DefiningOne(lines[0], lines[1..], key);
    assert [lines[0]] + lines[1..] == lines;
    if lines[0] == line {
      ReadBackDefines(lines[1..], updates, key);
      PlantedPiece(name, updates[name], i, key);
    } else {
      PiecesDefine(lines[0], updates, key);
      PlantedIsExtra(lines[1..], updates, name, i, key);
    }
  }

  lemma PlantedPiece(name: string, value: string, i: nat, key: string)
    requires IsName(name) && 1 <= i < |Broken(value)| && KeyOf(Broken(value)[i]) == Some(key)
    ensures |Defining(Broken(NewLine(name, value)), key)| > if KeyOf(NewLine(name, value)) == Some(key) then 1 else 0
  {
    hide KeyOf, NewLine, IsName, Broken, Defining;
    var pieces := Broken(value);
    NewLinePieces(name, value);
    NewLineDefines(name, value);
    NewLineDefines(name, pieces[0]);
    DefiningOne(NewLine(name, pieces[0]), pieces[1..], key);
    assert pieces[1..][i - 1] == pieces[i];
    DefinedLine(pieces[1..], pieces[i]);
  }

  lemma {:induction false} NoDuplicatesMeansOnce(lines: seq<string>, key: string)
    requires NoDuplicateKeys(lines)
    ensures |Defining(lines, key)| <= 1
  {
    hide KeyOf;
    if lines != [] {
      var rest := lines[1..];
      assert forall i | 0 <= i < |rest| :: rest[i] == lines[i + 1];
      NoDuplicatesMeansOnce(rest, key);
      if KeyOf(lines[0]) == Some(key) {
        PresentIsDefined(rest, key);
        assert forall i | 0 <= i < |rest| :: KeyOf(rest[i]) != Some(key);
      }
    }
  }

  /** Every file ends up without a duplicate key if and only if no value plants one. */
  lemma {:induction false} FilesHaveNoDuplicatesIff(names: seq<string>, updates: map<string, string>)
    requires IsDict(names, updates) && AllNames(updates)
    ensures (forall text :: NoDuplicateKeys(SplitLines(MergeText(text, names, updates))))
            <==> forall n | n in updates :: !Plants(updates[n])
  {
    hide KeyOf, NewLine, Rewrite, Fresh, Defining, IsName, Broken, NoDuplicateKeys, Written, KeyNames;
    if forall n | n in updates :: !Plants(updates[n]) {
      forall text
        ensures NoDuplicateKeys(SplitLines(MergeText(text, names, updates)))
      {
        UnplantedHasNoDuplicates(text, names, updates);
      }
    } else {
      var n :| n in updates && Plants(updates[n]);
      var i :| 1 <= i < |Broken(updates[n])| && KeyOf(Broken(updates[n])[i]).Some?;
      var key := KeyOf(Broken(updates[n])[i]).value;
      PlantedDuplicates(names, updates, n, i, key);
    }
  }

  lemma UnplantedHasNoDuplicates(text: string, names: seq<string>, updates: map<string, string>)
    requires IsDict(names, updates) && AllNames(updates) && forall n | n in updates :: !Plants(updates[n])
    ensures NoDuplicateKeys(SplitLines(MergeText(text, names, updates)))
  {
    hide KeyOf, NewLine, Rewrite, Fresh, Defining, IsName, Broken, Written, KeyNames, Plants;
    var lines := SplitLines(text);
    var merged := MergeLines(lines, names, updates);
    SplitWritten(merged);
    MergeWrites(text, names, updates);
    forall key
      ensures |Defining(ReadBack(merged), key)| <= 1
    {
      ReadBackDefines(merged, updates, key);
      MergeIsMapUpdate(lines, names, updates, key);
    }
    OnceMeansNoDuplicates(ReadBack(merged));
  }

  /** A file that already defines the planted key gets a second definition of it. */
  lemma PlantedDuplicates(names: seq<string>, updates: map<string, string>, name: string, i: nat, key: string)
    requires IsDict(names, updates) && AllNames(updates) && name in updates
    requires 1 <= i < |Broken(updates[name])| && KeyOf(Broken(updates[name])[i]) == Some(key)
    ensures !NoDuplicateKeys(SplitLines(MergeText(EndLines([NewLine(key, "")]), names, updates)))
  {
    hide NewLine, Rewrite, Fresh, IsName, Broken, NoDuplicateKeys, Written, KeyNames, KeyOf;
    var line := NewLine(key, "");
    var text := EndLines([line]);
    var merged := MergeLines(SplitLines(text), names, updates);
    SplitWritten([line]);
    PlainNewLine(key, "");
    PlainReadsBack([line]);
    NewLineDefines(key, "");
    DefiningOne(line, [], key);
    assert [line] + [] == [line];
    MergeIsMapUpdate(SplitLines(text), names, updates, key);
    MergeIsMapUpdate(SplitLines(text), names, updates, name);
    MergeWrites(text, names, updates);
    assert NewLine(name, updates[name]) in Defining(merged, name);
    DefiningAreLines(merged, name, NewLine(name, updates[name]));
    PlantedIsExtra(merged, updates, name, i, key);
    SplitWritten(merged);
    if NoDuplicateKeys(ReadBack(merged)) {
      NoDuplicatesMeansOnce(ReadBack(merged), key);
    }
  }

  // ---- Idempotence ----

  /** Every line the value breaks off defines `name` itself, and is dropped again by the next merge. */
  predicate OwnTail(name: string, value: string) {
    forall i | 1 <= i < |Broken(value)| :: KeyOf(Broken(value)[i]) == Some(name)
  }

  ghost predicate OwnTails(updates: map<string, string>) {
    forall n | n in updates :: OwnTail(n, updates[n])
  }

  ghost predicate MergesOnce(names: seq<string>, updates: map<string, string>)
    requires IsDict(names, updates)
  {
    forall text :: MergeText(MergeText(text, names, updates), names, updates) == MergeText(text, names, updates)
  }

  lemma {:induction false} RewriteDrops(dropped: seq<string>, more: seq<string>, updates: map<string, string>,
                                        seen: set<string>)
    requires forall line | line in dropped :: KeyOf(line).Some? && KeyOf(line).value in seen
    ensures Rewrite(dropped + more, updates, seen) == Rewrite(more, updates, seen)
    decreases |dropped|
  {
    hide KeyOf;
    if dropped == [] {
      assert dropped + more == more;
    } else {
      assert dropped[0] in dropped && forall line | line in dropped[1..] :: line in dropped;
      assert (dropped + more)[0] == dropped[0] && (dropped + more)[1..] == dropped[1..] + more;
      RewriteDrops(dropped[1..], more, updates, seen);
    }
  }

  lemma RewriteFirst(line: string, more: seq<string>, updates: map<string, string>, seen: set<string>)
    ensures var key := KeyOf(line);
            Rewrite([line] + more, updates, seen) ==
              if key.Some? && key.value in seen then Rewrite(more, updates, seen)
              else [if key.Some? && key.value in updates then NewLine(key.value, updates[key.value]) else line]
                   + Rewrite(more, updates, if key.Some? then seen + {key.value} else seen)
  {
    hide KeyOf, NewLine;
    assert ([line] + more)[0] == line && ([line] + more)[1..] == more;
  }

  /** A line a merge keeps as it is: the new line of its update, or one no update touches. */
  ghost predicate Stays(line: string, updates: map<string, string>) {
    var key := KeyOf(line);
    if key.Some? && key.value in updates then line == NewLine(key.value, updates[key.value]) else NoBreaks(line)
  }

  /** What one line of a merge turns into when it is read back and merged again. */
  lemma RewritePieces(line: string, more: seq<string>, updates: map<string, string>, seen: set<string>)
    requires Stays(line, updates) && AllNames(updates) && OwnTails(updates)
    requires KeyOf(line).Some? ==> KeyOf(line).value !in seen
    ensures Rewrite(Broken(line) + more, updates, seen)
         == [line] + Rewrite(more, updates, if KeyOf(line).Some? then seen + {KeyOf(line).value} else seen)
  {
    hide KeyOf, NewLine, IsName, Broken, Rewrite;
    if KeyOf(line).Some? && KeyOf(line).value in updates {
      var n := KeyOf(line).value;
      var pieces := Broken(updates[n]);
      NewLinePieces(n, updates[n]);
      NewLineDefines(n, pieces[0]);
      var first, tail := NewLine(n, pieces[0]), pieces[1..];
      assert ([first] + tail) + more == [first] + (tail + more);
      RewriteFirst(first, tail + more, updates, seen);
      assert forall i | 0 <= i < |tail| :: tail[i] == pieces[i + 1];
      assert OwnTail(n, updates[n]);
      RewriteDrops(tail, more, updates, seen + {n});
    } else {
      UnbrokenLine(line);
      RewriteFirst(line, more, updates, seen);
    }
  }

  lemma {:induction false} RewriteReadBack(lines: seq<string>, updates: map<string, string>, seen: set<string>)
    requires (forall line | line in lines :: Stays(line, updates)) && AllNames(updates) && OwnTails(updates)
    requires NoDuplicateKeys(lines) && forall line | line in lines && KeyOf(line).Some? :: KeyOf(line).value !in seen
    ensures Rewrite(ReadBack(lines), updates, seen) == lines
    decreases |lines|
  {
    hide KeyOf, NewLine, IsName, Broken, Stays, OwnTails;
    if lines == [] {
      RewriteNothing(updates, seen);
    } else {
      hide Rewrite;
      var line, rest := lines[0], lines[1..];
      assert line in lines && forall l | l in rest :: l in lines;
      assert forall i | 0 <= i < |rest| :: rest[i] == lines[i + 1];
      RewritePieces(line, ReadBack(rest), updates, seen);
      RewriteReadBack(rest, updates, if KeyOf(line).Some? then seen + {KeyOf(line).value} else seen);
    }
  }

  lemma RewriteNothing(updates: map<string, string>, seen: set<string>)
    ensures Rewrite([], updates, seen) == []
  {
  }

  lemma MergedLinesStay(text: string, names: seq<string>, updates: map<string, string>)
    requires IsDict(names, updates) && AllNames(updates)
    ensures forall line | line in MergeLines(SplitLines(text), names, updates) :: Stays(line, updates)
  {
    hide KeyOf, NewLine, IsName, Rewrite, Fresh, KeyNames;
    MergeWrites(text, names, updates);
    MergeSettles(SplitLines(text), names, updates);
  }

  lemma UpdatesArePresent(lines: seq<string>, updates: map<string, string>, key: string)
    requires (forall line | line in lines :: Written(line, updates)) && AllNames(updates) && key in KeyNames(lines)
    ensures key in KeyNames(ReadBack(lines))
  {
    hide KeyOf, IsName, Written, KeyNames, Defining;
    PresentIsDefined(lines, key);
    ReadBackDefines(lines, updates, key);
    PresentIsDefined(ReadBack(lines), key);
  }

  lemma OwnTailsMergeOnce(text: string, names: seq<string>, updates: map<string, string>)
    requires IsDict(names, updates) && AllNames(updates) && OwnTails(updates)
    ensures MergeText(MergeText(text, names, updates), names, updates) == MergeText(text, names, updates)
  {
    hide KeyOf, NewLine, IsName, Rewrite, Fresh, KeyNames, Broken, OwnTails, Written, Stays, NoDuplicateKeys;
    var merged := MergeLines(SplitLines(text), names, updates);
    SplitWritten(merged);
    MergedLinesStay(text, names, updates);
    MergeHasNoDuplicates(SplitLines(text), names, updates);
    RewriteReadBack(merged, updates, {});
    MergeSettles(SplitLines(text), names, updates);
    MergeWrites(text, names, updates);
    forall n | n in names
      ensures n in updates && n in KeyNames(ReadBack(merged))
    {
      UpdatesArePresent(merged, updates, n);
    }
    NothingFresh(names, updates, KeyNames(ReadBack(merged)));
    assert merged + [] == merged;
  }

  /** The first line a value breaks off that does not define its own key. */
  lemma {:induction false} FirstForeign(pieces: seq<string>, name: string) returns (k: nat)
    requires exists i | 0 <= i < |pieces| :: KeyOf(pieces[i]) != Some(name)
    ensures k < |pieces| && KeyOf(pieces[k]) != Some(name) && forall j | 0 <= j < k :: KeyOf(pieces[j]) == Some(name)
  {
    hide KeyOf;
    if KeyOf(pieces[0]) != Some(name) {
      k := 0;
    } else {
      var i :| 0 <= i < |pieces| && KeyOf(pieces[i]) != Some(name);
      assert pieces[1..][i - 1] == pieces[i];
      k := FirstForeign(pieces[1..], name);
      k := k + 1;
      assert forall j | 1 <= j < k :: pieces[j] == pieces[1..][j - 1];
    }
  }

  lemma HashIsComment(tail: string)
    ensures KeyOf("#" + tail).None?
  {
    assert LStrip("#" + tail) == "#" + tail;
    assert LeadingNameChars("#" + tail) == 0;
  }

  /** The comment put after the key's line in a file on which the merge is not idempotent. */
  function Separator(foreign: string): (c: string)
    ensures c != foreign && NoBreaks(c) && c != "" && c[0] == '#'
  {
    if foreign == "#" then "##" else "#"
  }

  /** The file `name=`, then a comment. */
  function Trap(name: string, foreign: string): string {
    EndLines([NewLine(name, ""), Separator(foreign)])
  }

  lemma TwoLineKeys(a: string, b: string, name: string)
    requires KeyOf(a) == Some(name) && KeyOf(b).None?
    ensures KeyNames([a, b]) == {name}
  {
    hide KeyOf;
    assert [a, b][0] == a && [a, b][1] == b;
  }

  lemma TrapLines(name: string, foreign: string)
    requires IsName(name)
    ensures SplitLines(Trap(name, foreign)) == [NewLine(name, "")] + [Separator(foreign)]
  {
    hide NewLine, IsName, Separator;
    var lines := [NewLine(name, ""), Separator(foreign)];
    PlainNewLine(name, "");
    PlainReadsBack(lines);
    SplitWritten(lines);
  }

  lemma SeparatorIsComment(foreign: string)
    ensures KeyOf(Separator(foreign)).None?
  {
    hide KeyOf;
    HashIsComment("");
    HashIsComment("#");
    assert "#" + "" == "#" && "#" + "#" == "##";
  }

  lemma RewriteTwo(line: string, c: string, updates: map<string, string>, name: string)
    requires KeyOf(line) == Some(name) && KeyOf(c).None? && name in updates
    ensures Rewrite([line] + [c], updates, {}) == [NewLine(name, updates[name])] + [c]
    ensures KeyNames([line] + [c]) == {name}
  {
    hide KeyOf, NewLine, Rewrite, KeyNames;
    RewriteFirst(line, [c], updates, {});
    assert {} + {name} == {name} && [c] + [] == [c];
    RewriteFirst(c, [], updates, {name});
    RewriteNothing(updates, {name});
    TwoLineKeys(line, c, name);
    assert [line] + [c] == [line, c];
  }

  lemma TrapMerges(names: seq<string>, updates: map<string, string>, name: string, foreign: string)
    requires IsDict(names, updates) && AllNames(updates) && name in updates
    ensures MergeLines(SplitLines(Trap(name, foreign)), names, updates)
              == [NewLine(name, updates[name])] + ([Separator(foreign)] + Fresh(names, updates, {name}))
  {
    hide NewLine, IsName, Rewrite, KeyOf, Fresh, KeyNames, Trap, SplitLines, Separator;
    TrapLines(name, foreign);
    NewLineDefines(name, "");
    SeparatorIsComment(foreign);
    RewriteTwo(NewLine(name, ""), Separator(foreign), updates, name);
    TwoParts(NewLine(name, updates[name]), Separator(foreign), Fresh(names, updates, {name}));
  }

  lemma TwoParts(line: string, c: string, added: seq<string>)
    ensures [line] + [c] + added == [line] + ([c] + added)
  {
  }

  /** What the merge makes of a line no key before it shadows. */
  function Remade(line: string, updates: map<string, string>): string {
    if KeyOf(line).Some? && KeyOf(line).value in updates
    then NewLine(KeyOf(line).value, updates[KeyOf(line).value])
    else line
  }

  lemma ForeignFirst(own: seq<string>, foreign: string, after: seq<string>, updates: map<string, string>, name: string)
    requires (forall line | line in own :: KeyOf(line) == Some(name)) && KeyOf(foreign) != Some(name)
    ensures exists tail :: Rewrite(own + ([foreign] + after), updates, {name}) == [Remade(foreign, updates)] + tail
  {
    hide KeyOf, NewLine, Rewrite;
    RewriteDrops(own, [foreign] + after, updates, {name});
    RewriteFirst(foreign, after, updates, {name});
    var seen := if KeyOf(foreign).Some? then {name} + {KeyOf(foreign).value} else {name};
    assert Rewrite(own + ([foreign] + after), updates, {name})
        == [Remade(foreign, updates)] + Rewrite(after, updates, seen);
  }

  /** A written line and what follows it, read back, cut at piece `k`. */
  lemma PiecesAround(name: string, value: string, k: nat, more: seq<string>)
    requires IsName(name) && 1 <= k < |Broken(value)|
    ensures var pieces := Broken(value);
            ReadBack([NewLine(name, value)] + more)
              == [NewLine(name, pieces[0])] + (pieces[1..k] + ([pieces[k]] + (pieces[k + 1..] + ReadBack(more))))
  {
    hide NewLine, IsName, Broken;
    var pieces := Broken(value);
    NewLinePieces(name, value);
    assert ([NewLine(name, value)] + more)[1..] == more;
    assert pieces[1..] == pieces[1..k] + ([pieces[k]] + pieces[k + 1..]);
  }

  /** Merging it again puts the foreign line, or the new line of the update it defines, before the comment. */
  lemma TrapSprings(names: seq<string>, updates: map<string, string>, name: string, k: nat)
    requires IsDict(names, updates) && AllNames(updates) && name in updates
    requires 1 <= k < |Broken(updates[name])| && KeyOf(Broken(updates[name])[k]) != Some(name)
    requires forall j | 1 <= j < k :: KeyOf(Broken(updates[name])[j]) == Some(name)
    ensures var foreign := Broken(updates[name])[k];
            var once := MergeText(Trap(name, foreign), names, updates);
            exists rest :: MergeLines(SplitLines(once), names, updates)
                             == [NewLine(name, updates[name])] + ([Remade(foreign, updates)] + rest)
  {
    hide NewLine, IsName, Rewrite, KeyOf, Fresh, Broken, KeyNames, Separator, Trap, EndLines, SplitLines, Remade,
      ReadBack;
    var pieces := Broken(updates[name]);
    var foreign, first, line := pieces[k], NewLine(name, pieces[0]), NewLine(name, updates[name]);
    var more := [Separator(foreign)] + Fresh(names, updates, {name});
    TrapMerges(names, updates, name, foreign);
    SplitWritten([line] + more);
    PiecesAround(name, updates[name], k, more);
    NewLineDefines(name, pieces[0]);
    var own, after := pieces[1..k], pieces[k + 1..] + ReadBack(more);
    assert forall j | 0 <= j < |own| :: own[j] == pieces[j + 1];
    RewriteFirst(first, own + ([foreign] + after), updates, {});
    assert {} + {name} == {name};
    ForeignFirst(own, foreign, after, updates, name);
    var tail :| Rewrite(own + ([foreign] + after), updates, {name}) == [Remade(foreign, updates)] + tail;
    var added := Fresh(names, updates, KeyNames(ReadBack([line] + more)));
    ThreeParts(line, Remade(foreign, updates), tail, added);
  }

  lemma ThreeParts(line: string, x: string, tail: seq<string>, added: seq<string>)
    ensures [line] + ([x] + tail) + added == [line] + ([x] + (tail + added))
  {
  }

  lemma ForeignDiffers(updates: map<string, string>, value: string, k: nat)
    requires AllNames(updates) && 1 <= k < |Broken(value)|
    ensures Broken(Remade(Broken(value)[k], updates))[0] != Separator(Broken(value)[k])
  {
    hide NewLine, IsName, KeyOf;
    var foreign := Broken(value)[k];
    var c := Separator(foreign);
    HashIsComment(c[1..]);
    assert c == "#" + c[1..];
    LinesHaveNoBreaks(value + "\n");
    if KeyOf(foreign).Some? && KeyOf(foreign).value in updates {
      var m := KeyOf(foreign).value;
      NewLinePieces(m, updates[m]);
      NewLineDefines(m, Broken(updates[m])[0]);
    } else {
      assert foreign in SplitLines(value + "\n");
      UnbrokenLine(foreign);
    }
  }

  /** Files that agree after a common line agree on the next one. */
  lemma NextLineDiffers(line: string, c: string, x: string, u: seq<string>, v: seq<string>)
    requires NoBreaks(c) && Broken(x)[0] != c
    ensures EndLines([line] + ([c] + u)) != EndLines([line] + ([x] + v))
  {
    hide Broken, SplitLines;
    var a, b := [c] + u, [x] + v;
    EndLinesConcat([line], a);
    EndLinesConcat([line], b);
    SplitWritten(a);
    SplitWritten(b);
    UnbrokenLine(c);
    assert ReadBack(a)[0] == c && ReadBack(b)[0] == Broken(x)[0];
    if EndLines(a) == EndLines(b) {
      assert false;
    }
    assert EndLines([line] + a)[|EndLines([line])|..] == EndLines(a);
    assert EndLines([line] + b)[|EndLines([line])|..] == EndLines(b);
  }

  lemma ForeignTailGrows(names: seq<string>, updates: map<string, string>, name: string)
    requires IsDict(names, updates) && AllNames(updates) && name in updates && !OwnTail(name, updates[name])
    ensures !MergesOnce(names, updates)
  {
    hide NewLine, IsName, Rewrite, KeyOf, Fresh, Broken, KeyNames, Separator, Trap, ReadBack, SplitLines, EndLines,
      Remade;
    var pieces := Broken(updates[name]);
    var i :| 1 <= i < |pieces| && KeyOf(pieces[i]) != Some(name);
    assert pieces[1..][i - 1] == pieces[i];
    var k := FirstForeign(pieces[1..], name);
    assert forall j | 1 <= j < |pieces| :: pieces[1..][j - 1] == pieces[j];
    var foreign := pieces[k + 1];
    var text := Trap(name, foreign);
    var once := MergeText(text, names, updates);
    var x := Remade(foreign, updates);
    TrapMerges(names, updates, name, foreign);
    TrapSprings(names, updates, name, k + 1);
    var rest :| MergeLines(SplitLines(once), names, updates) == [NewLine(name, updates[name])] + ([x] + rest);
    ForeignDiffers(updates, updates[name], k + 1);
    NextLineDiffers(NewLine(name, updates[name]), Separator(foreign), x, Fresh(names, updates, {name}), rest);
    assert MergeText(once, names, updates) != once;
  }

  /** Running the script again with the same answers rewrites every file byte for byte if and only if each
      line a value breaks off defines the value's own key: no break at all, for one. */
  lemma {:induction false} MergingTextTwiceIff(names: seq<string>, updates: map<string, string>)
    requires IsDict(names, updates) && AllNames(updates)
    ensures MergesOnce(names, updates) <==> OwnTails(updates)
  {
    hide NewLine, IsName, Rewrite, KeyOf, Fresh, Broken, KeyNames, OwnTail, MergeText;
    if OwnTails(updates) {
      forall text
        ensures MergeText(MergeText(text, names, updates), names, updates) == MergeText(text, names, updates)
      {
        OwnTailsMergeOnce(text, names, updates);
      }
    } else {
      var n :| n in updates && !OwnTail(n, updates[n]);
      ForeignTailGrows(names, updates, n);
    }
  }

  lemma PlainValueOwnsItsTail(name: string, value: string)
    requires NoBreaks(value)
    ensures OwnTail(name, value)
  {
    UnbrokenLine(value);
  }

  /** Without line breaks in the values, that is every file. */
  lemma {:induction false} PlainValuesMergeOnce(names: seq<string>, updates: map<string, string>)
    requires IsDict(names, updates) && AllNames(updates) && PlainValues(updates)
    ensures MergesOnce(names, updates)
  {
    hide MergesOnce, OwnTail, NoBreaks, IsName;
    forall n | n in updates
      ensures OwnTail(n, updates[n])
    {
      PlainValueOwnsItsTail(n, updates[n]);
    }
    MergingTextTwiceIff(names, updates);
  }

  /** A name no line can define is appended again on each run. */
  lemma UnnamedGrows(name: string, value: string)
    requires !IsName(name)
    ensures var updates := map[name := value];
            |MergeText(MergeText("", [name], updates), [name], updates)| > |MergeText("", [name], updates)|
  {
    hide KeyOf, NewLine, IsName, Broken, Rewrite, Fresh, KeyNames;
    var updates, line := map[name := value], NewLine(name, value);
    SplitNothing();
    assert KeyNames([]) == {} by { NoLinesNoKeys(); }
    RewriteNothing(updates, {});
    FreshOne(name, updates, {});
    assert MergeLines([], [name], updates) == [line];
    SplitWritten([line]);
    var back := ReadBack([line]);
    assert back == Broken(line) + [] && Broken(line) + [] == Broken(line);
    KeysAreNames(back, name);
    FreshOne(name, updates, KeyNames(back));
    assert back == [back[0]] + back[1..];
    RewriteFirst(back[0], back[1..], updates, {});
    var rewritten := Rewrite(back, updates, {});
    EndLinesConcat(rewritten, [line]);
    assert |EndLines(rewritten)| > 0;
  }

  lemma NoLinesNoKeys()
    ensures KeyNames([]) == {}
  {
  }

  lemma FreshOne(name: string, updates: map<string, string>, present: set<string>)
    requires name in updates
    ensures Fresh([name], updates, present) == if name in present then [] else [NewLine(name, updates[name])]
  {
    hide NewLine;
    assert [name][1..] == [];
  }

  lemma KeysAreNames(lines: seq<string>, name: string)
    requires !IsName(name)
    ensures name !in KeyNames(lines)
  {
  }

  /** For one update: exactly a name the line pattern can read back, and a value that breaks off no line
      but of that name. */
  lemma {:induction false} OneUpdateIsIdempotentIff(name: string, value: string)
    ensures MergesOnce([name], map[name := value]) <==> IsName(name) && OwnTail(name, value)
  {
    hide KeyOf, NewLine, IsName, OwnTail, MergeText;
    var updates := map[name := value];
    if IsName(name) {
      MergingTextTwiceIff([name], updates);
      assert updates[name] == value;
      assert OwnTails(updates) <==> OwnTail(name, value);
    } else {
      UnnamedGrows(name, value);
      assert MergeText(MergeText("", [name], updates), [name], updates) != MergeText("", [name], updates);
    }
  }

  /** The line separator: a break that a prompt hands on, unlike a newline. */
  const SEPARATOR := "\U{2028}"

  lemma TwoLines(a: string, b: string)
    requires NoBreaks(a) && NoBreaks(b)
    ensures Broken(a + SEPARATOR + b) == [a, b]
  {
    hide SplitLines, NoBreaks, LineLength;
    var rest := SEPARATOR + (b + "\n");
    var s := a + rest;
    assert a + SEPARATOR + b + "\n" == s;
    LineLengthIs(a, rest);
    FirstCut(s);
    assert s[|a|] == '\U{2028}' && s[..|a|] == a && s[|a| + 1..] == b + "\n";
    UnbrokenLine(b);
  }

  lemma {:induction false} TwoPieces(name: string, a: string, b: string)
    requires NoBreaks(a) && NoBreaks(b)
    ensures OwnTail(name, a + SEPARATOR + b) <==> KeyOf(b) == Some(name)
    ensures Plants(a + SEPARATOR + b) <==> KeyOf(b).Some?
  {
    hide KeyOf, SplitLines, NoBreaks, Broken;
    var value := a + SEPARATOR + b;
    assert Broken(value) == [a, b] by {
      TwoLines(a, b);
    }
    assert Broken(value)[1] == b && |Broken(value)| == 2;
  }

  /** Pasted line separators: as the value of A, "1", a separator and a comment makes the file grow on every
      run, and "1", a separator and "B=2" makes it grow and plants a B besides. */
  lemma {:induction false} PastedBreaksFail()
    ensures var comment, plant := "1" + SEPARATOR + "#c", "1" + SEPARATOR + "B=2";
            && !Plants(comment) && !MergesOnce(["A"], map["A" := comment])
            && Plants(plant) && !MergesOnce(["A"], map["A" := plant])
            && NoNewlines(comment) && NoNewlines(plant)
  {
    hide MergesOnce, Plants, OwnTail, KeyOf;
    TwoPieces("A", "1", "#c");
    HashIsComment("c");
    assert "#" + "c" == "#c";
    OneUpdateIsIdempotentIff("A", "1" + SEPARATOR + "#c");
    TwoPieces("A", "1", "B=2");
    NewLineDefines("B", "2");
    assert NewLine("B", "2") == "B=2";
    OneUpdateIsIdempotentIff("A", "1" + SEPARATOR + "B=2");
  }

  /** What `input` can return. */
  predicate NoNewlines(s: string) {
    forall c | c in s :: c != '\n'
  }
}
