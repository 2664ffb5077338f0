/** Merging operator input into an env file, line by line, without looking at any kept value. */
module EnvMerge {
  import opened Wrappers
  import opened Text

  predicate IsNameChar(c: char) {
    'A' <= c <= 'Z' || c == '_' || '0' <= c <= '9'
  }

  predicate IsName(s: string) {
    s != "" && forall c | c in s :: IsNameChar(c)
  }

  function LStrip(s: string): (r: string)
    ensures r != "" ==> !IsSpace(r[0])
  {
    if s != "" && IsSpace(s[0]) then LStrip(s[1..]) else s
  }

  function LeadingNameChars(s: string): (n: nat)
    ensures n <= |s| && forall c | c in s[..n] :: IsNameChar(c)
  {
    if s == "" || !IsNameChar(s[0]) then 0
    else
      var n := LeadingNameChars(s[1..]);
      assert s[..1 + n] == [s[0]] + s[1..][..n];
      1 + n
  }

  function SkipExport(s: string): string {
    if StartsWith(s, "export") && |s| > 6 && IsSpace(s[6]) then LStrip(s[6..]) else s
  }

  /** `^\s*(?:export\s+)?([A-Z_0-9]+)=`: the name a line defines. */
  function KeyOf(line: string): (key: Option<string>)
    ensures key.Some? ==> IsName(key.value)
  {
    var s := SkipExport(LStrip(line));
    var n := LeadingNameChars(s);
    if n > 0 && n < |s| && s[n] == '=' then Some(s[..n]) else None
  }

  /** `key_names`. */
  function KeyNames(lines: seq<string>): set<string> {
    set i | 0 <= i < |lines| && KeyOf(lines[i]).Some? :: KeyOf(lines[i]).value
  }

  function NewLine(name: string, value: string): string {
    name + ("=" + value)
  }

  lemma {:induction false} LeadingNameCharsAre(name: string, rest: string)
    requires (forall c | c in name :: IsNameChar(c)) && (rest == "" || !IsNameChar(rest[0]))
    ensures LeadingNameChars(name + rest) == |name|
  {
    if name == "" {
      assert name + rest == rest;
    } else {
      assert (name + rest)[1..] == name[1..] + rest;
      LeadingNameCharsAre(name[1..], rest);
    }
  }

  /** A written line reads back as its own key. */
  lemma NewLineDefines(name: string, value: string)
    requires IsName(name)
    ensures KeyOf(NewLine(name, value)) == Some(name)
  {
    var line := NewLine(name, value);
    assert line[0] == name[0] && name[0] in name;
    assert SkipExport(LStrip(line)) == line;
    LeadingNameCharsAre(name, "=" + value);
    assert line[..|name|] == name;
  }

  lemma {:induction false} LStripSkips(blank: string, rest: string)
    requires (forall c | c in blank :: IsSpace(c)) && (rest == "" || !IsSpace(rest[0]))
    ensures LStrip(blank + rest) == rest
  {
    if blank == "" {
      assert blank + rest == rest;
    } else {
      assert blank[0] in blank && (blank + rest)[0] == blank[0];
      assert (blank + rest)[1..] == blank[1..] + rest;
      assert forall c | c in blank[1..] :: c in blank;
      LStripSkips(blank[1..], rest);
    }
  }

  /** A line defines the same key indented, and behind `export` and blanks; a commented one defines none. */
  lemma {:induction false} ExportedLineDefines(indent: string, blank: string, name: string, value: string)
    requires IsName(name) && blank != ""
    requires (forall c | c in indent :: IsSpace(c)) && forall c | c in blank :: IsSpace(c)
    ensures KeyOf(indent + NewLine(name, value)) == Some(name)
    ensures KeyOf(indent + ("export" + (blank + NewLine(name, value)))) == Some(name)
    ensures KeyOf(indent + ("#" + NewLine(name, value))).None?
  {
    hide IsSpace, LeadingNameChars, LStrip;
    var line := NewLine(name, value);
    var exported, comment := "export" + (blank + line), "#" + line;
    assert name[0] in name && line[0] == name[0];
    NamesAreNotSpaces(line[0]);
    NoExport(line);
    LStripSkips(indent, line);
    LStripSkips(indent, exported);
    LStripSkips(indent, comment);
    LStripSkips(blank, line);
    assert blank[0] in blank && exported[6..] == blank + line && exported[6] == blank[0];
    assert exported[..6] == "export";
    assert SkipExport(exported) == line;
    NewLineDefines(name, value);
    LStripSkips("", line);
    assert "" + line == line;
    NothingLeads(comment);
  }

  lemma NoExport(line: string)
    requires line != "" && line[0] != 'e'
    ensures SkipExport(line) == line
  {
  }

  lemma NamesAreNotSpaces(c: char)
    ensures IsNameChar(c) ==> !IsSpace(c) && c != 'e'
    ensures !IsSpace('#') && !IsSpace('e')
  {
  }

  lemma NothingLeads(line: string)
    requires line != "" && line[0] == '#'
    ensures LeadingNameChars(line) == 0 && SkipExport(line) == line
  {
  }

  // ---- The merge ----

  /** What becomes of the existing lines, given the keys written so far. */
  function Rewrite(lines: seq<string>, updates: map<string, string>, seen: set<string>): seq<string> {
    if lines == [] then []
    else
      var key := KeyOf(lines[0]);
      if key.None? then [lines[0]] + Rewrite(lines[1..], updates, seen)
      else if key.value in seen then Rewrite(lines[1..], updates, seen)
      else
        [if key.value in updates then NewLine(key.value, updates[key.value]) else lines[0]]
        + Rewrite(lines[1..], updates, seen + {key.value})
  }

  /** The updates nobody consumed, in the order they were given. */
  function Fresh(names: seq<string>, updates: map<string, string>, present: set<string>): seq<string>
    requires forall n | n in names :: n in updates
  {
    if names == [] then []
    else if names[0] in present then Fresh(names[1..], updates, present)
    else [NewLine(names[0], updates[names[0]])] + Fresh(names[1..], updates, present)
  }

  /** `updates` is a dict: distinct names in order, and their values. */
  predicate IsDict(names: seq<string>, updates: map<string, string>) {
    && (forall i, j | 0 <= i < j < |names| :: names[i] != names[j])
    && (forall n | n in names :: n in updates)
    && (forall n | n in updates :: n in names)
  }

  function MergeLines(lines: seq<string>, names: seq<string>, updates: map<string, string>): seq<string>
    requires IsDict(names, updates)
  {
    Rewrite(lines, updates, {}) + Fresh(names, updates, KeyNames(lines))
  }

  /** The file after a merge. */
  function MergeText(text: string, names: seq<string>, updates: map<string, string>): string
    requires IsDict(names, updates)
  {
    EndLines(MergeLines(SplitLines(text), names, updates))
  }

  /** `merge_env`. */
  method MergeEnv(existingText: string, names: seq<string>, updates: map<string, string>) returns (text: string)
    requires IsDict(names, updates)
    ensures text == MergeText(existingText, names, updates)
  {
    hide KeyOf, KeyNames, EndLines, SplitLines, IsName, Rewrite, Fresh, NewLine, Splits;
    var existing := SplitLines(existingText);
    var remaining := updates;
    var seen: set<string> := {};
    var lines: seq<string> := [];
    ghost var target := Rewrite(existing, updates, {});
    MergeStarts(existing, updates);
    for i := 0 to |existing|
      invariant remaining == updates - seen
      invariant seen == KeyNames(existing[..i])
      invariant Splits(target, lines, Rewrite(existing[i..], updates, seen))
    {
      var line := existing[i];
      KeyNamesStep(existing, i);
      RewriteStep(existing, i, updates, seen);
      ghost var rest := existing[i + 1..];
      var name := KeyOf(line);
      if name.Some? && name.value in seen {
        continue;
      }
      if name.Some? && name.value in remaining {
        line := NewLine(name.value, remaining[name.value]);
        remaining := remaining - {name.value};
      }
      if name.Some? {
        seen := seen + {name.value};
      }
      SplitsMoves(target, lines, line, Rewrite(rest, updates, seen));
      lines := lines + [line];
    }
    MergeTurns(existing, names, updates, lines);
    target := target + Fresh(names, updates, seen);
    for i := 0 to |names|
      invariant Splits(target, lines, Fresh(names[i..], updates, seen))
    {
      FreshStep(names, i, updates, seen);
      if names[i] in remaining {
        var line := NewLine(names[i], remaining[names[i]]);
        SplitsMoves(target, lines, line, Fresh(names[i + 1..], updates, seen));
        lines := lines + [line];
      }
    }
    MergeEnds(target, lines, names, updates, seen);
    text := EndLines(lines);
  }

  ghost predicate Splits(whole: seq<string>, done: seq<string>, rest: seq<string>) {
    whole == done + rest
  }

  lemma SplitsMoves(whole: seq<string>, done: seq<string>, next: string, rest: seq<string>)
    requires Splits(whole, done, [next] + rest)
    ensures Splits(whole, done + [next], rest)
  {
    assert done + ([next] + rest) == done + [next] + rest;
  }

  lemma MergeStarts(lines: seq<string>, updates: map<string, string>)
    ensures KeyNames(lines[..0]) == {}
    ensures Splits(Rewrite(lines, updates, {}), [], Rewrite(lines[0..], updates, {}))
  {
    hide KeyOf;
    assert lines[0..] == lines;
  }

  lemma MergeTurns(lines: seq<string>, names: seq<string>, updates: map<string, string>, written: seq<string>)
    requires forall n | n in names :: n in updates
    requires Splits(Rewrite(lines, updates, {}), written,
                    Rewrite(lines[|lines|..], updates, KeyNames(lines[..|lines|])))
    ensures KeyNames(lines[..|lines|]) == KeyNames(lines)
    ensures Splits(Rewrite(lines, updates, {}) + Fresh(names, updates, KeyNames(lines)), written,
                   Fresh(names[0..], updates, KeyNames(lines)))
  {
    hide KeyOf;
    assert lines[..|lines|] == lines && names[0..] == names && lines[|lines|..] == [];
  }

  lemma MergeEnds(whole: seq<string>, written: seq<string>, names: seq<string>, updates: map<string, string>,
                  present: set<string>)
    requires Splits(whole, written, Fresh(names[|names|..], updates, present))
    ensures written == whole
  {
    assert names[|names|..] == [];
  }

  lemma RewriteStep(lines: seq<string>, i: nat, updates: map<string, string>, seen: set<string>)
    requires i < |lines|
    ensures var key := KeyOf(lines[i]);
            Rewrite(lines[i..], updates, seen) ==
              if key.Some? && key.value in seen then Rewrite(lines[i + 1..], updates, seen)
              else [if key.Some? && key.value in updates then NewLine(key.value, updates[key.value]) else lines[i]]
                   + Rewrite(lines[i + 1..], updates, if key.Some? then seen + {key.value} else seen)
  {
    hide KeyOf, NewLine;
    assert lines[i..][0] == lines[i] && lines[i..][1..] == lines[i + 1..];
  }

  lemma FreshStep(names: seq<string>, i: nat, updates: map<string, string>, present: set<string>)
    requires i < |names| && forall n | n in names :: n in updates
    ensures Fresh(names[i..], updates, present) ==
              if names[i] in present then Fresh(names[i + 1..], updates, present)
              else [NewLine(names[i], updates[names[i]])] + Fresh(names[i + 1..], updates, present)
  {
    hide NewLine;
    assert names[i..][0] == names[i] && names[i..][1..] == names[i + 1..];
  }

  lemma KeyNamesStep(lines: seq<string>, i: nat)
    requires i < |lines|
    ensures KeyNames(lines[..i + 1])
              == KeyNames(lines[..i]) + (if KeyOf(lines[i]).Some? then {KeyOf(lines[i]).value} else {})
  {
    hide KeyOf;
    assert forall j | 0 <= j < i :: lines[..i + 1][j] == lines[..i][j];
    assert lines[..i + 1][i] == lines[i];
    var bigger, smaller := KeyNames(lines[..i + 1]), KeyNames(lines[..i]);
    forall k | k in smaller
      ensures k in bigger
    {
      var j :| 0 <= j < i && KeyOf(lines[..i][j]) == Some(k);
      assert KeyOf(lines[..i + 1][j]) == Some(k);
    }
    if KeyOf(lines[i]).Some? {
      assert KeyOf(lines[..i + 1][i]).Some?;
    }
  }

  // ---- What a merge promises ----

  predicate NoDuplicateKeys(lines: seq<string>) {
    forall i, j | 0 <= i < j < |lines| && KeyOf(lines[i]).Some? :: KeyOf(lines[i]) != KeyOf(lines[j])
  }

  /** Comments, blanks and anything else that defines no key, in order. */
  function Unkeyed(lines: seq<string>): seq<string> {
    if lines == [] then []
    else (if KeyOf(lines[0]).None? then [lines[0]] else []) + Unkeyed(lines[1..])
  }

  /** The lines that define `key`, in order. */
  function Defining(lines: seq<string>, key: string): seq<string> {
    if lines == [] then []
    else (if KeyOf(lines[0]) == Some(key) then [lines[0]] else []) + Defining(lines[1..], key)
  }

  lemma {:induction false} DefiningConcat(a: seq<string>, b: seq<string>, key: string)
    ensures Defining(a + b, key) == Defining(a, key) + Defining(b, key)
  {
    hide KeyOf;
    if a == [] {
      assert a + b == b;
    } else {
      assert (a + b)[0] == a[0] && (a + b)[1..] == a[1..] + b;
      DefiningConcat(a[1..], b, key);
      var first := if KeyOf(a[0]) == Some(key) then [a[0]] else [];
      assert first + (Defining(a[1..], key) + Defining(b, key)) == (first + Defining(a[1..], key)) + Defining(b, key);
    }
  }

  lemma {:induction false} UnkeyedConcat(a: seq<string>, b: seq<string>)
    ensures Unkeyed(a + b) == Unkeyed(a) + Unkeyed(b)
  {
    hide KeyOf;
    if a == [] {
      assert a + b == b;
    } else {
      assert (a + b)[0] == a[0] && (a + b)[1..] == a[1..] + b;
      UnkeyedConcat(a[1..], b);
      var first := if KeyOf(a[0]).None? then [a[0]] else [];
      assert first + (Unkeyed(a[1..]) + Unkeyed(b)) == (first + Unkeyed(a[1..])) + Unkeyed(b);
    }
  }

  predicate AllNames(updates: map<string, string>) { forall n | n in updates :: IsName(n) }

  lemma {:induction false} RewriteDefines(lines: seq<string>, updates: map<string, string>, seen: set<string>,
                                          key: string)
    requires AllNames(updates)
    ensures var before := Defining(lines, key);
            Defining(Rewrite(lines, updates, seen), key) ==
              if key in seen || before == [] then []
              else [if key in updates then NewLine(key, updates[key]) else before[0]]
    ensures Unkeyed(Rewrite(lines, updates, seen)) == Unkeyed(lines)
    decreases |lines|
  {
    if lines != [] {
      var k := KeyOf(lines[0]);
      if k.Some? && k.value !in seen {
        RewriteDefines(lines[1..], updates, seen + {k.value}, key);
        if k.value in updates {
          NewLineDefines(k.value, updates[k.value]);
        }
      } else {
        RewriteDefines(lines[1..], updates, seen, key);
      }
    }
  }

  lemma {:induction false} FreshDefines(names: seq<string>, updates: map<string, string>, present: set<string>,
                                        key: string)
    requires AllNames(updates) && (forall n | n in names :: n in updates)
    requires forall i, j | 0 <= i < j < |names| :: names[i] != names[j]
    ensures Defining(Fresh(names, updates, present), key) ==
              if key in names && key !in present then [NewLine(key, updates[key])] else []
    ensures Unkeyed(Fresh(names, updates, present)) == []
    decreases |names|
  {
    hide KeyOf, NewLine, IsName;
    if names != [] {
      var rest := names[1..];
      assert names == [names[0]] + rest;
      FreshDefines(rest, updates, present, key);
      NewLineDefines(names[0], updates[names[0]]);
      if names[0] !in present {
        assert Fresh(names, updates, present)[1..] == Fresh(rest, updates, present);
      }
    }
  }

  lemma {:induction false} PresentIsDefined(lines: seq<string>, key: string)
    ensures key in KeyNames(lines) <==> Defining(lines, key) != []
  {
    if lines != [] {
      PresentIsDefined(lines[1..], key);
      assert forall i | 1 <= i < |lines| :: lines[i] == lines[1..][i - 1];
      if key in KeyNames(lines[1..]) {
        var i :| 0 <= i < |lines[1..]| && KeyOf(lines[1..][i]) == Some(key);
        assert KeyOf(lines[i + 1]) == Some(key);
      }
      if key in KeyNames(lines) && KeyOf(lines[0]) != Some(key) {
        var i :| 0 <= i < |lines| && KeyOf(lines[i]) == Some(key);
        assert KeyOf(lines[1..][i - 1]) == Some(key);
      }
    }
  }

  /** An updated key is defined once, by its new value; any other key once, by its first line as it
      was; a key of neither not at all; and every other line survives in order. */
  lemma MergeIsMapUpdate(lines: seq<string>, names: seq<string>, updates: map<string, string>, key: string)
    requires IsDict(names, updates) && AllNames(updates)
    ensures Defining(MergeLines(lines, names, updates), key) ==
              if key in updates then [NewLine(key, updates[key])]
              else if Defining(lines, key) == [] then [] else [Defining(lines, key)[0]]
    ensures Unkeyed(MergeLines(lines, names, updates)) == Unkeyed(lines)
  {
    RewriteDefines(lines, updates, {}, key);
    FreshDefines(names, updates, KeyNames(lines), key);
    PresentIsDefined(lines, key);
    DefiningConcat(Rewrite(lines, updates, {}), Fresh(names, updates, KeyNames(lines)), key);
    UnkeyedConcat(Rewrite(lines, updates, {}), Fresh(names, updates, KeyNames(lines)));
  }

  lemma {:induction false} OnceMeansNoDuplicates(lines: seq<string>)
    requires forall key :: |Defining(lines, key)| <= 1
    ensures NoDuplicateKeys(lines)
  {
    forall i, j | 0 <= i < j < |lines| && KeyOf(lines[i]).Some?
      ensures KeyOf(lines[i]) != KeyOf(lines[j])
    {
      var key := KeyOf(lines[i]).value;
      var front, back := lines[..j], lines[j..];
      assert lines == front + back;
      DefiningConcat(front, back, key);
      DefinedLine(front, front[i]);
      assert |Defining(lines, key)| <= 1;
      assert back[0] == lines[j];
    }
  }

  /** No key is duplicated, whatever the file looked like. */
  lemma MergeHasNoDuplicates(lines: seq<string>, names: seq<string>, updates: map<string, string>)
    requires IsDict(names, updates) && AllNames(updates)
    ensures NoDuplicateKeys(MergeLines(lines, names, updates))
  {
    forall key
      ensures |Defining(MergeLines(lines, names, updates), key)| <= 1
    {
      MergeIsMapUpdate(lines, names, updates, key);
    }
    OnceMeansNoDuplicates(MergeLines(lines, names, updates));
  }

  /** Lines the merge has nothing left to do on. */
  predicate Settled(lines: seq<string>, updates: map<string, string>) {
    && NoDuplicateKeys(lines)
    && (forall line | line in lines && KeyOf(line).Some? && KeyOf(line).value in updates ::
          line == NewLine(KeyOf(line).value, updates[KeyOf(line).value]))
    && (forall k | k in updates :: k in KeyNames(lines))
  }

  lemma {:induction false} RewriteSettled(lines: seq<string>, updates: map<string, string>, seen: set<string>)
    requires NoDuplicateKeys(lines) && KeyNames(lines) !! seen
    requires forall line | line in lines && KeyOf(line).Some? && KeyOf(line).value in updates ::
               line == NewLine(KeyOf(line).value, updates[KeyOf(line).value])
    ensures Rewrite(lines, updates, seen) == lines
    decreases |lines|
  {
    if lines != [] {
      var k := KeyOf(lines[0]);
      var rest := lines[1..];
      assert forall i | 0 <= i < |rest| :: rest[i] == lines[i + 1];
      assert KeyNames(rest) <= KeyNames(lines) by {
        forall key | key in KeyNames(rest)
          ensures key in KeyNames(lines)
        {
          var i :| 0 <= i < |rest| && KeyOf(rest[i]) == Some(key);
          assert KeyOf(lines[i + 1]) == Some(key);
        }
      }
      assert lines[0] in lines;
      if k.Some? {
        assert k.value in KeyNames(lines) by {
          assert KeyOf(lines[0]) == Some(k.value);
        }
        assert k.value !in KeyNames(rest);
        RewriteSettled(rest, updates, seen + {k.value});
      } else {
        RewriteSettled(rest, updates, seen);
      }
    }
  }

  lemma {:induction false} NothingFresh(names: seq<string>, updates: map<string, string>, present: set<string>)
    requires forall n | n in names :: n in updates && n in present
    ensures Fresh(names, updates, present) == []
  {
    if names != [] {
      assert names[0] in names && forall n | n in names[1..] :: n in names;
      NothingFresh(names[1..], updates, present);
    }
  }

  lemma MergeSettles(lines: seq<string>, names: seq<string>, updates: map<string, string>)
    requires IsDict(names, updates) && AllNames(updates)
    ensures Settled(MergeLines(lines, names, updates), updates)
  {
    var merged := MergeLines(lines, names, updates);
    MergeHasNoDuplicates(lines, names, updates);
    forall line | line in merged && KeyOf(line).Some? && KeyOf(line).value in updates
      ensures line == NewLine(KeyOf(line).value, updates[KeyOf(line).value])
    {
      MergeIsMapUpdate(lines, names, updates, KeyOf(line).value);
      DefinedLine(merged, line);
    }
    forall k | k in updates
      ensures k in KeyNames(merged)
    {
      MergeIsMapUpdate(lines, names, updates, k);
      PresentIsDefined(merged, k);
    }
  }

  lemma {:induction false} DefinedLine(lines: seq<string>, line: string)
    requires line in lines && KeyOf(line).Some?
    ensures line in Defining(lines, KeyOf(line).value)
  {
    if lines[0] != line {
      assert line in lines[1..];
      DefinedLine(lines[1..], line);
    }
  }

  /** Merging the same updates twice is merging them once. */
  lemma MergeIsIdempotent(lines: seq<string>, names: seq<string>, updates: map<string, string>)
    requires IsDict(names, updates) && AllNames(updates)
    ensures var once := MergeLines(lines, names, updates); MergeLines(once, names, updates) == once
  {
    var once := MergeLines(lines, names, updates);
    MergeSettles(lines, names, updates);
    RewriteSettled(once, updates, {});
    NothingFresh(names, updates, KeyNames(once));
  }
}
