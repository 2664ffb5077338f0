/** The footnote editor: schedule and failure notes below a review comment, and why editing them
    never touches the review, whatever it quotes. */
module Footnotes {
  import opened Wrappers
  import opened Text

  const COMMENT_MARKER := "<!-- ai-code-review-bot -->"
  const FAIL_NOTE_START := "<!-- ai-review-fail-note -->"
  const FAIL_NOTE_END := "<!-- /ai-review-fail-note -->"
  const SCHEDULE_NOTE_START := "<!-- ai-review-schedule-note -->"
  const SCHEDULE_NOTE_END := "<!-- /ai-review-schedule-note -->"

  datatype Kind = FailNote | ScheduleNote {
    function Start(): string { if FailNote? then FAIL_NOTE_START else SCHEDULE_NOTE_START }
    function End(): string { if FailNote? then FAIL_NOTE_END else SCHEDULE_NOTE_END }
  }

  // ---- String primitives ----

  /** `str.rstrip`. */
  function RStrip(s: string): (r: string)
    ensures r <= s
    ensures r != "" ==> !IsSpace(r[|r| - 1])
  {
    if s != "" && IsSpace(s[|s| - 1]) then RStrip(s[..|s| - 1]) else s
  }

  predicate OccursAt(s: string, p: string, i: nat) {
    i + |p| <= |s| && s[i..i + |p|] == p
  }

  predicate Contains(s: string, p: string) {
    exists i | 0 <= i <= |s| :: OccursAt(s, p, i)
  }

  /** The last occurrence at or before `i`. */
  function RFindFrom(s: string, p: string, i: nat): (r: Option<nat>)
    ensures r.Some? ==> r.value <= i && OccursAt(s, p, r.value)
    ensures r.Some? ==> forall j | r.value < j <= i :: !OccursAt(s, p, j)
    ensures r.None? ==> forall j | 0 <= j <= i :: !OccursAt(s, p, j)
  {
    if OccursAt(s, p, i) then Some(i) else if i == 0 then None else RFindFrom(s, p, i - 1)
  }

  /** `str.rfind`; `None` for -1. */
  function RFind(s: string, p: string): (r: Option<nat>)
    ensures r.Some? ==> r.value <= |s| && OccursAt(s, p, r.value)
    ensures r.Some? ==> forall j | r.value < j <= |s| :: !OccursAt(s, p, j)
    ensures r.None? ==> forall j | 0 <= j <= |s| :: !OccursAt(s, p, j)
  {
    RFindFrom(s, p, |s|)
  }

  predicate EndsWith(s: string, p: string) {
    |p| <= |s| && s[|s| - |p|..] == p
  }

  // ---- Stripping ----

  /** A trailing block: the body ends with the END marker and has the START marker somewhere. */
  predicate EndsInBlock(s: string, k: Kind) {
    RFind(s, k.Start()).Some? && EndsWith(s, k.End())
  }

  /** `_strip_existing_footnote`. */
  function Strip(body: string): string {
    var s := RStrip(body);
    if EndsInBlock(s, FailNote) then RStrip(s[..RFind(s, FAIL_NOTE_START).value])
    else if EndsInBlock(s, ScheduleNote) then RStrip(s[..RFind(s, SCHEDULE_NOTE_START).value])
    else s
  }

  /** The loop over the marker pairs. */
  method StripExistingFootnote(body: string) returns (r: string)
    ensures r == Strip(body)
  {
    hide RFind, EndsWith;
    var stripped := RStrip(body);
    var markers := [FailNote, ScheduleNote];
    for i := 0 to |markers|
      invariant forall j | 0 <= j < i :: !EndsInBlock(stripped, markers[j])
    {
      assert i == 1 ==> !EndsInBlock(stripped, markers[0]);
      var index := RFind(stripped, markers[i].Start());
      if index.Some? && EndsWith(stripped, markers[i].End()) {
        return RStrip(stripped[..index.value]);
      }
    }
    assert !EndsInBlock(stripped, markers[0]) && !EndsInBlock(stripped, markers[1]);
    r := stripped;
  }

  // ---- Footnotes ----

  predicate NoAngle(s: string) { forall c | c in s :: c != '<' }

  function Footnote(k: Kind, text: string): string {
    k.Start() + ("\n" + text + "\n" + k.End())
  }

  // The formatters' wording, in pieces short enough to be checked character by character.
  const FAILURE_TEXT := [
    "> \U{26A0}\U{FE0F} A later automated ",
    "re-review could not be completed",
    " after ",
    " (service error). The review abo",
    "ve may be behind the latest comm",
    "it; it will retry on the next pu",
    "sh."
  ]

  const SCHEDULE_TEXT := [
    "\U{1F504} Re-review scheduled ~",
    " (usage limit reached \U{2014} resets",
    " automatically, not a provider q",
    "uota issue)"
  ]

  function Concat(parts: seq<string>): string {
    if parts == [] then "" else parts[0] + Concat(parts[1..])
  }

  /** The text of `format_failure_footnote`. */
  function FailureText(attempts: nat): string {
    Concat(FAILURE_TEXT[..3]) + (Decimal(attempts) + (if attempts == 1 then " attempt" else " attempts"))
    + Concat(FAILURE_TEXT[3..])
  }

  /** The text of `format_schedule_notice`; `eta` is the `%H:%M UTC` rendering of the schedule. */
  function ScheduleText(eta: string, usageCap: bool): string {
    SCHEDULE_TEXT[0] + (eta + (if usageCap then Concat(SCHEDULE_TEXT[1..]) else ""))
  }

  lemma {:induction false} NoAngleConcat(parts: seq<string>)
    requires forall p | p in parts :: NoAngle(p)
    ensures NoAngle(Concat(parts))
  {
    if parts != [] {
      assert parts[0] in parts && forall p | p in parts[1..] :: p in parts;
      NoAngleConcat(parts[1..]);
    }
  }

  lemma FailurePartIsAngleFree(i: nat)
    requires i < |FAILURE_TEXT|
    ensures NoAngle(FAILURE_TEXT[i])
  {
    if i < 4 {
      FirstFailureParts(i);
    } else {
      LastFailureParts(i);
    }
  }

  lemma FirstFailureParts(i: nat)
    requires i < 4
    ensures NoAngle(FAILURE_TEXT[i])
  {
    match i {
      case 0 => assert NoAngle(FAILURE_TEXT[0]);
      case 1 => assert NoAngle(FAILURE_TEXT[1]);
      case 2 => assert NoAngle(FAILURE_TEXT[2]);
      case _ => assert NoAngle(FAILURE_TEXT[3]);
    }
  }

  lemma LastFailureParts(i: nat)
    requires 4 <= i < 7
    ensures NoAngle(FAILURE_TEXT[i])
  {
    match i {
      case 4 => assert NoAngle(FAILURE_TEXT[4]);
      case 5 => assert NoAngle(FAILURE_TEXT[5]);
      case _ => assert NoAngle(FAILURE_TEXT[6]);
    }
  }

  lemma SchedulePartIsAngleFree(i: nat)
    requires i < |SCHEDULE_TEXT|
    ensures NoAngle(SCHEDULE_TEXT[i])
  {
    match i {
      case 0 => assert NoAngle(SCHEDULE_TEXT[0]);
      case 1 => assert NoAngle(SCHEDULE_TEXT[1]);
      case 2 => assert NoAngle(SCHEDULE_TEXT[2]);
      case _ => assert NoAngle(SCHEDULE_TEXT[3]);
    }
  }

  /** No footnote the formatters write holds a marker inside. */
  lemma FailureTextIsAngleFree(attempts: nat)
    ensures NoAngle(FailureText(attempts))
  {
    hide Concat;
    forall i | 0 <= i < |FAILURE_TEXT| ensures NoAngle(FAILURE_TEXT[i]) { FailurePartIsAngleFree(i); }
    NoAngleConcat(FAILURE_TEXT[..3]);
    NoAngleConcat(FAILURE_TEXT[3..]);
    assert NoAngle(Decimal(attempts)) && NoAngle(if attempts == 1 then " attempt" else " attempts");
  }

  lemma ScheduleTextIsAngleFree(eta: string, usageCap: bool)
    requires NoAngle(eta)
    ensures NoAngle(ScheduleText(eta, usageCap))
  {
    hide Concat;
    forall i | 0 <= i < |SCHEDULE_TEXT| ensures NoAngle(SCHEDULE_TEXT[i]) { SchedulePartIsAngleFree(i); }
    NoAngleConcat(SCHEDULE_TEXT[1..]);
  }

  // ---- Where a footnote starts ----

  /** Opens an angle bracket at its first character and nowhere else. */
  predicate OpensOnce(s: string) {
    s != "" && s[0] == '<' && forall i | 1 <= i < |s| :: s[i] != '<'
  }

  lemma FailStartOpensOnce()
    ensures OpensOnce(FAIL_NOTE_START)
  {
  }

  lemma FailEndOpensOnce()
    ensures OpensOnce(FAIL_NOTE_END)
  {
  }

  lemma ScheduleStartOpensOnce()
    ensures OpensOnce(SCHEDULE_NOTE_START)
  {
  }

  lemma ScheduleEndOpensOnce()
    ensures OpensOnce(SCHEDULE_NOTE_END)
  {
  }

  lemma MarkersOpenOnce(k: Kind)
    ensures OpensOnce(k.Start()) && OpensOnce(k.End())
    ensures |k.Start()| < |k.End()| && k.Start()[5] != k.End()[5]
  {
    hide OpensOnce;
    FailStartOpensOnce();
    FailEndOpensOnce();
    ScheduleStartOpensOnce();
    ScheduleEndOpensOnce();
  }

  lemma MarkersTrim(k: Kind)
    ensures k.End() != "" && !IsSpace(k.End()[|k.End()| - 1])
  {
  }

  lemma LaterCharacter(s: string, i: nat)
    requires OpensOnce(s) && 1 <= i < |s|
    ensures s[i] != '<'
  {
  }

  /** A block opens an angle bracket only where its two markers start. */
  lemma AnglesOfBlock(head: string, start: string, middle: string, end: string, j: nat)
    requires NoAngle(middle) && OpensOnce(start) && OpensOnce(end)
    requires |head| < j < |head + start + middle + end| && j != |head + start + middle|
    ensures (head + start + middle + end)[j] != '<'
  {
    hide OpensOnce;
    var s := head + start + middle + end;
    if j < |head| + |start| {
      assert s[j] == start[j - |head|];
      LaterCharacter(start, j - |head|);
    } else if j < |head| + |start| + |middle| {
      assert s[j] == middle[j - |head| - |start|];
      assert middle[j - |head| - |start|] in middle;
    } else {
      assert s[j] == end[j - |head| - |start| - |middle|];
      LaterCharacter(end, j - |head| - |start| - |middle|);
    }
  }

  /** So its START marker is the last one in the text. */
  lemma NoLaterStart(head: string, start: string, middle: string, end: string, j: nat)
    requires NoAngle(middle) && OpensOnce(start) && OpensOnce(end)
    requires 5 < |start| < |end| && start[5] != end[5] && |head| < j
    ensures !OccursAt(head + start + middle + end, start, j)
  {
    hide OpensOnce;
    var s := head + start + middle + end;
    var q := |head + start + middle|;
    if j + |start| <= |s| {
      var found := s[j..j + |start|];
      if j == q {
        assert found[5] == s[j + 5] == end[5];
      } else {
        AnglesOfBlock(head, start, middle, end, j);
        assert found[0] == s[j];
        FirstOpens(start);
      }
    }
  }

  lemma FirstOpens(s: string)
    requires OpensOnce(s)
    ensures s != "" && s[0] == '<'
  {
  }

  lemma StartOccurs(head: string, start: string, rest: string)
    ensures OccursAt(head + start + rest, start, |head|)
  {
    assert (head + start + rest)[|head|..|head| + |start|] == start;
  }

  lemma BlockStart(head: string, start: string, middle: string, end: string)
    requires NoAngle(middle) && OpensOnce(start) && OpensOnce(end)
    requires 5 < |start| < |end| && start[5] != end[5]
    ensures RFind(head + start + middle + end, start) == Some(|head|)
  {
    hide OccursAt, OpensOnce, NoAngle;
    var s := head + start + middle + end;
    StartOccurs(head, start, middle + end);
    assert s == head + start + (middle + end);
    forall j | |head| < j <= |s|
      ensures !OccursAt(s, start, j)
    {
      NoLaterStart(head, start, middle, end, j);
    }
  }

  /** A body with a footnote: what comes before it, and its three parts. */
  lemma FootnoteParts(base: string, start: string, text: string, end: string)
    ensures base + "\n\n" + (start + ("\n" + text + "\n" + end)) == (base + "\n\n") + start + ("\n" + text + "\n") + end
  {
  }

  lemma TextBetween(text: string)
    requires NoAngle(text)
    ensures NoAngle("\n" + text + "\n")
  {
  }

  /** A footnote's own START is the last one in the body, whatever the review above quotes. */
  lemma FootnoteStartIsLast(base: string, k: Kind, text: string)
    requires NoAngle(text)
    ensures RFind(base + "\n\n" + Footnote(k, text), k.Start()) == Some(|base| + 2)
  {
    hide RFind, OpensOnce, NoAngle;
    MarkersOpenOnce(k);
    TextBetween(text);
    FootnoteParts(base, k.Start(), text, k.End());
    BlockStart(base + "\n\n", k.Start(), "\n" + text + "\n", k.End());
  }

  /** A text that ends with a longer marker does not end with a shorter one that opens where the longer
      one does not. */
  lemma OtherEnd(s: string, short: string, long: string)
    requires EndsWith(s, long) && OpensOnce(short) && OpensOnce(long) && |short| < |long|
    ensures !EndsWith(s, short)
  {
    hide OpensOnce;
    FirstOpens(short);
    LaterCharacter(long, |long| - |short|);
    var tail := s[|s| - |long|..];
    assert s[|s| - |short|] == tail[|long| - |short|];
    assert s[|s| - |short|..][0] == s[|s| - |short|];
  }

  lemma ScheduleBlockIsNoFailBlock(s: string)
    requires EndsWith(s, SCHEDULE_NOTE_END)
    ensures !EndsWith(s, FAIL_NOTE_END)
  {
    hide OpensOnce, EndsWith;
    MarkersOpenOnce(FailNote);
    MarkersOpenOnce(ScheduleNote);
    OtherEnd(s, FAIL_NOTE_END, SCHEDULE_NOTE_END);
  }

  lemma RStripIgnoresNewlines(s: string)
    ensures RStrip(s + "\n\n") == RStrip(s)
  {
    assert (s + "\n\n")[..|s| + 1] == s + "\n";
    assert (s + "\n")[..|s|] == s;
  }

  lemma AppendedEnd(head: string, end: string)
    ensures EndsWith(head + end, end)
  {
  }

  lemma {:induction false} FootnoteIsTrailingBlock(base: string, k: Kind, text: string)
    requires NoAngle(text)
    ensures EndsInBlock(base + "\n\n" + Footnote(k, text), k)
    ensures k.ScheduleNote? ==> !EndsInBlock(base + "\n\n" + Footnote(k, text), FailNote)
  {
    hide RFind, EndsWith, NoAngle;
    var s := base + "\n\n" + Footnote(k, text);
    FootnoteStartIsLast(base, k, text);
    FootnoteParts(base, k.Start(), text, k.End());
    AppendedEnd((base + "\n\n") + k.Start() + ("\n" + text + "\n"), k.End());
    if k.ScheduleNote? {
      ScheduleBlockIsNoFailBlock(s);
    }
  }

  /** Stripping undoes appending: exactly the right-trimmed base comes back, even if the base
      quotes markers, and even if it ends in something that looks like a footnote. */
  lemma {:induction false} StripUndoesAppend(base: string, k: Kind, text: string)
    requires NoAngle(text)
    ensures Strip(base + "\n\n" + Footnote(k, text)) == RStrip(base)
  {
    hide RFind, IsSpace, OccursAt, EndsInBlock, RStrip;
    var s := base + "\n\n" + Footnote(k, text);
    FootnoteIsTrimmed(base, k, text);
    FootnoteIsTrailingBlock(base, k, text);
    FootnoteStartIsLast(base, k, text);
    assert s[..|base| + 2] == base + "\n\n";
    RStripIgnoresNewlines(base);
  }

  // ---- The comment ----

  datatype Edit = Append(kind: Kind, text: string) | Clear

  predicate WellFormed(e: Edit) { e.Append? ==> NoAngle(e.text) }

  /** The bot's comment on one pull request; `None` while it has none. */
  class Comment {
    var body: Option<string>

    constructor ()
      ensures body.None?
    {
      body := None;
    }

    /** `upsert_comment`. */
    method Upsert(text: string)
      modifies this
      ensures body.Some? && Contains(body.value, COMMENT_MARKER)
      ensures body.value == if Contains(text, COMMENT_MARKER) then text else COMMENT_MARKER + "\n" + text
    {
      if !Contains(text, COMMENT_MARKER) {
        assert OccursAt(COMMENT_MARKER + "\n" + text, COMMENT_MARKER, 0);
      }
      body := Some(if Contains(text, COMMENT_MARKER) then text else COMMENT_MARKER + "\n" + text);
    }

    /** `append_review_footnote` and `append_schedule_notice`. */
    method AppendFootnote(kind: Kind, text: string)
      requires NoAngle(text)
      modifies this
      ensures body == Some(if old(body).Some? then Edited(old(body).value, Append(kind, text))
                           else COMMENT_MARKER + "\n" + Footnote(kind, text))
    {
      if body.None? {
        body := Some(COMMENT_MARKER + "\n" + Footnote(kind, text));
      } else {
        var base := StripExistingFootnote(body.value);
        body := Some(base + "\n\n" + Footnote(kind, text));
      }
    }

    /** `clear_schedule_notice`: no edit when there is nothing to strip. */
    method ClearNotice() returns (edited: bool)
      modifies this
      ensures body == if old(body).Some? then Some(Edited(old(body).value, Clear)) else None
      ensures edited <==> old(body).Some? && Strip(old(body).value) != RStrip(old(body).value)
    {
      edited := false;
      if body.Some? {
        var stripped := StripExistingFootnote(body.value);
        if stripped != RStrip(body.value) {
          body := Some(stripped);
          edited := true;
        }
      }
    }
  }

  function Edited(body: string, e: Edit): string {
    match e
    case Append(kind, text) => Strip(body) + "\n\n" + Footnote(kind, text)
    case Clear => if Strip(body) != RStrip(body) then Strip(body) else body
  }

  function EditedAll(body: string, edits: seq<Edit>): string {
    if edits == [] then body else Edited(EditedAll(body, edits[..|edits| - 1]), edits[|edits| - 1])
  }

  /** The base alone, or the base, a blank line and the last footnote. */
  function Expected(base: string, edits: seq<Edit>): string {
    if edits == [] || edits[|edits| - 1].Clear? then base
    else base + "\n\n" + Footnote(edits[|edits| - 1].kind, edits[|edits| - 1].text)
  }

  /** The review itself ends in something indistinguishable from a footnote. */
  predicate LooksFootnoted(base: string) {
    EndsInBlock(base, FailNote) || EndsInBlock(base, ScheduleNote)
  }

  predicate Trimmed(s: string) { RStrip(s) == s }

  lemma StripKeepsReview(base: string)
    requires Trimmed(base)
    ensures Strip(base) == base <==> !LooksFootnoted(base)
  {
    MarkersOpenOnce(FailNote);
    MarkersOpenOnce(ScheduleNote);
  }

  lemma {:induction false} EditsKeepReview(base: string, edits: seq<Edit>)
    requires Trimmed(base) && !LooksFootnoted(base) && forall e | e in edits :: WellFormed(e)
    ensures EditedAll(base, edits) == Expected(base, edits)
    decreases |edits|
  {
    if edits != [] {
      var before, last := edits[..|edits| - 1], edits[|edits| - 1];
      assert forall e | e in before :: e in edits;
      assert last in edits;
      EditsKeepReview(base, before);
      StripKeepsReview(base);
      if before != [] && before[|before| - 1].Append? {
        var shown := before[|before| - 1];
        assert shown in before;
        StripUndoesAppend(base, shown.kind, shown.text);
        FootnoteIsTrimmed(base, shown.kind, shown.text);
      }
    }
  }

  lemma FootnoteIsTrimmed(base: string, k: Kind, text: string)
    ensures var s := base + "\n\n" + Footnote(k, text); RStrip(s) == s && s != base
  {
    var s := base + "\n\n" + Footnote(k, text);
    MarkersTrim(k);
    assert s[|s| - 1] == k.End()[|k.End()| - 1];
  }

  ghost predicate AlwaysKept(base: string) {
    forall edits: seq<Edit> ::
      (forall e | e in edits :: WellFormed(e)) ==> EditedAll(base, edits) == Expected(base, edits)
  }

  /** A right-trimmed review survives every sequence of appends and clears if and only if it does
      not itself end in a footnote block; quoting markers anywhere else is harmless. */
  lemma ReviewSurvivesIff(base: string)
    requires Trimmed(base)
    ensures AlwaysKept(base) <==> !LooksFootnoted(base)
  {
    StripKeepsReview(base);
    if LooksFootnoted(base) {
      var clear := [Clear];
      assert clear[..0] == [];
      assert EditedAll(base, []) == base;
      assert EditedAll(base, clear) == Strip(base);
      assert Expected(base, clear) == base;
      assert forall e | e in clear :: WellFormed(e);
    } else {
      forall edits: seq<Edit> | forall e | e in edits :: WellFormed(e)
        ensures EditedAll(base, edits) == Expected(base, edits)
      {
        EditsKeepReview(base, edits);
      }
    }
  }

  /** A review ending in a quoted failure block loses it to one clear. */
  lemma QuotedTrailingBlockIsLost()
    ensures var base := "see " + FAIL_NOTE_START + FAIL_NOTE_END;
            LooksFootnoted(base) && Edited(base, Clear) != base
  {
    var base := "see " + FAIL_NOTE_START + FAIL_NOTE_END;
    assert base[|base| - |FAIL_NOTE_END|..] == FAIL_NOTE_END;
    assert OccursAt(base, FAIL_NOTE_START, 4);
    MarkersTrim(FailNote);
    assert base[|base| - 1] == FAIL_NOTE_END[|FAIL_NOTE_END| - 1];
    StripKeepsReview(base);
  }

  /** Editing keeps the comment findable by its marker. */
  lemma EditKeepsMarker(base: string, e: Edit)
    requires Trimmed(base) && !LooksFootnoted(base) && Contains(base, COMMENT_MARKER)
    ensures Contains(Edited(base, e), COMMENT_MARKER)
  {
    StripKeepsReview(base);
    var i :| 0 <= i <= |base| && OccursAt(base, COMMENT_MARKER, i);
    if e.Append? {
      var s := base + "\n\n" + Footnote(e.kind, e.text);
      assert s[i..i + |COMMENT_MARKER|] == base[i..i + |COMMENT_MARKER|];
      assert OccursAt(s, COMMENT_MARKER, i);
    }
  }
}
