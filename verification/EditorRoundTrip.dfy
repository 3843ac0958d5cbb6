/** Exactly which argument lists survive shellJoin followed by splitProfileEditor, on and off Windows. The argument is
    that of ShellRoundTrip; this scanner keeps empty parts, trims nothing and refuses control characters.
 */
module EditorRoundTrip {
  import opened Text
  import opened ShellWords
  import opened ShellRoundTrip

  /** The characters that mean something to this scanner outside quotes. */
  predicate IsEditorSpecial(c: char, windows: bool) {
    c == '\'' || c == '"' || c == ' ' || c == '\t' || (c == '\\' && !windows)
  }

  predicate IsEditorOrdinary(s: string, windows: bool) {
    forall i :: 0 <= i < |s| ==> !IsEditorSpecial(s[i], windows)
  }

  predicate EditorReadable(part: string, windows: bool) {
    IsPlaceholder(part) ==> IsEditorOrdinary(part, windows)
  }

  ghost predicate AllEditorReadable(parts: seq<string>, windows: bool) {
    forall i :: 0 <= i < |parts| ==> EditorReadable(parts[i], windows)
  }

  // ----- What the scanner has read is committed -------------------------------------------------

  ghost predicate Yields(e: Editor, text: string, windows: bool, out: seq<string>) {
    FinishEditor(RunEditor(e, text, windows)) == Ok(out)
  }

  lemma {:induction false} PartsAreCommitted(e: Editor, text: string, windows: bool, out: seq<string>)
    requires Yields(e, text, windows, out)
    ensures e.Editor? && e.parts <= out
    decreases |text|
  {
    if e.Refused? {
      RefusedStays(text, windows);
    } else if text != "" {
      PartsAreCommitted(StepEditor(e, text[0], windows), text[1..], windows, out);
    }
  }

  lemma {:induction false} PartIsCommitted(e: Editor, text: string, windows: bool, out: seq<string>)
    requires Yields(e, text, windows, out) && e.Editor? && |out| > |e.parts|
    ensures e.parts <= out && e.part <= out[|e.parts|]
    decreases |text|
  {
    PartsAreCommitted(e, text, windows, out);
    if text != "" {
      var next := StepEditor(e, text[0], windows);
      PartsAreCommitted(next, text[1..], windows, out);
      if next.parts == e.parts {
        PartIsCommitted(next, text[1..], windows, out);
      }
    }
  }

  /** Nothing that is read back holds a control character. */
  lemma {:induction false} ControlsAreRefused(e: Editor, text: string, windows: bool, out: seq<string>)
    requires Yields(e, text, windows, out)
    ensures NoControls(text)
    decreases |text|
  {
    if text != "" {
      PartsAreCommitted(StepEditor(e, text[0], windows), text[1..], windows, out);
      ControlsAreRefused(StepEditor(e, text[0], windows), text[1..], windows, out);
      assert text == [text[0]] + text[1..];
    }
  }

  // ----- A scanner that is behind stays behind --------------------------------------------------

  ghost predicate EditorBehind(e: Editor, out: seq<string>, x: string, p: nat) {
    e.Editor? && |e.parts| < |out| && out[|e.parts|] == x && |e.part| < p <= |x|
  }

  /** A step neither completes the argument nor catches up; a character it keeps is that of the argument. */
  lemma EditorStepBehind(e: Editor, out: seq<string>, x: string, p: nat, rest: string, windows: bool)
    requires EditorBehind(e, out, x, p) && p < |x| && Yields(StepEditor(e, x[p], windows), rest, windows, out)
    ensures EditorBehind(StepEditor(e, x[p], windows), out, x, p + 1)
    ensures |StepEditor(e, x[p], windows).part| > |e.part| ==> x[|e.part|] == x[p]
    ensures e.started ==> StepEditor(e, x[p], windows).started
  {
    var next := StepEditor(e, x[p], windows);
    PartsAreCommitted(next, rest, windows, out);
    if next.parts == e.parts {
      PartIsCommitted(next, rest, windows, out);
    }
  }

  lemma {:induction false} EditorNotBehindBracket(e: Editor, out: seq<string>, x: string, p: nat, f: nat, tail: string,
                                                  windows: bool)
    requires EditorBehind(e, out, x, p) && p <= f < |x| && x[f] == '<' && '<' !in x[..f]
    ensures !Yields(e, x[p..f + 1] + tail, windows, out)
    decreases f - p
  {
    var text := x[p..f + 1] + tail;
    StepInto(x[..f + 1], p, tail);
    SliceOfPrefix(x, p, f + 1);
    if Yields(e, text, windows, out) {
      EditorStepBehind(e, out, x, p, text[1..], windows);
      if p < f {
        EditorNotBehindBracket(StepEditor(e, x[p], windows), out, x, p + 1, f, tail, windows);
      }
    }
  }

  /** Once started and behind, without a blank in the argument so far, the scanner cannot complete it. */
  lemma {:induction false} EditorNotBehindBlank(e: Editor, out: seq<string>, x: string, p: nat, tail: string,
                                                windows: bool)
    requires EditorBehind(e, out, x, p) && e.started && ' ' !in x[..p] && (tail == "" || tail[0] == ' ')
    ensures !Yields(e, x[p..] + tail, windows, out)
    decreases |x| - p
  {
    var text := x[p..] + tail;
    if Yields(e, text, windows, out) {
      if p < |x| {
        StepInto(x, p, tail);
        EditorStepBehind(e, out, x, p, text[1..], windows);
        if x[p] != ' ' {
          assert x[..p + 1] == x[..p] + [x[p]];
          EditorNotBehindBlank(StepEditor(e, x[p], windows), out, x, p + 1, tail, windows);
        }
      } else {
        assert text == tail && x[..p] == x;
        EditorNotCompleted(e, out, x, tail, windows);
      }
    }
  }

  lemma EditorNotCompleted(e: Editor, out: seq<string>, x: string, tail: string, windows: bool)
    requires EditorBehind(e, out, x, |x|) && e.started && ' ' !in x && (tail == "" || tail[0] == ' ')
    ensures !Yields(e, tail, windows, out)
  {
    if Yields(e, tail, windows, out) && tail != "" {
      var next := StepEditor(e, ' ', windows);
      PartsAreCommitted(next, tail[1..], windows, out);
      if next.parts == e.parts {
        PartIsCommitted(next, tail[1..], windows, out);
        PrefixByte(e.part, ' ', x);
      }
    }
  }

  lemma FirstEditorSpecial(x: string, windows: bool) returns (k: nat)
    requires !IsEditorOrdinary(x, windows)
    ensures k < |x| && IsEditorSpecial(x[k], windows) && IsEditorOrdinary(x[..k], windows)
  {
    k := 0;
    while !IsEditorSpecial(x[k], windows)
      invariant k < |x| && IsEditorOrdinary(x[..k], windows)
      invariant exists i :: k <= i < |x| && IsEditorSpecial(x[i], windows)
      decreases |x| - k
    {
      k := k + 1;
    }
  }

  lemma {:induction false} EditorReadsOrdinary(e: Editor, text: string, windows: bool)
    requires e.Editor? && e.mode == Plain && IsEditorOrdinary(text, windows) && NoControls(text)
    ensures RunEditor(e, text, windows) == e.(part := e.part + text, started := e.started || text != "")
    decreases |text|
  {
    if text == "" {
      assert e.part + text == e.part;
    } else {
      EditorReadsOrdinary(StepEditor(e, text[0], windows), text[1..], windows);
      assert e.part + [text[0]] + text[1..] == e.part + text;
    }
  }

  /** At its first special character the scanner falls behind a placeholder, for good. */
  lemma EditorLostAtSpecial(e: Editor, out: seq<string>, x: string, k: nat, tail: string, windows: bool)
    requires e.Editor? && |e.parts| < |out| && out[|e.parts|] == x && IsPlaceholder(x) && (tail == "" || tail[0] == ' ')
    requires k < |x| && IsEditorSpecial(x[k], windows) && IsEditorOrdinary(x[..k], windows)
    requires e.part == x[..k] && e.mode == Plain && e.started == (k > 0)
    ensures !Yields(StepEditor(e, x[k], windows), x[k + 1..] + tail, windows, out)
  {
    var next, rest := StepEditor(e, x[k], windows), x[k + 1..] + tail;
    if Yields(next, rest, windows, out) {
      PartsAreCommitted(next, rest, windows, out);
      if '<' in x[..k] {
        assert x[..k + 1] == x[..k] + [x[k]];
        EditorNotBehindBlank(next, out, x, k + 1, tail, windows);
      } else {
        EditorLostBeforeBracket(next, out, x, k, tail, windows);
      }
    }
  }

  lemma EditorLostBeforeBracket(e: Editor, out: seq<string>, x: string, k: nat, tail: string, windows: bool)
    requires k < |x| && x[k] != '<' && EditorBehind(e, out, x, k + 1) && '<' in x && '<' !in x[..k]
    ensures !Yields(e, x[k + 1..] + tail, windows, out)
  {
    var f := FirstBracket(x);
    assert forall i :: 0 <= i < k ==> x[..k][i] == x[i];
    assert x[k + 1..] + tail == x[k + 1..f + 1] + (x[f + 1..] + tail);
    EditorNotBehindBracket(e, out, x, k + 1, f, x[f + 1..] + tail, windows);
  }

  lemma EditorReadsUpToSpecial(parts: seq<string>, x: string, k: nat, tail: string, windows: bool)
    requires k < |x| && IsEditorOrdinary(x[..k], windows) && NoControls(x)
    ensures RunEditor(Editor(parts, "", Plain, false), x + tail, windows) ==
              RunEditor(StepEditor(Editor(parts, x[..k], Plain, k > 0), x[k], windows), x[k + 1..] + tail, windows)
  {
    var start, rest := Editor(parts, "", Plain, false), x[k..] + tail;
    assert NoControls(x[..k]);
    EditorReadsOrdinary(start, x[..k], windows);
    assert start.part + x[..k] == x[..k];
    assert x + tail == x[..k] + rest;
    RunEditorAppend(start, x[..k], rest, windows);
    assert rest[0] == x[k] && rest[1..] == x[k + 1..] + tail;
  }

  /** A placeholder with a special character is not read back, whatever comes before and after. */
  lemma EditorUnreadableIsLost(parts: seq<string>, out: seq<string>, x: string, tail: string, windows: bool)
    requires |parts| < |out| && out[|parts|] == x && !EditorReadable(x, windows) && NoControls(x)
    requires tail == "" || tail[0] == ' '
    ensures !Yields(Editor(parts, "", Plain, false), x + tail, windows, out)
  {
    var k := FirstEditorSpecial(x, windows);
    EditorReadsUpToSpecial(parts, x, k, tail, windows);
    EditorLostAtSpecial(Editor(parts, x[..k], Plain, k > 0), out, x, k, tail, windows);
  }

  // ----- Lists that survive ---------------------------------------------------------------------

  lemma EditorReadsPart(e: Editor, part: string, windows: bool)
    requires e.Editor? && e.mode == Plain && EditorReadable(part, windows) && NoControls(part)
    ensures RunEditor(e, Quote(part), windows) == e.(part := e.part + part, started := true)
  {
    if part != "" && IsPlaceholder(part) {
      EditorReadsOrdinary(e, part, windows);
    } else {
      EditorReadsQuoted(e, part, windows);
    }
  }

  /** After readable parts and a separator the scanner starts afresh. */
  lemma EditorThenSeparator(text: string, init: seq<string>, rest: string, windows: bool)
    requires init != [] && RunEditor(OPEN, text, windows) == Editor(init[..|init| - 1], init[|init| - 1], Plain, true)
    ensures RunEditor(OPEN, text + " " + rest, windows) == RunEditor(Editor(init, "", Plain, false), rest, windows)
  {
    var e := Editor(init[..|init| - 1], init[|init| - 1], Plain, true);
    LastSplit(init);
    RunEditorAppend(OPEN, text + " ", rest, windows);
    RunEditorAppend(OPEN, text, " ", windows);
    RunEditorOne(e, ' ', windows);
  }

  lemma {:induction false} EditorReadsAll(parts: seq<string>, windows: bool)
    requires parts != [] && AllEditorReadable(parts, windows) && Clean(parts)
    ensures RunEditor(OPEN, Joined(parts), windows) == Editor(parts[..|parts| - 1], parts[|parts| - 1], Plain, true)
  {
    var init, last := parts[..|parts| - 1], parts[|parts| - 1];
    if init == [] {
      assert QuoteAll(parts) == [Quote(last)];
      EditorReadsPart(OPEN, last, windows);
    } else {
      EditorReadsAll(init, windows);
      QuoteAllSnoc(parts);
      EditorThenSeparator(Joined(init), init, Quote(last), windows);
      EditorReadsPart(Editor(init, "", Plain, false), last, windows);
    }
  }

  /** Reading what comes before part m, when all of that is readable. */
  lemma EditorReadsBefore(parts: seq<string>, m: nat, rest: string, windows: bool)
    requires m < |parts| && AllEditorReadable(parts[..m], windows) && Clean(parts)
    ensures RunEditor(OPEN, Before(parts, m) + rest, windows) ==
              RunEditor(Editor(parts[..m], "", Plain, false), rest, windows)
  {
    if m == 0 {
      assert "" + rest == rest && parts[..0] == [];
    } else {
      EditorReadsAll(parts[..m], windows);
      EditorThenSeparator(Joined(parts[..m]), parts[..m], rest, windows);
    }
  }

  lemma FirstEditorUnreadable(parts: seq<string>, windows: bool) returns (j: nat)
    ensures j <= |parts| && AllEditorReadable(parts[..j], windows)
    ensures j < |parts| ==> !EditorReadable(parts[j], windows)
  {
    j := 0;
    while j < |parts| && EditorReadable(parts[j], windows)
      invariant j <= |parts| && AllEditorReadable(parts[..j], windows)
    {
      j := j + 1;
    }
  }

  lemma EditorPartsAreReadable(parts: seq<string>, windows: bool)
    requires Clean(parts) && Yields(OPEN, Joined(parts), windows, parts)
    ensures AllEditorReadable(parts, windows)
  {
    var j := FirstEditorUnreadable(parts, windows);
    if j < |parts| {
      var x := parts[j];
      var tail := AroundPart(parts, j);
      Regroup(Before(parts, j), x, tail);
      EditorReadsBefore(parts, j, x + tail, windows);
      EditorUnreadableIsLost(parts[..j], parts, x, tail, windows);
    } else {
      assert parts[..j] == parts;
    }
  }

  /** A control character of a part is in its quoted form, hence in the joined text. */
  lemma QuoteKeepsControls(part: string)
    requires NoControls(Quote(part))
    ensures NoControls(part)
  {
    if part != "" && !IsPlaceholder(part) && !IsSafe(part) {
      var body := FlatMap(EscapeChar, part);
      assert Quote(part) == "'" + body + "'";
      assert forall i :: 0 <= i < |body| ==> body[i] == Quote(part)[i + 1];
      EscapedControls(part);
    }
  }

  lemma {:induction false} EscapedControls(part: string)
    requires NoControls(FlatMap(EscapeChar, part))
    ensures NoControls(part)
  {
    if part != "" {
      var init, last := part[..|part| - 1], part[|part| - 1];
      var body, piece := FlatMap(EscapeChar, init), EscapeChar(last);
      assert FlatMap(EscapeChar, part) == body + piece;
      NoControlsInParts(body, piece);
      EscapedControls(init);
      LastSplit(part);
    }
  }

  lemma NoControlsInParts(a: string, b: string)
    requires NoControls(a + b)
    ensures NoControls(a) && NoControls(b)
  {
    assert forall i :: 0 <= i < |a| ==> a[i] == (a + b)[i];
    assert forall i :: 0 <= i < |b| ==> b[i] == (a + b)[|a| + i];
  }

  lemma JoinedControls(parts: seq<string>)
    requires NoControls(Joined(parts))
    ensures Clean(parts)
  {
    forall i | 0 <= i < |parts| ensures NoControls(parts[i]) {
      var tail := AroundPart(parts, i);
      NoControlsInParts(Before(parts, i) + Quote(parts[i]), tail);
      NoControlsInParts(Before(parts, i), Quote(parts[i]));
      QuoteKeepsControls(parts[i]);
    }
  }

  /** splitProfileEditor undoes shellJoin exactly on the lists with a first part that is not empty, without control
      characters, whose placeholders hold no character that this scanner interprets. */
  lemma EditorUndoesJoinIff(parts: seq<string>, windows: bool)
    ensures EditorArgv(Joined(parts), windows) == Ok(parts) <==>
              parts != [] && parts[0] != "" && Clean(parts) && AllEditorReadable(parts, windows)
  {
    if EditorArgv(Joined(parts), windows) == Ok(parts) {
      ControlsAreRefused(OPEN, Joined(parts), windows, parts);
      JoinedControls(parts);
      EditorPartsAreReadable(parts, windows);
    }
    if parts != [] && parts[0] != "" && Clean(parts) && AllEditorReadable(parts, windows) {
      EditorReadsAll(parts, windows);
      EditorFinishes(Joined(parts), parts, windows);
    }
  }

  /** In particular on all lists without placeholders, empty later parts included, on every platform. */
  lemma EditorUndoesJoin(parts: seq<string>, windows: bool)
    requires parts != [] && parts[0] != "" && Quotable(parts) && Clean(parts)
    ensures EditorArgv(Joined(parts), windows) == Ok(parts)
  {
    EditorUndoesJoinIff(parts, windows);
  }
}
