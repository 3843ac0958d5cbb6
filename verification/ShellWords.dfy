/** Shell words: the quoter of pkg/codexplugin/manager.go and the two argv scanners that read quoted
    commands back, in cmd/client/stdio_preflight.go and cmd/client/profile_editor.go.
 */
module ShellWords {
  import opened Text

  /** Why a command is refused. */
  datatype Problem = CommandIsEmpty | UnterminatedEscape | UnterminatedQuote | ControlCharacter | ExecutableRequired

  datatype Result<T> = Ok(value: T) | Err(problem: Problem)

  // ----- Quoting --------------------------------------------------------------------------------

  predicate IsSafeChar(c: char) {
    || 'a' <= c <= 'z' || 'A' <= c <= 'Z' || '0' <= c <= '9'
    || c == '@' || c == '%' || c == '_' || c == '+' || c == '='
    || c == ':' || c == ',' || c == '.' || c == '/' || c == '-'
  }

  predicate IsSafe(s: string) {
    forall i :: 0 <= i < |s| ==> IsSafeChar(s[i])
  }

  /** Parts holding both angle brackets are placeholders and are passed through unquoted. */
  predicate IsPlaceholder(s: string) {
    '<' in s && '>' in s
  }

  function EscapeChar(c: char): string {
    if c == '\'' then "'\"'\"'" else [c]
  }

  /** shellQuote. */
  function Quote(s: string): string {
    if s == "" then "''"
    else if IsPlaceholder(s) || IsSafe(s) then s
    else "'" + FlatMap(EscapeChar, s) + "'"
  }

  function QuoteAll(parts: seq<string>): seq<string> {
    seq(|parts|, i requires 0 <= i < |parts| => Quote(parts[i]))
  }

  method ShellSafe(s: string) returns (ok: bool)
    ensures ok <==> IsSafe(s)
  {
    for i := 0 to |s|
      invariant forall j :: 0 <= j < i ==> IsSafeChar(s[j])
    {
      if !IsSafeChar(s[i]) {
        return false;
      }
    }
    return true;
  }

  method ShellJoin(parts: seq<string>) returns (text: string)
    ensures text == Join(QuoteAll(parts), " ")
  {
    var quoted: seq<string> := [];
    for i := 0 to |parts|
      invariant quoted == QuoteAll(parts[..i])
    {
      quoted := quoted + [Quote(parts[i])];
    }
    assert parts[..|parts|] == parts;
    text := Join(quoted, " ");
  }

  // ----- The stdio command scanner --------------------------------------------------------------

  datatype Mode = Plain | Single | Double | Escaped(inDouble: bool)

  datatype Scan = Scan(args: seq<string>, word: string, mode: Mode)

  const START := Scan([], "", Plain)

  function Flush(s: Scan): Scan {
    if s.word == "" then s else s.(args := s.args + [s.word], word := "")
  }

  function Emit(s: Scan, c: char): Scan {
    s.(word := s.word + [c])
  }

  function StepArgv(s: Scan, c: char): Scan {
    match s.mode
    case Escaped(inDouble) => Emit(s, c).(mode := if inDouble then Double else Plain)
    case Single => if c == '\'' then s.(mode := Plain) else Emit(s, c)
    case Double =>
      if c == '\\' then s.(mode := Escaped(true))
      else if c == '"' then s.(mode := Plain)
      else Emit(s, c)
    case Plain =>
      if c == '\\' then s.(mode := Escaped(false))
      else if c == '\'' then s.(mode := Single)
      else if c == '"' then s.(mode := Double)
      else if c == ' ' || c == '\t' || c == '\n' || c == '\r' then Flush(s)
      else Emit(s, c)
  }

  function RunArgv(s: Scan, text: string): Scan
    decreases |text|
  {
    if text == "" then s else RunArgv(StepArgv(s, text[0]), text[1..])
  }

  function FinishArgv(s: Scan): Result<seq<string>> {
    if s.mode.Escaped? then Err(UnterminatedEscape)
    else if s.mode != Plain then Err(UnterminatedQuote)
    else if Flush(s).args == [] then Err(CommandIsEmpty)
    else Ok(Flush(s).args)
  }

  /** What parseStdioCommandArgv returns. */
  function Argv(raw: string): Result<seq<string>> {
    var input := TrimSpace(raw);
    if input == "" then Err(CommandIsEmpty) else FinishArgv(RunArgv(START, input))
  }

  lemma RunArgvStep(s: Scan, input: string, i: nat)
    requires i < |input|
    ensures RunArgv(s, input[i..]) == RunArgv(StepArgv(s, input[i]), input[i + 1..])
  {
    assert input[i..][0] == input[i] && input[i..][1..] == input[i + 1..];
  }

  method ParseStdioCommandArgv(raw: string) returns (r: Result<seq<string>>)
    ensures r == Argv(raw)
  {
    var input := TrimSpace(raw);
    if input == "" {
      return Err(CommandIsEmpty);
    }
    var args: seq<string> := [];
    var builder := "";
    var inSingle, inDouble, escaped := false, false, false;
    ghost var s := START;
    for i := 0 to |input|
      invariant !(inSingle && inDouble) && !(inSingle && escaped)
      invariant s == Scan(args, builder,
                          if escaped then Escaped(inDouble)
                          else if inSingle then Single else if inDouble then Double else Plain)
      invariant RunArgv(START, input) == RunArgv(s, input[i..])
    {
      var ch := input[i];
      RunArgvStep(s, input, i);
      s := StepArgv(s, ch);
      if escaped {
        builder := builder + [ch];
        escaped := false;
      } else if inSingle {
        if ch == '\'' {
          inSingle := false;
        } else {
          builder := builder + [ch];
        }
      } else if inDouble {
        if ch == '\\' {
          escaped := true;
        } else if ch == '"' {
          inDouble := false;
        } else {
          builder := builder + [ch];
        }
      } else if ch == '\\' {
        escaped := true;
      } else if ch == '\'' {
        inSingle := true;
      } else if ch == '"' {
        inDouble := true;
      } else if ch == ' ' || ch == '\t' || ch == '\n' || ch == '\r' {
        if |builder| > 0 {
          args := args + [builder];
          builder := "";
        }
      } else {
        builder := builder + [ch];
      }
    }
    if escaped {
      return Err(UnterminatedEscape);
    }
    if inSingle || inDouble {
      return Err(UnterminatedQuote);
    }
    if |builder| > 0 {
      args := args + [builder];
    }
    if |args| == 0 {
      return Err(CommandIsEmpty);
    }
    return Ok(args);
  }

  // ----- The profile editor scanner -------------------------------------------------------------

  datatype Editor = Editor(parts: seq<string>, part: string, mode: Mode, started: bool) | Refused

  const OPEN := Editor([], "", Plain, false)

  predicate IsControl(c: char) {
    c == '\0' || c == '\n' || c == '\r'
  }

  function Put(e: Editor, c: char, mode: Mode): Editor
    requires e.Editor?
  {
    e.(part := e.part + [c], mode := mode, started := true)
  }

  function StepEditor(e: Editor, c: char, windows: bool): Editor {
    if e.Refused? || IsControl(c) then Refused
    else if e.mode.Escaped? then Put(e, c, if e.mode.inDouble then Double else Plain)
    else if c == '\\' && e.mode != Single && !windows then e.(mode := Escaped(e.mode == Double))
    else if e.mode == Single then (if c == '\'' then e.(mode := Plain) else e.(part := e.part + [c]))
    else if e.mode == Double then (if c == '"' then e.(mode := Plain) else e.(part := e.part + [c]))
    else if c == '\'' then e.(mode := Single, started := true)
    else if c == '"' then e.(mode := Double, started := true)
    else if c == ' ' || c == '\t' then
      (if e.started then Editor(e.parts + [e.part], "", Plain, false) else e)
    else Put(e, c, Plain)
  }

  function RunEditor(e: Editor, text: string, windows: bool): Editor
    decreases |text|
  {
    if text == "" then e else RunEditor(StepEditor(e, text[0], windows), text[1..], windows)
  }

  function FinishEditor(e: Editor): Result<seq<string>> {
    if e.Refused? then Err(ControlCharacter)
    else if e.mode.Escaped? then Err(UnterminatedEscape)
    else if e.mode != Plain then Err(UnterminatedQuote)
    else
      var parts := if e.started then e.parts + [e.part] else e.parts;
      if parts == [] || parts[0] == "" then Err(ExecutableRequired) else Ok(parts)
  }

  /** What splitProfileEditor returns. */
  function EditorArgv(value: string, windows: bool): Result<seq<string>> {
    FinishEditor(RunEditor(OPEN, value, windows))
  }

  lemma {:induction false} RefusedStays(text: string, windows: bool)
    ensures RunEditor(Refused, text, windows) == Refused
  {
    if text != "" {
      RefusedStays(text[1..], windows);
    }
  }

  lemma RunEditorStep(e: Editor, value: string, i: nat, windows: bool)
    requires i < |value|
    ensures RunEditor(e, value[i..], windows) == RunEditor(StepEditor(e, value[i], windows), value[i + 1..], windows)
  {
    assert value[i..][0] == value[i] && value[i..][1..] == value[i + 1..];
  }

  method SplitProfileEditor(value: string, windows: bool) returns (r: Result<seq<string>>)
    ensures r == EditorArgv(value, windows)
  {
    var parts: seq<string> := [];
    var part := "";
    var quote: Mode := Plain;
    var started := false;
    var i := 0;
    while i < |value|
      invariant 0 <= i <= |value| && !quote.Escaped?
      invariant RunEditor(OPEN, value, windows) == RunEditor(Editor(parts, part, quote, started), value[i..], windows)
    {
      var ch := value[i];
      RunEditorStep(Editor(parts, part, quote, started), value, i, windows);
      if ch == '\0' || ch == '\n' || ch == '\r' {
        RefusedStays(value[i + 1..], windows);
        return Err(ControlCharacter);
      }
      if ch == '\\' && quote != Single && !windows {
        i := i + 1;
        if i == |value| {
          return Err(UnterminatedEscape);
        }
        RunEditorStep(Editor(parts, part, Escaped(quote == Double), started), value, i, windows);
        if value[i] == '\0' || value[i] == '\n' || value[i] == '\r' {
          RefusedStays(value[i + 1..], windows);
          return Err(ControlCharacter);
        }
        part := part + [value[i]];
        started := true;
      } else if quote != Plain {
        if (ch == '\'' && quote == Single) || (ch == '"' && quote == Double) {
          quote := Plain;
        } else {
          part := part + [ch];
        }
      } else if ch == '\'' || ch == '"' {
        quote := if ch == '\'' then Single else Double;
        started := true;
      } else if ch == ' ' || ch == '\t' {
        if started {
          parts := parts + [part];
          part := "";
          started := false;
        }
      } else {
        part := part + [ch];
        started := true;
      }
      i := i + 1;
    }
    if quote != Plain {
      return Err(UnterminatedQuote);
    }
    if started {
      parts := parts + [part];
    }
    if |parts| == 0 || parts[0] == "" {
      return Err(ExecutableRequired);
    }
    return Ok(parts);
  }

  // ----- The stdio scanner undoes the quoter ----------------------------------------------------

  lemma {:induction false} RunArgvAppend(s: Scan, a: string, b: string)
    ensures RunArgv(s, a + b) == RunArgv(RunArgv(s, a), b)
    decreases |a|
  {
    if a == "" {
      assert a + b == b;
    } else {
      assert (a + b)[1..] == a[1..] + b;
      RunArgvAppend(StepArgv(s, a[0]), a[1..], b);
    }
  }

  lemma RunArgvOne(s: Scan, c: char)
    ensures RunArgv(s, [c]) == StepArgv(s, c)
  {
    assert [c][1..] == "";
  }

  /** The characters that mean something to the scanner outside quotes. */
  predicate IsSpecial(c: char) {
    c == '\\' || c == '\'' || c == '"' || c == ' ' || c == '\t' || c == '\n' || c == '\r'
  }

  predicate Ordinary(s: string) {
    forall i :: 0 <= i < |s| ==> !IsSpecial(s[i])
  }

  lemma {:induction false} RunOrdinary(s: Scan, text: string)
    requires s.mode == Plain && Ordinary(text)
    ensures RunArgv(s, text) == s.(word := s.word + text)
    decreases |text|
  {
    if text == "" {
      assert s.word + text == s.word;
    } else {
      RunOrdinary(StepArgv(s, text[0]), text[1..]);
      assert s.word + [text[0]] + text[1..] == s.word + text;
    }
  }

  lemma EscapeCharReads(s: Scan, c: char)
    requires s.mode == Single
    ensures RunArgv(s, EscapeChar(c)) == Emit(s, c)
  {
    if c == '\'' {
      var t := EscapeChar(c);
      assert t[1..] == "\"'\"'" && t[1..][1..] == "'\"'" && t[1..][1..][1..] == "\"'" && t[1..][1..][1..][1..] == "'";
      var s1 := s.(mode := Plain);
      var s2 := s.(mode := Double);
      assert StepArgv(s, '\'') == s1 && StepArgv(s1, '"') == s2;
      var s3 := Emit(s2, c);
      assert RunArgv(s2, "'\"'") == RunArgv(s3, "\"'");
      assert RunArgv(s3, "\"'") == RunArgv(s3.(mode := Plain), "'");
      RunArgvOne(s3.(mode := Plain), '\'');
    } else {
      RunArgvOne(s, c);
    }
  }

  lemma {:induction false} RunQuoted(s: Scan, text: string)
    requires s.mode == Single
    ensures RunArgv(s, FlatMap(EscapeChar, text)) == s.(word := s.word + text)
  {
    if text == "" {
      assert s.word + text == s.word;
    } else {
      var init, last := text[..|text| - 1], text[|text| - 1];
      RunQuoted(s, init);
      RunArgvAppend(s, FlatMap(EscapeChar, init), EscapeChar(last));
      EscapeCharReads(s.(word := s.word + init), last);
      LastSplit(text);
      assert s.word + init + [last] == s.word + text;
    }
  }

  lemma SafeIsOrdinary(s: string)
    requires IsSafe(s)
    ensures Ordinary(s)
  {
  }

  /** Everything but a placeholder with a character that the scanner interprets. */
  predicate Readable(part: string) {
    IsPlaceholder(part) ==> Ordinary(part)
  }

  /** Reading one quoted part appends exactly that part. */
  lemma ReadsQuoted(s: Scan, part: string)
    requires s.mode == Plain && Readable(part)
    ensures RunArgv(s, Quote(part)) == s.(word := s.word + part)
  {
    if IsPlaceholder(part) {
      RunOrdinary(s, part);
    } else if part != "" && IsSafe(part) {
      SafeIsOrdinary(part);
      RunOrdinary(s, part);
    } else {
      var body := FlatMap(EscapeChar, part);
      var s1 := s.(mode := Single);
      assert Quote(part) == "'" + body + "'";
      RunArgvAppend(s, "'" + body, "'");
      RunArgvAppend(s, "'", body);
      RunArgvOne(s, '\'');
      RunQuoted(s1, part);
      RunArgvOne(s1.(word := s1.word + part), '\'');
    }
  }

  ghost predicate Quotable(parts: seq<string>) {
    forall i :: 0 <= i < |parts| ==> !IsPlaceholder(parts[i])
  }

  ghost predicate NoneEmpty(parts: seq<string>) {
    forall i :: 0 <= i < |parts| ==> parts[i] != ""
  }

  lemma QuoteAllSnoc(parts: seq<string>)
    requires |parts| > 1
    ensures Join(QuoteAll(parts), " ") ==
              Join(QuoteAll(parts[..|parts| - 1]), " ") + " " + Quote(parts[|parts| - 1])
  {
    var quoted := QuoteAll(parts);
    assert quoted[..|quoted| - 1] == QuoteAll(parts[..|parts| - 1]);
    JoinSnoc(quoted, " ");
  }

  ghost predicate AllReadable(parts: seq<string>) {
    forall i :: 0 <= i < |parts| ==> Readable(parts[i])
  }

  lemma {:induction false} ReadsJoined(parts: seq<string>)
    requires parts != [] && AllReadable(parts) && NoneEmpty(parts)
    ensures RunArgv(START, Join(QuoteAll(parts), " ")) == Scan(parts[..|parts| - 1], parts[|parts| - 1], Plain)
  {
    var init, last := parts[..|parts| - 1], parts[|parts| - 1];
    if init == [] {
      assert QuoteAll(parts) == [Quote(last)];
      ReadsQuoted(START, last);
    } else {
      ReadsJoined(init);
      QuoteAllSnoc(parts);
      var text := Join(QuoteAll(init), " ");
      var s := Scan(init[..|init| - 1], init[|init| - 1], Plain);
      RunArgvAppend(START, text + " ", Quote(last));
      RunArgvAppend(START, text, " ");
      RunArgvOne(s, ' ');
      LastSplit(init);
      ReadsQuoted(Scan(init, "", Plain), last);
    }
  }

  lemma QuoteEdges(part: string)
    requires !IsPlaceholder(part)
    ensures Quote(part) != "" && Graphic(Quote(part)[0]) && Graphic(Quote(part)[|Quote(part)| - 1])
  {
  }

  lemma JoinEdges(parts: seq<string>)
    requires parts != [] && Quotable(parts)
    ensures var text := Join(QuoteAll(parts), " ");
            text != "" && Graphic(text[0]) && Graphic(text[|text| - 1])
  {
    var quoted := QuoteAll(parts);
    QuoteEdges(parts[0]);
    QuoteEdges(parts[|parts| - 1]);
    if |parts| > 1 {
      QuoteAllSnoc(parts);
    }
  }

  /** parseStdioCommandArgv undoes shellJoin on every non-empty list of non-empty parts without
      placeholders. */
  lemma ArgvUndoesJoin(parts: seq<string>)
    requires parts != [] && Quotable(parts) && NoneEmpty(parts)
    ensures Argv(Join(QuoteAll(parts), " ")) == Ok(parts)
  {
    JoinEdges(parts);
    NothingToTrim(Join(QuoteAll(parts), " "));
    ReadsJoined(parts);
    LastSplit(parts);
  }

  // ----- The editor scanner undoes the quoter ---------------------------------------------------

  lemma {:induction false} RunEditorAppend(e: Editor, a: string, b: string, windows: bool)
    ensures RunEditor(e, a + b, windows) == RunEditor(RunEditor(e, a, windows), b, windows)
    decreases |a|
  {
    if a == "" {
      assert a + b == b;
    } else {
      assert (a + b)[1..] == a[1..] + b;
      RunEditorAppend(StepEditor(e, a[0], windows), a[1..], b, windows);
    }
  }

  lemma RunEditorOne(e: Editor, c: char, windows: bool)
    ensures RunEditor(e, [c], windows) == StepEditor(e, c, windows)
  {
    assert [c][1..] == "";
  }

  ghost predicate NoControls(s: string) {
    forall i :: 0 <= i < |s| ==> !IsControl(s[i])
  }

  lemma {:induction false} EditorReadsSafe(e: Editor, text: string, windows: bool)
    requires e.Editor? && e.mode == Plain && IsSafe(text) && text != ""
    ensures RunEditor(e, text, windows) == e.(part := e.part + text, started := true)
    decreases |text|
  {
    var e' := StepEditor(e, text[0], windows);
    assert e' == Put(e, text[0], Plain);
    if |text| == 1 {
      assert text == [text[0]];
    } else {
      EditorReadsSafe(e', text[1..], windows);
      assert e.part + [text[0]] + text[1..] == e.part + text;
    }
  }

  lemma EditorReadsEscape(e: Editor, c: char, windows: bool)
    requires e.Editor? && e.mode == Single && e.started && !IsControl(c)
    ensures RunEditor(e, EscapeChar(c), windows) == e.(part := e.part + [c])
  {
    if c == '\'' {
      var t := EscapeChar(c);
      assert t[1..] == "\"'\"'" && t[1..][1..] == "'\"'" && t[1..][1..][1..] == "\"'" && t[1..][1..][1..][1..] == "'";
      var e1 := e.(mode := Plain);
      var e2 := e.(mode := Double);
      assert StepEditor(e, '\'', windows) == e1 && StepEditor(e1, '"', windows) == e2;
      var e3 := e2.(part := e2.part + [c]);
      assert RunEditor(e2, "'\"'", windows) == RunEditor(e3, "\"'", windows);
      assert RunEditor(e3, "\"'", windows) == RunEditor(e3.(mode := Plain), "'", windows);
      RunEditorOne(e3.(mode := Plain), '\'', windows);
    } else {
      RunEditorOne(e, c, windows);
    }
  }

  lemma {:induction false} EditorReadsEscaped(e: Editor, text: string, windows: bool)
    requires e.Editor? && e.mode == Single && e.started && NoControls(text)
    ensures RunEditor(e, FlatMap(EscapeChar, text), windows) == e.(part := e.part + text)
  {
    if text == "" {
      assert e.part + text == e.part;
    } else {
      var init, last := text[..|text| - 1], text[|text| - 1];
      EditorReadsEscaped(e, init, windows);
      RunEditorAppend(e, FlatMap(EscapeChar, init), EscapeChar(last), windows);
      EditorReadsEscape(e.(part := e.part + init), last, windows);
      LastSplit(text);
      assert e.part + init + [last] == e.part + text;
    }
  }

  lemma EditorReadsQuoted(e: Editor, part: string, windows: bool)
    requires e.Editor? && e.mode == Plain && !IsPlaceholder(part) && NoControls(part)
    ensures RunEditor(e, Quote(part), windows) == e.(part := e.part + part, started := true)
  {
    if part != "" && IsSafe(part) {
      EditorReadsSafe(e, part, windows);
    } else {
      var body := FlatMap(EscapeChar, part);
      var e1 := e.(mode := Single, started := true);
      assert Quote(part) == "'" + body + "'";
      RunEditorAppend(e, "'" + body, "'", windows);
      RunEditorAppend(e, "'", body, windows);
      RunEditorOne(e, '\'', windows);
      EditorReadsEscaped(e1, part, windows);
      RunEditorOne(e1.(part := e1.part + part), '\'', windows);
    }
  }

  ghost predicate Clean(parts: seq<string>) {
    forall i :: 0 <= i < |parts| ==> NoControls(parts[i])
  }

  lemma EditorFinishes(text: string, parts: seq<string>, windows: bool)
    requires parts != [] && parts[0] != ""
    requires RunEditor(OPEN, text, windows) == Editor(parts[..|parts| - 1], parts[|parts| - 1], Plain, true)
    ensures EditorArgv(text, windows) == Ok(parts)
  {
    LastSplit(parts);
  }

  // ----- The two scanners agree -----------------------------------------------------------------

  ghost function KeepWord(w: string): seq<string> {
    if w == "" then [] else [w]
  }

  ghost function Kept(parts: seq<string>): seq<string> {
    FlatMap(KeepWord, parts)
  }

  /** Both scanners at the same place: same mode and word, empty parts dropped on one side. */
  ghost predicate InStep(e: Editor, s: Scan) {
    && e.Editor? && s.mode == e.mode && s.word == e.part && s.args == Kept(e.parts)
    && (!e.started ==> e.part == "" && (e.mode == Plain || e.mode == Escaped(false)))
  }

  lemma FlushesAgree(e: Editor, s: Scan)
    requires InStep(e, s) && e.mode == Plain
    ensures InStep(if e.started then Editor(e.parts + [e.part], "", Plain, false) else e, Flush(s))
  {
    FlatMapSnoc(KeepWord, e.parts, e.part);
  }

  lemma StepsAgree(e: Editor, s: Scan, c: char)
    requires InStep(e, s) && !IsControl(c)
    ensures InStep(StepEditor(e, c, false), StepArgv(s, c))
  {
    if e.mode == Plain && (c == ' ' || c == '\t') {
      FlushesAgree(e, s);
    }
  }

  lemma {:induction false} RunsAgree(e: Editor, s: Scan, text: string)
    requires InStep(e, s) && RunEditor(e, text, false).Editor?
    ensures InStep(RunEditor(e, text, false), RunArgv(s, text))
    decreases |text|
  {
    if text != "" {
      if IsControl(text[0]) {
        RefusedStays(text[1..], false);
      } else {
        StepsAgree(e, s, text[0]);
        RunsAgree(StepEditor(e, text[0], false), StepArgv(s, text[0]), text[1..]);
      }
    }
  }

  lemma {:induction false} KeptFirst(parts: seq<string>)
    requires parts != [] && parts[0] != ""
    ensures Kept(parts) != []
  {
    if |parts| > 1 {
      KeptFirst(parts[..|parts| - 1]);
    }
  }

  lemma FinishesAgree(e: Editor, s: Scan)
    requires InStep(e, s) && FinishEditor(e).Ok?
    ensures FinishArgv(s) == Ok(Kept(FinishEditor(e).value))
  {
    KeptFirst(FinishEditor(e).value);
    if e.started {
      FlatMapSnoc(KeepWord, e.parts, e.part);
      assert Kept(e.parts) + [] == Kept(e.parts);
    }
  }

  /** Off Windows, on text with no surrounding white space, whenever splitProfileEditor succeeds
      parseStdioCommandArgv returns the same arguments without the empty ones. */
  lemma ScannersAgree(value: string)
    requires TrimSpace(value) == value && EditorArgv(value, false).Ok?
    ensures Argv(value) == Ok(Kept(EditorArgv(value, false).value))
  {
    RunsAgree(OPEN, START, value);
    FinishesAgree(RunEditor(OPEN, value, false), RunArgv(START, value));
  }

  /** Surrounding white space does matter: an escaped trailing space belongs to the argument for one
      scanner and is an unterminated escape for the other. */
  lemma TrailingEscapeDiffers(c: char)
    requires IsSafeChar(c)
    ensures var value := [c, '\\', ' '];
            EditorArgv(value, false) == Ok([[c, ' ']]) && Argv(value).Err?
  {
    var value := [c, '\\', ' '];
    EditorSees(c);
    assert [] + [[c, ' ']] == [[c, ' ']];
    TrimsToTwo(c);
    ArgvSees(c);
  }

  lemma ArgvSees(c: char)
    requires IsSafeChar(c)
    ensures RunArgv(START, [c, '\\']) == Scan([], [c], Escaped(false))
  {
    assert [c, '\\'][1..] == ['\\'];
    assert StepArgv(START, c) == Scan([], [c], Plain);
    RunArgvOne(Scan([], [c], Plain), '\\');
  }

  lemma EditorSees(c: char)
    requires IsSafeChar(c)
    ensures RunEditor(OPEN, [c, '\\', ' '], false) == Editor([], [c, ' '], Plain, true)
  {
    var value := [c, '\\', ' '];
    var e1 := Editor([], [c], Plain, true);
    assert value[1..] == ['\\', ' '] && ['\\', ' '][1..] == [' '];
    assert StepEditor(OPEN, c, false) == e1;
    RunEditorOne(e1.(mode := Escaped(false)), ' ', false);
  }

  lemma TrimsToTwo(c: char)
    requires IsSafeChar(c)
    ensures TrimSpace([c, '\\', ' ']) == [c, '\\']
  {
    var value := [c, '\\', ' '];
    assert TrimSpaceLeft(value) == value;
    assert TrailingSpace(value) == 1;
    var rest := [c, '\\'];
    assert value[..2] == rest;
    assert TrailingSpace(rest) == 0 && TrimSpaceRight(rest) == rest;
    assert TrimSpaceRight(value) == TrimSpaceRight(rest);
  }
}
