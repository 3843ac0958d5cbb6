/** The language that the two argv scanners read (cmd/client/stdio_preflight.go, cmd/client/profile_editor.go), as a
    grammar: blanks, bare and escaped characters, single and double quotes. A scanner succeeds exactly on the texts of
    the grammar, and returns what their words mean.
 */
module ShellGrammar {
  import opened Text
  import opened ShellWords

  // ----- Tokens ---------------------------------------------------------------------------------

  /** A character between double quotes. */
  datatype Item = Lit(c: char) | Esc(c: char)

  datatype Token =
    | Gap(c: char)              // a blank between words
    | Bare(c: char)
    | Escape(c: char)           // after a backslash
    | Quoted(text: string)      // between single quotes
    | Doubled(items: seq<Item>)

  /** What distinguishes the scanners: which characters separate words, and whether a backslash escapes. */
  datatype Dialect = Dialect(gaps: string, escapes: bool)

  const STDIO := Dialect(" \t\n\r", true)

  function EditorDialect(windows: bool): Dialect {
    Dialect(" \t", !windows)
  }

  predicate IsEscape(d: Dialect, c: char) {
    d.escapes && c == '\\'
  }

  predicate IsItem(d: Dialect, i: Item) {
    match i
    case Lit(c) => c != '"' && !IsEscape(d, c)
    case Esc(_) => d.escapes
  }

  ghost predicate IsToken(d: Dialect, t: Token) {
    match t
    case Gap(c) => c in d.gaps
    case Bare(c) => c !in d.gaps && c != '\'' && c != '"' && !IsEscape(d, c)
    case Escape(_) => d.escapes
    case Quoted(text) => '\'' !in text
    case Doubled(items) => forall i :: 0 <= i < |items| ==> IsItem(d, items[i])
  }

  ghost predicate AllTokens(d: Dialect, ts: seq<Token>) {
    forall i :: 0 <= i < |ts| ==> IsToken(d, ts[i])
  }

  // ----- How tokens are written -----------------------------------------------------------------

  function SpellItems(items: seq<Item>): string {
    if items == [] then ""
    else SpellItems(items[..|items| - 1]) + SpellItem(items[|items| - 1])
  }

  function SpellItem(i: Item): string {
    if i.Lit? then [i.c] else ['\\', i.c]
  }

  function SpellToken(t: Token): string {
    match t
    case Gap(c) => [c]
    case Bare(c) => [c]
    case Escape(c) => ['\\', c]
    case Quoted(text) => ['\''] + text + ['\'']
    case Doubled(items) => ['"'] + SpellItems(items) + ['"']
  }

  function Spell(ts: seq<Token>): string {
    if ts == [] then "" else Spell(ts[..|ts| - 1]) + SpellToken(ts[|ts| - 1])
  }

  // ----- What they mean -------------------------------------------------------------------------

  function ItemText(items: seq<Item>): string {
    if items == [] then "" else ItemText(items[..|items| - 1]) + [items[|items| - 1].c]
  }

  function TokenText(t: Token): string {
    match t
    case Gap(_) => ""
    case Bare(c) => [c]
    case Escape(c) => [c]
    case Quoted(text) => text
    case Doubled(items) => ItemText(items)
  }

  function WordText(word: seq<Token>): string {
    if word == [] then "" else WordText(word[..|word| - 1]) + TokenText(word[|word| - 1])
  }

  /** The runs of tokens between gaps, empty ones included. */
  function Words(ts: seq<Token>): (r: seq<seq<Token>>)
    ensures r != []
  {
    if ts == [] then [[]]
    else
      var words, t := Words(ts[..|ts| - 1]), ts[|ts| - 1];
      if t.Gap? then words + [[]]
      else words[..|words| - 1] + [words[|words| - 1] + [t]]
  }

  /** The stdio scanner keeps the words that mean something. */
  function Meaningful(word: seq<Token>): seq<string> {
    if WordText(word) == "" then [] else [WordText(word)]
  }

  /** The editor scanner keeps the words that are written down, be it as empty quotes. */
  function Written(word: seq<Token>): seq<string> {
    if word == [] then [] else [WordText(word)]
  }

  lemma WordsSnoc(ts: seq<Token>, t: Token)
    ensures var words := Words(ts);
            Words(ts + [t]) == if t.Gap? then words + [[]] else words[..|words| - 1] + [words[|words| - 1] + [t]]
  {
    assert (ts + [t])[..|ts|] == ts;
  }

  lemma SpellSnoc(ts: seq<Token>, t: Token)
    ensures Spell(ts + [t]) == Spell(ts) + SpellToken(t)
  {
    assert (ts + [t])[..|ts|] == ts;
  }

  lemma WordTextSnoc(word: seq<Token>, t: Token)
    ensures WordText(word + [t]) == WordText(word) + TokenText(t)
  {
    assert (word + [t])[..|word|] == word;
  }

  // ----- The stdio scanner on one token ---------------------------------------------------------

  lemma {:induction false} ScanQuoted(s: Scan, text: string)
    requires s.mode == Single && '\'' !in text
    ensures RunArgv(s, text) == s.(word := s.word + text)
    decreases |text|
  {
    if text == "" {
      assert s.word + text == s.word;
    } else {
      ScanQuoted(Emit(s, text[0]), text[1..]);
      assert text == [text[0]] + text[1..];
      assert s.word + [text[0]] + text[1..] == s.word + text;
    }
  }

  lemma RunTwo(s: Scan, a: char, b: char)
    ensures RunArgv(s, [a, b]) == StepArgv(StepArgv(s, a), b)
  {
    RunOne(StepArgv(s, a), b);
    assert [a, b][1..] == [b];
  }

  lemma RunOne(s: Scan, a: char)
    ensures RunArgv(s, [a]) == StepArgv(s, a)
  {
    assert [a][1..] == "";
  }

  lemma {:induction false} ScanItems(s: Scan, items: seq<Item>)
    requires s.mode == Double && forall i :: 0 <= i < |items| ==> IsItem(STDIO, items[i])
    ensures RunArgv(s, SpellItems(items)) == s.(word := s.word + ItemText(items))
  {
    if items == [] {
      assert s.word + "" == s.word;
    } else {
      var init, last := items[..|items| - 1], items[|items| - 1];
      ScanItems(s, init);
      RunArgvAppend(s, SpellItems(init), SpellItem(last));
      var mid := s.(word := s.word + ItemText(init));
      assert IsItem(STDIO, last);
      if last.Lit? {
        RunOne(mid, last.c);
      } else {
        RunTwo(mid, '\\', last.c);
      }
      assert s.word + ItemText(init) + [last.c] == s.word + ItemText(items);
    }
  }

  lemma ScanSingle(s: Scan, text: string)
    requires s.mode == Plain && '\'' !in text
    ensures RunArgv(s, ['\''] + text + ['\'']) == s.(word := s.word + text)
  {
    RunArgvAppend(s, ['\''] + text, ['\'']);
    RunArgvAppend(s, ['\''], text);
    RunOne(s, '\'');
    ScanQuoted(s.(mode := Single), text);
    RunOne(s.(mode := Single, word := s.word + text), '\'');
  }

  lemma ScanDouble(s: Scan, items: seq<Item>)
    requires s.mode == Plain && forall i :: 0 <= i < |items| ==> IsItem(STDIO, items[i])
    ensures RunArgv(s, ['"'] + SpellItems(items) + ['"']) == s.(word := s.word + ItemText(items))
  {
    RunArgvAppend(s, ['"'] + SpellItems(items), ['"']);
    RunArgvAppend(s, ['"'], SpellItems(items));
    RunOne(s, '"');
    ScanItems(s.(mode := Double), items);
    RunOne(s.(mode := Double, word := s.word + ItemText(items)), '"');
  }

  lemma ScanToken(s: Scan, t: Token)
    requires s.mode == Plain && IsToken(STDIO, t)
    ensures RunArgv(s, SpellToken(t)) == if t.Gap? then Flush(s) else s.(word := s.word + TokenText(t))
  {
    match t
    case Gap(c) => RunOne(s, c);
    case Bare(c) => RunOne(s, c);
    case Escape(c) => RunTwo(s, '\\', c);
    case Quoted(text) => ScanSingle(s, text);
    case Doubled(items) => ScanDouble(s, items);
  }

  /** After any tokens: the arguments of the words so far, and the text of the last one. */
  function ScanOf(ts: seq<Token>): Scan {
    var words := Words(ts);
    Scan(FlatMap(Meaningful, words[..|words| - 1]), WordText(words[|words| - 1]), Plain)
  }

  lemma {:induction false} ScanTokens(ts: seq<Token>)
    requires AllTokens(STDIO, ts)
    ensures RunArgv(START, Spell(ts)) == ScanOf(ts)
  {
    if ts != [] {
      var init, t := ts[..|ts| - 1], ts[|ts| - 1];
      assert ts == init + [t];
      ScanTokens(init);
      SpellSnoc(init, t);
      RunArgvAppend(START, Spell(init), SpellToken(t));
      ScanToken(ScanOf(init), t);
      ScanOfSnoc(init, t);
    }
  }

  lemma ScanOfGap(ts: seq<Token>, t: Token)
    requires t.Gap?
    ensures ScanOf(ts + [t]) == Flush(ScanOf(ts))
  {
    var words := Words(ts);
    var init, last := words[..|words| - 1], words[|words| - 1];
    WordsSnoc(ts, t);
    assert (words + [[]])[..|words|] == words && words == init + [last];
    FlatMapSnoc(Meaningful, init, last);
  }

  lemma ScanOfMore(ts: seq<Token>, t: Token)
    requires !t.Gap?
    ensures ScanOf(ts + [t]) == ScanOf(ts).(word := ScanOf(ts).word + TokenText(t))
  {
    var words := Words(ts);
    var init, last := words[..|words| - 1], words[|words| - 1];
    var more := init + [last + [t]];
    WordsSnoc(ts, t);
    assert more[..|more| - 1] == init;
    WordTextSnoc(last, t);
  }

  lemma ScanOfSnoc(ts: seq<Token>, t: Token)
    ensures ScanOf(ts + [t]) ==
              if t.Gap? then Flush(ScanOf(ts)) else ScanOf(ts).(word := ScanOf(ts).word + TokenText(t))
  {
    if t.Gap? {
      ScanOfGap(ts, t);
    } else {
      ScanOfMore(ts, t);
    }
  }

  lemma FinishPlain(s: Scan)
    requires s.mode == Plain
    ensures var args := s.args + if s.word == "" then [] else [s.word];
            FinishArgv(s) == if args == [] then Err(CommandIsEmpty) else Ok(args)
  {
    assert s.args + [] == s.args;
  }

  lemma LastWord(ts: seq<Token>)
    ensures FlatMap(Meaningful, Words(ts)) == ScanOf(ts).args + if ScanOf(ts).word == "" then [] else [ScanOf(ts).word]
  {
    var words := Words(ts);
    FlatMapSnoc(Meaningful, words[..|words| - 1], words[|words| - 1]);
    assert words == words[..|words| - 1] + [words[|words| - 1]];
  }

  /** Every text of the grammar is read as the words that mean something. */
  lemma GrammarIsRead(ts: seq<Token>)
    requires AllTokens(STDIO, ts)
    ensures var args := FlatMap(Meaningful, Words(ts));
            FinishArgv(RunArgv(START, Spell(ts))) == if args == [] then Err(CommandIsEmpty) else Ok(args)
  {
    ScanTokens(ts);
    FinishPlain(ScanOf(ts));
    LastWord(ts);
  }

  // ----- Every text has a reading ---------------------------------------------------------------

  /** What may be left at the end of a text: a token that is not finished. */
  datatype Rest =
    | Nothing
    | OpenEscape
    | OpenSingle(text: string)
    | OpenDouble(items: seq<Item>, escape: bool)

  ghost predicate IsRest(d: Dialect, r: Rest) {
    match r
    case Nothing => true
    case OpenEscape => d.escapes
    case OpenSingle(text) => '\'' !in text
    case OpenDouble(items, escape) =>
      (escape ==> d.escapes) && forall i :: 0 <= i < |items| ==> IsItem(d, items[i])
  }

  function SpellRest(r: Rest): string {
    match r
    case Nothing => ""
    case OpenEscape => ['\\']
    case OpenSingle(text) => ['\''] + text
    case OpenDouble(items, escape) => ['"'] + SpellItems(items) + if escape then ['\\'] else ""
  }

  lemma SpellItemsSnoc(items: seq<Item>, i: Item)
    ensures SpellItems(items + [i]) == SpellItems(items) + SpellItem(i)
  {
    assert (items + [i])[..|items|] == items;
  }

  /** One more character, after a reading with this rest. */
  function NextToken(d: Dialect, r: Rest, c: char): seq<Token> {
    match r
    case Nothing =>
      if IsEscape(d, c) || c == '\'' || c == '"' then [] else if c in d.gaps then [Gap(c)] else [Bare(c)]
    case OpenEscape => [Escape(c)]
    case OpenSingle(text) => if c == '\'' then [Quoted(text)] else []
    case OpenDouble(items, escape) => if !escape && c == '"' then [Doubled(items)] else []
  }

  function NextRest(d: Dialect, r: Rest, c: char): Rest {
    match r
    case Nothing =>
      if c in d.gaps then Nothing
      else if IsEscape(d, c) then OpenEscape
      else if c == '\'' then OpenSingle("")
      else if c == '"' then OpenDouble([], false)
      else Nothing
    case OpenEscape => Nothing
    case OpenSingle(text) => if c == '\'' then Nothing else OpenSingle(text + [c])
    case OpenDouble(items, escape) =>
      if escape then OpenDouble(items + [Esc(c)], false)
      else if c == '"' then Nothing
      else if IsEscape(d, c) then OpenDouble(items, true)
      else OpenDouble(items + [Lit(c)], false)
  }

  /** Quotes and the backslash are not gaps. */
  predicate Proper(d: Dialect) {
    '\'' !in d.gaps && '"' !in d.gaps && '\\' !in d.gaps
  }

  lemma NextIsValid(d: Dialect, r: Rest, c: char)
    requires Proper(d) && IsRest(d, r)
    ensures AllTokens(d, NextToken(d, r, c)) && IsRest(d, NextRest(d, r, c))
  {
    if r.OpenDouble? {
      var items := r.items;
      assert forall i, x :: 0 <= i < |items| ==> (items + [x])[i] == items[i];
    }
  }

  lemma SpellOne(t: Token)
    ensures Spell([t]) == SpellToken(t)
  {
    assert [t][..0] == [];
  }

  lemma NextSpellsPlain(d: Dialect, c: char)
    requires Proper(d)
    ensures Spell(NextToken(d, Nothing, c)) + SpellRest(NextRest(d, Nothing, c)) == [c]
  {
    SpellOne(Gap(c));
    SpellOne(Bare(c));
  }

  lemma NextSpellsEscaped(d: Dialect, items: seq<Item>, c: char)
    ensures var r := OpenDouble(items, true);
            Spell(NextToken(d, r, c)) + SpellRest(NextRest(d, r, c)) == SpellRest(r) + [c]
  {
    SpellItemsSnoc(items, Esc(c));
    assert ['"'] + (SpellItems(items) + ['\\', c]) + "" == ['"'] + SpellItems(items) + ['\\'] + [c];
  }

  lemma NextSpellsInside(d: Dialect, items: seq<Item>, c: char)
    ensures var r := OpenDouble(items, false);
            Spell(NextToken(d, r, c)) + SpellRest(NextRest(d, r, c)) == SpellRest(r) + [c]
  {
    var front := ['"'] + SpellItems(items);
    assert front + "" == front;
    if c == '"' {
      SpellOne(Doubled(items));
    } else if !IsEscape(d, c) {
      SpellItemsSnoc(items, Lit(c));
      assert ['"'] + (SpellItems(items) + [c]) + "" == front + [c];
    }
  }

  lemma NextSpells(d: Dialect, r: Rest, c: char)
    requires Proper(d)
    ensures Spell(NextToken(d, r, c)) + SpellRest(NextRest(d, r, c)) == SpellRest(r) + [c]
  {
    match r
    case Nothing => NextSpellsPlain(d, c);
    case OpenEscape => SpellOne(Escape(c));
    case OpenSingle(text) => SpellOne(Quoted(text));
    case OpenDouble(items, escape) =>
      if escape {
        NextSpellsEscaped(d, items, c);
      } else {
        NextSpellsInside(d, items, c);
      }
  }

  lemma Regroup(a: string, b: string, c: string)
    ensures a + (b + c) == a + b + c
  {
  }

  lemma SpellAppend(a: seq<Token>, b: seq<Token>)
    requires |b| <= 1
    ensures Spell(a + b) == Spell(a) + Spell(b)
  {
    if b == [] {
      assert a + b == a;
    } else {
      assert b == [b[0]];
      SpellSnoc(a, b[0]);
      SpellOne(b[0]);
    }
  }

  /** The text is spelt by these tokens of the grammar, and at most one that is not finished. */
  ghost predicate Reads(d: Dialect, text: string, ts: seq<Token>, r: Rest) {
    AllTokens(d, ts) && IsRest(d, r) && text == Spell(ts) + SpellRest(r)
  }

  lemma ReadsMore(d: Dialect, text: string, ts: seq<Token>, r: Rest, c: char)
    requires Proper(d) && Reads(d, text, ts, r)
    ensures Reads(d, text + [c], ts + NextToken(d, r, c), NextRest(d, r, c))
  {
    NextIsValid(d, r, c);
    OneMoreReads(d, ts, r, c);
    MoreTokens(d, ts, NextToken(d, r, c));
  }

  lemma MoreTokens(d: Dialect, a: seq<Token>, b: seq<Token>)
    requires AllTokens(d, a) && AllTokens(d, b)
    ensures AllTokens(d, a + b)
  {
  }

  /** Every text is spelt by tokens of the grammar and at most one token that is not finished. */
  lemma {:induction false} EveryTextReads(d: Dialect, text: string) returns (ts: seq<Token>, r: Rest)
    requires Proper(d)
    ensures Reads(d, text, ts, r)
  {
    if text == "" {
      ts, r := [], Nothing;
    } else {
      var before, open := EveryTextReads(d, text[..|text| - 1]);
      var c := text[|text| - 1];
      ts, r := before + NextToken(d, open, c), NextRest(d, open, c);
      ReadsMore(d, text[..|text| - 1], before, open, c);
      LastSplit(text);
    }
  }

  lemma OneMoreReads(d: Dialect, before: seq<Token>, open: Rest, c: char)
    requires Proper(d)
    ensures Spell(before + NextToken(d, open, c)) + SpellRest(NextRest(d, open, c)) ==
              Spell(before) + SpellRest(open) + [c]
  {
    NextSpells(d, open, c);
    SpellAppend(before, NextToken(d, open, c));
    Regroup(Spell(before), Spell(NextToken(d, open, c)), SpellRest(NextRest(d, open, c)));
    Regroup(Spell(before), SpellRest(open), [c]);
  }

  // ----- Unfinished tokens ----------------------------------------------------------------------

  lemma ScanRest(s: Scan, r: Rest)
    requires s.mode == Plain && IsRest(STDIO, r) && r != Nothing
    ensures RunArgv(s, SpellRest(r)).mode ==
              match r
              case OpenSingle(_) => Single
              case OpenDouble(_, escape) => if escape then Escaped(true) else Double
              case _ => Escaped(false)
  {
    match r
    case OpenEscape => RunOne(s, '\\');
    case OpenSingle(text) =>
      RunArgvAppend(s, ['\''], text);
      RunOne(s, '\'');
      ScanQuoted(s.(mode := Single), text);
    case OpenDouble(items, escape) =>
      var inside := s.(mode := Double, word := s.word + ItemText(items));
      RunArgvAppend(s, ['"'], SpellItems(items));
      RunOne(s, '"');
      ScanItems(s.(mode := Double), items);
      if escape {
        RunArgvAppend(s, ['"'] + SpellItems(items), ['\\']);
        RunOne(inside, '\\');
      } else {
        assert SpellRest(r) == ['"'] + SpellItems(items);
      }
  }

  predicate EndsInEscape(r: Rest) {
    r.OpenEscape? || (r.OpenDouble? && r.escape)
  }

  /** For every command: its trimmed text is spelt by tokens, and the scanner returns the words that mean something, or
      says which kind of token is not finished, or that there is no word. */
  lemma StdioReads(raw: string) returns (ts: seq<Token>, r: Rest)
    ensures AllTokens(STDIO, ts) && IsRest(STDIO, r) && TrimSpace(raw) == Spell(ts) + SpellRest(r)
    ensures var args := FlatMap(Meaningful, Words(ts));
            Argv(raw) == if EndsInEscape(r) then Err(UnterminatedEscape)
                         else if r != Nothing then Err(UnterminatedQuote)
                         else if args == [] then Err(CommandIsEmpty)
                         else Ok(args)
  {
    var text := TrimSpace(raw);
    ts, r := EveryTextReads(STDIO, text);
    if r == Nothing {
      assert text == Spell(ts);
      GrammarIsRead(ts);
      if text == "" {
        EmptyText(ts);
      }
    } else {
      UnfinishedIsRefused(ts, r);
      assert text != "";
    }
  }

  lemma UnfinishedIsRefused(ts: seq<Token>, r: Rest)
    requires AllTokens(STDIO, ts) && IsRest(STDIO, r) && r != Nothing
    ensures FinishArgv(RunArgv(START, Spell(ts) + SpellRest(r))) ==
              if EndsInEscape(r) then Err(UnterminatedEscape) else Err(UnterminatedQuote)
    ensures Spell(ts) + SpellRest(r) != ""
  {
    ScanTokens(ts);
    RunArgvAppend(START, Spell(ts), SpellRest(r));
    ScanRest(ScanOf(ts), r);
  }

  lemma SpellNotEmpty(ts: seq<Token>)
    requires ts != []
    ensures Spell(ts) != ""
  {
    assert |SpellToken(ts[|ts| - 1])| > 0;
  }

  lemma EmptyText(ts: seq<Token>)
    requires Spell(ts) == ""
    ensures ts == [] && FlatMap(Meaningful, Words(ts)) == []
  {
    if ts != [] {
      SpellNotEmpty(ts);
      assert false;
    }
    FlatMapOne(Meaningful, []);
  }

  // ----- The editor scanner on one token --------------------------------------------------------

  predicate Controlled(text: string) {
    exists i :: 0 <= i < |text| && IsControl(text[i])
  }

  lemma EditOne(e: Editor, a: char, windows: bool)
    ensures RunEditor(e, [a], windows) == StepEditor(e, a, windows)
  {
    assert [a][1..] == "";
  }

  lemma EditTwo(e: Editor, a: char, b: char, windows: bool)
    ensures RunEditor(e, [a, b], windows) == StepEditor(StepEditor(e, a, windows), b, windows)
  {
    EditOne(StepEditor(e, a, windows), b, windows);
    assert [a, b][1..] == [b];
  }

  lemma NoControlInside(text: string)
    requires text != "" && !Controlled(text)
    ensures !IsControl(text[0]) && !Controlled(text[1..])
  {
    assert forall i :: 0 <= i < |text[1..]| ==> text[1..][i] == text[i + 1];
  }

  lemma {:induction false} EditQuoted(e: Editor, text: string, windows: bool)
    requires e.Editor? && e.mode == Single && '\'' !in text && !Controlled(text)
    ensures RunEditor(e, text, windows) == e.(part := e.part + text)
    decreases |text|
  {
    if text == "" {
      assert e.part + text == e.part;
    } else {
      NoControlInside(text);
      EditQuoted(e.(part := e.part + [text[0]]), text[1..], windows);
      Regroup(e.part, [text[0]], text[1..]);
      assert text == [text[0]] + text[1..];
    }
  }

  lemma ControlledAppend(a: string, b: string)
    ensures Controlled(a + b) <==> Controlled(a) || Controlled(b)
  {
    var ab := a + b;
    if Controlled(a) {
      var i :| 0 <= i < |a| && IsControl(a[i]);
      assert ab[i] == a[i];
    }
    if Controlled(b) {
      var i :| 0 <= i < |b| && IsControl(b[i]);
      assert ab[|a| + i] == b[i];
    }
  }

  lemma {:induction false} EditItems(e: Editor, items: seq<Item>, windows: bool)
    requires e.Editor? && e.mode == Double && e.started && !Controlled(SpellItems(items))
    requires forall i :: 0 <= i < |items| ==> IsItem(EditorDialect(windows), items[i])
    ensures RunEditor(e, SpellItems(items), windows) == e.(part := e.part + ItemText(items))
  {
    if items == [] {
      assert e.part + "" == e.part;
    } else {
      var init, last := items[..|items| - 1], items[|items| - 1];
      ControlledAppend(SpellItems(init), SpellItem(last));
      EditItems(e, init, windows);
      RunEditorAppend(e, SpellItems(init), SpellItem(last), windows);
      EditItem(e.(part := e.part + ItemText(init)), last, windows);
      assert e.part + ItemText(init) + [last.c] == e.part + ItemText(items);
    }
  }

  lemma EditItem(e: Editor, i: Item, windows: bool)
    requires e.Editor? && e.mode == Double && e.started
    requires IsItem(EditorDialect(windows), i) && !Controlled(SpellItem(i))
    ensures RunEditor(e, SpellItem(i), windows) == e.(part := e.part + [i.c])
  {
    var spelt := SpellItem(i);
    assert !IsControl(spelt[|spelt| - 1]);
    if i.Lit? {
      EditOne(e, i.c, windows);
    } else {
      EditTwo(e, '\\', i.c, windows);
    }
  }

  lemma EditSingle(e: Editor, text: string, windows: bool)
    requires e.Editor? && e.mode == Plain && '\'' !in text && !Controlled(text)
    ensures RunEditor(e, ['\''] + text + ['\''], windows) == e.(part := e.part + text, started := true)
  {
    var inside := e.(mode := Single, started := true);
    RunEditorAppend(e, ['\''] + text, ['\''], windows);
    RunEditorAppend(e, ['\''], text, windows);
    EditOne(e, '\'', windows);
    EditQuoted(inside, text, windows);
    EditOne(inside.(part := e.part + text), '\'', windows);
  }

  lemma EditDouble(e: Editor, items: seq<Item>, windows: bool)
    requires e.Editor? && e.mode == Plain && !Controlled(SpellItems(items))
    requires forall i :: 0 <= i < |items| ==> IsItem(EditorDialect(windows), items[i])
    ensures RunEditor(e, ['"'] + SpellItems(items) + ['"'], windows) ==
              e.(part := e.part + ItemText(items), started := true)
  {
    var inside := e.(mode := Double, started := true);
    RunEditorAppend(e, ['"'] + SpellItems(items), ['"'], windows);
    RunEditorAppend(e, ['"'], SpellItems(items), windows);
    EditOne(e, '"', windows);
    EditItems(inside, items, windows);
    EditOne(inside.(part := e.part + ItemText(items)), '"', windows);
  }

  /** A gap ends a word that has begun; any other token begins or extends one. */
  function EditAfter(e: Editor, t: Token): Editor
    requires e.Editor?
  {
    if t.Gap? then (if e.started then Editor(e.parts + [e.part], "", Plain, false) else e)
    else e.(part := e.part + TokenText(t), started := true)
  }

  lemma EditToken(e: Editor, t: Token, windows: bool)
    requires e.Editor? && e.mode == Plain && IsToken(EditorDialect(windows), t) && !Controlled(SpellToken(t))
    ensures RunEditor(e, SpellToken(t), windows) == EditAfter(e, t)
  {
    var spelt := SpellToken(t);
    match t
    case Gap(c) => assert !IsControl(spelt[0]); EditOne(e, c, windows);
    case Bare(c) => assert !IsControl(spelt[0]); EditOne(e, c, windows);
    case Escape(c) => assert !IsControl(spelt[1]); EditTwo(e, '\\', c, windows);
    case Quoted(text) =>
      ControlledAppend(['\''], text);
      ControlledAppend(['\''] + text, ['\'']);
      EditSingle(e, text, windows);
    case Doubled(items) =>
      ControlledAppend(['"'], SpellItems(items));
      ControlledAppend(['"'] + SpellItems(items), ['"']);
      EditDouble(e, items, windows);
  }

  function EditorOf(ts: seq<Token>): (e: Editor)
    ensures e.Editor?
  {
    var words := Words(ts);
    var last := words[|words| - 1];
    Editor(FlatMap(Written, words[..|words| - 1]), WordText(last), Plain, last != [])
  }

  lemma EditorOfGap(ts: seq<Token>, t: Token)
    requires t.Gap?
    ensures EditorOf(ts + [t]) == EditAfter(EditorOf(ts), t)
  {
    var words := Words(ts);
    var init, last := words[..|words| - 1], words[|words| - 1];
    WordsSnoc(ts, t);
    assert (words + [[]])[..|words|] == words && words == init + [last];
    FlatMapSnoc(Written, init, last);
  }

  lemma EditorOfMore(ts: seq<Token>, t: Token)
    requires !t.Gap?
    ensures EditorOf(ts + [t]) == EditAfter(EditorOf(ts), t)
  {
    var words := Words(ts);
    var init, last := words[..|words| - 1], words[|words| - 1];
    var more := init + [last + [t]];
    WordsSnoc(ts, t);
    assert more[..|more| - 1] == init;
    WordTextSnoc(last, t);
  }

  lemma EditorOfSnoc(ts: seq<Token>, t: Token)
    ensures EditorOf(ts + [t]) == EditAfter(EditorOf(ts), t)
  {
    if t.Gap? {
      EditorOfGap(ts, t);
    } else {
      EditorOfMore(ts, t);
    }
  }

  lemma {:induction false} EditTokens(ts: seq<Token>, windows: bool)
    requires AllTokens(EditorDialect(windows), ts) && !Controlled(Spell(ts))
    ensures RunEditor(OPEN, Spell(ts), windows) == EditorOf(ts)
  {
    if ts != [] {
      var init, t := ts[..|ts| - 1], ts[|ts| - 1];
      assert ts == init + [t];
      SpellSnoc(init, t);
      ControlledAppend(Spell(init), SpellToken(t));
      EditTokens(init, windows);
      RunEditorAppend(OPEN, Spell(init), SpellToken(t), windows);
      EditToken(EditorOf(init), t, windows);
      EditorOfSnoc(init, t);
    }
  }

  lemma EditRest(e: Editor, r: Rest, windows: bool)
    requires e.Editor? && e.mode == Plain
    requires IsRest(EditorDialect(windows), r) && r != Nothing && !Controlled(SpellRest(r))
    ensures var f := RunEditor(e, SpellRest(r), windows);
            f.Editor? && f.mode == match r
                                   case OpenSingle(_) => Single
                                   case OpenDouble(_, escape) => if escape then Escaped(true) else Double
                                   case _ => Escaped(false)
  {
    match r
    case OpenEscape => EditOne(e, '\\', windows);
    case OpenSingle(text) =>
      ControlledAppend(['\''], text);
      RunEditorAppend(e, ['\''], text, windows);
      EditOne(e, '\'', windows);
      EditQuoted(e.(mode := Single, started := true), text, windows);
    case OpenDouble(items, escape) => EditOpenDouble(e, items, escape, windows);
  }

  lemma EditOpenDouble(e: Editor, items: seq<Item>, escape: bool, windows: bool)
    requires e.Editor? && e.mode == Plain && IsRest(EditorDialect(windows), OpenDouble(items, escape))
    requires !Controlled(SpellRest(OpenDouble(items, escape)))
    ensures var f := RunEditor(e, SpellRest(OpenDouble(items, escape)), windows);
            f.Editor? && f.mode == if escape then Escaped(true) else Double
  {
    var inside, front := e.(mode := Double, started := true), ['"'] + SpellItems(items);
    var tail := if escape then ['\\'] else "";
    ControlledAppend(front, tail);
    ControlledAppend(['"'], SpellItems(items));
    RunEditorAppend(e, ['"'], SpellItems(items), windows);
    EditOne(e, '"', windows);
    EditItems(inside, items, windows);
    RunEditorAppend(e, front, tail, windows);
    if escape {
      EditOne(inside.(part := e.part + ItemText(items)), '\\', windows);
    } else {
      assert front + tail == front;
    }
  }

  lemma {:induction false} ControlIsRefused(e: Editor, text: string, windows: bool)
    requires Controlled(text)
    ensures RunEditor(e, text, windows) == Refused
    decreases |text|
  {
    var next := StepEditor(e, text[0], windows);
    if IsControl(text[0]) {
      RefusedStays(text[1..], windows);
    } else {
      var i :| 0 <= i < |text| && IsControl(text[i]);
      assert text[1..][i - 1] == text[i];
      ControlIsRefused(next, text[1..], windows);
    }
  }

  lemma FinishWritten(e: Editor)
    requires e.Editor? && e.mode == Plain
    ensures var parts := e.parts + if e.started then [e.part] else [];
            FinishEditor(e) == if parts == [] || parts[0] == "" then Err(ExecutableRequired) else Ok(parts)
  {
    assert e.parts + [] == e.parts;
  }

  lemma LastWritten(ts: seq<Token>)
    ensures FlatMap(Written, Words(ts)) == EditorOf(ts).parts + if EditorOf(ts).started then [EditorOf(ts).part] else []
  {
    var words := Words(ts);
    FlatMapSnoc(Written, words[..|words| - 1], words[|words| - 1]);
    assert words == words[..|words| - 1] + [words[|words| - 1]];
  }

  /** For every editor command and platform: with a control character it is refused; otherwise it is spelt by tokens,
      and the scanner returns the words that are written down, or says which kind of token is not finished, or that the
      first word is missing or empty. */
  lemma EditorReads(value: string, windows: bool) returns (ts: seq<Token>, r: Rest)
    ensures var d := EditorDialect(windows); AllTokens(d, ts) && IsRest(d, r) && value == Spell(ts) + SpellRest(r)
    ensures var parts := FlatMap(Written, Words(ts));
            EditorArgv(value, windows) == if Controlled(value) then Err(ControlCharacter)
                                          else if EndsInEscape(r) then Err(UnterminatedEscape)
                                          else if r != Nothing then Err(UnterminatedQuote)
                                          else if parts == [] || parts[0] == "" then Err(ExecutableRequired)
                                          else Ok(parts)
  {
    ts, r := EveryTextReads(EditorDialect(windows), value);
    if Controlled(value) {
      ControlIsRefused(OPEN, value, windows);
    } else {
      ControlledAppend(Spell(ts), SpellRest(r));
      EditTokens(ts, windows);
      LastWritten(ts);
      if r == Nothing {
        assert value == Spell(ts);
        FinishWritten(EditorOf(ts));
      } else {
        RunEditorAppend(OPEN, Spell(ts), SpellRest(r), windows);
        EditRest(EditorOf(ts), r, windows);
      }
    }
  }

  // ----- What is quoted -------------------------------------------------------------------------

  /** The visible characters that a shell may treat specially. */
  const METACHARACTERS := "!\"#$&'()*;<>?[\\]^`{|}~"

  predicate NeedsNoQuotes(c: char) {
    '!' <= c <= '~' && c !in METACHARACTERS
  }

  lemma SafeCharIff(c: char)
    ensures IsSafeChar(c) <==> NeedsNoQuotes(c)
  {
  }

  /** A part is left as it is exactly when it is a placeholder, or not empty, visible and free of metacharacters; any
      other part is put between single quotes, with the single quotes inside replaced. */
  lemma QuoteIff(s: string)
    ensures Quote(s) == s <==> s != "" && (('<' in s && '>' in s) || forall i :: 0 <= i < |s| ==> NeedsNoQuotes(s[i]))
    ensures Quote(s) != s ==> Quote(s) == "'" + FlatMap(EscapeChar, s) + "'"
  {
    forall i | 0 <= i < |s| ensures IsSafeChar(s[i]) <==> NeedsNoQuotes(s[i]) {
      SafeCharIff(s[i]);
    }
    EscapedIsLonger(s);
  }

  lemma {:induction false} EscapedIsLonger(s: string)
    ensures |FlatMap(EscapeChar, s)| >= |s| && (s == "" ==> FlatMap(EscapeChar, s) == "")
  {
    if s != "" {
      EscapedIsLonger(s[..|s| - 1]);
    }
  }
}
