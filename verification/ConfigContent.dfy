/** What rewriting the Codex config can and cannot change: only line breaks move, and a section name
    that holds a line break is exactly what makes updates pile up.
 */
module ConfigContent {
  import opened Text
  import opened CodexConfig

  ghost function InkOf(c: char): string {
    if c == '\n' then "" else [c]
  }

  /** The text without its line breaks. */
  ghost function Ink(text: string): string {
    FlatMap(InkOf, text)
  }

  ghost function LineInk(lines: seq<string>): string {
    FlatMap(Ink, lines)
  }

  ghost function SectionInk(s: Section): string {
    LineInk(s.lines)
  }

  ghost function AllInk(sections: seq<Section>): string {
    FlatMap(SectionInk, sections)
  }

  lemma InkAppend(a: string, b: string)
    ensures Ink(a + b) == Ink(a) + Ink(b)
  {
    FlatMapAppend(InkOf, a, b);
  }

  lemma {:induction false} InkOfJoin(parts: seq<string>, sep: string)
    requires Ink(sep) == ""
    ensures Ink(Join(parts, sep)) == LineInk(parts)
  {
    if |parts| == 1 {
      FlatMapOne(Ink, parts[0]);
      assert parts == [parts[0]];
    } else if |parts| > 1 {
      var init, last := parts[..|parts| - 1], parts[|parts| - 1];
      InkOfJoin(init, sep);
      LastSplit(parts);
      JoinAppend(init, [last], sep);
      InkAppend(Join(init, sep) + sep, last);
      InkAppend(Join(init, sep), sep);
      assert Join([last], sep) == last;
    }
  }

  lemma NewlineInk()
    ensures Ink("\n") == "" && Ink("\n\n") == ""
  {
    FlatMapOne(InkOf, '\n');
    assert "\n" == ['\n'];
    InkAppend("\n", "\n");
    assert "\n" + "\n" == "\n\n";
  }

  lemma {:induction false} InkOfTrimLeft(s: string)
    ensures Ink(TrimLeft(s, "\n")) == Ink(s)
  {
    if s != "" && s[0] in "\n" {
      InkOfTrimLeft(s[1..]);
      NewlineInk();
      InkAppend("\n", s[1..]);
      assert s == "\n" + s[1..];
    }
  }

  lemma {:induction false} InkOfTrimRight(s: string)
    ensures Ink(TrimRight(s, "\n")) == Ink(s)
  {
    if s != "" && s[|s| - 1] in "\n" {
      InkOfTrimRight(s[..|s| - 1]);
    }
  }

  lemma InkOfChunk(s: Section)
    ensures LineInk(Chunk(s)) == SectionInk(s)
  {
    var text := Join(s.lines, "\n");
    NewlineInk();
    InkOfJoin(s.lines, "\n");
    InkOfTrimLeft(text);
    InkOfTrimRight(TrimLeft(text, "\n"));
    if Trim(text, "\n") != "" {
      FlatMapOne(Ink, Trim(text, "\n"));
    }
  }

  lemma {:induction false} InkOfChunks(sections: seq<Section>)
    ensures LineInk(FlatMap(Chunk, sections)) == AllInk(sections)
  {
    if sections != [] {
      var init, last := sections[..|sections| - 1], sections[|sections| - 1];
      InkOfChunks(init);
      InkOfChunk(last);
      FlatMapAppend(Ink, FlatMap(Chunk, init), Chunk(last));
    }
  }

  lemma InkOfRender(sections: seq<Section>)
    ensures Ink(Render(sections)) == AllInk(sections)
  {
    NewlineInk();
    InkOfChunks(sections);
    InkOfJoin(FlatMap(Chunk, sections), "\n\n");
    InkAppend(Join(FlatMap(Chunk, sections), "\n\n"), "\n");
  }

  lemma InkOfAddLine(sections: seq<Section>, line: string)
    requires sections != []
    ensures AllInk(AddLine(sections, line)) == AllInk(sections) + Ink(line)
  {
    if IsHeader(line) {
      FlatMapSnoc(SectionInk, sections, Section(HeaderName(line), [line]));
      FlatMapOne(Ink, line);
    } else {
      var init, last := sections[..|sections| - 1], sections[|sections| - 1];
      var last' := last.(lines := last.lines + [line]);
      UpdateLast(sections, last');
      LastSplit(sections);
      FlatMapSnoc(SectionInk, init, last');
      FlatMapSnoc(SectionInk, init, last);
      FlatMapSnoc(Ink, last.lines, line);
    }
  }

  lemma {:induction false} InkOfFold(lines: seq<string>)
    ensures AllInk(Fold([PREAMBLE], lines)) == LineInk(lines)
  {
    if lines == [] {
      FlatMapOne(SectionInk, PREAMBLE);
    } else {
      var init, last := lines[..|lines| - 1], lines[|lines| - 1];
      InkOfFold(init);
      InkOfAddLine(Fold([PREAMBLE], init), last);
    }
  }

  lemma InkOfSections(text: string)
    ensures AllInk(Sections(text)) == Ink(text)
  {
    var lines := Split(text, '\n');
    InkOfFold(lines);
    JoinOfSplit(text, '\n');
    NewlineInk();
    InkOfJoin(lines, "\n");
  }

  /** Normalizing moves line breaks only: every other byte stays, in order. */
  lemma NormalizeKeepsInk(text: string)
    ensures Ink(Normalize(text)) == Ink(text)
  {
    InkOfRender(Sections(text));
    InkOfSections(text);
  }

  // ----- Names with line breaks -----------------------------------------------------------------

  lemma {:induction false} NamesHaveNoBreaks(sections: seq<Section>, name: string)
    requires WellFormed(sections) && '\n' in name
    ensures Count(sections, name) == 0
  {
    var init, last := sections[..|sections| - 1], sections[|sections| - 1];
    if init != [] {
      NamesHaveNoBreaks(init, name);
      HeaderHasNoBreak(last.lines[0]);
      assert '\n' !in last.lines[0];
    }
  }

  lemma HeaderHasNoBreak(line: string)
    ensures '\n' !in line ==> '\n' !in HeaderName(line)
  {
  }

  /** The plugin section has ink of its own. */
  lemma PluginSectionInk(p: Section)
    requires |p.lines| == 2 && p.lines[1] == "enabled = true"
    ensures |SectionInk(p)| > 0
  {
    var flag := "enabled = tru";
    FlatMapSnoc(Ink, [p.lines[0]], p.lines[1]);
    assert p.lines == [p.lines[0]] + [p.lines[1]];
    InkAppend(flag, ['e']);
    FlatMapOne(InkOf, 'e');
    assert flag + ['e'] == p.lines[1];
  }

  /** A name with a line break is never found again, so an update adds its section once more. */
  lemma BrokenNameGrows(text: string, name: string)
    requires '\n' in name
    ensures |Ink(Updated(text, name))| > |Ink(text)|
  {
    var p := PluginSection(name);
    SectionsWellFormed(text);
    NamesHaveNoBreaks(Sections(text), name);
    DropNone(Sections(text), name);
    InkOfRender(Sections(text) + [p]);
    FlatMapSnoc(SectionInk, Sections(text), p);
    InkOfSections(text);
    PluginSectionInk(p);
  }

  /** Updating twice equals updating once exactly when the section name has no line break. */
  lemma UpdateTwiceIff(text: string, name: string)
    requires name != ""
    ensures Updated(Updated(text, name), name) == Updated(text, name) <==> '\n' !in name
  {
    if '\n' in name {
      BrokenNameGrows(Updated(text, name), name);
    } else {
      UpdateTwice(text, name);
    }
  }
}
