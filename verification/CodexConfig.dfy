/** Rewriting the Codex config file (pkg/codexplugin/codexplugin.go): split into TOML sections, drop or
    add the plugin's own section, render.
 */
module CodexConfig {
  import opened Text

  datatype Section = Section(name: string, lines: seq<string>)

  predicate IsHeader(line: string) {
    HasPrefix(line, "[") && HasSuffix(line, "]")
  }

  function HeaderName(line: string): string {
    TrimSuffix(TrimPrefix(line, "["), "]")
  }

  // ----- Splitting ------------------------------------------------------------------------------

  function AddLine(sections: seq<Section>, line: string): (r: seq<Section>)
    requires sections != []
    ensures r != []
  {
    if IsHeader(line) then sections + [Section(HeaderName(line), [line])]
    else
      var last := sections[|sections| - 1];
      sections[|sections| - 1 := last.(lines := last.lines + [line])]
  }

  function Fold(sections: seq<Section>, lines: seq<string>): (r: seq<Section>)
    requires sections != []
    ensures r != []
  {
    if lines == [] then sections else AddLine(Fold(sections, lines[..|lines| - 1]), lines[|lines| - 1])
  }

  const PREAMBLE := Section("", [])

  function Sections(text: string): (r: seq<Section>)
    ensures r != []
  {
    Fold([PREAMBLE], Split(text, '\n'))
  }

  method SplitSections(text: string) returns (sections: seq<Section>)
    ensures sections == Sections(text)
  {
    var lines := Split(text, '\n');
    sections := [PREAMBLE];
    for i := 0 to |lines|
      invariant sections == Fold([PREAMBLE], lines[..i])
    {
      assert lines[..i + 1][..i] == lines[..i];
      if IsHeader(lines[i]) {
        sections := sections + [Section(HeaderName(lines[i]), [lines[i]])];
      } else {
        var last := sections[|sections| - 1];
        sections := sections[|sections| - 1 := last.(lines := last.lines + [lines[i]])];
      }
    }
    assert lines[..|lines|] == lines;
  }

  // ----- Removing and rendering -----------------------------------------------------------------

  function Without1(name: string, s: Section): seq<Section> {
    if s.name == name then [] else [s]
  }

  /** The sections not called `name`, in order. */
  function Drop(sections: seq<Section>, name: string): seq<Section> {
    FlatMap(s => Without1(name, s), sections)
  }

  method RemoveSection(sections: seq<Section>, name: string) returns (filtered: seq<Section>)
    ensures filtered == Drop(sections, name)
  {
    filtered := [];
    for i := 0 to |sections|
      invariant filtered == Drop(sections[..i], name)
    {
      assert sections[..i + 1][..i] == sections[..i];
      if sections[i].name != name {
        filtered := filtered + [sections[i]];
      }
    }
    assert sections[..|sections|] == sections;
  }

  function Chunk(s: Section): seq<string> {
    var chunk := Trim(Join(s.lines, "\n"), "\n");
    if chunk == "" then [] else [chunk]
  }

  function Render(sections: seq<Section>): string {
    Join(FlatMap(Chunk, sections), "\n\n") + "\n"
  }

  method RenderSections(sections: seq<Section>) returns (text: string)
    ensures text == Render(sections)
  {
    var rendered: seq<string> := [];
    for i := 0 to |sections|
      invariant rendered == FlatMap(Chunk, sections[..i])
    {
      assert sections[..i + 1][..i] == sections[..i];
      var chunk := Trim(Join(sections[i].lines, "\n"), "\n");
      if chunk != "" {
        rendered := rendered + [chunk];
      }
    }
    assert sections[..|sections|] == sections;
    text := Join(rendered, "\n\n") + "\n";
  }

  // ----- The operations -------------------------------------------------------------------------

  /** pluginSectionName. */
  function PluginName(plugin: string, marketplace: string): string {
    "plugins.\"" + PluginKey(plugin, marketplace) + "\""
  }

  function PluginKey(plugin: string, marketplace: string): string {
    plugin + "@" + marketplace
  }

  function PluginSection(name: string): Section {
    Section(name, ["[" + name + "]", "enabled = true"])
  }

  function Normalize(text: string): string {
    Render(Sections(text))
  }

  function Updated(text: string, name: string): string {
    Render(Drop(Sections(text), name) + [PluginSection(name)])
  }

  /** updateConfig, from the old file contents to the new ones. */
  method UpdateConfig(text: string, plugin: string, marketplace: string) returns (text': string)
    ensures text' == Updated(text, PluginName(plugin, marketplace))
  {
    var sections := SplitSections(text);
    var name := PluginName(plugin, marketplace);
    var filtered := RemoveSection(sections, name);
    text' := RenderSections(filtered + [PluginSection(name)]);
  }

  /** removeConfigSection: rewrites the file only when the section was there. */
  method RemoveConfigSection(text: string, plugin: string, marketplace: string) returns (changed: bool, text': string)
    ensures changed <==> |Drop(Sections(text), PluginName(plugin, marketplace))| != |Sections(text)|
    ensures text' == if changed then Render(Drop(Sections(text), PluginName(plugin, marketplace))) else text
  {
    var sections := SplitSections(text);
    var filtered := RemoveSection(sections, PluginName(plugin, marketplace));
    if |filtered| == |sections| {
      return false, text;
    }
    text' := RenderSections(filtered);
    changed := true;
  }

  // ----- Blank lines at the edges of a section --------------------------------------------------

  ghost function TrimFront(lines: seq<string>): seq<string> {
    if lines != [] && lines[0] == "" then TrimFront(lines[1..]) else lines
  }

  ghost function TrimBack(lines: seq<string>): seq<string> {
    if lines != [] && lines[|lines| - 1] == "" then TrimBack(lines[..|lines| - 1]) else lines
  }

  /** A section's lines without leading and trailing blank lines. */
  ghost function Body(lines: seq<string>): seq<string> {
    TrimBack(TrimFront(lines))
  }

  lemma {:induction false} TrimFrontFacts(lines: seq<string>)
    requires Without(lines, '\n')
    ensures Without(TrimFront(lines), '\n')
    ensures TrimFront(lines) != [] ==> TrimFront(lines)[0] != ""
  {
    if lines != [] && lines[0] == "" {
      TrimFrontFacts(lines[1..]);
    }
  }

  lemma {:induction false} TrimBackFacts(lines: seq<string>)
    requires Without(lines, '\n')
    ensures Without(TrimBack(lines), '\n') && TrimBack(lines) <= lines
    ensures TrimBack(lines) != [] ==> TrimBack(lines)[|TrimBack(lines)| - 1] != ""
  {
    if lines != [] && lines[|lines| - 1] == "" {
      TrimBackFacts(lines[..|lines| - 1]);
    }
  }

  /** Trimming stops at the first character that is not a line break. */
  lemma NothingAtFront(t: string)
    requires t != "" && t[0] != '\n'
    ensures TrimLeft(t, "\n") == t
  {
  }

  lemma NothingAtBack(t: string)
    requires t != "" && t[|t| - 1] != '\n'
    ensures TrimRight(t, "\n") == t
  {
  }

  lemma BreakAtFront(t: string)
    ensures TrimLeft("\n" + t, "\n") == TrimLeft(t, "\n")
  {
    assert ("\n" + t)[1..] == t;
  }

  lemma BreakAtBack(t: string)
    ensures TrimRight(t + "\n", "\n") == TrimRight(t, "\n")
  {
    assert (t + "\n")[..|t|] == t;
  }

  lemma FirstCharOfJoin(lines: seq<string>, sep: string)
    requires lines != [] && lines[0] != ""
    ensures Join(lines, sep) != "" && Join(lines, sep)[0] == lines[0][0]
  {
  }

  lemma LastCharOfJoin(lines: seq<string>, sep: string)
    requires lines != [] && lines[|lines| - 1] != ""
    ensures var t, last := Join(lines, sep), lines[|lines| - 1]; t != "" && t[|t| - 1] == last[|last| - 1]
  {
    if |lines| > 1 {
      JoinSnoc(lines, sep);
    }
  }

  lemma {:induction false} TrimFrontText(lines: seq<string>)
    requires Without(lines, '\n')
    ensures TrimLeft(Join(lines, "\n"), "\n") == Join(TrimFront(lines), "\n")
  {
    if lines != [] && lines[0] == "" {
      TrimFrontText(lines[1..]);
      if |lines| > 1 {
        BreakAtFront(Join(lines[1..], "\n"));
      }
    } else if lines != [] {
      FirstCharOfJoin(lines, "\n");
      NothingAtFront(Join(lines, "\n"));
    }
  }

  lemma {:induction false} TrimBackText(lines: seq<string>)
    requires Without(lines, '\n')
    ensures TrimRight(Join(lines, "\n"), "\n") == Join(TrimBack(lines), "\n")
  {
    if lines != [] && lines[|lines| - 1] == "" {
      var init := lines[..|lines| - 1];
      TrimBackText(init);
      if |lines| > 1 {
        JoinSnoc(lines, "\n");
        var t := Join(init, "\n");
        assert t + "\n" + "" == t + "\n";
        BreakAtBack(t);
      }
    } else if lines != [] {
      LastCharOfJoin(lines, "\n");
      NothingAtBack(Join(lines, "\n"));
    }
  }

  /** The rendered chunk of a section is its body. */
  lemma ChunkIsBody(s: Section)
    requires Without(s.lines, '\n')
    ensures Chunk(s) == if Body(s.lines) == [] then [] else [Join(Body(s.lines), "\n")]
    ensures Without(Body(s.lines), '\n')
  {
    TrimFrontFacts(s.lines);
    TrimFrontText(s.lines);
    TrimBackFacts(TrimFront(s.lines));
    TrimBackText(TrimFront(s.lines));
    var body := Body(s.lines);
    if body != [] {
      assert body[0] == TrimFront(s.lines)[0];
      FirstCharOfJoin(body, "\n");
    }
  }

  /** A body is its own body, also with a blank line after it. */
  lemma BodyTwice(lines: seq<string>)
    requires Without(lines, '\n')
    ensures var b := Body(lines); Body(b) == b && Body(b + [""]) == b
  {
    TrimFrontFacts(lines);
    TrimBackFacts(TrimFront(lines));
    var b := Body(lines);
    if b != [] {
      assert b[0] == TrimFront(lines)[0];
      assert (b + [""])[..|b|] == b;
    } else {
      assert (b + [""])[1..] == [];
    }
  }

  // ----- What a config file says ----------------------------------------------------------------

  ghost function Visible(s: Section): seq<Section> {
    if Body(s.lines) == [] then [] else [Section(s.name, Body(s.lines))]
  }

  /** The non-blank sections with their bodies: everything rendering depends on. */
  ghost function View(sections: seq<Section>): seq<Section> {
    FlatMap(Visible, sections)
  }

  ghost predicate Plain(lines: seq<string>) {
    forall i :: 0 <= i < |lines| ==> !IsHeader(lines[i])
  }

  ghost predicate Headed(s: Section) {
    s.lines != [] && IsHeader(s.lines[0]) && HeaderName(s.lines[0]) == s.name && Plain(s.lines[1..])
  }

  ghost predicate Leading(s: Section) {
    s.name == "" && Plain(s.lines)
  }

  /** What splitting produces: a nameless preamble, then sections that start with their header. */
  ghost predicate WellFormed(sections: seq<Section>)
    ensures WellFormed(sections) ==> sections != []
  {
    && sections != []
    && var init, last := sections[..|sections| - 1], sections[|sections| - 1];
    && Without(last.lines, '\n')
    && (if init == [] then Leading(last) else WellFormed(init) && Headed(last))
  }

  lemma SnocWellFormed(sections: seq<Section>, s: Section)
    requires Without(s.lines, '\n')
    requires if sections == [] then Leading(s) else WellFormed(sections) && Headed(s)
    ensures WellFormed(sections + [s])
  {
    assert (sections + [s])[..|sections|] == sections;
  }

  /** A section with one more line that is not a header. */
  lemma LongerSection(s: Section, line: string)
    requires Without(s.lines, '\n') && '\n' !in line && !IsHeader(line)
    ensures var t := s.(lines := s.lines + [line]);
            Without(t.lines, '\n') && (Leading(s) ==> Leading(t)) && (Headed(s) ==> Headed(t))
  {
    var t := s.(lines := s.lines + [line]);
    if s.lines != [] {
      assert t.lines[0] == s.lines[0] && t.lines[1..] == s.lines[1..] + [line];
    }
  }

  lemma NewSection(line: string)
    requires '\n' !in line && IsHeader(line)
    ensures var s := Section(HeaderName(line), [line]); Without(s.lines, '\n') && Headed(s)
  {
    assert [line][1..] == [];
  }

  lemma AddLineWellFormed(sections: seq<Section>, line: string)
    requires WellFormed(sections) && '\n' !in line
    ensures WellFormed(AddLine(sections, line))
  {
    if IsHeader(line) {
      NewSection(line);
      SnocWellFormed(sections, Section(HeaderName(line), [line]));
    } else {
      var init, last := sections[..|sections| - 1], sections[|sections| - 1];
      var longer := last.(lines := last.lines + [line]);
      LongerSection(last, line);
      UpdateLast(sections, longer);
      SnocWellFormed(init, longer);
    }
  }

  lemma {:induction false} FoldWellFormed(lines: seq<string>)
    requires Without(lines, '\n')
    ensures WellFormed(Fold([PREAMBLE], lines))
  {
    if lines != [] {
      var init, last := lines[..|lines| - 1], lines[|lines| - 1];
      FoldWellFormed(init);
      AddLineWellFormed(Fold([PREAMBLE], init), last);
    }
  }

  lemma SectionsWellFormed(text: string)
    ensures WellFormed(Sections(text))
  {
    SplitPieces(text, '\n');
    FoldWellFormed(Split(text, '\n'));
  }

  lemma DropSnoc(sections: seq<Section>, s: Section, name: string)
    ensures Drop(sections + [s], name) == Drop(sections, name) + Without1(name, s)
  {
    FlatMapSnoc(s => Without1(name, s), sections, s);
  }

  lemma {:induction false} DropWellFormed(sections: seq<Section>, name: string)
    requires WellFormed(sections) && name != ""
    ensures WellFormed(Drop(sections, name))
  {
    var init, last := sections[..|sections| - 1], sections[|sections| - 1];
    LastSplit(sections);
    DropSnoc(init, last, name);
    if init != [] {
      DropWellFormed(init, name);
      if last.name != name {
        SnocWellFormed(Drop(init, name), last);
      } else {
        assert Drop(init, name) + [] == Drop(init, name);
      }
    } else {
      DropPreamble(last, name);
    }
  }

  lemma DropPreamble(s: Section, name: string)
    requires Leading(s) && name != ""
    ensures Drop([s], name) == [s]
  {
    FlatMapOne(s => Without1(name, s), s);
  }

  lemma HeaderOf(name: string)
    ensures IsHeader("[" + name + "]") && HeaderName("[" + name + "]") == name
  {
    var h := "[" + name + "]";
    assert h[1..] == name + "]";
    assert (name + "]")[..|name|] == name;
  }

  lemma PluginSectionHeaded(name: string)
    requires '\n' !in name
    ensures Headed(PluginSection(name)) && Without(PluginSection(name).lines, '\n')
    ensures Visible(PluginSection(name)) == [PluginSection(name)]
  {
    HeaderOf(name);
    var lines := PluginSection(name).lines;
    assert TrimFront(lines) == lines && TrimBack(lines) == lines;
  }

  // ----- Rendering depends on the view only -----------------------------------------------------

  ghost function Joined(v: Section): seq<string> {
    [Join(v.lines, "\n")]
  }

  ghost function Ended(v: Section): seq<string> {
    v.lines + [""]
  }

  lemma {:induction false} ChunksOfView(sections: seq<Section>)
    requires sections == [] || WellFormed(sections)
    ensures FlatMap(Chunk, sections) == FlatMap(Joined, View(sections))
    ensures forall v :: v in View(sections) ==> v.lines != []
  {
    if sections != [] {
      var init, last := sections[..|sections| - 1], sections[|sections| - 1];
      ChunksOfView(init);
      ChunkVisible(last);
      FlatMapAppend(Joined, View(init), Visible(last));
    }
  }

  lemma ChunkVisible(s: Section)
    requires Without(s.lines, '\n')
    ensures Chunk(s) == FlatMap(Joined, Visible(s))
    ensures forall v :: v in Visible(s) ==> v.lines != []
  {
    ChunkIsBody(s);
    if Body(s.lines) != [] {
      FlatMapOne(Joined, Section(s.name, Body(s.lines)));
    }
  }

  /** Joined chunks, seen as lines: each body is followed by one blank line. */
  lemma {:induction false} ChunkLines(view: seq<Section>)
    requires view != [] && forall v :: v in view ==> v.lines != []
    ensures FlatMap(Ended, view) != [] && FlatMap(Joined, view) != []
    ensures Join(FlatMap(Ended, view), "\n") == Join(FlatMap(Joined, view), "\n\n") + "\n"
  {
    var init, v := view[..|view| - 1], view[|view| - 1];
    JoinAppend(v.lines, [""], "\n");
    assert Join(v.lines + [""], "\n") == Join(v.lines, "\n") + "\n";
    if init == [] {
      assert view == [v];
      FlatMapOne(Ended, v);
      FlatMapOne(Joined, v);
    } else {
      ChunkLines(init);
      JoinAppend(FlatMap(Ended, init), Ended(v), "\n");
      JoinAppend(FlatMap(Joined, init), Joined(v), "\n\n");
      var a, b := Join(FlatMap(Joined, init), "\n\n"), Join(v.lines, "\n");
      assert (a + "\n") + "\n" + (b + "\n") == (a + "\n\n" + b) + "\n";
    }
  }

  ghost function ViewLines(view: seq<Section>): seq<string> {
    if view == [] then ["", ""] else FlatMap(Ended, view)
  }

  lemma RenderIsViewLines(sections: seq<Section>)
    requires WellFormed(sections)
    ensures Render(sections) == Join(ViewLines(View(sections)), "\n")
  {
    ChunksOfView(sections);
    if View(sections) != [] {
      ChunkLines(View(sections));
    }
  }

  // ----- Splitting what was rendered ------------------------------------------------------------

  /** A non-blank section as a view holds it: its own body, and headed unless it is the preamble. */
  ghost predicate Shown(v: Section, first: bool) {
    && v.lines != [] && Body(v.lines) == v.lines && Body(v.lines + [""]) == v.lines
    && Without(v.lines, '\n')
    && (Headed(v) || (first && Leading(v)))
  }

  ghost predicate ShownAll(view: seq<Section>) {
    view == [] || (ShownAll(view[..|view| - 1]) && Shown(view[|view| - 1], |view| == 1))
  }

  lemma BodyKeepsHeader(lines: seq<string>)
    requires Without(lines, '\n') && lines != [] && IsHeader(lines[0]) && Plain(lines[1..])
    ensures var b := Body(lines); b != [] && b[0] == lines[0] && Plain(b[1..]) && b <= lines
  {
    assert TrimFront(lines) == lines;
    TrimBackFacts(lines);
    BackKeepsFirst(lines);
    var b := Body(lines);
    assert forall i :: 0 <= i < |b| - 1 ==> b[1..][i] == lines[1..][i];
  }

  lemma {:induction false} BackKeepsFirst(lines: seq<string>)
    requires lines != [] && lines[0] != ""
    ensures TrimBack(lines) != []
  {
    if lines[|lines| - 1] == "" {
      BackKeepsFirst(lines[..|lines| - 1]);
    }
  }

  lemma {:induction false} FrontKeepsPlain(lines: seq<string>)
    requires Plain(lines)
    ensures Plain(TrimFront(lines))
  {
    if lines != [] && lines[0] == "" {
      FrontKeepsPlain(lines[1..]);
    }
  }

  lemma VisibleShown(s: Section, first: bool)
    requires Without(s.lines, '\n') && (Headed(s) || (first && Leading(s)))
    ensures Visible(s) == [] || Shown(Visible(s)[0], first)
    ensures Headed(s) ==> Visible(s) != []
  {
    ChunkIsBody(s);
    BodyTwice(s.lines);
    if Headed(s) {
      BodyKeepsHeader(s.lines);
    } else {
      FrontKeepsPlain(s.lines);
      TrimFrontFacts(s.lines);
      TrimBackFacts(TrimFront(s.lines));
    }
  }

  lemma {:induction false} ViewShown(sections: seq<Section>)
    requires WellFormed(sections)
    ensures ShownAll(View(sections))
    ensures |sections| > 1 ==> View(sections) != []
  {
    var init, last := sections[..|sections| - 1], sections[|sections| - 1];
    VisibleShown(last, init == []);
    if init == [] {
      assert sections == [last];
      FlatMapOne(Visible, last);
    } else {
      ViewShown(init);
      var v := Visible(last)[0];
      assert View(sections) == View(init) + [v];
      assert (View(init) + [v])[..|View(init)|] == View(init);
    }
  }

  lemma FoldSnoc(sections: seq<Section>, lines: seq<string>, line: string)
    requires sections != []
    ensures Fold(sections, lines + [line]) == AddLine(Fold(sections, lines), line)
  {
    assert (lines + [line])[..|lines|] == lines;
  }

  lemma {:induction false} FoldAppend(sections: seq<Section>, a: seq<string>, b: seq<string>)
    requires sections != []
    ensures Fold(sections, a + b) == Fold(Fold(sections, a), b)
  {
    if b == [] {
      assert a + b == a;
    } else {
      var init, last := b[..|b| - 1], b[|b| - 1];
      FoldAppend(sections, a, init);
      FoldSnoc(sections, a + init, last);
      FoldSnoc(Fold(sections, a), init, last);
      assert b == init + [last] && a + b == (a + init) + [last];
    }
  }

  /** Plain lines all go to the last section. */
  lemma {:induction false} FoldPlain(done: seq<Section>, s: Section, lines: seq<string>)
    requires Plain(lines)
    ensures Fold(done + [s], lines) == done + [s.(lines := s.lines + lines)]
  {
    if lines == [] {
      assert s.lines + lines == s.lines;
    } else {
      var init, last := lines[..|lines| - 1], lines[|lines| - 1];
      FoldPlain(done, s, init);
      assert s.lines + init + [last] == s.lines + lines;
    }
  }

  lemma FoldShown(done: seq<Section>, v: Section)
    requires done != [] && Headed(v)
    ensures Fold(done, Ended(v)) == done + [v.(lines := Ended(v))]
  {
    var h, rest := v.lines[0], v.lines[1..] + [""];
    assert Ended(v) == [h] + rest;
    FoldAppend(done, [h], rest);
    assert Fold(done, [h]) == AddLine(done, h);
    assert Plain(rest) by {
      assert !IsHeader("");
    }
    FoldPlain(done, Section(v.name, [h]), rest);
  }

  lemma FoldPreamble(v: Section)
    requires Leading(v)
    ensures Fold([PREAMBLE], Ended(v)) == [v.(lines := Ended(v))]
  {
    assert !IsHeader("");
    FoldPlain([], PREAMBLE, Ended(v));
    assert [] + [PREAMBLE] == [PREAMBLE] && PREAMBLE.lines + Ended(v) == Ended(v);
  }

  lemma VisibleEnded(v: Section, first: bool)
    requires Shown(v, first)
    ensures Visible(v.(lines := Ended(v))) == [v]
  {
  }

  lemma FoldViewStep(done: seq<Section>, v: Section)
    requires done != [] && Shown(v, false)
    ensures View(Fold(done, Ended(v))) == View(done) + [v]
  {
    var v' := v.(lines := Ended(v));
    FoldShown(done, v);
    VisibleEnded(v, false);
    FlatMapAppend(Visible, done, [v']);
    FlatMapOne(Visible, v');
  }

  lemma FoldViewFirst(v: Section)
    requires Shown(v, true) && !Headed(v)
    ensures View(Fold([PREAMBLE], Ended(v))) == [v]
  {
    FoldPreamble(v);
    VisibleEnded(v, true);
    FlatMapOne(Visible, v.(lines := Ended(v)));
  }

  /** Splitting the rendered lines of a view gives back that view. */
  lemma {:induction false} FoldView(view: seq<Section>)
    requires ShownAll(view)
    ensures View(Fold([PREAMBLE], FlatMap(Ended, view))) == view
  {
    if view == [] {
      FlatMapOne(Visible, PREAMBLE);
    } else {
      var init, v := view[..|view| - 1], view[|view| - 1];
      LastSplit(view);
      FoldView(init);
      FlatMapSnoc(Ended, init, v);
      FoldAppend([PREAMBLE], FlatMap(Ended, init), Ended(v));
      if Headed(v) {
        FoldViewStep(Fold([PREAMBLE], FlatMap(Ended, init)), v);
      } else {
        FoldViewFirst(v);
      }
    }
  }

  /** An empty config renders to one newline, which splits into two blank lines. */
  lemma ViewOfBlank()
    ensures View(Sections(Join(["", ""], "\n"))) == []
  {
    var blank := ["", ""];
    SplitOfJoin(blank, '\n');
    assert !IsHeader("");
    FoldPlain([], PREAMBLE, blank);
    assert [] + [PREAMBLE] == [PREAMBLE];
    assert PREAMBLE.lines + blank == blank;
    assert blank[1..] == [""] && [""][1..] == [];
    FlatMapOne(Visible, Section("", blank));
  }

  /** Splitting a rendered config shows what was rendered. */
  lemma ViewOfRendered(sections: seq<Section>)
    requires WellFormed(sections)
    ensures View(Sections(Render(sections))) == View(sections)
  {
    RenderIsViewLines(sections);
    ViewShown(sections);
    if View(sections) == [] {
      ViewOfBlank();
    } else {
      ViewOfLines(View(sections));
    }
  }

  lemma ViewOfLines(view: seq<Section>)
    requires ShownAll(view) && view != []
    ensures View(Sections(Join(FlatMap(Ended, view), "\n"))) == view
  {
    EndedWithout(view);
    SplitOfJoin(FlatMap(Ended, view), '\n');
    FoldView(view);
  }

  lemma {:induction false} EndedWithout(view: seq<Section>)
    requires ShownAll(view)
    ensures Without(FlatMap(Ended, view), '\n')
    ensures view != [] ==> FlatMap(Ended, view) != []
  {
    if view != [] {
      EndedWithout(view[..|view| - 1]);
    }
  }

  lemma RenderByView(a: seq<Section>, b: seq<Section>)
    requires WellFormed(a) && WellFormed(b) && View(a) == View(b)
    ensures Render(a) == Render(b)
  {
    RenderIsViewLines(a);
    RenderIsViewLines(b);
  }

  // ----- Dropping sections in the view ----------------------------------------------------------

  lemma {:induction false} DropAppend(a: seq<Section>, b: seq<Section>, name: string)
    ensures Drop(a + b, name) == Drop(a, name) + Drop(b, name)
  {
    FlatMapAppend(s => Without1(name, s), a, b);
  }

  lemma DropVisible(s: Section, name: string)
    ensures View(Without1(name, s)) == Drop(Visible(s), name)
  {
    if Body(s.lines) != [] {
      FlatMapOne(s => Without1(name, s), Section(s.name, Body(s.lines)));
    }
    if s.name != name {
      FlatMapOne(Visible, s);
    }
  }

  lemma {:induction false} ViewOfDrop(sections: seq<Section>, name: string)
    ensures View(Drop(sections, name)) == Drop(View(sections), name)
  {
    if sections != [] {
      var init, last := sections[..|sections| - 1], sections[|sections| - 1];
      LastSplit(sections);
      ViewOfDrop(init, name);
      DropSnoc(init, last, name);
      FlatMapAppend(Visible, Drop(init, name), Without1(name, last));
      FlatMapSnoc(Visible, init, last);
      DropAppend(View(init), Visible(last), name);
      DropVisible(last, name);
    }
  }

  lemma {:induction false} DropTwice(sections: seq<Section>, name: string)
    ensures Drop(Drop(sections, name), name) == Drop(sections, name)
  {
    if sections != [] {
      var init, last := sections[..|sections| - 1], sections[|sections| - 1];
      LastSplit(sections);
      DropTwice(init, name);
      DropSnoc(init, last, name);
      if last.name != name {
        DropSnoc(Drop(init, name), last, name);
      } else {
        assert Drop(init, name) + [] == Drop(init, name);
      }
    }
  }

  function Count(sections: seq<Section>, name: string): nat {
    if sections == [] then 0
    else Count(sections[..|sections| - 1], name) + if sections[|sections| - 1].name == name then 1 else 0
  }

  lemma {:induction false} CountOfDrop(sections: seq<Section>, name: string)
    ensures |Drop(sections, name)| == |sections| - Count(sections, name)
  {
    if sections != [] {
      LastSplit(sections);
      CountOfDrop(sections[..|sections| - 1], name);
      DropSnoc(sections[..|sections| - 1], sections[|sections| - 1], name);
    }
  }

  lemma CountSnoc(sections: seq<Section>, s: Section, name: string)
    ensures Count(sections + [s], name) == Count(sections, name) + if s.name == name then 1 else 0
  {
    assert (sections + [s])[..|sections|] == sections;
  }

  /** Named sections are headed, hence visible: the view counts them exactly. */
  lemma {:induction false} CountByView(sections: seq<Section>, name: string)
    requires WellFormed(sections) && name != ""
    ensures Count(sections, name) == Count(View(sections), name)
  {
    var init, last := sections[..|sections| - 1], sections[|sections| - 1];
    LastSplit(sections);
    VisibleShown(last, init == []);
    FlatMapSnoc(Visible, init, last);
    if init != [] {
      CountByView(init, name);
      CountSnoc(View(init), Visible(last)[0], name);
    } else if Visible(last) != [] {
      CountSnoc([], Visible(last)[0], name);
      assert View(sections) == [] + [Visible(last)[0]];
    }
  }

  // ----- Main results ---------------------------------------------------------------------------

  /** Rendering what was split is a normal form: doing it again changes nothing. */
  lemma NormalizeIdempotent(text: string)
    ensures Normalize(Normalize(text)) == Normalize(text)
  {
    SectionsWellFormed(text);
    SectionsWellFormed(Normalize(text));
    ViewOfRendered(Sections(text));
    RenderByView(Sections(Normalize(text)), Sections(text));
  }

  lemma UpdatedWellFormed(text: string, name: string)
    requires '\n' !in name && name != ""
    ensures WellFormed(Drop(Sections(text), name) + [PluginSection(name)])
    ensures View(Drop(Sections(text), name) + [PluginSection(name)])
         == Drop(View(Sections(text)), name) + [PluginSection(name)]
  {
    SectionsWellFormed(text);
    DropWellFormed(Sections(text), name);
    PluginSectionHeaded(name);
    SnocWellFormed(Drop(Sections(text), name), PluginSection(name));
    FlatMapSnoc(Visible, Drop(Sections(text), name), PluginSection(name));
    ViewOfDrop(Sections(text), name);
  }

  /** After an update the file shows every other section as before and in order, then the plugin's own
      section, once. */
  lemma UpdateShows(text: string, name: string)
    requires '\n' !in name && name != ""
    ensures View(Sections(Updated(text, name))) == Drop(View(Sections(text)), name) + [PluginSection(name)]
    ensures Drop(View(Sections(Updated(text, name))), name) == Drop(View(Sections(text)), name)
    ensures Count(Sections(Updated(text, name)), name) == 1
  {
    UpdatedWellFormed(text, name);
    ViewOfRendered(Drop(Sections(text), name) + [PluginSection(name)]);
    var others := Drop(View(Sections(text)), name);
    DropSnoc(others, PluginSection(name), name);
    DropTwice(View(Sections(text)), name);
    assert others + [] == others;
    CountOfDrop(others, name);
    CountSnoc(others, PluginSection(name), name);
    SectionsWellFormed(Updated(text, name));
    CountByView(Sections(Updated(text, name)), name);
  }

  lemma UpdateTwice(text: string, name: string)
    requires '\n' !in name && name != ""
    ensures Updated(Updated(text, name), name) == Updated(text, name)
  {
    UpdateShows(text, name);
    UpdatedWellFormed(text, name);
    UpdatedWellFormed(Updated(text, name), name);
    RenderByView(Drop(Sections(Updated(text, name)), name) + [PluginSection(name)],
                 Drop(Sections(text), name) + [PluginSection(name)]);
  }

  /** Removing after updating finds the section and leaves the normal form of the original without it;
      if the original never had it, its plain normal form. */
  lemma RemoveUndoesUpdate(text: string, name: string)
    requires '\n' !in name && name != ""
    ensures Render(Drop(Sections(Updated(text, name)), name)) == Render(Drop(Sections(text), name))
    ensures |Drop(Sections(Updated(text, name)), name)| != |Sections(Updated(text, name))|
    ensures Count(Sections(text), name) == 0 ==>
              Render(Drop(Sections(Updated(text, name)), name)) == Normalize(text)
  {
    UpdateShows(text, name);
    CountOfDrop(Sections(Updated(text, name)), name);
    SectionsWellFormed(text);
    SectionsWellFormed(Updated(text, name));
    DropWellFormed(Sections(text), name);
    DropWellFormed(Sections(Updated(text, name)), name);
    ViewOfDrop(Sections(text), name);
    ViewOfDrop(Sections(Updated(text, name)), name);
    RenderByView(Drop(Sections(Updated(text, name)), name), Drop(Sections(text), name));
    DropNone(Sections(text), name);
  }

  lemma {:induction false} DropNone(sections: seq<Section>, name: string)
    ensures Count(sections, name) == 0 ==> Drop(sections, name) == sections
  {
    if sections != [] {
      var init, last := sections[..|sections| - 1], sections[|sections| - 1];
      LastSplit(sections);
      DropNone(init, name);
      DropSnoc(init, last, name);
    }
  }
}
