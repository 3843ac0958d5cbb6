/** The text of the Codex config before and after rewriting (pkg/codexplugin/codexplugin.go): which lines make up which
    section, and what exactly an update writes.
 */
module ConfigText {
  import opened Text
  import opened CodexConfig

  // ----- Sections of a text ---------------------------------------------------------------------

  /** A line that opens a section called n. */
  function HeaderLine(n: string): string {
    "[" + n + "]"
  }

  ghost predicate OpensSection(line: string) {
    exists n :: line == HeaderLine(n)
  }

  lemma HeaderIff(line: string)
    ensures IsHeader(line) <==> OpensSection(line)
    ensures IsHeader(line) ==> line == HeaderLine(HeaderName(line))
  {
    if IsHeader(line) {
      assert line[0] == '[' && line[|line| - 1] == ']';
      var n := line[1..|line| - 1];
      assert line == HeaderLine(n);
      HeaderOf(n);
    }
    if OpensSection(line) {
      var n :| line == HeaderLine(n);
      HeaderOf(n);
    }
  }

  ghost function LinesOf(s: Section): seq<string> {
    s.lines
  }

  lemma {:induction false} FoldKeepsLines(lines: seq<string>)
    ensures FlatMap(LinesOf, Fold([PREAMBLE], lines)) == lines
  {
    if lines == [] {
      NoLines();
    } else {
      FoldKeepsLines(lines[..|lines| - 1]);
      OneMoreLine(Fold([PREAMBLE], lines[..|lines| - 1]), lines[|lines| - 1], lines[..|lines| - 1]);
      LastSplit(lines);
    }
  }

  lemma NoLines()
    ensures FlatMap(LinesOf, [PREAMBLE]) == []
  {
    FlatMapOne(LinesOf, PREAMBLE);
  }

  lemma OneMoreLine(sections: seq<Section>, line: string, lines: seq<string>)
    requires sections != [] && FlatMap(LinesOf, sections) == lines
    ensures FlatMap(LinesOf, AddLine(sections, line)) == lines + [line]
  {
    AddKeepsLines(sections, line);
  }

  lemma AddKeepsLines(sections: seq<Section>, line: string)
    requires sections != []
    ensures FlatMap(LinesOf, AddLine(sections, line)) == FlatMap(LinesOf, sections) + [line]
  {
    if IsHeader(line) {
      FlatMapSnoc(LinesOf, sections, Section(HeaderName(line), [line]));
    } else {
      var init, last := sections[..|sections| - 1], sections[|sections| - 1];
      var more := last.(lines := last.lines + [line]);
      FlatMapSnoc(LinesOf, init, last);
      FlatMapSnoc(LinesOf, init, more);
      assert sections == init + [last] && AddLine(sections, line) == init + [more];
    }
  }

  /** The section starts with its header, and nothing else in it is one. */
  ghost predicate Proper(s: Section) {
    && s.lines != [] && s.lines[0] == HeaderLine(s.name)
    && forall i :: 1 <= i < |s.lines| ==> !OpensSection(s.lines[i])
  }

  lemma {:induction false} WellFormedMeans(sections: seq<Section>)
    requires WellFormed(sections)
    ensures sections[0].name == "" && forall i :: 0 <= i < |sections[0].lines| ==> !OpensSection(sections[0].lines[i])
    ensures forall k :: 1 <= k < |sections| ==> Proper(sections[k])
  {
    var last := sections[|sections| - 1];
    if |sections| == 1 {
      forall i | 0 <= i < |last.lines| ensures !OpensSection(last.lines[i]) {
        HeaderIff(last.lines[i]);
      }
    } else {
      WellFormedMeans(sections[..|sections| - 1]);
      HeadedIsProper(last);
    }
  }

  lemma HeadedIsProper(s: Section)
    requires Headed(s)
    ensures Proper(s)
  {
    HeaderIff(s.lines[0]);
    forall i | 1 <= i < |s.lines| ensures !OpensSection(s.lines[i]) {
      HeaderIff(s.lines[i]);
      assert s.lines[1..][i - 1] == s.lines[i];
    }
  }

  /** Splitting loses no line: the sections hold the lines of the text in order, a nameless one up to the first header,
      then one per header, named by it. */
  lemma SectionsMean(text: string)
    ensures FlatMap(LinesOf, Sections(text)) == Split(text, '\n')
    ensures var ss := Sections(text);
            && ss[0].name == "" && (forall i :: 0 <= i < |ss[0].lines| ==> !OpensSection(ss[0].lines[i]))
            && (forall k :: 1 <= k < |ss| ==> Proper(ss[k]))
  {
    FoldKeepsLines(Split(text, '\n'));
    SectionsWellFormed(text);
    WellFormedMeans(Sections(text));
  }

  // ----- What is written ------------------------------------------------------------------------

  /** The non-blank sections, each as text without blank lines around it. */
  ghost function Bodies(sections: seq<Section>): seq<string> {
    FlatMap(Joined, View(sections))
  }

  /** A rendered file is its bodies with one blank line between two of them, and a line break at the end. */
  lemma RenderText(sections: seq<Section>)
    requires WellFormed(sections)
    ensures Render(sections) == Join(Bodies(sections), "\n\n") + "\n"
  {
    ChunksOfView(sections);
  }

  lemma PluginText(name: string)
    ensures Joined(PluginSection(name)) == [HeaderLine(name) + "\nenabled = true"]
  {
    var lines := PluginSection(name).lines;
    JoinCons(lines[0], ["enabled = true"], "\n");
    assert lines == [lines[0]] + ["enabled = true"];
    assert lines[0] + "\n" + "enabled = true" == HeaderLine(name) + "\nenabled = true";
  }

  lemma AppendBody(bodies: seq<string>, last: string)
    ensures Join(bodies + [last], "\n\n") == (if bodies == [] then "" else Join(bodies, "\n\n") + "\n\n") + last
  {
    if bodies == [] {
      assert bodies + [last] == [last] && "" + last == last;
    } else {
      JoinAppend(bodies, [last], "\n\n");
    }
  }

  /** An update writes the other sections, one blank line between two of them, and then the plugin's, enabled. */
  lemma UpdatedText(text: string, name: string)
    requires '\n' !in name && name != ""
    ensures var others := Bodies(Drop(Sections(text), name));
            Updated(text, name) ==
              (if others == [] then "" else Join(others, "\n\n") + "\n\n")
              + (HeaderLine(name) + "\nenabled = true") + "\n"
  {
    var kept := Drop(Sections(text), name);
    UpdatedWellFormed(text, name);
    RenderText(kept + [PluginSection(name)]);
    PluginIsVisible(text, name);
    PluginText(name);
    FlatMapSnoc(Joined, View(kept), PluginSection(name));
    AppendBody(Bodies(kept), HeaderLine(name) + "\nenabled = true");
  }

  lemma PluginIsVisible(text: string, name: string)
    requires '\n' !in name && name != ""
    ensures var kept := Drop(Sections(text), name);
            View(kept + [PluginSection(name)]) == View(kept) + [PluginSection(name)]
  {
    PluginSectionHeaded(name);
    FlatMapSnoc(Visible, Drop(Sections(text), name), PluginSection(name));
  }
}
