/** Which plugins a Codex config enables (enabledPluginConfigKeys in pkg/codexplugin/codexplugin.go), and
    what rewriting the config does to that list.
 */
module EnabledPlugins {
  import opened Text
  import opened CodexConfig

  predicate Enables(lines: seq<string>) {
    exists i :: 0 <= i < |lines| && TrimSpace(lines[i]) == "enabled = true"
  }

  const QUOTED := "plugins.\""

  /** The key a section contributes: its quoted name, if it belongs to `plugin` and is enabled. */
  function KeyOf(plugin: string, s: Section): seq<string> {
    if HasPrefix(s.name, QUOTED + plugin + "@") && HasSuffix(s.name, "\"") && s.lines != [] && Enables(s.lines[1..])
    then [TrimSuffix(TrimPrefix(s.name, QUOTED), "\"")]
    else []
  }

  function Keys(plugin: string, sections: seq<Section>): seq<string> {
    FlatMap(s => KeyOf(plugin, s), sections)
  }

  /** The inner loop: does some line after the header enable the section? */
  method SectionEnabled(lines: seq<string>) returns (enabled: bool)
    requires lines != []
    ensures enabled <==> Enables(lines[1..])
  {
    for j := 1 to |lines|
      invariant forall i :: 1 <= i < j ==> TrimSpace(lines[i]) != "enabled = true"
    {
      if TrimSpace(lines[j]) == "enabled = true" {
        assert lines[1..][j - 1] == lines[j];
        return true;
      }
    }
    return false;
  }

  method EnabledPluginConfigKeys(text: string, plugin: string) returns (keys: seq<string>)
    ensures keys == Keys(plugin, Sections(text))
  {
    var sections := SplitSections(text);
    SectionsWellFormed(text);
    keys := [];
    for i := 0 to |sections|
      invariant keys == Keys(plugin, sections[..i])
    {
      var s := sections[i];
      KeysSnoc(plugin, sections, i);
      if HasPrefix(s.name, QUOTED + plugin + "@") && HasSuffix(s.name, "\"") {
        NamedSectionHasHeader(sections, i);
        var enabled := SectionEnabled(s.lines);
        if enabled {
          keys := keys + [TrimSuffix(TrimPrefix(s.name, QUOTED), "\"")];
        }
      }
    }
    assert sections[..|sections|] == sections;
  }

  lemma KeysSnoc(plugin: string, sections: seq<Section>, i: nat)
    requires i < |sections|
    ensures Keys(plugin, sections[..i + 1]) == Keys(plugin, sections[..i]) + KeyOf(plugin, sections[i])
  {
    assert sections[..i + 1] == sections[..i] + [sections[i]];
    FlatMapSnoc(s => KeyOf(plugin, s), sections[..i], sections[i]);
  }

  /** Only the preamble may be empty, and it has no name. */
  lemma {:induction false} NamedSectionHasHeader(sections: seq<Section>, i: nat)
    requires WellFormed(sections) && i < |sections|
    ensures Headed(sections[i]) || Leading(sections[i])
    ensures sections[i].name != "" ==> Headed(sections[i]) && sections[i].lines != []
  {
    if i < |sections| - 1 {
      NamedSectionHasHeader(sections[..|sections| - 1], i);
    }
  }

  // ----- The keys depend on the view only -------------------------------------------------------

  lemma {:induction false} BackKeepsEnabled(lines: seq<string>)
    requires lines != []
    ensures TrimBack(lines) != [] ==> (Enables(TrimBack(lines)[1..]) <==> Enables(lines[1..]))
  {
    var init, last := lines[..|lines| - 1], lines[|lines| - 1];
    if last == "" && init != [] {
      BackKeepsEnabled(init);
      assert lines[1..] == init[1..] + [last];
      EnablesSnoc(init[1..], last);
    }
  }

  lemma EnablesSnoc(lines: seq<string>, line: string)
    ensures Enables(lines + [line]) <==> Enables(lines) || TrimSpace(line) == "enabled = true"
  {
    var all := lines + [line];
    if Enables(lines) {
      var i :| 0 <= i < |lines| && TrimSpace(lines[i]) == "enabled = true";
      assert all[i] == lines[i];
    }
    assert all[|lines|] == line;
  }

  lemma KeyOfVisible(plugin: string, s: Section)
    requires Without(s.lines, '\n') && (Headed(s) || Leading(s))
    ensures Keys(plugin, Visible(s)) == KeyOf(plugin, s)
  {
    if Headed(s) {
      BodyKeepsHeader(s.lines);
      BackKeepsEnabled(s.lines);
      assert TrimFront(s.lines) == s.lines;
    }
    if Body(s.lines) != [] {
      FlatMapOne(s => KeyOf(plugin, s), Section(s.name, Body(s.lines)));
    }
  }

  lemma {:induction false} KeysByView(plugin: string, sections: seq<Section>)
    requires WellFormed(sections)
    ensures Keys(plugin, sections) == Keys(plugin, View(sections))
  {
    var f := s => KeyOf(plugin, s);
    var init, last := sections[..|sections| - 1], sections[|sections| - 1];
    LastSplit(sections);
    KeyOfVisible(plugin, last);
    FlatMapSnoc(f, init, last);
    FlatMapSnoc(Visible, init, last);
    FlatMapAppend(f, View(init), Visible(last));
    if init != [] {
      KeysByView(plugin, init);
    }
  }

  // ----- What an update does to the keys --------------------------------------------------------

  function Other(key: string, k: string): seq<string> {
    if k == key then [] else [k]
  }

  function OtherKeys(key: string, keys: seq<string>): seq<string> {
    FlatMap(k => Other(key, k), keys)
  }

  lemma Unquoted(name: string, prefix: string)
    requires prefix <= name && |prefix| < |name| && name[|name| - 1] == '\"'
    ensures name == prefix + TrimSuffix(TrimPrefix(name, prefix), "\"") + "\""
  {
    var rest := TrimPrefix(name, prefix);
    assert name == prefix + rest && rest[|rest| - 1] == '\"';
    LastSplit(rest);
  }

  lemma LongerThanPrefix(name: string, prefix: string, more: string)
    requires prefix + more <= name && more != ""
    ensures prefix <= name && |prefix| < |name|
  {
    assert prefix <= prefix + more;
  }

  /** A contributed key determines the section name. */
  lemma NameFromKey(plugin: string, s: Section)
    requires KeyOf(plugin, s) != []
    ensures s.name == QUOTED + KeyOf(plugin, s)[0] + "\""
  {
    assert QUOTED + plugin + "@" == QUOTED + (plugin + "@");
    LongerThanPrefix(s.name, QUOTED, plugin + "@");
    Unquoted(s.name, QUOTED);
  }

  lemma KeysOfOther(plugin: string, key: string, s: Section)
    ensures Keys(plugin, Without1(QUOTED + key + "\"", s)) == OtherKeys(key, KeyOf(plugin, s))
  {
    var keys := KeyOf(plugin, s);
    if s.name != QUOTED + key + "\"" {
      FlatMapOne(s => KeyOf(plugin, s), s);
    }
    if keys != [] {
      NameFromKey(plugin, s);
      FlatMapOne(k => Other(key, k), keys[0]);
      assert keys == [keys[0]];
    }
  }

  lemma {:induction false} KeysOfDrop(plugin: string, key: string, sections: seq<Section>)
    ensures Keys(plugin, Drop(sections, QUOTED + key + "\"")) == OtherKeys(key, Keys(plugin, sections))
  {
    if sections != [] {
      var f, name := s => KeyOf(plugin, s), QUOTED + key + "\"";
      var init, last := sections[..|sections| - 1], sections[|sections| - 1];
      LastSplit(sections);
      KeysOfDrop(plugin, key, init);
      DropSnoc(init, last, name);
      FlatMapAppend(f, Drop(init, name), Without1(name, last));
      FlatMapSnoc(f, init, last);
      FlatMapAppend(k => Other(key, k), Keys(plugin, init), KeyOf(plugin, last));
      KeysOfOther(plugin, key, last);
    }
  }

  lemma PluginNameParts(plugin: string, marketplace: string)
    ensures PluginName(plugin, marketplace) == QUOTED + PluginKey(plugin, marketplace) + "\""
  {
  }

  /** A section named after a key belongs to every plugin name that the key continues with an at sign. */
  lemma QuotedKeyParts(other: string, key: string)
    ensures var name := QUOTED + key + "\"";
            && HasSuffix(name, "\"") && TrimSuffix(TrimPrefix(name, QUOTED), "\"") == key
            && (HasPrefix(name, QUOTED + other + "@") <==> HasPrefix(key, other + "@"))
  {
    var name, rest := QUOTED + key + "\"", key + "\"";
    assert name[|QUOTED|..] == rest && name == QUOTED + rest;
    assert rest[..|key|] == key;
    PrefixBehind(QUOTED, other + "@", rest);
    EndsBeforeQuote(other + "@", key);
  }

  lemma PrefixBehind(q: string, p: string, rest: string)
    ensures q + p <= q + rest <==> p <= rest
  {
    var a, b := q + p, q + rest;
    assert a[|q|..] == p && b[|q|..] == rest;
    if p <= rest {
      assert rest == p + rest[|p|..];
    }
  }

  lemma EndsBeforeQuote(p: string, key: string)
    requires p != "" && p[|p| - 1] != '\"'
    ensures p <= key + "\"" <==> p <= key
  {
    if |p| <= |key| {
      assert (key + "\"")[..|p|] == key[..|p|];
    }
  }

  lemma PluginSectionKey(other: string, key: string)
    ensures KeyOf(other, PluginSection(QUOTED + key + "\"")) == if HasPrefix(key, other + "@") then [key] else []
  {
    var name := QUOTED + key + "\"";
    QuotedKeyParts(other, key);
    assert QUOTED + other + "@" == QUOTED + (other + "@");
    var lines := PluginSection(name).lines;
    assert lines[1..][0] == "enabled = true";
    var e := "enabled = true";
    assert LeadingSpace(e) == 0 && TrailingSpace(e) == 0;
  }

  /** A key that does not belong to the plugin name is not among its keys. */
  lemma {:induction false} ForeignKey(other: string, key: string, sections: seq<Section>)
    requires !HasPrefix(key, other + "@")
    ensures OtherKeys(key, Keys(other, sections)) == Keys(other, sections)
  {
    if sections != [] {
      var init, last := sections[..|sections| - 1], sections[|sections| - 1];
      LastSplit(sections);
      ForeignKey(other, key, init);
      FlatMapSnoc(s => KeyOf(other, s), init, last);
      FlatMapAppend(k => Other(key, k), Keys(other, init), KeyOf(other, last));
      ForeignSection(other, key, last);
    }
  }

  lemma ForeignSection(other: string, key: string, s: Section)
    requires !HasPrefix(key, other + "@")
    ensures OtherKeys(key, KeyOf(other, s)) == KeyOf(other, s)
  {
    var keys := KeyOf(other, s);
    if keys != [] {
      NameFromKey(other, s);
      QuotedKeyParts(other, keys[0]);
      assert QUOTED + other + "@" == QUOTED + (other + "@");
      FlatMapOne(k => Other(key, k), keys[0]);
      assert keys == [keys[0]];
    }
  }

  /** What an update does to the enabled keys of every plugin name: the updated key goes to the end of the lists it
      belongs to, which with an at sign in a name may be more than one, and every other key stays in its place. */
  lemma UpdateEnables(text: string, plugin: string, marketplace: string, other: string)
    requires '\n' !in plugin && '\n' !in marketplace
    ensures var key := PluginKey(plugin, marketplace);
            Keys(other, Sections(Updated(text, PluginName(plugin, marketplace)))) ==
              if HasPrefix(key, other + "@") then OtherKeys(key, Keys(other, Sections(text))) + [key]
              else Keys(other, Sections(text))
    ensures HasPrefix(PluginKey(plugin, marketplace), plugin + "@")
  {
    var name, key := PluginName(plugin, marketplace), PluginKey(plugin, marketplace);
    PluginNameParts(plugin, marketplace);
    KeysOfUpdated(text, key, name, other);
    PluginSectionKey(other, key);
    if !HasPrefix(key, other + "@") {
      ForeignKey(other, key, Sections(text));
    }
  }

  lemma KeysOfUpdated(text: string, key: string, name: string, other: string)
    requires name == QUOTED + key + "\"" && '\n' !in name
    ensures Keys(other, Sections(Updated(text, name))) ==
              OtherKeys(key, Keys(other, Sections(text))) + KeyOf(other, PluginSection(name))
  {
    var text' := Updated(text, name);
    UpdateShows(text, name);
    SectionsWellFormed(text);
    SectionsWellFormed(text');
    KeysByView(other, Sections(text));
    KeysByView(other, Sections(text'));
    FlatMapSnoc(s => KeyOf(other, s), Drop(View(Sections(text)), name), PluginSection(name));
    KeysOfDrop(other, key, View(Sections(text)));
  }
}
