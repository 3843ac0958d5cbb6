/** The capability advertisement of pkg/clientcapabilities: a bounded parser and a canonical printer for
    comma-separated tokens (sections 5.3, 5.6.1 and 5.6.2 of RFC 9110).
 */
module ClientCapabilities {
  import opened Text
  import opened SortedText

  const MAX_VALUE_BYTES := 4096
  const MAX_MEMBERS := 64
  const MAX_TOKEN_BYTES := 128

  /** tchar of section 5.6.2 of RFC 9110. */
  predicate IsTchar(c: char) {
    || 'a' <= c <= 'z' || 'A' <= c <= 'Z' || '0' <= c <= '9'
    || c == '!' || '#' <= c <= '\'' || c == '*' || c == '+' || c == '-' || c == '.'
    || '^' <= c <= '`' || c == '|' || c == '~'
  }

  /** Section 5.6.2 of RFC 9110 the other way round: any visible character except the delimiters. */
  lemma TcharIff(c: char)
    ensures IsTchar(c) <==> '!' <= c <= '~' && c !in "\"(),/:;<=>?@[\\]{}"
  {
  }

  predicate IsName(name: string) {
    0 < |name| <= MAX_TOKEN_BYTES && forall i :: 0 <= i < |name| ==> IsTchar(name[i])
  }

  /** A name has 1 to 128 characters, all of them visible and none a delimiter. */
  lemma NameIff(name: string)
    ensures IsName(name) <==>
              1 <= |name| <= 128
              && forall i :: 0 <= i < |name| ==> '!' <= name[i] <= '~' && name[i] !in "\"(),/:;<=>?@[\\]{}"
  {
    forall i | 0 <= i < |name| ensures IsTchar(name[i]) <==>
      '!' <= name[i] <= '~' && name[i] !in "\"(),/:;<=>?@[\\]{}"
    {
      TcharIff(name[i]);
    }
  }

  method ValidName(name: string) returns (ok: bool)
    ensures ok <==> IsName(name)
  {
    if |name| == 0 || |name| > MAX_TOKEN_BYTES {
      return false;
    }
    for i := 0 to |name|
      invariant forall j :: 0 <= j < i ==> IsTchar(name[j])
    {
      if !IsTchar(name[i]) {
        return false;
      }
    }
    return true;
  }

  // ----- The meaning of an advertisement --------------------------------------------------------

  /** The non-empty list members of some raw pieces, without their optional whitespace. */
  function NonEmpty(pieces: seq<string>): seq<string> {
    FlatMap(Member, pieces)
  }

  function Member(piece: string): seq<string> {
    var name := Trim(piece, " \t");
    if name == "" then [] else [name]
  }

  /** The combined field value: field lines joined by commas (section 5.3 of RFC 9110). */
  function Combined(values: seq<string>): string {
    Join(values, ",")
  }

  function Members(text: string): seq<string> {
    NonEmpty(Split(text, ','))
  }

  ghost predicate Acceptable(text: string) {
    && |text| <= MAX_VALUE_BYTES
    && |Members(text)| <= MAX_MEMBERS
    && forall i :: 0 <= i < |Members(text)| ==> IsName(Members(text)[i])
  }

  /** What an advertisement means: its members if all of it is acceptable, otherwise nothing. */
  ghost function Advertised(text: string): set<string> {
    if Acceptable(text) then Elements(Members(text)) else {}
  }

  // ----- Lemmas about field lines ---------------------------------------------------------------

  lemma {:induction false} CombinedLength(values: seq<string>)
    ensures |Combined(values)| == Lengths(values) + if values == [] then 0 else |values| - 1
  {
    if |values| > 1 {
      CombinedLength(values[..|values| - 1]);
      JoinSnoc(values, ",");
    }
  }

  lemma {:induction false} LengthsPrefix(values: seq<string>, n: nat)
    requires n <= |values|
    ensures Lengths(values[..n]) <= Lengths(values)
  {
    if n < |values| {
      LengthsPrefix(values[..|values| - 1], n);
      assert values[..|values| - 1][..n] == values[..n];
    } else {
      assert values[..n] == values;
    }
  }

  /** A comma separates members. */
  lemma MembersAtComma(text: string, value: string)
    ensures Members(text + "," + value) == Members(text) + Members(value)
  {
    SplitAt(text, value, ',');
    FlatMapAppend(Member, Split(text, ','), Split(value, ','));
  }

  /** One more field line contributes its own members. */
  lemma {:induction false} MembersSnoc(values: seq<string>, n: nat)
    requires n < |values|
    ensures Members(Combined(values[..n + 1])) ==
              (if n == 0 then [] else Members(Combined(values[..n]))) + NonEmpty(Split(values[n], ','))
  {
    var prefix := values[..n + 1];
    if n == 0 {
      assert prefix == [values[0]];
    } else {
      JoinSnoc(prefix, ",");
      assert prefix[..n] == values[..n];
      MembersAtComma(Combined(values[..n]), values[n]);
    }
  }

  /** The members of a prefix of the pieces are a prefix of the members of all. */
  lemma NonEmptyPrefix(pieces: seq<string>, n: nat)
    requires n <= |pieces|
    ensures NonEmpty(pieces[..n]) <= NonEmpty(pieces)
  {
    FlatMapAppend(Member, pieces[..n], pieces[n..]);
    assert pieces == pieces[..n] + pieces[n..];
  }

  lemma NonEmptySnoc(pieces: seq<string>, n: nat)
    requires n < |pieces|
    ensures NonEmpty(pieces[..n + 1]) == NonEmpty(pieces[..n]) + Member(pieces[n])
  {
    FlatMapAppend(Member, pieces[..n], [pieces[n]]);
    assert pieces[..n + 1] == pieces[..n] + [pieces[n]];
    assert FlatMap(Member, [pieces[n]]) == Member(pieces[n]);
  }

  /** Later field lines only add members. */
  lemma {:induction false} MembersPrefix(values: seq<string>, n: nat)
    requires 0 < n <= |values|
    ensures Members(Combined(values[..n])) <= Members(Combined(values))
    decreases |values| - n
  {
    if n < |values| {
      MembersSnoc(values, n);
      MembersPrefix(values, n + 1);
    } else {
      assert values[..n] == values;
    }
  }

  // ----- Parse ----------------------------------------------------------------------------------

  /** The size check: `total` starts with one comma between field values. */
  method WithinSize(values: seq<string>) returns (ok: bool)
    ensures ok <==> |Combined(values)| <= MAX_VALUE_BYTES
  {
    CombinedLength(values);
    if |values| > MAX_VALUE_BYTES + 1 {
      return false;
    }
    var total: int := if |values| == 0 then 0 else |values| - 1;
    ghost var commas := total;
    for i := 0 to |values|
      invariant total == commas + Lengths(values[..i]) <= MAX_VALUE_BYTES
    {
      assert values[..i + 1][..i] == values[..i];
      if |values[i]| > MAX_VALUE_BYTES - total {
        LengthsPrefix(values, i + 1);
        return false;
      }
      total := total + |values[i]|;
    }
    assert values[..|values|] == values;
    return true;
  }

  /** Are `ms`, after `members` others, few enough and all valid? */
  ghost predicate Admissible(ms: seq<string>, members: nat) {
    && members + |ms| <= MAX_MEMBERS
    && forall i :: 0 <= i < |ms| ==> IsName(ms[i])
  }

  /** The inner loop of Parse, over the members of one field value. */
  method AddMembers(value: string, names: set<string>, members: nat)
    returns (ok: bool, names': set<string>, members': nat)
    requires members <= MAX_MEMBERS
    ensures ok <==> Admissible(NonEmpty(Split(value, ',')), members)
    ensures ok ==> names' == names + Elements(NonEmpty(Split(value, ',')))
    ensures ok ==> members' == members + |NonEmpty(Split(value, ','))|
  {
    var pieces := Split(value, ',');
    names', members' := names, members;
    for j := 0 to |pieces|
      invariant members' == members + |NonEmpty(pieces[..j])|
      invariant names' == names + Elements(NonEmpty(pieces[..j]))
      invariant Admissible(NonEmpty(pieces[..j]), members)
    {
      AdmissibleStep(pieces, j, members);
      var name := Trim(pieces[j], " \t");
      if name != "" {
        members' := members' + 1;
        var valid := ValidName(name);
        if members' > MAX_MEMBERS || !valid {
          return false, {}, 0;
        }
        names' := names' + {name};
      }
    }
    assert pieces[..|pieces|] == pieces;
    return true, names', members';
  }

  /** One more piece: what it adds, and when it spoils everything. */
  lemma AdmissibleStep(pieces: seq<string>, j: nat, members: nat)
    requires j < |pieces| && Admissible(NonEmpty(pieces[..j]), members)
    ensures var before, after, name := NonEmpty(pieces[..j]), NonEmpty(pieces[..j + 1]), Trim(pieces[j], " \t");
            if name == "" then after == before
            else after == before + [name] && Elements(after) == Elements(before) + {name}
                 && (Admissible(after, members) <==> members + |after| <= MAX_MEMBERS && IsName(name))
                 && (!Admissible(after, members) ==> !Admissible(NonEmpty(pieces), members))
  {
    var before, after, name := NonEmpty(pieces[..j]), NonEmpty(pieces[..j + 1]), Trim(pieces[j], " \t");
    NonEmptySnoc(pieces, j);
    NonEmptyPrefix(pieces, j + 1);
    if name == "" {
      assert before + [] == before;
    } else {
      ElementsConcat(before, [name]);
      assert after[|before|] == name;
      SpoiltPrefix(after, NonEmpty(pieces), members);
    }
  }

  lemma SpoiltPrefix(a: seq<string>, b: seq<string>, members: nat)
    requires a <= b
    ensures Admissible(b, members) ==> Admissible(a, members)
  {
  }

  lemma AdmissibleAppend(a: seq<string>, b: seq<string>)
    ensures Admissible(a + b, 0) <==> Admissible(a, 0) && Admissible(b, |a|)
    ensures Elements(a + b) == Elements(a) + Elements(b)
  {
    if Admissible(a + b, 0) {
      assert forall i :: 0 <= i < |a| ==> a[i] == (a + b)[i];
      assert forall i :: 0 <= i < |b| ==> b[i] == (a + b)[|a| + i];
    }
  }

  lemma AdmissiblePrefix(a: seq<string>, b: seq<string>)
    requires a <= b && Admissible(b, 0)
    ensures Admissible(a, 0)
  {
  }

  /** Parse: the set of names advertised by the field values of one header. */
  method Parse(values: seq<string>) returns (names: set<string>)
    ensures names == Advertised(Combined(values))
  {
    var fits := WithinSize(values);
    if !fits {
      return {};
    }
    names := {};
    var members := 0;
    ghost var seen: seq<string> := [];
    for i := 0 to |values|
      invariant seen == if i == 0 then [] else Members(Combined(values[..i]))
      invariant members == |seen| && names == Elements(seen) && Admissible(seen, 0)
    {
      MembersSnoc(values, i);
      MembersPrefix(values, i + 1);
      ghost var line := NonEmpty(Split(values[i], ','));
      AdmissibleAppend(seen, line);
      var ok, names', members' := AddMembers(values[i], names, members);
      if !ok {
        if Acceptable(Combined(values)) {
          AdmissiblePrefix(seen + line, Members(Combined(values)));
        }
        return {};
      }
      names, members, seen := names', members', seen + line;
    }
    assert values[..|values|] == values;
  }

  function LineMembers(value: string): seq<string> {
    NonEmpty(Split(value, ','))
  }

  /** The members field line by field line, without ever joining the lines. */
  ghost function AllMembers(values: seq<string>): seq<string> {
    FlatMap(LineMembers, values)
  }

  /** The header read line by line: its bytes and one comma between lines, all members, all of them names. */
  ghost function ByLines(values: seq<string>): set<string> {
    var bytes := Lengths(values) + if values == [] then 0 else |values| - 1;
    if bytes <= MAX_VALUE_BYTES && Admissible(AllMembers(values), 0) then Elements(AllMembers(values)) else {}
  }

  lemma {:induction false} MembersByLines(values: seq<string>)
    ensures Members(Combined(values)) == AllMembers(values)
  {
    if values == [] {
      assert Split(Combined([]), ',') == [""];
      FlatMapOne(Member, "");
    } else {
      var n := |values| - 1;
      MembersSnoc(values, n);
      assert values[..n + 1] == values;
      MembersByLines(values[..n]);
    }
  }

  /** Splitting the header over field lines does not matter (sections 5.3 and 5.6.1 of RFC 9110): reading line by
      line, reading the combined value, and reading that value as the only line all give the same names, every
      limit included; one member that is not a name voids everything. */
  lemma {:induction false} FieldLinesDoNotMatter(values: seq<string>)
    ensures ByLines(values) == Advertised(Combined(values)) == ByLines([Combined(values)])
    ensures (exists i :: 0 <= i < |AllMembers(values)| && !IsName(AllMembers(values)[i])) ==> ByLines(values) == {}
  {
    MembersByLines(values);
    MembersByLines([Combined(values)]);
    CombinedLength(values);
    CombinedLength([Combined(values)]);
  }

  // ----- Format ---------------------------------------------------------------------------------

  function CanonicalNames(names: seq<string>): seq<string> {
    Compact(Sort(names))
  }

  datatype Formatted = Text(value: string) | TooMany | InvalidName | TooLong

  /** Format: the canonical advertisement, or why there is none. */
  method Format(names: seq<string>) returns (r: Formatted)
    ensures r == TooMany <==> |names| > MAX_MEMBERS
    ensures r == InvalidName <==> |names| <= MAX_MEMBERS && exists i :: 0 <= i < |names| && !IsName(names[i])
    ensures r == TooLong <==>
              && |names| <= MAX_MEMBERS
              && (forall i :: 0 <= i < |names| ==> IsName(names[i]))
              && |Combined(CanonicalNames(names))| > MAX_VALUE_BYTES
    ensures r.Text? ==> r.value == Combined(CanonicalNames(names))
  {
    if |names| > MAX_MEMBERS {
      return TooMany;
    }
    for i := 0 to |names|
      invariant forall j :: 0 <= j < i ==> IsName(names[j])
    {
      var valid := ValidName(names[i]);
      if !valid {
        return InvalidName;
      }
    }
    var value := Join(CanonicalNames(names), ",");
    if |value| > MAX_VALUE_BYTES {
      return TooLong;
    }
    return Text(value);
  }

  lemma CanonicalFacts(names: seq<string>)
    ensures StrictlyAscending(CanonicalNames(names))
    ensures Elements(CanonicalNames(names)) == Elements(names)
    ensures Distinct(CanonicalNames(names))
  {
    SortFacts(names);
    CompactFacts(Sort(names));
    StrictIsDistinct(CanonicalNames(names));
  }

  /** Two lists of the same names, in any order and with any repetition, format to the same text. */
  lemma FormatIsCanonical(a: seq<string>, b: seq<string>)
    requires Elements(a) == Elements(b)
    ensures CanonicalNames(a) == CanonicalNames(b)
    ensures Combined(CanonicalNames(a)) == Combined(CanonicalNames(b))
  {
    CanonicalFacts(a);
    CanonicalFacts(b);
    AscendingUnique(CanonicalNames(a), CanonicalNames(b));
  }

  // ----- Parse after Format ---------------------------------------------------------------------

  lemma NameIsOwnMember(name: string)
    requires IsName(name)
    ensures Member(name) == [name]
    ensures ',' !in name
  {
    assert IsTchar(name[0]) && IsTchar(name[|name| - 1]);
    assert TrimLeft(name, " \t") == name;
  }

  lemma {:induction false} NamesAreOwnMembers(ns: seq<string>)
    requires forall i :: 0 <= i < |ns| ==> IsName(ns[i])
    ensures NonEmpty(ns) == ns && Without(ns, ',')
  {
    if ns != [] {
      NamesAreOwnMembers(ns[..|ns| - 1]);
      NameIsOwnMember(ns[|ns| - 1]);
    }
  }

  lemma {:induction false} DistinctCount(ns: seq<string>, ms: seq<string>)
    requires Distinct(ns) && forall x :: x in ns ==> x in ms
    ensures |ns| <= |ms| && Lengths(ns) <= Lengths(ms)
  {
    if ns != [] {
      var init, x := ns[..|ns| - 1], ns[|ns| - 1];
      assert x in ns;
      var i :| 0 <= i < |ms| && ms[i] == x;
      var others := ms[..i] + ms[i + 1..];
      forall y | y in init ensures y in others {
        assert y in ns;
        var k :| 0 <= k < |ms| && ms[k] == y;
        assert k != i;
        assert y == if k < i then others[k] else others[k - 1];
      }
      DistinctCount(init, others);
      LengthsAppend(ms[..i], ms[i + 1..]);
      LengthsAppend(ms[..i], [x]);
      LengthsAppend(ms[..i] + [x], ms[i + 1..]);
      assert ms == ms[..i] + [x] + ms[i + 1..];
    }
  }

  lemma {:induction false} NonEmptyShrinks(pieces: seq<string>)
    ensures |NonEmpty(pieces)| <= |pieces| && Lengths(NonEmpty(pieces)) <= Lengths(pieces)
  {
    if pieces != [] {
      var init, last := pieces[..|pieces| - 1], pieces[|pieces| - 1];
      NonEmptyShrinks(init);
      LengthsAppend(NonEmpty(init), Member(last));
      TrimShrinks(last);
    }
  }

  lemma TrimShrinks(piece: string)
    ensures |Member(piece)| <= 1 && Lengths(Member(piece)) <= |piece|
  {
    var name := Trim(piece, " \t");
    assert Lengths([]) == 0;
    assert [name][..0] == [] && Lengths([name]) == |name|;
  }

  lemma MembersOfNames(ns: seq<string>)
    requires forall i :: 0 <= i < |ns| ==> IsName(ns[i])
    ensures Members(Combined(ns)) == ns
  {
    NamesAreOwnMembers(ns);
    if ns == [] {
      assert Members("") == [];
    } else {
      SplitOfJoin(ns, ',');
    }
  }

  lemma AcceptsNames(ns: seq<string>, text: string)
    requires Members(text) == ns && |text| <= MAX_VALUE_BYTES && |ns| <= MAX_MEMBERS
    requires forall i :: 0 <= i < |ns| ==> IsName(ns[i])
    ensures Advertised(text) == Elements(ns)
  {
  }

  /** What Format prints, Parse reads back: exactly the names given. */
  lemma RoundTrip(names: seq<string>)
    requires |names| <= MAX_MEMBERS && forall i :: 0 <= i < |names| ==> IsName(names[i])
    requires |Combined(CanonicalNames(names))| <= MAX_VALUE_BYTES
    ensures Advertised(Combined([Combined(CanonicalNames(names))])) == Elements(names)
  {
    var ns := CanonicalNames(names);
    CanonicalFacts(names);
    forall x | x in ns ensures x in names && IsName(x) {
      assert x in Elements(ns);
    }
    DistinctCount(ns, names);
    MembersOfNames(ns);
    AcceptsNames(ns, Combined(ns));
  }

  /** Whatever Parse accepts can be printed again: the distinct names of a parse result stay within
      every limit of Format, in any order. */
  lemma ParsedNamesFormat(text: string, names: seq<string>)
    requires Distinct(names) && Elements(names) == Advertised(text)
    ensures |names| <= MAX_MEMBERS
    ensures forall i :: 0 <= i < |names| ==> IsName(names[i])
    ensures |Combined(CanonicalNames(names))| <= MAX_VALUE_BYTES
  {
    if names == [] {
      assert CanonicalNames(names) == [];
    } else {
      assert names[0] in Elements(names);
      assert Acceptable(text);
      var ms, ns, pieces := Members(text), CanonicalNames(names), Split(text, ',');
      forall x | x in names ensures x in ms && IsName(x) {
        assert x in Elements(names);
      }
      DistinctCount(names, ms);
      CanonicalFacts(names);
      forall x | x in ns ensures x in ms {
        assert x in Elements(ns);
      }
      DistinctCount(ns, ms);
      NonEmptyShrinks(pieces);
      JoinOfSplit(text, ',');
      CombinedLength(pieces);
      CombinedLength(ns);
    }
  }

  // ----- Optional white space and empty members -------------------------------------------------

  ghost predicate IsPadding(s: string) {
    forall i :: 0 <= i < |s| ==> s[i] == ' ' || s[i] == '\t'
  }

  /** A member of an advertisement, with the white space around it; without a name it is empty. */
  datatype Padded = Padded(before: string, name: string, after: string)

  ghost predicate IsPadded(p: Padded) {
    IsPadding(p.before) && IsPadding(p.after) && (p.name == "" || IsName(p.name))
  }

  function TextOf(p: Padded): string {
    p.before + p.name + p.after
  }

  function Texts(ps: seq<Padded>): seq<string> {
    FlatMap((p: Padded) => [TextOf(p)], ps)
  }

  function NameOf(p: Padded): seq<string> {
    if p.name == "" then [] else [p.name]
  }

  lemma {:induction false} TrimLeftPadding(pad: string, rest: string)
    requires IsPadding(pad) && (rest == "" || rest[0] !in " \t")
    ensures TrimLeft(pad + rest, " \t") == rest
  {
    if pad == "" {
      assert pad + rest == rest;
    } else {
      assert pad[0] in " \t";
      assert (pad + rest)[1..] == pad[1..] + rest;
      TrimLeftPadding(pad[1..], rest);
    }
  }

  lemma {:induction false} TrimRightPadding(rest: string, pad: string)
    requires IsPadding(pad) && (rest == "" || rest[|rest| - 1] !in " \t")
    ensures TrimRight(rest + pad, " \t") == rest
  {
    if pad == "" {
      assert rest + pad == rest;
    } else {
      assert pad[|pad| - 1] in " \t";
      assert (rest + pad)[..|rest + pad| - 1] == rest + pad[..|pad| - 1];
      TrimRightPadding(rest, pad[..|pad| - 1]);
    }
  }

  lemma PaddedMember(p: Padded)
    requires IsPadded(p)
    ensures Member(TextOf(p)) == NameOf(p) && ',' !in TextOf(p)
  {
    if p.name == "" {
      var pad := p.before + p.after;
      assert TextOf(p) == pad;
      assert IsPadding(pad);
      TrimLeftPadding(pad, "");
      assert pad + "" == pad;
    } else {
      assert IsTchar(p.name[0]) && IsTchar(p.name[|p.name| - 1]);
      assert TextOf(p) == p.before + (p.name + p.after);
      TrimLeftPadding(p.before, p.name + p.after);
      TrimRightPadding(p.name, p.after);
    }
  }

  lemma {:induction false} PaddedMembers(ps: seq<Padded>)
    requires forall i :: 0 <= i < |ps| ==> IsPadded(ps[i])
    ensures NonEmpty(Texts(ps)) == FlatMap(NameOf, ps) && Without(Texts(ps), ',') && |Texts(ps)| == |ps|
  {
    if ps != [] {
      var init, last := ps[..|ps| - 1], ps[|ps| - 1];
      var one := (p: Padded) => [TextOf(p)];
      PaddedMembers(init);
      PaddedMember(last);
      FlatMapSnoc(one, init, last);
      FlatMapSnoc(Member, Texts(init), TextOf(last));
      FlatMapSnoc(NameOf, init, last);
      assert ps == init + [last];
    }
  }

  /** However names are padded with white space and mixed with empty members: within the limits the advertisement is
      read as exactly these names, and beyond them as none. */
  lemma PaddingDoesNotMatter(ps: seq<Padded>)
    requires ps != [] && forall i :: 0 <= i < |ps| ==> IsPadded(ps[i])
    ensures var text, names := Join(Texts(ps), ","), FlatMap(NameOf, ps);
            Advertised(text) == if |text| <= 4096 && |names| <= 64 then Elements(names) else {}
  {
    PaddedMembers(ps);
    SplitOfJoin(Texts(ps), ',');
    NamesAreNames(ps);
  }

  lemma {:induction false} NamesAreNames(ps: seq<Padded>)
    requires forall i :: 0 <= i < |ps| ==> IsPadded(ps[i])
    ensures forall i :: 0 <= i < |FlatMap(NameOf, ps)| ==> IsName(FlatMap(NameOf, ps)[i])
  {
    if ps != [] {
      var init, last := ps[..|ps| - 1], ps[|ps| - 1];
      NamesAreNames(init);
      FlatMapSnoc(NameOf, init, last);
      assert ps == init + [last] && IsPadded(last);
    }
  }
}
