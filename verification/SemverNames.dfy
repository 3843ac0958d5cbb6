/** Names of installed plugin versions (pkg/codexplugin/codexplugin.go) against Semantic Versioning 2.0.0:
    what a name means with numbers of any size, and when the comparison of two directories follows section 11.
 */
module SemverNames {
  import opened Wrappers
  import opened Text
  import opened MaxScan
  import opened PluginVersions

  // ----- Names with numbers of any size ---------------------------------------------------------

  function Numeral(raw: string): Option<nat> {
    if IsNumeric(raw) then Some(Decimal(raw)) else None
  }

  /** The version that a name stands for, whatever fits an int. */
  function NamedVersion(raw: string): Option<Version> {
    ParseWith(Numeral, raw)
  }

  predicate FitsInt(v: Version) {
    v.major <= MAX_INT && v.minor <= MAX_INT && v.patch <= MAX_INT
  }

  /** The code reads a name exactly when its three core numbers fit an int, and then reads it right. */
  lemma ParsesIff(raw: string)
    ensures var v := NamedVersion(raw); ParseVersion(raw) == if v.Some? && FitsInt(v.value) then v else None
  {
  }

  ghost predicate IsVersionName(raw: string) {
    && NamedVersion(raw).Some?
    && AllValid(Split(NamedVersion(raw).value.prerelease, '.'))
  }

  /** Exactly when the comparison of two directories follows section 11 of Semantic Versioning 2.0.0: with core
      numbers that fit an int, when the prereleases do; with one that does not, when the modification times, or
      else the bytes of the names, happen to agree. Names of equal precedence are told apart by the latter. */
  lemma NamesFollowSemverIff(l: Candidate, r: Candidate)
    requires IsVersionName(l.version) && IsVersionName(r.version)
    ensures var v, w := NamedVersion(l.version).value, NamedVersion(r.version).value;
            if SemverCompare(v, w) == 0 then CompareCandidates(l, r) == CompareDates(l, r)
            else CompareCandidates(l, r) == SemverCompare(v, w) <==>
                 if FitsInt(v) && FitsInt(w) then VersionsFollowSemver(v, w)
                 else CompareDates(l, r) == SemverCompare(v, w)
  {
    ParsesIff(l.version);
    ParsesIff(r.version);
    VersionIsSemverIff(NamedVersion(l.version).value, NamedVersion(r.version).value);
  }

  // ----- The grammar of valid names -------------------------------------------------------------

  /** A version as section 2, 9 and 10 of Semantic Versioning 2.0.0 write it. */
  datatype Name = Name(core: seq<string>, prerelease: seq<string>, build: seq<string>)

  predicate IsIdentifierChar(c: char) {
    '0' <= c <= '9' || 'a' <= c <= 'z' || 'A' <= c <= 'Z' || c == '-'
  }

  predicate IsIdentifier(id: string) {
    id != "" && forall i :: 0 <= i < |id| ==> IsIdentifierChar(id[i])
  }

  ghost predicate IsValidName(n: Name) {
    && |n.core| == 3
    && (forall i :: 0 <= i < |n.core| ==> IsNumeric(n.core[i]))
    && (forall i :: 0 <= i < |n.prerelease| ==> IsIdentifier(n.prerelease[i]))
    && (forall i :: 0 <= i < |n.build| ==> IsIdentifier(n.build[i]))
    && AllValid(n.core) && AllValid(n.prerelease)
  }

  function Print(n: Name): string {
    Join(n.core, ".") + Suffix('-', n.prerelease) + Suffix('+', n.build)
  }

  function Suffix(mark: char, ids: seq<string>): string {
    if ids == [] then "" else [mark] + Join(ids, ".")
  }

  function Meaning(n: Name): Version
    requires IsValidName(n)
  {
    Version(Decimal(n.core[0]), Decimal(n.core[1]), Decimal(n.core[2]), Join(n.prerelease, "."))
  }

  /** Printed names have nothing to trim, and are cut where they were joined. */
  lemma PrintedIsTrimmed(n: Name)
    requires IsValidName(n)
    ensures var s := Print(n); s != "" && TrimSpace(TrimPrefix(s, "v")) == s
  {
    var s := Print(n);
    CoreText(n.core);
    IdentifierText(n.prerelease);
    IdentifierText(n.build);
    assert s[0] == Join(n.core, ".")[0];
    assert Graphic(s[|s| - 1]);
    NothingToTrim(s);
  }

  lemma PrintedIsCut(n: Name)
    requires IsValidName(n)
    ensures var core := Join(n.core, ".");
            && Cut(Print(n), '+').0 == core + Suffix('-', n.prerelease)
            && Cut(core + Suffix('-', n.prerelease), '-') == (core, Join(n.prerelease, "."))
            && Split(core, '.') == n.core
  {
    var core := Join(n.core, ".");
    CoreText(n.core);
    IdentifierText(n.prerelease);
    CutSuffix(core + Suffix('-', n.prerelease), '+', n.build);
    CutSuffix(core, '-', n.prerelease);
    SplitOfJoin(n.core, '.');
  }

  lemma PrereleaseIsSplit(n: Name)
    requires IsValidName(n)
    ensures AllValid(Split(Join(n.prerelease, "."), '.'))
  {
    IdentifierText(n.prerelease);
    if n.prerelease != [] {
      SplitOfJoin(n.prerelease, '.');
    }
  }

  /** Every valid name is read as what it stands for; no number is too large and no build metadata matters. */
  lemma ValidNameMeans(n: Name)
    requires IsValidName(n)
    ensures NamedVersion(Print(n)) == Some(Meaning(n)) && IsVersionName(Print(n))
  {
    PrintedIsTrimmed(n);
    PrintedIsCut(n);
    PrereleaseIsSplit(n);
    CutsMean(Print(n), Join(n.core, "."), n.core, Join(n.prerelease, "."));
  }

  lemma CutsMean(s: string, core: string, parts: seq<string>, prerelease: string)
    requires s != "" && TrimSpace(TrimPrefix(s, "v")) == s && Cut(Cut(s, '+').0, '-') == (core, prerelease)
    requires Split(core, '.') == parts && |parts| == 3
    requires IsNumeric(parts[0]) && IsNumeric(parts[1]) && IsNumeric(parts[2])
    ensures NamedVersion(s) ==
            Some(Version(Decimal(parts[0]), Decimal(parts[1]), Decimal(parts[2]), prerelease))
  {
  }

  lemma {:induction false} JoinKeeps(parts: seq<string>, ok: char -> bool)
    requires ok('.') && forall i, j :: 0 <= i < |parts| && 0 <= j < |parts[i]| ==> ok(parts[i][j])
    ensures forall j :: 0 <= j < |Join(parts, ".")| ==> ok(Join(parts, ".")[j])
  {
    if |parts| > 1 {
      assert forall i :: 0 <= i < |parts[1..]| ==> parts[1..][i] == parts[i + 1];
      JoinKeeps(parts[1..], ok);
    }
  }

  lemma CoreText(core: seq<string>)
    requires |core| == 3 && forall i :: 0 <= i < |core| ==> IsNumeric(core[i])
    ensures var s := Join(core, "."); s != "" && '0' <= s[0] <= '9' && '-' !in s && '+' !in s
    ensures var s := Join(core, "."); forall j :: 0 <= j < |s| ==> Graphic(s[j])
    ensures Without(core, '.')
  {
    JoinKeeps(core, c => '0' <= c <= '9' || c == '.');
  }

  lemma IdentifierText(ids: seq<string>)
    requires forall i :: 0 <= i < |ids| ==> IsIdentifier(ids[i])
    ensures var s := Join(ids, "."); '+' !in s && forall j :: 0 <= j < |s| ==> Graphic(s[j])
    ensures Without(ids, '.')
  {
    JoinKeeps(ids, c => IsIdentifierChar(c) || c == '.');
  }

  lemma {:induction false} CutAt(a: string, b: string, sep: char)
    requires sep !in a
    ensures Cut(a + [sep] + b, sep) == (a, b)
  {
    var t := a + [sep] + b;
    if a == "" {
      assert t[1..] == b;
    } else {
      assert t[1..] == a[1..] + [sep] + b;
      CutAt(a[1..], b, sep);
      assert t[0] == a[0] && a == [a[0]] + a[1..];
    }
  }

  lemma {:induction false} CutWhole(s: string, sep: char)
    requires sep !in s
    ensures Cut(s, sep) == (s, "")
  {
    if s != "" {
      CutWhole(s[1..], sep);
      assert s == [s[0]] + s[1..];
    }
  }

  lemma CutSuffix(a: string, mark: char, ids: seq<string>)
    requires mark !in a
    ensures Cut(a + Suffix(mark, ids), mark) == (a, Join(ids, "."))
  {
    if ids == [] {
      assert a + Suffix(mark, ids) == a;
      CutWhole(a, mark);
    } else {
      assert a + Suffix(mark, ids) == a + [mark] + Join(ids, ".");
      CutAt(a, Join(ids, "."), mark);
    }
  }

  // ----- Names that the code orders the other way round -----------------------------------------

  /** Of two valid names the first is lower by section 11, and the code has it higher. */
  ghost predicate Misordered(l: Candidate, r: Candidate) {
    && IsVersionName(l.version) && IsVersionName(r.version)
    && SemverCompare(NamedVersion(l.version).value, NamedVersion(r.version).value) < 0 < CompareCandidates(l, r)
  }

  lemma Beyond64Bits(s: string)
    requires IsNumeric(s) && s[0] != '0' && |s| >= 20
    ensures IsHuge(s) && IsValidIdentifier(s)
  {
    DecimalAtLeast(s);
    Pow10Monotone(19, |s| - 1);
    TenToThe19();
  }

  lemma JoinThree(a: string, b: string, c: string)
    ensures Join([a, b, c], ".") == a + "." + b + "." + c
  {
    JoinCons(b, [c], ".");
    JoinCons(a, [b, c], ".");
    assert [a] + [b, c] == [a, b, c] && [b] + [c] == [b, c];
  }

  lemma OneDigit(d: string)
    requires |d| == 1 && AllDigits(d)
    ensures Decimal(d) == d[0] as int - '0' as int && IsValidIdentifier(d)
  {
    assert d[..|d| - 1] == "" && Decimal("") == 0;
  }

  /** The name with core d.0.0 and these prerelease identifiers. */
  function ShortName(d: string, pre: seq<string>): Name {
    Name([d, "0", "0"], pre, [])
  }

  lemma ShortIsValid(d: string, pre: seq<string>)
    requires IsNumeric(d) && IsValidIdentifier(d) && AllValid(pre)
    requires forall i :: 0 <= i < |pre| ==> IsIdentifier(pre[i])
    ensures IsValidName(ShortName(d, pre)) && Meaning(ShortName(d, pre)) == Version(Decimal(d), 0, 0, Join(pre, "."))
  {
    OneDigit("0");
  }

  lemma ShortNameMeans(d: string, pre: seq<string>, s: string)
    requires IsNumeric(d) && IsValidIdentifier(d) && AllValid(pre)
    requires forall i :: 0 <= i < |pre| ==> IsIdentifier(pre[i])
    requires s == Print(ShortName(d, pre))
    ensures NamedVersion(s) == Some(Version(Decimal(d), 0, 0, Join(pre, "."))) && IsVersionName(s)
  {
    ShortIsValid(d, pre);
    ValidNameMeans(ShortName(d, pre));
  }

  lemma SpellShort(d: string, pre: seq<string>)
    ensures Print(ShortName(d, pre)) == d + ".0.0" + Suffix('-', pre)
  {
    JoinThree(d, "0", "0");
    assert d + "." + "0" + "." + "0" == d + ".0.0";
  }

  // ----- ... by a core number beyond 64 bits ----------------------------------------------------

  /** A name d.0.0, as text. */
  lemma CoreName(d: string, s: string)
    requires IsNumeric(d) && IsValidIdentifier(d) && s == d + ".0.0"
    ensures NamedVersion(s) == Some(Version(Decimal(d), 0, 0, "")) && IsVersionName(s)
  {
    SpellShort(d, []);
    assert d + ".0.0" + Suffix('-', []) == s;
    ShortNameMeans(d, [], s);
  }

  lemma HugeName(huge: string, s: string)
    requires IsNumeric(huge) && huge[0] != '0' && |huge| >= 20 && s == huge + ".0.0"
    ensures IsVersionName(s) && NamedVersion(s).value.major > MAX_INT
  {
    Beyond64Bits(huge);
    CoreName(huge, s);
  }

  predicate IsSmallName(s: string) {
    |s| == 5 && '0' <= s[0] <= '9' && s[1] == '.' && s[2] == '0' && s[3] == '.' && s[4] == '0'
  }

  lemma SmallName(s: string)
    requires IsSmallName(s)
    ensures NamedVersion(s) == Some(Version(s[0] as int - '0' as int, 0, 0, "")) && IsVersionName(s)
  {
    var d := [s[0]];
    OneDigit(d);
    assert s == d + ".0.0";
    CoreName(d, s);
  }

  /** The higher version in the older directory is taken for the lower one. */
  lemma HugeCoreIsMisordered() returns (l: Candidate, r: Candidate)
    ensures l == Candidate("99999999999999999999.0.0", 1) && r == Candidate("1.0.0", 2)
    ensures Misordered(r, l)
  {
    l, r := Candidate("99999999999999999999.0.0", 1), Candidate("1.0.0", 2);
    MisorderedByDate("99999999999999999999", l, r);
  }

  lemma MisorderedByDate(huge: string, l: Candidate, r: Candidate)
    requires IsNumeric(huge) && huge[0] != '0' && |huge| >= 20 && l.version == huge + ".0.0"
    requires IsSmallName(r.version) && l.modTime < r.modTime
    ensures Misordered(r, l)
  {
    HugeName(huge, l.version);
    SmallName(r.version);
    OlderIsTakenForLower(l, r);
  }

  lemma OlderIsTakenForLower(l: Candidate, r: Candidate)
    requires IsVersionName(l.version) && IsVersionName(r.version) && l.modTime < r.modTime
    requires NamedVersion(r.version).value.major <= MAX_INT < NamedVersion(l.version).value.major
    ensures Misordered(r, l)
  {
    UnreadByDate(r, l);
  }

  lemma UnreadByDate(l: Candidate, r: Candidate)
    requires NamedVersion(r.version).Some? && !FitsInt(NamedVersion(r.version).value)
    ensures CompareCandidates(l, r) == CompareDates(l, r)
  {
    ParsesIff(r.version);
    DatesDecide(l, ParseVersion(l.version), r, ParseVersion(r.version));
  }

  lemma DatesDecide(l: Candidate, lv: Option<Version>, r: Candidate, rv: Option<Version>)
    requires lv.None? || rv.None?
    ensures CompareParsed(l, lv, r, rv) == CompareDates(l, r)
  {
  }

  // ----- ... and by a prerelease number beyond 64 bits ------------------------------------------

  lemma PrereleaseText(one: string, pre: seq<string>, a: string)
    requires |one| == 1 && one[0] == '1' && pre == [a]
    ensures Print(ShortName(one, pre)) == "1.0.0-" + a && Join(pre, ".") == a
  {
    SpellShort(one, pre);
    assert one + ".0.0" + Suffix('-', pre) == "1.0.0-" + a;
  }

  lemma ListOfOne(pre: seq<string>, a: string)
    requires pre == [a] && IsIdentifier(a) && IsValidIdentifier(a)
    ensures AllValid(pre) && forall i :: 0 <= i < |pre| ==> IsIdentifier(pre[i])
  {
  }

  lemma FitsAndParses(s: string, v: Version)
    requires NamedVersion(s) == Some(v) && FitsInt(v)
    ensures ParseVersion(s) == Some(v)
  {
    ParsesIff(s);
  }

  /** A prerelease of 1.0.0 with one identifier, as text. */
  lemma PrereleaseName(one: string, a: string, s: string)
    requires |one| == 1 && one[0] == '1' && IsIdentifier(a) && IsValidIdentifier(a) && s == "1.0.0-" + a
    ensures IsVersionName(s) && NamedVersion(s) == Some(Version(1, 0, 0, a))
  {
    var pre := [a];
    OneDigit(one);
    ListOfOne(pre, a);
    PrereleaseText(one, pre, a);
    ShortNameMeans(one, pre, s);
  }

  /** The identifiers decide, whatever the dates. */
  lemma PrereleaseDecides(a: string, b: string, l: Candidate, r: Candidate)
    requires IsIdentifier(a) && IsIdentifier(b) && SemverIdentifier(a, b) < 0 < CompareIdentifier(a, b)
    requires IsVersionName(l.version) && NamedVersion(l.version) == Some(Version(1, 0, 0, a))
    requires IsVersionName(r.version) && NamedVersion(r.version) == Some(Version(1, 0, 0, b))
    ensures Misordered(l, r)
  {
    FitsAndParses(l.version, Version(1, 0, 0, a));
    FitsAndParses(r.version, Version(1, 0, 0, b));
    SplitWhole(a, '.');
    SplitWhole(b, '.');
    IdentifiersDecide(Version(1, 0, 0, a), Version(1, 0, 0, b), l, r);
  }

  lemma IdentifiersDecide(v: Version, w: Version, l: Candidate, r: Candidate)
    requires (v.major, v.minor, v.patch) == (w.major, w.minor, w.patch) && v.prerelease != "" && w.prerelease != ""
    requires Split(v.prerelease, '.') == [v.prerelease] && Split(w.prerelease, '.') == [w.prerelease]
    requires CompareIdentifier(v.prerelease, w.prerelease) != 0
    ensures CompareParsed(l, Some(v), r, Some(w)) == CompareIdentifier(v.prerelease, w.prerelease)
    ensures SemverCompare(v, w) == SemverIdentifier(v.prerelease, w.prerelease)
  {
    OneIdentifier(v.prerelease, w.prerelease);
  }

  lemma OneIdentifier(a: string, b: string)
    ensures SemverIdentifiers([a], [b]) == SemverIdentifier(a, b)
    ensures CompareIdentifiers([a], [b]) == CompareIdentifier(a, b)
  {
    assert [a][1..] == [] && [b][1..] == [];
  }

  lemma HugeIdentifiers() returns (a: string, b: string, word: string)
    ensures a == "99999999999999999999" && b == "100000000000000000000" && word == "1a"
    ensures IsIdentifier(a) && IsIdentifier(b) && IsIdentifier(word)
    ensures IsValidIdentifier(a) && IsValidIdentifier(b) && IsValidIdentifier(word)
    ensures SemverIdentifier(a, b) < 0 < CompareIdentifier(a, b)
    ensures SemverIdentifier(a, word) < 0 < CompareIdentifier(a, word)
  {
    a, b, word := "99999999999999999999", "100000000000000000000", "1a";
    HugeNumbersAreMisordered();
    HugeNumberAboveWord();
  }

  /** Prerelease numbers beyond 64 bits, against each other and against a word, whatever the dates. */
  lemma HugePrereleasesAreMisordered(t: int, u: int) returns (l: Candidate, m: Candidate, r: Candidate)
    ensures l == Candidate("1.0.0-" + "99999999999999999999", t)
    ensures m == Candidate("1.0.0-" + "100000000000000000000", u) && r == Candidate("1.0.0-" + "1a", u)
    ensures Misordered(l, m) && Misordered(l, r)
  {
    var a, b, word := HugeIdentifiers();
    l, m := MisorderedPair("1", a, b, t, u);
    l, r := MisorderedPair("1", a, word, t, u);
  }

  lemma MisorderedPair(one: string, a: string, b: string, t: int, u: int) returns (l: Candidate, r: Candidate)
    requires |one| == 1 && one[0] == '1'
    requires IsIdentifier(a) && IsIdentifier(b) && IsValidIdentifier(a) && IsValidIdentifier(b)
    requires SemverIdentifier(a, b) < 0 < CompareIdentifier(a, b)
    ensures l == Candidate("1.0.0-" + a, t) && r == Candidate("1.0.0-" + b, u)
    ensures Misordered(l, r)
  {
    l, r := Candidate("1.0.0-" + a, t), Candidate("1.0.0-" + b, u);
    PrereleaseName(one, a, l.version);
    PrereleaseName(one, b, r.version);
    PrereleaseDecides(a, b, l, r);
  }

  // ----- A sorted listing whose choice is beaten ------------------------------------------------

  lemma NoVersion(s: string)
    requires s != "" && Graphic(s[0]) && Graphic(s[|s| - 1]) && s[0] != 'v'
    requires '+' !in s && '-' !in s && '.' !in s
    ensures ParseVersion(s).None?
  {
    NothingToTrim(s);
    CutWhole(s, '+');
    CutWhole(s, '-');
    SplitWhole(s, '.');
  }

  /** In the sorted listing 1.0.0, 2.0.0, new, last changed in the order 2.0.0, new, 1.0.0, the scan returns new,
      which 1.0.0 beats. */
  lemma BeatenChoice() returns (a: Candidate, b: Candidate, c: Candidate)
    ensures a == Candidate("1.0.0", 3) && b == Candidate("2.0.0", 1) && c == Candidate("new", 2)
    ensures IsListing([a, b, c]) && Overtaken([a, b, c])
    ensures Scan(CompareCandidates, [a, b, c]) == c && CompareCandidates(c, a) < 0
  {
    a, b, c := Candidate("1.0.0", 3), Candidate("2.0.0", 1), Candidate("new", 2);
    CyclicNames(a, b, c);
    CycleIsBeaten(a, b, c);
  }

  /** Two versions in order, and another name sorted behind them but dated between. */
  ghost predicate Cyclic(a: Candidate, b: Candidate, c: Candidate) {
    && ParseVersion(a.version).Some? && ParseVersion(b.version).Some? && ParseVersion(c.version).None?
    && CompareVersion(ParseVersion(a.version).value, ParseVersion(b.version).value) < 0
    && b.modTime < c.modTime < a.modTime
    && a.version != "" && b.version != "" && c.version != "" && a.version[0] < b.version[0] < c.version[0]
  }

  lemma CyclicNames(a: Candidate, b: Candidate, c: Candidate)
    requires IsSmallName(a.version) && IsSmallName(b.version) && a.version[0] < b.version[0]
    requires |c.version| == 3 && c.version[0] == 'n' && c.version[1] == 'e' && c.version[2] == 'w'
    requires b.modTime < c.modTime < a.modTime
    ensures Cyclic(a, b, c)
  {
    var v := Version(a.version[0] as int - '0' as int, 0, 0, "");
    var w := Version(b.version[0] as int - '0' as int, 0, 0, "");
    SmallParses(a.version);
    SmallParses(b.version);
    NewIsNoVersion(c.version);
    LowerMajor(v, w);
  }

  lemma NewIsNoVersion(s: string)
    requires |s| == 3 && s[0] == 'n' && s[1] == 'e' && s[2] == 'w'
    ensures ParseVersion(s).None?
  {
    NoVersion(s);
  }

  lemma LowerMajor(v: Version, w: Version)
    requires v.major < w.major
    ensures CompareVersion(v, w) < 0
  {
  }

  lemma SmallParses(s: string)
    requires IsSmallName(s)
    ensures ParseVersion(s) == Some(Version(s[0] as int - '0' as int, 0, 0, ""))
  {
    SmallName(s);
    FitsAndParses(s, Version(s[0] as int - '0' as int, 0, 0, ""));
  }

  lemma CycleIsBeaten(a: Candidate, b: Candidate, c: Candidate)
    requires Cyclic(a, b, c)
    ensures IsListing([a, b, c]) && Overtaken([a, b, c])
    ensures Scan(CompareCandidates, [a, b, c]) == c && CompareCandidates(c, a) < 0
  {
    MixedNamesCycle(a, b, c);
    CycleInOrder(a, b, c);
    ListingOfThree(a, b, c);
    NotBest(a, b, c);
  }

  lemma NotBest(a: Candidate, b: Candidate, c: Candidate)
    requires IsListing([a, b, c]) && Scan(CompareCandidates, [a, b, c]) == c && CompareCandidates(c, a) < 0
    ensures Overtaken([a, b, c])
  {
    var cs := [a, b, c];
    CandidateAntisymmetric(a, c);
    assert cs[0] == a && a in cs;
    ChoiceIsBestIff(cs);
  }

  lemma ListingOfThree(a: Candidate, b: Candidate, c: Candidate)
    requires a.version != "" && b.version != "" && c.version != "" && a.version[0] < b.version[0] < c.version[0]
    ensures IsListing([a, b, c])
  {
  }

  lemma CycleInOrder(a: Candidate, b: Candidate, c: Candidate)
    requires CompareCandidates(a, b) < 0 && CompareCandidates(b, c) < 0
    ensures Scan(CompareCandidates, [a, b, c]) == c
  {
    var cs, ds, es := [a, b, c], [a, b], [a];
    assert cs[..2] == ds && ds[..1] == es;
    assert Scan(CompareCandidates, es) == a;
    assert Scan(CompareCandidates, ds) == b;
  }
}
