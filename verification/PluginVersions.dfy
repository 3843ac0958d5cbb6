/** Choosing the newest installed plugin version (pkg/codexplugin/codexplugin.go): the semver-like
    comparison of section 11 of Semantic Versioning 2.0.0, its fallbacks, and the scan for a maximum.
 */
module PluginVersions {
  import opened Wrappers
  import opened Text
  import opened MaxScan

  const MAX_INT := 0x7FFF_FFFF_FFFF_FFFF

  // ----- Numbers and identifiers ----------------------------------------------------------------

  predicate AllDigits(s: string) {
    forall i :: 0 <= i < |s| ==> '0' <= s[i] <= '9'
  }

  function Decimal(s: string): nat
    requires AllDigits(s)
  {
    if s == "" then 0 else 10 * Decimal(s[..|s| - 1]) + (s[|s| - 1] as int - '0' as int)
  }

  /** parseSemverNumericPart: strconv.Atoi rejects what a 64-bit int cannot hold. */
  function NumericPart(raw: string): Option<nat> {
    if raw == "" || !AllDigits(raw) || Decimal(raw) > MAX_INT then None else Some(Decimal(raw))
  }

  function CompareInts(left: int, right: int): int {
    if left < right then -1 else if left > right then 1 else 0
  }

  function CompareIdentifier(left: string, right: string): int {
    var l, r := NumericPart(left), NumericPart(right);
    if l.Some? && r.Some? then CompareInts(l.value, r.value)
    else if l.Some? then -1
    else if r.Some? then 1
    else CompareText(left, right)
  }

  /** Identifiers from left to right, then the shorter list first. */
  function CompareIdentifiers(left: seq<string>, right: seq<string>): int {
    if left == [] || right == [] then CompareInts(|left|, |right|)
    else
      var c := CompareIdentifier(left[0], right[0]);
      if c != 0 then c else CompareIdentifiers(left[1..], right[1..])
  }

  // ----- Versions -------------------------------------------------------------------------------

  datatype Version = Version(major: nat, minor: nat, patch: nat, prerelease: string)

  /** strings.Cut with a one-byte separator: the text before it and, if it was found, after it. */
  function Cut(s: string, sep: char): (string, string) {
    if s == "" then ("", "")
    else if s[0] == sep then ("", s[1..])
    else
      var (before, after) := Cut(s[1..], sep);
      ([s[0]] + before, after)
  }

  /** parseSemverLikeVersion, with the reading of a number as a parameter. */
  function ParseWith(number: string -> Option<nat>, raw: string): Option<Version> {
    var value := TrimSpace(TrimPrefix(raw, "v"));
    if value == "" then None
    else
      var buildless := Cut(value, '+').0;
      var (core, prerelease) := Cut(buildless, '-');
      var parts := Split(core, '.');
      if |parts| != 3 then None
      else
        var major, minor, patch := number(parts[0]), number(parts[1]), number(parts[2]);
        if major.None? || minor.None? || patch.None? then None
        else Some(Version(major.value, minor.value, patch.value, prerelease))
  }

  function ParseVersion(raw: string): Option<Version> {
    ParseWith(NumericPart, raw)
  }

  function CompareVersion(v: Version, w: Version): int {
    if CompareInts(v.major, w.major) != 0 then CompareInts(v.major, w.major)
    else if CompareInts(v.minor, w.minor) != 0 then CompareInts(v.minor, w.minor)
    else if CompareInts(v.patch, w.patch) != 0 then CompareInts(v.patch, w.patch)
    else if v.prerelease == "" && w.prerelease == "" then 0
    else if v.prerelease == "" then 1
    else if w.prerelease == "" then -1
    else CompareIdentifiers(Split(v.prerelease, '.'), Split(w.prerelease, '.'))
  }

  // ----- The comparison is a total preorder -----------------------------------------------------

  lemma IdentifierAntisymmetric(a: string, b: string)
    ensures CompareIdentifier(a, b) == -CompareIdentifier(b, a)
    ensures CompareIdentifier(a, a) == 0
  {
    CompareTextAntisymmetric(a, b);
    CompareTextAntisymmetric(a, a);
  }

  lemma IdentifierTransitive(a: string, b: string, c: string)
    requires CompareIdentifier(a, b) <= 0 && CompareIdentifier(b, c) <= 0
    ensures CompareIdentifier(a, c) <= 0
    ensures CompareIdentifier(a, b) < 0 || CompareIdentifier(b, c) < 0 ==> CompareIdentifier(a, c) < 0
  {
    if NumericPart(a).None? && NumericPart(b).None? && NumericPart(c).None? {
      CompareTextTransitive(a, b, c);
    }
  }

  lemma {:induction false} IdentifiersAntisymmetric(a: seq<string>, b: seq<string>)
    ensures CompareIdentifiers(a, b) == -CompareIdentifiers(b, a)
  {
    if a != [] && b != [] {
      IdentifierAntisymmetric(a[0], b[0]);
      IdentifiersAntisymmetric(a[1..], b[1..]);
    }
  }

  lemma {:induction false} IdentifiersTransitive(a: seq<string>, b: seq<string>, c: seq<string>)
    requires CompareIdentifiers(a, b) <= 0 && CompareIdentifiers(b, c) <= 0
    ensures CompareIdentifiers(a, c) <= 0
    ensures CompareIdentifiers(a, b) < 0 || CompareIdentifiers(b, c) < 0 ==> CompareIdentifiers(a, c) < 0
  {
    if a != [] && b != [] && c != [] {
      IdentifierTransitive(a[0], b[0], c[0]);
      if CompareIdentifier(a[0], b[0]) == 0 && CompareIdentifier(b[0], c[0]) == 0 {
        IdentifierAntisymmetric(a[0], b[0]);
        IdentifierAntisymmetric(b[0], c[0]);
        IdentifierAntisymmetric(a[0], c[0]);
        IdentifierTransitive(c[0], b[0], a[0]);
        IdentifiersTransitive(a[1..], b[1..], c[1..]);
      }
    }
  }

  /** Reversing the arguments reverses the sign, for all versions. */
  lemma VersionAntisymmetric(v: Version, w: Version)
    ensures CompareVersion(v, w) == -CompareVersion(w, v)
  {
    IdentifiersAntisymmetric(Split(v.prerelease, '.'), Split(w.prerelease, '.'));
  }

  lemma VersionTransitive(u: Version, v: Version, w: Version)
    requires CompareVersion(u, v) <= 0 && CompareVersion(v, w) <= 0
    ensures CompareVersion(u, w) <= 0
    ensures CompareVersion(u, v) < 0 || CompareVersion(v, w) < 0 ==> CompareVersion(u, w) < 0
  {
    if u.prerelease != "" && v.prerelease != "" && w.prerelease != ""
       && (u.major, u.minor, u.patch) == (v.major, v.minor, v.patch) == (w.major, w.minor, w.patch) {
      IdentifiersTransitive(Split(u.prerelease, '.'), Split(v.prerelease, '.'), Split(w.prerelease, '.'));
    }
  }

  lemma {:induction false} LongerIsHigher(ids: seq<string>, more: seq<string>)
    requires more != []
    ensures CompareIdentifiers(ids, ids + more) < 0
  {
    if ids != [] {
      IdentifierAntisymmetric(ids[0], ids[0]);
      LongerIsHigher(ids[1..], more);
      assert (ids + more)[1..] == ids[1..] + more;
    }
  }

  // ----- Where numeric identifiers leave the standard -------------------------------------------

  function Pow10(n: nat): nat {
    if n == 0 then 1 else 10 * Pow10(n - 1)
  }

  lemma {:induction false} DecimalBound(s: string)
    requires AllDigits(s)
    ensures Decimal(s) < Pow10(|s|)
  {
    if s != "" {
      DecimalBound(s[..|s| - 1]);
    }
  }

  lemma {:induction false} DecimalAtLeast(s: string)
    requires AllDigits(s) && s != "" && s[0] != '0'
    ensures Decimal(s) >= Pow10(|s| - 1)
  {
    if |s| > 1 {
      DecimalAtLeast(s[..|s| - 1]);
    } else {
      assert s[..0] == "";
    }
  }

  lemma {:induction false} Pow10Monotone(m: nat, n: nat)
    requires m <= n
    ensures Pow10(m) <= Pow10(n)
  {
    if m < n {
      Pow10Monotone(m, n - 1);
    }
  }

  lemma {:induction false} CompareTextSnoc(a: string, b: string, x: char, y: char)
    requires |a| == |b|
    ensures CompareText(a + [x], b + [y]) ==
              if CompareText(a, b) != 0 then CompareText(a, b) else if x < y then -1 else if x > y then 1 else 0
  {
    if a != "" {
      assert (a + [x])[1..] == a[1..] + [x] && (b + [y])[1..] == b[1..] + [y];
      CompareTextSnoc(a[1..], b[1..], x, y);
    }
  }

  /** Equally long digit strings compare bytewise as they compare as numbers. */
  lemma {:induction false} SameLengthDigits(a: string, b: string)
    requires AllDigits(a) && AllDigits(b) && |a| == |b|
    ensures CompareText(a, b) == CompareInts(Decimal(a), Decimal(b))
  {
    if a != "" {
      SameLengthDigits(a[..|a| - 1], b[..|b| - 1]);
      CompareTextSnoc(a[..|a| - 1], b[..|b| - 1], a[|a| - 1], b[|b| - 1]);
      LastSplit(a);
      LastSplit(b);
    }
  }

  lemma ShorterIsSmaller(a: string, b: string)
    requires AllDigits(a) && AllDigits(b) && |a| < |b| && b[0] != '0'
    ensures Decimal(a) < Decimal(b)
  {
    DecimalBound(a);
    DecimalAtLeast(b);
    Pow10Monotone(|a|, |b| - 1);
  }

  function StripZeros(s: string): string {
    if s != "" && s[0] == '0' then StripZeros(s[1..]) else s
  }

  /** Numerals of any length: leading zeros do not matter, then the longer one is larger, then bytes decide. */
  function CompareNumerals(a: string, b: string): int {
    var x, y := StripZeros(a), StripZeros(b);
    if |x| != |y| then CompareInts(|x|, |y|) else CompareText(x, y)
  }

  lemma {:induction false} DecimalCons(c: char, s: string)
    requires AllDigits([c] + s)
    ensures AllDigits(s) && Decimal([c] + s) == (c as int - '0' as int) * Pow10(|s|) + Decimal(s)
  {
    var t := [c] + s;
    assert forall i :: 0 <= i < |s| ==> s[i] == t[i + 1];
    if s == "" {
      assert t[..0] == "";
    } else {
      var init := s[..|s| - 1];
      assert t[..|t| - 1] == [c] + init && t[|t| - 1] == s[|s| - 1];
      DecimalCons(c, init);
      Tenfold(c as int - '0' as int, Pow10(|init|), Decimal(init), s[|s| - 1] as int - '0' as int);
    }
  }

  lemma Tenfold(d: int, p: int, rest: int, last: int)
    ensures 10 * (d * p + rest) + last == d * (10 * p) + (10 * rest + last)
  {
  }

  lemma {:induction false} StrippedDecimal(s: string)
    requires AllDigits(s)
    ensures AllDigits(StripZeros(s)) && Decimal(StripZeros(s)) == Decimal(s)
    ensures StripZeros(s) != "" ==> StripZeros(s)[0] != '0'
  {
    if s != "" && s[0] == '0' {
      assert s == [s[0]] + s[1..];
      DecimalCons(s[0], s[1..]);
      StrippedDecimal(s[1..]);
    }
  }

  lemma NumeralsCompareAsNumbers(a: string, b: string)
    requires AllDigits(a) && AllDigits(b)
    ensures CompareNumerals(a, b) == CompareInts(Decimal(a), Decimal(b))
  {
    var x, y := StripZeros(a), StripZeros(b);
    StrippedDecimal(a);
    StrippedDecimal(b);
    if |x| < |y| {
      ShorterIsSmaller(x, y);
    } else if |y| < |x| {
      ShorterIsSmaller(y, x);
    } else {
      SameLengthDigits(x, y);
    }
  }

  // ----- Section 11 of Semantic Versioning 2.0.0, with numbers of any size -----------------------

  predicate IsNumeric(id: string) {
    id != "" && AllDigits(id)
  }

  function SemverIdentifier(a: string, b: string): int {
    if IsNumeric(a) && IsNumeric(b) then CompareInts(Decimal(a), Decimal(b))
    else if IsNumeric(a) then -1
    else if IsNumeric(b) then 1
    else CompareText(a, b)
  }

  function SemverIdentifiers(left: seq<string>, right: seq<string>): int {
    if left == [] || right == [] then CompareInts(|left|, |right|)
    else
      var c := SemverIdentifier(left[0], right[0]);
      if c != 0 then c else SemverIdentifiers(left[1..], right[1..])
  }

  function SemverCompare(v: Version, w: Version): int {
    if (v.major, v.minor, v.patch) != (w.major, w.minor, w.patch) then
      if v.major < w.major
         || (v.major == w.major && (v.minor < w.minor || (v.minor == w.minor && v.patch < w.patch))) then -1 else 1
    else if v.prerelease == "" || w.prerelease == "" then
      CompareInts(if v.prerelease == "" then 1 else 0, if w.prerelease == "" then 1 else 0)
    else SemverIdentifiers(Split(v.prerelease, '.'), Split(w.prerelease, '.'))
  }

  /** A digit-only identifier that does not fit a 64-bit int. */
  predicate IsHuge(id: string) {
    IsNumeric(id) && Decimal(id) > MAX_INT
  }

  /** Huge numbers are compared bytewise with each other and with words: does that give the right order? */
  predicate FollowsSemver(a: string, b: string) {
    if IsHuge(a) && IsHuge(b) then CompareText(a, b) == CompareNumerals(a, b)
    else if IsHuge(a) && !IsNumeric(b) then CompareText(a, b) < 0
    else if IsHuge(b) && !IsNumeric(a) then CompareText(b, a) < 0
    else true
  }

  /** For all identifiers, leading zeros included: exactly when the code orders them as section 11 does. */
  lemma IdentifierIsSemverIff(a: string, b: string)
    ensures CompareIdentifier(a, b) == SemverIdentifier(a, b) <==> FollowsSemver(a, b)
  {
    CompareTextAntisymmetric(a, b);
    CompareTextRange(a, b);
    if IsHuge(a) && IsHuge(b) {
      NumeralsCompareAsNumbers(a, b);
    }
  }

  /** The identifiers of a valid version: a numeric one has no leading zero. */
  predicate IsValidIdentifier(id: string) {
    IsNumeric(id) && id != "0" ==> id[0] != '0'
  }

  ghost predicate AllValid(ids: seq<string>) {
    forall i :: 0 <= i < |ids| ==> IsValidIdentifier(ids[i])
  }

  /** Valid identifiers that neither order tells apart are equal. */
  lemma EqualRankIsEqual(a: string, b: string)
    requires IsValidIdentifier(a) && IsValidIdentifier(b)
    ensures CompareIdentifier(a, b) == 0 <==> a == b
    ensures SemverIdentifier(a, b) == 0 <==> a == b
  {
    CompareTextAntisymmetric(a, b);
    if IsNumeric(a) && IsNumeric(b) {
      EqualNumbersAreEqual(a, b);
    }
  }

  lemma EqualNumbersAreEqual(a: string, b: string)
    requires IsNumeric(a) && IsNumeric(b) && IsValidIdentifier(a) && IsValidIdentifier(b)
    ensures Decimal(a) == Decimal(b) <==> a == b
  {
    if |a| < |b| {
      ShorterIsSmaller(a, b);
    } else if |b| < |a| {
      ShorterIsSmaller(b, a);
    } else {
      SameLengthDigits(a, b);
      CompareTextAntisymmetric(a, b);
    }
  }

  /** At the first identifier that differs the code orders as section 11 does. */
  predicate FollowsAtDifference(left: seq<string>, right: seq<string>) {
    if left == [] || right == [] then true
    else if left[0] == right[0] then FollowsAtDifference(left[1..], right[1..])
    else FollowsSemver(left[0], right[0])
  }

  lemma {:induction false} IdentifiersAreSemverIff(left: seq<string>, right: seq<string>)
    requires AllValid(left) && AllValid(right)
    ensures CompareIdentifiers(left, right) == SemverIdentifiers(left, right) <==> FollowsAtDifference(left, right)
    ensures CompareIdentifiers(left, right) == 0 <==> SemverIdentifiers(left, right) == 0
  {
    if left != [] && right != [] {
      EqualRankIsEqual(left[0], right[0]);
      IdentifierIsSemverIff(left[0], right[0]);
      IdentifiersAreSemverIff(left[1..], right[1..]);
    }
  }

  predicate VersionsFollowSemver(v: Version, w: Version) {
    || (v.major, v.minor, v.patch) != (w.major, w.minor, w.patch)
    || v.prerelease == "" || w.prerelease == ""
    || FollowsAtDifference(Split(v.prerelease, '.'), Split(w.prerelease, '.'))
  }

  /** Exactly which valid versions the code orders as section 11 of Semantic Versioning 2.0.0 does: all, except
      those of one core whose prereleases first differ in a number beyond 64 bits that bytes put elsewhere. */
  lemma VersionIsSemverIff(v: Version, w: Version)
    requires AllValid(Split(v.prerelease, '.')) && AllValid(Split(w.prerelease, '.'))
    ensures CompareVersion(v, w) == SemverCompare(v, w) <==> VersionsFollowSemver(v, w)
    ensures CompareVersion(v, w) == 0 <==> SemverCompare(v, w) == 0
  {
    IdentifiersAreSemverIff(Split(v.prerelease, '.'), Split(w.prerelease, '.'));
  }

  /** Versions that agree up to a number, where the other has a word: the number comes first exactly when it fits
      an int or bytes say so. */
  lemma NumericBelowWordIff(v: Version, common: seq<string>, num: string, word: string, rest: seq<string>,
                            more: seq<string>)
    requires Without(common + [num] + rest, '.') && Without(common + [word] + more, '.')
    requires IsNumeric(num) && !IsNumeric(word) && word != ""
    ensures CompareVersion(v.(prerelease := Join(common + [num] + rest, ".")),
                           v.(prerelease := Join(common + [word] + more, "."))) < 0
            <==> Decimal(num) <= MAX_INT || CompareText(num, word) < 0
  {
    var left, right := common + [num] + rest, common + [word] + more;
    SplitOfJoin(left, '.');
    SplitOfJoin(right, '.');
    NotEmptyJoin(left, |common|);
    NotEmptyJoin(right, |common|);
    CompareTextAntisymmetric(num, word);
    assert num != word;
    DecidedAt(common, num, rest, word, more);
  }

  lemma {:induction false} NotEmptyJoin(parts: seq<string>, i: nat)
    requires i < |parts| && parts[i] != ""
    ensures Join(parts, ".") != ""
  {
    if |parts| > 1 {
      JoinSnoc(parts, ".");
    }
  }

  /** A common beginning does not matter, nor does what follows the first difference. */
  lemma {:induction false} DecidedAt(common: seq<string>, a: string, rest: seq<string>, b: string, more: seq<string>)
    requires CompareIdentifier(a, b) != 0
    ensures CompareIdentifiers(common + [a] + rest, common + [b] + more) == CompareIdentifier(a, b)
  {
    var left, right := common + [a] + rest, common + [b] + more;
    if common != [] {
      IdentifierAntisymmetric(common[0], common[0]);
      DecidedAt(common[1..], a, rest, b, more);
      assert left[1..] == common[1..] + [a] + rest && right[1..] == common[1..] + [b] + more;
    }
  }

  /** Adding identifiers to a prerelease raises it, for all texts. */
  lemma LongerPrereleaseIsHigher(v: Version, more: string)
    requires v.prerelease != ""
    ensures CompareVersion(v, v.(prerelease := v.prerelease + "." + more)) < 0
  {
    SplitAt(v.prerelease, more, '.');
    LongerIsHigher(Split(v.prerelease, '.'), Split(more, '.'));
  }

  lemma {:induction false} CompareTextRange(a: string, b: string)
    ensures -1 <= CompareText(a, b) <= 1
  {
    if a != "" && b != "" {
      CompareTextRange(a[1..], b[1..]);
    }
  }

  lemma TenToThe19()
    ensures Pow10(19) > MAX_INT
  {
    assert Pow10(5) == 100000;
    assert Pow10(10) == 10000000000;
    assert Pow10(15) == 1000000000000000;
  }

  /** Two such identifiers that the code orders the other way round. */
  lemma HugeNumbersAreMisordered()
    ensures CompareIdentifier("99999999999999999999", "100000000000000000000") > 0
    ensures Decimal("99999999999999999999") < Decimal("100000000000000000000")
  {
    var a, b := "99999999999999999999", "100000000000000000000";
    DecimalAtLeast(a);
    DecimalAtLeast(b);
    Pow10Monotone(19, |a| - 1);
    Pow10Monotone(19, |b| - 1);
    TenToThe19();
    ShorterIsSmaller(a, b);
    assert CompareText(a, b) == 1;
  }

  /** A number that the code puts above a word. */
  lemma HugeNumberAboveWord()
    ensures CompareIdentifier("99999999999999999999", "1a") > 0
    ensures SemverIdentifier("99999999999999999999", "1a") < 0
  {
    var a, b := "99999999999999999999", "1a";
    DecimalAtLeast(a);
    Pow10Monotone(19, |a| - 1);
    TenToThe19();
    assert b[1] == 'a' && !AllDigits(b);
    assert CompareText(a, b) == 1;
  }

  // ----- Installed candidates -------------------------------------------------------------------

  datatype Candidate = Candidate(version: string, modTime: int)

  function CompareCandidates(l: Candidate, r: Candidate): int {
    CompareParsed(l, ParseVersion(l.version), r, ParseVersion(r.version))
  }

  function CompareParsed(l: Candidate, lv: Option<Version>, r: Candidate, rv: Option<Version>): int {
    if lv.Some? && rv.Some? && CompareVersion(lv.value, rv.value) != 0 then CompareVersion(lv.value, rv.value)
    else CompareDates(l, r)
  }

  /** Modification times, then the bytes of the names. */
  function CompareDates(l: Candidate, r: Candidate): int {
    if l.modTime != r.modTime then (if l.modTime < r.modTime then -1 else 1)
    else CompareText(l.version, r.version)
  }

  ghost predicate SameKind(cs: seq<Candidate>) {
    || (forall c :: c in cs ==> ParseVersion(c.version).Some?)
    || (forall c :: c in cs ==> ParseVersion(c.version).None?)
  }

  /** Directory entries have distinct names. */
  ghost predicate DistinctNames(cs: seq<Candidate>) {
    forall i, j :: 0 <= i < j < |cs| ==> cs[i].version != cs[j].version
  }

  lemma CandidateAntisymmetric(l: Candidate, r: Candidate)
    ensures CompareCandidates(l, r) == -CompareCandidates(r, l)
    ensures CompareCandidates(l, r) == 0 ==> l.version == r.version
  {
    ParsedAntisymmetric(l, ParseVersion(l.version), r, ParseVersion(r.version));
  }

  lemma ParsedAntisymmetric(l: Candidate, lv: Option<Version>, r: Candidate, rv: Option<Version>)
    ensures CompareParsed(l, lv, r, rv) == -CompareParsed(r, rv, l, lv)
    ensures CompareParsed(l, lv, r, rv) == 0 ==> l.version == r.version
  {
    CompareTextAntisymmetric(l.version, r.version);
    if lv.Some? && rv.Some? {
      VersionAntisymmetric(lv.value, rv.value);
    }
  }

  /** On candidates of one kind the comparator is a strict order of distinct names. */
  lemma CandidateTransitive(a: Candidate, b: Candidate, c: Candidate)
    requires SameKind([a, b, c])
    requires CompareCandidates(a, b) < 0 && CompareCandidates(b, c) < 0
    ensures CompareCandidates(a, c) < 0
  {
    assert a in [a, b, c] && b in [a, b, c] && c in [a, b, c];
    ParsedTransitive(a, ParseVersion(a.version), b, ParseVersion(b.version), c, ParseVersion(c.version));
  }

  lemma ParsedTransitive(a: Candidate, u: Option<Version>, b: Candidate, v: Option<Version>, c: Candidate,
                         w: Option<Version>)
    requires u.Some? == v.Some? == w.Some?
    requires CompareParsed(a, u, b, v) < 0 && CompareParsed(b, v, c, w) < 0
    ensures CompareParsed(a, u, c, w) < 0
  {
    if CompareText(a.version, b.version) <= 0 && CompareText(b.version, c.version) <= 0 {
      CompareTextTransitive(a.version, b.version, c.version);
    }
    if u.Some? {
      VersionTransitive(u.value, v.value, w.value);
      if CompareVersion(u.value, v.value) == 0 && CompareVersion(v.value, w.value) == 0 {
        VersionAntisymmetric(u.value, v.value);
        VersionAntisymmetric(v.value, w.value);
        VersionAntisymmetric(u.value, w.value);
        VersionTransitive(w.value, v.value, u.value);
      }
    }
  }

  lemma CandidatesCompete(cs: seq<Candidate>)
    requires DistinctNames(cs)
    ensures Tournament(CompareCandidates, cs)
  {
    forall x, y | x in cs && y in cs
      ensures CompareCandidates(x, y) == -CompareCandidates(y, x) && (x != y ==> CompareCandidates(x, y) != 0)
    {
      CandidateAntisymmetric(x, y);
      var i :| 0 <= i < |cs| && cs[i] == x;
      var j :| 0 <= j < |cs| && cs[j] == y;
    }
  }

  lemma SameKindTransitive(cs: seq<Candidate>)
    requires SameKind(cs)
    ensures Transitive(CompareCandidates, cs)
  {
    forall x, y, z | x in cs && y in cs && z in cs && CompareCandidates(x, y) < 0 && CompareCandidates(y, z) < 0
      ensures CompareCandidates(x, z) < 0
    {
      CandidateTransitive(x, y, z);
    }
  }

  // ----- The scan -------------------------------------------------------------------------------

  /** The loop at the end of installedPluginVersionDir. */
  method BestVersion(cs: seq<Candidate>) returns (best: Option<Candidate>)
    ensures best == if cs == [] then None else Some(Scan(CompareCandidates, cs))
  {
    if |cs| == 0 {
      return None;
    }
    var b := cs[0];
    for i := 1 to |cs|
      invariant b == Scan(CompareCandidates, cs[..i])
    {
      assert cs[..i + 1][..i] == cs[..i];
      if CompareCandidates(b, cs[i]) < 0 {
        b := cs[i];
      }
    }
    assert cs[..|cs|] == cs;
    return Some(b);
  }

  /** All semver-like or all not: the scan returns the one candidate that beats all others, and would do so in
      any other order. */
  lemma {:induction false} ScanReturnsMaximum(cs: seq<Candidate>, ds: seq<Candidate>)
    requires cs != [] && DistinctNames(cs) && SameKind(cs) && multiset(ds) == multiset(cs)
    ensures Dominant(CompareCandidates, cs, Scan(CompareCandidates, cs))
    ensures ds != [] && Scan(CompareCandidates, ds) == Scan(CompareCandidates, cs)
  {
    CandidatesCompete(cs);
    SameKindTransitive(cs);
    ScanIsDominant(CompareCandidates, cs);
    SameMembers(cs, ds);
    assert cs[0] in ds;
    ScanFindsDominant(CompareCandidates, ds, Scan(CompareCandidates, cs));
  }

  /** For any mix of names: the choice does not depend on the order of the names exactly when some candidate
      beats all others. */
  lemma {:induction false} DirectoryOrderIff(cs: seq<Candidate>)
    requires cs != [] && DistinctNames(cs)
    ensures OrderIndependent(CompareCandidates, cs) <==> exists w :: Dominant(CompareCandidates, cs, w)
  {
    CandidatesCompete(cs);
    OrderIndependentIff(CompareCandidates, cs);
  }

  // ----- Mixed kinds of names -------------------------------------------------------------------

  /** os.ReadDir sorts the entries by name. */
  ghost predicate IsListing(cs: seq<Candidate>) {
    forall i, j :: 0 <= i < j < |cs| ==> CompareText(cs[i].version, cs[j].version) < 0
  }

  lemma ListingIsDistinct(cs: seq<Candidate>)
    requires IsListing(cs)
    ensures DistinctNames(cs)
  {
    forall i, j | 0 <= i < j < |cs| ensures cs[i].version != cs[j].version {
      CompareTextAntisymmetric(cs[i].version, cs[j].version);
    }
  }

  /** The candidates whose names are semver-like, or those whose names are not. */
  function OfKind(cs: seq<Candidate>, semver: bool): seq<Candidate> {
    if cs == [] then []
    else
      var init, last := cs[..|cs| - 1], cs[|cs| - 1];
      OfKind(init, semver) + (if ParseVersion(last.version).Some? == semver then [last] else [])
  }

  lemma {:induction false} OfKindMembers(cs: seq<Candidate>, semver: bool)
    ensures forall x :: x in OfKind(cs, semver) <==> x in cs && ParseVersion(x.version).Some? == semver
  {
    if cs != [] {
      OfKindMembers(cs[..|cs| - 1], semver);
      LastSplit(cs);
    }
  }

  /** The newest other name is newer than the highest version and older than some version. */
  ghost predicate Overtaken(cs: seq<Candidate>) {
    exists low, high, other ::
      && low in OfKind(cs, true)
      && Dominant(CompareCandidates, OfKind(cs, true), high)
      && Dominant(CompareCandidates, OfKind(cs, false), other)
      && CompareDates(high, other) < 0 && CompareDates(other, low) < 0
  }

  lemma BestOfKind(cs: seq<Candidate>, semver: bool) returns (w: Candidate)
    requires DistinctNames(cs) && OfKind(cs, semver) != []
    ensures Dominant(CompareCandidates, OfKind(cs, semver), w)
  {
    var ks := OfKind(cs, semver);
    OfKindMembers(cs, semver);
    CandidatesCompete(cs);
    SameKindTransitive(ks);
    ScanIsDominant(CompareCandidates, ks);
    w := Scan(CompareCandidates, ks);
  }

  lemma OvertakenHasNoBest(cs: seq<Candidate>, w: Candidate)
    requires DistinctNames(cs) && Overtaken(cs)
    ensures !Dominant(CompareCandidates, cs, w)
  {
    OfKindMembers(cs, true);
    OfKindMembers(cs, false);
    CandidatesCompete(cs);
  }

  /** The highest version also beats the newest other name, hence all of these. */
  lemma HighIsBest(cs: seq<Candidate>, high: Candidate, other: Candidate)
    requires Dominant(CompareCandidates, OfKind(cs, true), high)
    requires Dominant(CompareCandidates, OfKind(cs, false), other)
    requires CompareDates(other, high) < 0
    ensures Dominant(CompareCandidates, cs, high)
  {
    OfKindMembers(cs, true);
    OfKindMembers(cs, false);
    forall x | x in cs && x != high ensures CompareCandidates(x, high) < 0 {
      if ParseVersion(x.version).None? {
        KindsByDate(x, high);
        if x != other {
          OthersByDate(x, other);
          DatesTransitive(x, other, high);
        }
      }
    }
  }

  lemma OthersByDate(l: Candidate, r: Candidate)
    requires ParseVersion(l.version).None?
    ensures CompareCandidates(l, r) == CompareDates(l, r)
  {
  }

  lemma DatesTransitive(a: Candidate, b: Candidate, c: Candidate)
    requires CompareDates(a, b) < 0 && CompareDates(b, c) < 0
    ensures CompareDates(a, c) < 0
  {
    if a.modTime == b.modTime == c.modTime {
      CompareTextTransitive(a.version, b.version, c.version);
    }
  }

  lemma DatesAntisymmetric(a: Candidate, b: Candidate)
    ensures CompareDates(a, b) == -CompareDates(b, a)
    ensures CompareDates(a, b) == 0 ==> a.version == b.version
  {
    CompareTextAntisymmetric(a.version, b.version);
  }

  lemma NoVersionIsNewer(cs: seq<Candidate>, high: Candidate, other: Candidate, x: Candidate)
    requires !Overtaken(cs) && CompareDates(high, other) < 0 && x in OfKind(cs, true) && x.version != other.version
    requires Dominant(CompareCandidates, OfKind(cs, true), high)
    requires Dominant(CompareCandidates, OfKind(cs, false), other)
    ensures CompareDates(x, other) < 0
  {
    DatesAntisymmetric(x, other);
  }

  /** No version is newer than the newest other name. */
  lemma OtherIsBest(cs: seq<Candidate>, high: Candidate, other: Candidate)
    requires !Overtaken(cs) && CompareDates(high, other) < 0
    requires Dominant(CompareCandidates, OfKind(cs, true), high)
    requires Dominant(CompareCandidates, OfKind(cs, false), other)
    ensures Dominant(CompareCandidates, cs, other)
  {
    OfKindMembers(cs, true);
    OfKindMembers(cs, false);
    forall x | x in cs && x != other ensures CompareCandidates(x, other) < 0 {
      if ParseVersion(x.version).Some? {
        NoVersionIsNewer(cs, high, other, x);
        KindsByDate(x, other);
      }
    }
  }

  lemma KindsByDate(l: Candidate, r: Candidate)
    requires ParseVersion(l.version).Some? != ParseVersion(r.version).Some?
    ensures CompareCandidates(l, r) == CompareDates(l, r)
  {
  }

  lemma OtherwiseSomeIsBest(cs: seq<Candidate>) returns (w: Candidate)
    requires cs != [] && DistinctNames(cs) && !Overtaken(cs)
    ensures Dominant(CompareCandidates, cs, w)
  {
    OfKindMembers(cs, true);
    OfKindMembers(cs, false);
    if OfKind(cs, true) == [] || OfKind(cs, false) == [] {
      assert cs[0] in cs;
      w := BestOfKind(cs, OfKind(cs, true) != []);
    } else {
      var high := BestOfKind(cs, true);
      var other := BestOfKind(cs, false);
      DatesAntisymmetric(high, other);
      if CompareDates(high, other) < 0 {
        OtherIsBest(cs, high, other);
        w := other;
      } else {
        HighIsBest(cs, high, other);
        w := high;
      }
    }
  }

  /** In any directory the returned candidate beats all others, unless the newest other name is newer than the
      highest version and older than some version; then whatever is returned is beaten. */
  lemma {:induction false} ChoiceIsBestIff(cs: seq<Candidate>)
    requires cs != [] && IsListing(cs)
    ensures Dominant(CompareCandidates, cs, Scan(CompareCandidates, cs)) <==> !Overtaken(cs)
    ensures Overtaken(cs) <==> !exists w :: Dominant(CompareCandidates, cs, w)
  {
    ListingIsDistinct(cs);
    CandidatesCompete(cs);
    if Overtaken(cs) {
      forall w ensures !Dominant(CompareCandidates, cs, w) {
        OvertakenHasNoBest(cs, w);
      }
    } else {
      var w := OtherwiseSomeIsBest(cs);
      ScanFindsDominant(CompareCandidates, cs, w);
    }
  }

  /** Two versions that only semver puts in this order, and a third name dated in between: a cycle, so that the
      choice depends on how the names sort. */
  lemma MixedNamesCycle(a: Candidate, b: Candidate, c: Candidate)
    requires ParseVersion(a.version).Some? && ParseVersion(b.version).Some? && ParseVersion(c.version).None?
    requires CompareVersion(ParseVersion(a.version).value, ParseVersion(b.version).value) < 0
    requires b.modTime < c.modTime < a.modTime
    ensures CompareCandidates(a, b) < 0 && CompareCandidates(b, c) < 0 && CompareCandidates(c, a) < 0
    ensures !OrderIndependent(CompareCandidates, [a, b, c])
  {
    ParsedCycle(a, ParseVersion(a.version), b, ParseVersion(b.version), c, ParseVersion(c.version));
    CycleOfThree(a, b, c);
  }

  /** The three comparisons, from what the names parse to. */
  lemma ParsedCycle(a: Candidate, av: Option<Version>, b: Candidate, bv: Option<Version>, c: Candidate,
                    cv: Option<Version>)
    requires av.Some? && bv.Some? && cv.None? && CompareVersion(av.value, bv.value) < 0
    requires b.modTime < c.modTime < a.modTime
    ensures CompareParsed(a, av, b, bv) < 0 && CompareParsed(b, bv, c, cv) < 0 && CompareParsed(c, cv, a, av) < 0
    ensures av != bv
  {
    VersionAntisymmetric(av.value, av.value);
  }

  lemma CycleOfThree(a: Candidate, b: Candidate, c: Candidate)
    requires CompareCandidates(a, b) < 0 && CompareCandidates(b, c) < 0 && CompareCandidates(c, a) < 0
    requires a.version != b.version && b.version != c.version && a.version != c.version
    ensures !OrderIndependent(CompareCandidates, [a, b, c])
  {
    ThreeCompete(a, b, c);
    CycleBreaksOrder(CompareCandidates, a, b, c);
  }

  lemma ThreeCompete(a: Candidate, b: Candidate, c: Candidate)
    requires a.version != b.version && b.version != c.version && a.version != c.version
    ensures Tournament(CompareCandidates, [a, b, c])
  {
    var cs := [a, b, c];
    assert cs[0] == a && cs[1] == b && cs[2] == c;
    CandidatesCompete(cs);
  }
}
