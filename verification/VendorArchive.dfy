/** Validating and extracting the vendored source archive (scripts/extract_sbom_vendor.py): member names,
    the checks made before anything is written, and the extraction loop.
 */
module VendorArchive {
  import opened Wrappers
  import opened Text
  import opened VendorTree

  datatype Kind = Directory | Regular | Link | Unsupported

  datatype Member = Member(name: string, kind: Kind, content: string, mode: nat)

  // ----- Member names ---------------------------------------------------------------------------

  function NonEmptyPart(part: string): seq<string> {
    if part == "" then [] else [part]
  }

  /** PurePosixPath drops repeated and trailing slashes. */
  function Parts(name: string): Path {
    FlatMap(NonEmptyPart, Split(name, '/'))
  }

  /** safe_member_path: absolute names, dots and anything outside vendor are refused. */
  function SafePath(name: string): Option<Path> {
    var raw := Split(name, '/');
    if HasPrefix(name, "/") || "." in raw || ".." in raw then None
    else if Parts(name) == [] || Parts(name)[0] != "vendor" then None
    else Some(Parts(name))
  }

  /** A safe path has no empty, "." or ".." part, so it cannot leave the extraction root. */
  lemma SafePathStaysInside(name: string)
    requires SafePath(name).Some?
    ensures var p := SafePath(name).value;
            p != [] && p[0] == "vendor" && "" !in p && "." !in p && ".." !in p
  {
    PartsComeFromName(Split(name, '/'));
  }

  lemma {:induction false} PartsComeFromName(raw: seq<string>)
    ensures forall x :: x in FlatMap(NonEmptyPart, raw) ==> x in raw && x != ""
  {
    if raw != [] {
      PartsComeFromName(raw[..|raw| - 1]);
      LastSplit(raw);
    }
  }

  /** Parts of a path below the root, as they may stand in an archive. */
  ghost predicate IsSafePath(p: Path) {
    && p != [] && p[0] == "vendor"
    && forall i :: 0 <= i < |p| ==> p[i] != "" && p[i] != "." && p[i] != ".." && '/' !in p[i]
  }

  lemma {:induction false} NonEmptyParts(p: seq<string>)
    requires "" !in p
    ensures FlatMap(NonEmptyPart, p) == p
  {
    if p != [] {
      NonEmptyParts(p[..|p| - 1]);
      assert p == p[..|p| - 1] + [p[|p| - 1]];
    }
  }

  lemma SafeFrom(name: string, raw: seq<string>, p: Path)
    requires name != "" && name[0] != '/' && raw == Split(name, '/') && "." !in raw && ".." !in raw
    requires FlatMap(NonEmptyPart, raw) == p && p != [] && p[0] == "vendor"
    ensures SafePath(name) == Some(p)
  {
  }

  lemma SlashAddsNothing(name: string, p: Path)
    requires Split(name, '/') == p && "" !in p
    ensures Split(name + "/", '/') == p + [""] && FlatMap(NonEmptyPart, p + [""]) == p
  {
    assert name + "/" == name + ['/'] + "";
    SplitAt(name, "", '/');
    SplitWhole("", '/');
    NonEmptyParts(p);
    FlatMapSnoc(NonEmptyPart, p, "");
  }

  /** A safe path is accepted as it is written, and so is a directory's with its slash. */
  lemma SafePathIsRead(p: Path)
    requires IsSafePath(p)
    ensures SafePath(Join(p, "/")) == Some(p) && SafePath(Join(p, "/") + "/") == Some(p)
  {
    var name := Join(p, "/");
    SplitOfJoin(p, '/');
    NonEmptyParts(p);
    JoinStarts(p);
    SlashAddsNothing(name, p);
    SafeFrom(name, p, p);
    SafeFrom(name + "/", p + [""], p);
  }

  lemma JoinStarts(p: Path)
    requires IsSafePath(p)
    ensures var name := Join(p, "/"); name != "" && name[0] == 'v' && (name + "/")[0] == 'v'
  {
    assert p[0][0] == 'v';
  }

  /** Exactly which names are refused: absolute ones, those with a dot part, and those not under vendor. */
  lemma SafePathIff(name: string)
    ensures SafePath(name).None? <==>
              || (name != "" && name[0] == '/')
              || (exists i :: 0 <= i < |Split(name, '/')| && Split(name, '/')[i] in [".", ".."])
              || FirstPart(Split(name, '/')) != "vendor"
  {
    FirstPartIsFirst(Split(name, '/'));
    assert name == "" || name[..1] == [name[0]];
  }

  /** The first part that is not empty, or none. */
  function FirstPart(raw: seq<string>): string {
    if raw == [] then "" else if raw[0] != "" then raw[0] else FirstPart(raw[1..])
  }

  lemma {:induction false} FirstPartIsFirst(raw: seq<string>)
    ensures var parts := FlatMap(NonEmptyPart, raw); FirstPart(raw) == if parts == [] then "" else parts[0]
  {
    if raw != [] {
      FirstPartIsFirst(raw[1..]);
      FlatMapAppend(NonEmptyPart, [raw[0]], raw[1..]);
      FlatMapOne(NonEmptyPart, raw[0]);
      assert raw == [raw[0]] + raw[1..];
    }
  }

  /** The checks on one member: a safe path, a directory or a file, and a directory for the root. */
  function Convert(m: Member): Option<Entry> {
    var path := SafePath(m.name);
    if path.None? then None
    else if m.kind == Directory then Some(Entry(path.value, Dir))
    else if m.kind == Regular && |path.value| != 1 then Some(Entry(path.value, FileNode(m.content, m.mode % 512)))
    else None
  }

  lemma ConvertFacts(m: Member)
    requires Convert(m).Some?
    ensures Convert(m).value.path != [] && Convert(m).value.path[0] == "vendor"
  {
  }

  /** Exactly which members are accepted, and what they become: a directory, or a file with its content and the low
      nine bits of its mode. */
  lemma ConvertIff(m: Member)
    ensures Convert(m).Some? <==>
              && SafePath(m.name).Some?
              && (m.kind == Directory || (m.kind == Regular && |SafePath(m.name).value| > 1))
    ensures Convert(m).Some? ==>
              var e := Convert(m).value;
              && SafePath(m.name) == Some(e.path) && (e.node == Dir <==> m.kind == Directory)
              && (m.kind == Regular ==>
                    && e.node.FileNode? && e.node.content == m.content
                    && e.node.mode < 512 && exists high: nat :: m.mode == 512 * high + e.node.mode)
  {
    if SafePath(m.name).Some? {
      SafePathStaysInside(m.name);
    }
    assert m.mode == 512 * (m.mode / 512) + m.mode % 512;
  }

  // ----- Valid archives -------------------------------------------------------------------------

  ghost predicate AllConvert(ms: seq<Member>) {
    forall m :: m in ms ==> Convert(m).Some?
  }

  ghost function Entries(ms: seq<Member>): (es: seq<Entry>)
    requires AllConvert(ms)
    ensures |es| == |ms|
  {
    seq(|ms|, i requires 0 <= i < |ms| && ms[i] in ms => Convert(ms[i]).value)
  }

  ghost predicate ValidArchive(ms: seq<Member>) {
    ms != [] && AllConvert(ms) && FitTogether(Entries(ms))
  }

  ghost function Paths(es: seq<Entry>): set<Path> {
    set e | e in es :: e.path
  }

  ghost function FilePaths(es: seq<Entry>): set<Path> {
    set e | e in es && e.node.FileNode? :: e.path
  }

  ghost predicate DistinctPaths(es: seq<Entry>) {
    es == [] || (DistinctPaths(es[..|es| - 1]) && es[|es| - 1].path !in Paths(es[..|es| - 1]))
  }

  ghost predicate NoFileAbove(paths: set<Path>, files: set<Path>) {
    forall p, q :: p in paths && q in files ==> !(q < p)
  }

  lemma EntriesSnoc(ms: seq<Member>, n: nat)
    requires n < |ms| && AllConvert(ms[..n + 1])
    ensures AllConvert(ms[..n]) && Entries(ms[..n + 1]) == Entries(ms[..n]) + [Convert(ms[n]).value]
  {
    assert ms[..n + 1] == ms[..n] + [ms[n]];
    assert forall m :: m in ms[..n] ==> m in ms[..n + 1];
  }

  lemma PathsSnoc(es: seq<Entry>, e: Entry)
    ensures Paths(es + [e]) == Paths(es) + {e.path}
    ensures FilePaths(es + [e]) == FilePaths(es) + if e.node.FileNode? then {e.path} else {}
    ensures DistinctPaths(es + [e]) <==> DistinctPaths(es) && e.path !in Paths(es)
  {
    assert (es + [e])[..|es|] == es;
    assert forall x :: x in es + [e] <==> x in es || x == e;
  }

  /** What the loops check is what fitting together means. */
  lemma {:induction false} ChecksMeanFit(es: seq<Entry>)
    requires forall e :: e in es ==> e.path != [] && e.path[0] == "vendor"
    ensures FitTogether(es) <==> DistinctPaths(es) && NoFileAbove(Paths(es), FilePaths(es))
  {
    if es != [] {
      var init, last := es[..|es| - 1], es[|es| - 1];
      LastSplit(es);
      ChecksMeanFit(init);
      PathsSnoc(init, last);
      if DistinctPaths(es) && NoFileAbove(Paths(es), FilePaths(es)) {
        forall x | x in init ensures Compatible(x, last) {
          assert x.path in Paths(es) && last.path in Paths(es) && x.path in Paths(init);
          assert x.node.FileNode? ==> x.path in FilePaths(es);
        }
      }
      if FitTogether(es) {
        FitHasNoFileAbove(es);
      }
    }
  }

  lemma FitHasNoFileAbove(es: seq<Entry>)
    requires FitTogether(es)
    ensures NoFileAbove(Paths(es), FilePaths(es))
    ensures es != [] ==> es[|es| - 1].path !in Paths(es[..|es| - 1])
  {
    forall p, q | p in Paths(es) && q in FilePaths(es) ensures !(q < p) {
      var x :| x in es && x.path == p;
      var y :| y in es && y.node.FileNode? && y.path == q;
      EachFits(es, y);
    }
    if es != [] {
      forall x | x in es[..|es| - 1] ensures x.path != es[|es| - 1].path {
        assert Compatible(x, es[|es| - 1]);
      }
    }
  }

  // ----- The loops ------------------------------------------------------------------------------

  /** The first loop: convert the members, refusing duplicates. */
  method CollectEntries(ms: seq<Member>) returns (r: Option<seq<Entry>>, seen: set<Path>, files: set<Path>)
    ensures r.Some? <==> AllConvert(ms) && DistinctPaths(Entries(ms))
    ensures r.Some? ==> r.value == Entries(ms) && seen == Paths(r.value) && files == FilePaths(r.value)
  {
    var es: seq<Entry> := [];
    seen, files := {}, {};
    for i := 0 to |ms|
      invariant AllConvert(ms[..i]) && es == Entries(ms[..i]) && DistinctPaths(es)
      invariant seen == Paths(es) && files == FilePaths(es)
    {
      var entry := Convert(ms[i]);
      if entry.None? {
        return None, {}, {};
      }
      CollectStep(ms, i, es, entry.value);
      PathsSnoc(es, entry.value);
      if entry.value.path in seen {
        return None, {}, {};
      }
      seen := seen + {entry.value.path};
      if entry.value.node.FileNode? {
        files := files + {entry.value.path};
      }
      es := es + [entry.value];
    }
    assert ms[..|ms|] == ms;
    r := Some(es);
  }

  lemma ConvertsOneMore(ms: seq<Member>, i: nat)
    requires i < |ms| && AllConvert(ms[..i]) && Convert(ms[i]).Some?
    ensures AllConvert(ms[..i + 1])
  {
    assert ms[..i + 1] == ms[..i] + [ms[i]];
  }

  lemma CollectStep(ms: seq<Member>, i: nat, es: seq<Entry>, e: Entry)
    requires i < |ms| && AllConvert(ms[..i]) && es == Entries(ms[..i]) && DistinctPaths(es) && Convert(ms[i]) == Some(e)
    ensures AllConvert(ms[..i + 1]) && Entries(ms[..i + 1]) == es + [e]
    ensures e.path in Paths(es) && AllConvert(ms) ==> !DistinctPaths(Entries(ms))
  {
    ConvertsOneMore(ms, i);
    EntriesSnoc(ms, i);
    PathsSnoc(es, e);
    if e.path in Paths(es) && AllConvert(ms) {
      DuplicateStays(ms, i + 1);
    }
  }

  lemma {:induction false} DuplicateStays(ms: seq<Member>, n: nat)
    requires n <= |ms| && AllConvert(ms) && AllConvert(ms[..n]) && !DistinctPaths(Entries(ms[..n]))
    ensures !DistinctPaths(Entries(ms))
    decreases |ms| - n
  {
    if n < |ms| {
      assert forall m :: m in ms[..n + 1] ==> m in ms;
      EntriesSnoc(ms, n);
      PathsSnoc(Entries(ms[..n]), Convert(ms[n]).value);
      DuplicateStays(ms, n + 1);
    } else {
      assert ms[..n] == ms;
    }
  }

  /** The second loop: no proper ancestor of a member may be a file. */
  method NoConflicts(seen: set<Path>, files: set<Path>) returns (ok: bool)
    requires [] !in seen && [] !in files
    ensures ok <==> NoFileAbove(seen, files)
  {
    var rest, checked := seen, {};
    while rest != {}
      invariant rest + checked == seen
      invariant NoFileAbove(checked, files)
      decreases rest
    {
      var p :| p in rest;
      for index := 1 to |p|
        invariant forall k :: 1 <= k < index ==> p[..k] !in files
      {
        if p[..index] in files {
          assert p[..index] < p;
          return false;
        }
      }
      NoFileOnTheWay(p, files);
      rest, checked := rest - {p}, checked + {p};
    }
    ok := true;
  }

  lemma NoFileOnTheWay(p: Path, files: set<Path>)
    requires [] !in files && forall k :: 1 <= k < |p| ==> p[..k] !in files
    ensures forall q :: q in files ==> !(q < p)
  {
    forall q | q in files ensures !(q < p) {
      if q < p {
        PrefixIsSlice(p, q);
      }
    }
  }

  lemma PrefixIsSlice(p: Path, q: Path)
    requires q <= p
    ensures q == p[..|q|]
  {
  }

  /** Everything extract_archive checks before it writes. */
  method ValidateArchive(ms: seq<Member>) returns (r: Option<seq<Entry>>)
    ensures r.Some? <==> ValidArchive(ms)
    ensures r.Some? ==> r.value == Entries(ms)
  {
    if |ms| == 0 {
      return None;
    }
    var es, seen, files := CollectEntries(ms);
    if es.None? {
      if AllConvert(ms) {
        EntriesUnderVendor(ms);
        ChecksMeanFit(Entries(ms));
      }
      return None;
    }
    EntriesUnderVendor(ms);
    ChecksMeanFit(es.value);
    var ok := NoConflicts(seen, files);
    r := if ok then es else None;
  }

  lemma EntriesUnderVendor(ms: seq<Member>)
    requires AllConvert(ms)
    ensures forall e :: e in Entries(ms) ==> e.path != [] && e.path[0] == "vendor"
    ensures [] !in Paths(Entries(ms)) && [] !in FilePaths(Entries(ms))
  {
    forall e | e in Entries(ms) ensures e.path != [] && e.path[0] == "vendor" {
      var i :| 0 <= i < |ms| && Entries(ms)[i] == e;
      ConvertFacts(ms[i]);
    }
  }

  /** extract_archive: a valid archive extracts into a root without vendor, adding exactly its tree; in
      every other case nothing is written. */
  method ExtractArchive(fs: Fs, ms: seq<Member>) returns (r: Option<Fs>)
    requires Rooted(fs)
    ensures r.Some? <==> ["vendor"] !in fs && ValidArchive(ms)
    ensures r.Some? ==> r.value == fs + Tree(Entries(ms))
  {
    if ["vendor"] in fs {
      return None;
    }
    var es := ValidateArchive(ms);
    if es.None? {
      return None;
    }
    FittingEntriesExtract(fs, es.value);
    var now := fs;
    for i := 0 to |es.value|
      invariant ExtractAll(fs, es.value[..i]) == Some(now)
    {
      ExtractOneMore(fs, es.value, i);
      var next := ExtractOne(now, es.value[i]);
      if next.None? {
        StaysFailed(fs, es.value, i + 1);
        return None;
      }
      now := next.value;
    }
    assert es.value[..|es.value|] == es.value;
    r := Some(now);
  }

  lemma ExtractOneMore(fs: Fs, es: seq<Entry>, i: nat)
    requires i < |es|
    ensures ExtractAll(fs, es[..i + 1]) ==
              if ExtractAll(fs, es[..i]).None? then None else ExtractOne(ExtractAll(fs, es[..i]).value, es[i])
  {
    assert es[..i + 1][..i] == es[..i];
  }

  lemma {:induction false} StaysFailed(fs: Fs, es: seq<Entry>, n: nat)
    requires n <= |es| && ExtractAll(fs, es[..n]).None?
    ensures ExtractAll(fs, es).None?
    decreases |es| - n
  {
    if n < |es| {
      assert es[..n + 1][..n] == es[..n];
      StaysFailed(fs, es, n + 1);
    } else {
      assert es[..n] == es;
    }
  }

  // ----- The order of the members ---------------------------------------------------------------

  lemma {:induction false} TwoPlaces<T>(s: seq<T>, x: T) returns (k: nat, l: nat)
    requires multiset(s)[x] >= 2
    ensures k < l < |s| && s[k] == x && s[l] == x
  {
    var init, last := s[..|s| - 1], s[|s| - 1];
    LastSplit(s);
    if last == x {
      assert x in multiset(init);
      k :| 0 <= k < |init| && init[k] == x;
      l := |s| - 1;
    } else {
      k, l := TwoPlaces(init, x);
    }
  }

  lemma CountTwice<T>(s: seq<T>, i: nat, j: nat)
    requires i < j < |s| && s[i] == s[j]
    ensures multiset(s)[s[i]] >= 2
  {
    assert s == s[..i] + [s[i]] + s[i + 1..j] + [s[j]] + s[j + 1..];
  }

  /** A rearrangement puts any two members at two different places of the original. */
  lemma PlacesOfPair<T>(a: seq<T>, b: seq<T>, i: nat, j: nat) returns (k: nat, l: nat)
    requires multiset(a) == multiset(b) && i < j < |b|
    ensures k < |a| && l < |a| && k != l && a[k] == b[i] && a[l] == b[j]
  {
    if b[i] == b[j] {
      CountTwice(b, i, j);
      k, l := TwoPlaces(a, b[i]);
    } else {
      assert b[i] in multiset(b) && b[j] in multiset(b);
      k :| 0 <= k < |a| && a[k] == b[i];
      l :| 0 <= l < |a| && a[l] == b[j];
    }
  }

  lemma {:induction false} FitsPairwise(es: seq<Entry>, k: nat, l: nat)
    requires FitTogether(es) && k < l < |es|
    ensures Compatible(es[k], es[l])
  {
    if l < |es| - 1 {
      FitsPairwise(es[..|es| - 1], k, l);
    } else {
      assert es[..|es| - 1][k] in es[..|es| - 1];
    }
  }

  lemma {:induction false} PairwiseFits(es: seq<Entry>)
    requires forall e :: e in es ==> e.path != [] && e.path[0] == "vendor"
    requires forall i, j :: 0 <= i < j < |es| ==> Compatible(es[i], es[j])
    ensures FitTogether(es)
  {
    if es != [] {
      PairwiseFits(es[..|es| - 1]);
    }
  }

  lemma ReorderedIsValid(a: seq<Member>, b: seq<Member>)
    requires ValidArchive(a) && multiset(a) == multiset(b)
    ensures ValidArchive(b)
  {
    assert forall m :: m in a <==> m in multiset(a);
    assert forall m :: m in b <==> m in multiset(b);
    assert a[0] in b;
    EntriesUnderVendor(b);
    var es := Entries(b);
    forall i, j | 0 <= i < j < |es| ensures Compatible(es[i], es[j]) {
      var k, l := PlacesOfPair(a, b, i, j);
      if k < l {
        FitsPairwise(Entries(a), k, l);
      } else {
        FitsPairwise(Entries(a), l, k);
      }
    }
    PairwiseFits(es);
  }

  /** A rearranged archive is valid exactly when the original is, and leaves the same tree. */
  lemma MemberOrderDoesNotMatter(a: seq<Member>, b: seq<Member>)
    requires multiset(a) == multiset(b)
    ensures ValidArchive(a) <==> ValidArchive(b)
    ensures ValidArchive(a) ==> Tree(Entries(a)) == Tree(Entries(b))
  {
    if ValidArchive(a) {
      ReorderedIsValid(a, b);
      assert forall m :: m in a <==> m in multiset(a);
      assert forall m :: m in b <==> m in multiset(b);
      EntriesByMember(a);
      EntriesByMember(b);
      assert Elements(Entries(a)) == Elements(Entries(b));
      SameTree(Entries(a), Entries(b));
    } else if ValidArchive(b) {
      ReorderedIsValid(b, a);
    }
  }

  lemma EntriesByMember(ms: seq<Member>)
    requires AllConvert(ms)
    ensures forall e :: e in Entries(ms) <==> exists m :: m in ms && Convert(m) == Some(e)
  {
    forall e | e in Entries(ms) ensures exists m :: m in ms && Convert(m) == Some(e) {
      var i :| 0 <= i < |ms| && Entries(ms)[i] == e;
      assert ms[i] in ms;
    }
    forall m, e | m in ms && Convert(m) == Some(e) ensures e in Entries(ms) {
      var i :| 0 <= i < |ms| && ms[i] == m;
      assert Entries(ms)[i] == e;
    }
  }

  /** In the tree of a valid archive every member stands at its path: directories, and files with their content and the
      low nine bits of their mode. */
  lemma MembersAreExtracted(ms: seq<Member>, m: Member)
    requires ValidArchive(ms) && m in ms
    ensures SafePath(m.name).Some? && SafePath(m.name).value in Tree(Entries(ms))
    ensures var node := Tree(Entries(ms))[SafePath(m.name).value];
            if m.kind == Directory then node == Dir
            else node.FileNode? && node.content == m.content
                 && node.mode < 512 && exists high: nat :: m.mode == 512 * high + node.mode
  {
    ConvertIff(m);
    EntriesByMember(ms);
    var e := Convert(m).value;
    assert e in Entries(ms);
    TreeAt(Entries(ms), e.path);
  }
}
