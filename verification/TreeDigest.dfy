/** The byte stream that scripts/extract_sbom_vendor.py feeds to its tree hash: an unambiguous encoding of
    the map from file paths to content digests, independent of the traversal order.
 */
module TreeDigest {
  import opened Wrappers
  import opened Text
  import opened SortedText

  const DIGEST_BYTES := 32
  const MODULES_FILE := "modules.txt"

  /** What stands at a path below the vendor root; a file is represented by the digest of its bytes. */
  datatype Node = Dir | File(digest: string) | Symlink | Other

  type VendorDir = map<string, Node>

  predicate Unsupported(node: Node) {
    node == Symlink || node == Other
  }

  predicate HoldsFile(dir: VendorDir, path: string) {
    path in dir && dir[path].File?
  }

  /** One file: tag, relative path, NUL, digest. */
  function Frame(path: string, digest: string): string {
    "F\0" + path + "\0" + digest
  }

  /** The bytes of a frame, one by one. */
  lemma FrameBytes(path: string, digest: string)
    ensures var f := Frame(path, digest);
            && |f| == |path| + |digest| + 3 && f[0] == 'F' && f[1] == '\0' && f[2 + |path|] == '\0'
            && f[2..2 + |path|] == path && f[3 + |path|..] == digest
  {
  }

  function FrameOf(dir: VendorDir, path: string): string {
    if path in dir && dir[path].File? then Frame(path, dir[path].digest) else ""
  }

  function Stream(dir: VendorDir, paths: seq<string>): string {
    FlatMap(p => FrameOf(dir, p), paths)
  }

  /** The loop of tree_digest below a root that is a real directory, over a traversal of the directory, in any order. */
  method TreeStream(dir: VendorDir, traversal: seq<string>) returns (r: Option<string>)
    requires Elements(traversal) == dir.Keys
    ensures r.None? <==>
              || "modules.txt" !in dir || !dir["modules.txt"].File?
              || exists p :: p in dir && !dir[p].Dir? && !dir[p].File?
    ensures r.Some? ==> r.value == Stream(dir, Sort(traversal))
  {
    if !HoldsFile(dir, MODULES_FILE) {
      return None;
    }
    var sorted := Sort(traversal);
    SortedPaths(dir, traversal);
    var stream := "";
    assert sorted[..0] == [] && Stream(dir, []) == "";
    for i := 0 to |sorted|
      invariant stream == Stream(dir, sorted[..i])
      invariant AllSupported(dir, sorted[..i])
    {
      StreamSnoc(dir, sorted, i);
      var node := dir[sorted[i]];
      if Unsupported(node) {
        return None;
      }
      if node.File? {
        stream := stream + Frame(sorted[i], node.digest);
      }
    }
    assert sorted[..|sorted|] == sorted;
    SupportedAll(dir, sorted);
    r := Some(stream);
  }

  ghost predicate AllSupported(dir: VendorDir, paths: seq<string>) {
    forall i :: 0 <= i < |paths| ==> paths[i] in dir && !Unsupported(dir[paths[i]])
  }

  lemma SupportedAll(dir: VendorDir, paths: seq<string>)
    requires AllSupported(dir, paths) && forall p :: p in dir ==> p in paths
    ensures forall p :: p in dir ==> !Unsupported(dir[p])
  {
  }

  lemma SortedPaths(dir: VendorDir, traversal: seq<string>)
    requires Elements(traversal) == dir.Keys
    ensures var sorted := Sort(traversal);
            (forall j :: 0 <= j < |sorted| ==> sorted[j] in dir) &&
            forall p :: p in dir ==> p in sorted
  {
    SortFacts(traversal);
    var sorted := Sort(traversal);
    forall j | 0 <= j < |sorted| ensures sorted[j] in dir {
      assert sorted[j] in Elements(sorted);
    }
    forall p | p in dir ensures p in sorted {
      assert p in Elements(sorted);
    }
  }

  lemma StreamSnoc(dir: VendorDir, paths: seq<string>, i: nat)
    requires i < |paths|
    ensures Stream(dir, paths[..i + 1]) == Stream(dir, paths[..i]) + FrameOf(dir, paths[i])
    ensures AllSupported(dir, paths[..i + 1]) <==>
              AllSupported(dir, paths[..i]) && paths[i] in dir && !Unsupported(dir[paths[i]])
  {
    assert paths[..i + 1] == paths[..i] + [paths[i]];
    FlatMapSnoc(p => FrameOf(dir, p), paths[..i], paths[i]);
    SupportedSnoc(dir, paths[..i], paths[i]);
  }

  lemma SupportedSnoc(dir: VendorDir, init: seq<string>, last: string)
    ensures AllSupported(dir, init + [last]) <==>
              AllSupported(dir, init) && last in dir && !Unsupported(dir[last])
  {
    var s := init + [last];
    assert s[|init|] == last;
    assert forall i :: 0 <= i < |init| ==> s[i] == init[i];
  }

  // ----- The stream depends on the files only ---------------------------------------------------

  ghost function IsFile(dir: VendorDir, p: string): seq<string> {
    if p in dir && dir[p].File? then [p] else []
  }

  /** The file paths of a list, order kept. */
  ghost function Files(dir: VendorDir, paths: seq<string>): seq<string> {
    FlatMap(p => IsFile(dir, p), paths)
  }

  lemma {:induction false} StreamOfFiles(dir: VendorDir, paths: seq<string>)
    ensures Stream(dir, paths) == Stream(dir, Files(dir, paths))
  {
    if paths != [] {
      var init, last := paths[..|paths| - 1], paths[|paths| - 1];
      LastSplit(paths);
      StreamOfFiles(dir, init);
      FlatMapSnoc(p => FrameOf(dir, p), init, last);
      FlatMapSnoc(p => IsFile(dir, p), init, last);
      FlatMapAppend(p => FrameOf(dir, p), Files(dir, init), IsFile(dir, last));
      if IsFile(dir, last) != [] {
        FlatMapOne(p => FrameOf(dir, p), last);
      }
    }
  }

  /** An upper bound behind a strictly ascending list keeps it so. */
  lemma StrictSnoc(s: seq<string>, x: string)
    requires StrictlyAscending(s) && forall i :: 0 <= i < |s| ==> CompareText(s[i], x) < 0
    ensures StrictlyAscending(s + [x])
  {
  }

  ghost predicate FilesAmong(files: seq<string>, dir: VendorDir, paths: seq<string>) {
    forall p :: p in files <==> p in paths && p in dir && dir[p].File?
  }

  lemma {:induction false} FilesFacts(dir: VendorDir, paths: seq<string>)
    requires StrictlyAscending(paths)
    ensures StrictlyAscending(Files(dir, paths)) && FilesAmong(Files(dir, paths), dir, paths)
  {
    if paths != [] {
      var init, last := paths[..|paths| - 1], paths[|paths| - 1];
      LastSplit(paths);
      StrictInit(init, last);
      FilesFacts(dir, init);
      FilesSnoc(dir, init, last);
      AddFile(dir, init, last, Files(dir, init));
    }
  }

  lemma StrictInit(init: seq<string>, last: string)
    requires StrictlyAscending(init + [last])
    ensures StrictlyAscending(init) && forall j :: 0 <= j < |init| ==> CompareText(init[j], last) < 0
  {
    var s := init + [last];
    forall j | 0 <= j < |init| ensures CompareText(init[j], last) < 0 {
      assert s[j] == init[j] && s[|init|] == last;
    }
    forall i, j | 0 <= i < j < |init| ensures CompareText(init[i], init[j]) < 0 {
      assert s[i] == init[i] && s[j] == init[j];
    }
  }

  lemma AddFile(dir: VendorDir, init: seq<string>, last: string, files: seq<string>)
    requires StrictlyAscending(files) && FilesAmong(files, dir, init)
    requires forall j :: 0 <= j < |init| ==> CompareText(init[j], last) < 0
    ensures StrictlyAscending(files + IsFile(dir, last))
    ensures FilesAmong(files + IsFile(dir, last), dir, init + [last])
  {
    forall i | 0 <= i < |files| ensures CompareText(files[i], last) < 0 {
      assert files[i] in files;
    }
    StrictSnoc(files, last);
  }

  lemma FilesSnoc(dir: VendorDir, init: seq<string>, last: string)
    ensures Files(dir, init + [last]) == Files(dir, init) + IsFile(dir, last)
    ensures forall p :: p in init + [last] <==> p in init || p == last
  {
    FlatMapSnoc(p => IsFile(dir, p), init, last);
  }

  /** Any two traversals of one directory, each visiting every path once, feed the same stream. */
  lemma TraversalDoesNotMatter(dir: VendorDir, a: seq<string>, b: seq<string>)
    requires Distinct(a) && Distinct(b) && Elements(a) == dir.Keys && Elements(b) == dir.Keys
    ensures Sort(a) == Sort(b) && Stream(dir, Sort(a)) == Stream(dir, Sort(b))
  {
    SortIsStrict(a);
    SortIsStrict(b);
    AscendingUnique(Sort(a), Sort(b));
  }

  lemma {:induction false} InsertIsStrict(x: string, s: seq<string>)
    requires StrictlyAscending(s) && x !in s
    ensures StrictlyAscending(Insert(x, s))
    ensures Elements(Insert(x, s)) == {x} + Elements(s)
  {
    assert Ascending(s);
    InsertFacts(x, s);
    StrictIsDistinct(s);
    InsertDistinct(x, s);
    var r := Insert(x, s);
    forall i, j | 0 <= i < j < |r| ensures CompareText(r[i], r[j]) < 0 {
      CompareTextAntisymmetric(r[i], r[j]);
    }
  }

  lemma {:induction false} InsertDistinct(x: string, s: seq<string>)
    requires Distinct(s) && x !in s
    ensures Distinct(Insert(x, s))
    ensures forall y :: y in Insert(x, s) <==> y == x || y in s
  {
    if s != [] && CompareText(x, s[0]) > 0 {
      assert s == [s[0]] + s[1..];
      InsertDistinct(x, s[1..]);
      assert s[0] !in s[1..];
    }
  }

  lemma {:induction false} SortIsStrict(s: seq<string>)
    requires Distinct(s)
    ensures StrictlyAscending(Sort(s)) && Elements(Sort(s)) == Elements(s)
  {
    if s != [] {
      SortIsStrict(s[1..]);
      SortFacts(s[1..]);
      assert s[0] !in s[1..];
      assert s[0] !in Elements(Sort(s[1..]));
      StrictIsDistinct(Sort(s[1..]));
      InsertIsStrict(s[0], Sort(s[1..]));
      ElementsConcat([s[0]], s[1..]);
      assert s == [s[0]] + s[1..];
    }
  }

  // ----- The stream determines the files --------------------------------------------------------

  /** Paths hold no NUL and digests have the length of SHA-256. */
  ghost predicate Encodable(dir: VendorDir) {
    forall p :: p in dir ==> '\0' !in p && (dir[p].File? ==> |dir[p].digest| == DIGEST_BYTES)
  }

  lemma UpToNul(a: string, b: string, x: string, y: string)
    requires '\0' !in a && '\0' !in b && a + "\0" + x == b + "\0" + y
    ensures a == b && x == y
  {
    var t := a + "\0" + x;
    NulComesAt(a, x);
    NulComesAt(b, y);
    assert a == t[..|a|] && b == t[..|b|];
    assert x == t[|a| + 1..] && y == t[|b| + 1..];
  }

  lemma NulComesAt(a: string, x: string)
    ensures (a + "\0" + x)[|a|] == '\0'
    ensures forall i :: 0 <= i < |a| ==> (a + "\0" + x)[i] == a[i]
  {
  }

  lemma FrameIsReadable(p: string, d: string, x: string, q: string, e: string, y: string)
    requires '\0' !in p && '\0' !in q && |d| == DIGEST_BYTES && |e| == DIGEST_BYTES
    requires Frame(p, d) + x == Frame(q, e) + y
    ensures p == q && d == e && x == y
  {
    var t := Frame(p, d) + x;
    assert t[2..] == p + "\0" + (d + x);
    assert t[2..] == q + "\0" + (e + y);
    UpToNul(p, q, d + x, e + y);
    assert (d + x)[..DIGEST_BYTES] == d && (e + y)[..DIGEST_BYTES] == e;
    assert (d + x)[DIGEST_BYTES..] == x && (e + y)[DIGEST_BYTES..] == y;
  }

  lemma StreamCons(dir: VendorDir, p: string, rest: seq<string>)
    ensures Stream(dir, [p] + rest) == FrameOf(dir, p) + Stream(dir, rest)
  {
    FlatMapAppend(p => FrameOf(dir, p), [p], rest);
    FlatMapOne(p => FrameOf(dir, p), p);
  }

  ghost predicate AllFiles(dir: VendorDir, paths: seq<string>) {
    forall i :: 0 <= i < |paths| ==> paths[i] in dir && dir[paths[i]].File?
  }

  /** Equal streams of files are streams of equal files, whatever the two directories. */
  lemma {:induction false} StreamsOfFilesAgree(a: VendorDir, ps: seq<string>, b: VendorDir, qs: seq<string>)
    requires Encodable(a) && Encodable(b) && AllFiles(a, ps) && AllFiles(b, qs)
    requires Stream(a, ps) == Stream(b, qs)
    ensures ps == qs && forall p :: p in ps ==> a[p] == b[p]
    decreases |ps|
  {
    if ps != [] {
      StreamCons(a, ps[0], ps[1..]);
      assert ps == [ps[0]] + ps[1..];
    }
    if qs != [] {
      StreamCons(b, qs[0], qs[1..]);
      assert qs == [qs[0]] + qs[1..];
    }
    if ps != [] && qs != [] {
      FrameIsReadable(ps[0], a[ps[0]].digest, Stream(a, ps[1..]), qs[0], b[qs[0]].digest, Stream(b, qs[1..]));
      StreamsOfFilesAgree(a, ps[1..], b, qs[1..]);
    }
  }

  ghost predicate SameFiles(a: VendorDir, b: VendorDir) {
    forall p, d :: p in a && a[p] == File(d) <==> p in b && b[p] == File(d)
  }

  /** Two directories feed the same stream exactly when they hold the same files with the same digests;
      directories do not take part. */
  lemma StreamDeterminesFiles(a: VendorDir, ta: seq<string>, b: VendorDir, tb: seq<string>)
    requires Encodable(a) && Distinct(ta) && Elements(ta) == a.Keys
    requires Encodable(b) && Distinct(tb) && Elements(tb) == b.Keys
    ensures Stream(a, Sort(ta)) == Stream(b, Sort(tb)) <==> SameFiles(a, b)
  {
    var fa, fb := Files(a, Sort(ta)), Files(b, Sort(tb));
    FilesOfTraversal(a, ta);
    FilesOfTraversal(b, tb);
    if Stream(a, fa) == Stream(b, fb) {
      StreamsOfFilesAgree(a, fa, b, fb);
      EqualListsSameFiles(a, b, fa);
    }
    if SameFiles(a, b) {
      SameFilesEqualLists(a, fa, b, fb);
      SameFrames(a, b, fa);
    }
  }

  ghost predicate Lists(files: seq<string>, dir: VendorDir) {
    forall p :: p in files <==> p in dir && dir[p].File?
  }

  lemma FilesOfTraversal(dir: VendorDir, traversal: seq<string>)
    requires Distinct(traversal) && Elements(traversal) == dir.Keys
    ensures var files := Files(dir, Sort(traversal));
            StrictlyAscending(files) && Lists(files, dir) && AllFiles(dir, files) &&
            Stream(dir, Sort(traversal)) == Stream(dir, files)
  {
    SortIsStrict(traversal);
    StreamOfFiles(dir, Sort(traversal));
    FilesFacts(dir, Sort(traversal));
    ListedFiles(dir, traversal, Files(dir, Sort(traversal)));
  }

  lemma EqualListsSameFiles(a: VendorDir, b: VendorDir, files: seq<string>)
    requires Lists(files, a) && Lists(files, b) && forall p :: p in files ==> a[p] == b[p]
    ensures SameFiles(a, b)
  {
    forall p, d ensures p in a && a[p] == File(d) <==> p in b && b[p] == File(d) {
      assert p in files <==> p in a && a[p].File?;
    }
  }

  lemma SameFilesEqualLists(a: VendorDir, fa: seq<string>, b: VendorDir, fb: seq<string>)
    requires Lists(fa, a) && StrictlyAscending(fa) && Lists(fb, b) && StrictlyAscending(fb) && SameFiles(a, b)
    ensures fa == fb && forall p :: p in fa ==> FrameOf(a, p) == FrameOf(b, p)
  {
    forall p ensures p in Elements(fa) <==> p in Elements(fb) {
      SameFile(a, b, p);
    }
    AscendingUnique(fa, fb);
    forall p | p in fa ensures FrameOf(a, p) == FrameOf(b, p) {
      SameFile(a, b, p);
    }
  }

  lemma SameFile(a: VendorDir, b: VendorDir, p: string)
    requires SameFiles(a, b)
    ensures p in a && a[p].File? <==> p in b && b[p].File?
    ensures FrameOf(a, p) == FrameOf(b, p)
  {
    if p in a && a[p].File? {
      assert a[p] == File(a[p].digest);
    }
    if p in b && b[p].File? {
      assert b[p] == File(b[p].digest);
    }
  }

  lemma ListedFiles(dir: VendorDir, traversal: seq<string>, files: seq<string>)
    requires Elements(traversal) == dir.Keys
    requires FilesAmong(files, dir, Sort(traversal))
    ensures Lists(files, dir)
    ensures AllFiles(dir, files)
  {
    SortFacts(traversal);
    forall p ensures p in Sort(traversal) <==> p in dir {
      assert p in Sort(traversal) <==> p in Elements(Sort(traversal));
    }
  }

  lemma {:induction false} SameFrames(a: VendorDir, b: VendorDir, paths: seq<string>)
    requires forall p :: p in paths ==> FrameOf(a, p) == FrameOf(b, p)
    ensures Stream(a, paths) == Stream(b, paths)
  {
    if paths != [] {
      var init, last := paths[..|paths| - 1], paths[|paths| - 1];
      LastSplit(paths);
      SameFrames(a, b, init);
      FlatMapSnoc(p => FrameOf(a, p), init, last);
      FlatMapSnoc(p => FrameOf(b, p), init, last);
    }
  }
}
