/** Exactly which argument lists survive shellJoin followed by parseStdioCommandArgv.

    A placeholder, a part with both angle brackets, is passed through unquoted. If it holds a character that
    the scanner interprets, the scanner falls behind it at that character and never catches up: it can only
    complete the argument by keeping a separator that the argument does not have.
 */
module ShellRoundTrip {
  import opened Text
  import opened ShellWords

  // ----- What the scanner has read is committed -------------------------------------------------

  lemma {:induction false} ArgsAreCommitted(s: Scan, text: string, out: seq<string>)
    requires FinishArgv(RunArgv(s, text)) == Ok(out)
    ensures s.args <= out
    decreases |text|
  {
    if text != "" {
      ArgsAreCommitted(StepArgv(s, text[0]), text[1..], out);
    }
  }

  /** The word being read is the beginning of the next argument. */
  lemma {:induction false} WordIsCommitted(s: Scan, text: string, out: seq<string>)
    requires FinishArgv(RunArgv(s, text)) == Ok(out) && |out| > |s.args|
    ensures s.args <= out && s.word <= out[|s.args|]
    decreases |text|
  {
    ArgsAreCommitted(s, text, out);
    if text != "" {
      var next := StepArgv(s, text[0]);
      ArgsAreCommitted(next, text[1..], out);
      if next.args == s.args {
        WordIsCommitted(next, text[1..], out);
      }
    }
  }

  lemma {:induction false} ArgsAreNotEmpty(s: Scan, text: string, out: seq<string>)
    requires FinishArgv(RunArgv(s, text)) == Ok(out) && NoneEmpty(s.args)
    ensures NoneEmpty(out) && out != []
    decreases |text|
  {
    if text != "" {
      ArgsAreNotEmpty(StepArgv(s, text[0]), text[1..], out);
    }
  }

  // ----- A scanner that is behind stays behind --------------------------------------------------

  /** The scanner has consumed the first p characters of the argument x and kept fewer. */
  ghost predicate Behind(s: Scan, out: seq<string>, x: string, p: nat) {
    |s.args| < |out| && out[|s.args|] == x && |s.word| < p <= |x|
  }

  /** A step neither completes the argument nor catches up. */
  lemma StepStaysBehind(s: Scan, out: seq<string>, x: string, p: nat, rest: string)
    requires Behind(s, out, x, p) && p < |x|
    requires FinishArgv(RunArgv(StepArgv(s, x[p]), rest)) == Ok(out)
    ensures Behind(StepArgv(s, x[p]), out, x, p + 1)
    ensures StepArgv(s, x[p]) == Emit(s, x[p]).(mode := StepArgv(s, x[p]).mode) ==> x[|s.word|] == x[p]
    ensures s.word != "" ==> StepArgv(s, x[p]).word != ""
  {
    var next := StepArgv(s, x[p]);
    ArgsAreCommitted(next, rest, out);
    if next.args == s.args {
      WordIsCommitted(next, rest, out);
    }
  }

  lemma StepInto(x: string, p: nat, tail: string)
    requires p < |x|
    ensures (x[p..] + tail)[0] == x[p] && (x[p..] + tail)[1..] == x[p + 1..] + tail
  {
    assert x[p..][1..] == x[p + 1..];
  }

  lemma SliceOfPrefix(x: string, p: nat, n: nat)
    requires p < n <= |x|
    ensures x[..n][p..] == x[p..n] && x[..n][p + 1..] == x[p + 1..n] && x[..n][p] == x[p]
  {
  }

  /** A bracket is always kept, so it cannot be the first one of its kind that the scanner meets behind. */
  lemma {:induction false} NotBehindBracket(s: Scan, out: seq<string>, x: string, p: nat, f: nat, tail: string)
    requires Behind(s, out, x, p) && p <= f < |x| && x[f] == '<' && '<' !in x[..f]
    ensures FinishArgv(RunArgv(s, x[p..f + 1] + tail)) != Ok(out)
    decreases f - p
  {
    var text := x[p..f + 1] + tail;
    StepInto(x[..f + 1], p, tail);
    SliceOfPrefix(x, p, f + 1);
    if FinishArgv(RunArgv(s, text)) == Ok(out) {
      StepStaysBehind(s, out, x, p, text[1..]);
      if p < f {
        NotBehindBracket(StepArgv(s, x[p]), out, x, p + 1, f, tail);
      }
    }
  }

  /** Behind an argument without a blank so far, with something already kept, the scanner cannot complete it. */
  lemma {:induction false} NotBehindBlank(s: Scan, out: seq<string>, x: string, p: nat, tail: string)
    requires Behind(s, out, x, p) && s.word != "" && ' ' !in x[..p] && (tail == "" || tail[0] == ' ')
    ensures FinishArgv(RunArgv(s, x[p..] + tail)) != Ok(out)
    decreases |x| - p
  {
    var text := x[p..] + tail;
    if FinishArgv(RunArgv(s, text)) == Ok(out) {
      if p < |x| {
        StepInto(x, p, tail);
        StepStaysBehind(s, out, x, p, text[1..]);
        if x[p] != ' ' {
          assert x[..p + 1] == x[..p] + [x[p]];
          NotBehindBlank(StepArgv(s, x[p]), out, x, p + 1, tail);
        }
      } else {
        assert text == tail && x[..p] == x;
        NotCompletedAtEnd(s, out, x, tail);
      }
    }
  }

  lemma NotCompletedAtEnd(s: Scan, out: seq<string>, x: string, tail: string)
    requires Behind(s, out, x, |x|) && s.word != "" && ' ' !in x && (tail == "" || tail[0] == ' ')
    ensures FinishArgv(RunArgv(s, tail)) != Ok(out)
  {
    if FinishArgv(RunArgv(s, tail)) == Ok(out) && tail != "" {
      var next := StepArgv(s, ' ');
      ArgsAreCommitted(next, tail[1..], out);
      if next.args == s.args {
        WordIsCommitted(next, tail[1..], out);
        PrefixByte(s.word, ' ', x);
      }
    }
  }

  lemma PrefixByte(word: string, c: char, x: string)
    requires word + [c] <= x
    ensures x[|word|] == c && c in x
  {
    assert (word + [c])[|word|] == c;
  }

  /** At its first special character the scanner falls behind a placeholder, for good. */
  lemma LostAtSpecial(s: Scan, out: seq<string>, x: string, k: nat, tail: string)
    requires |s.args| < |out| && out[|s.args|] == x && IsPlaceholder(x) && (tail == "" || tail[0] == ' ')
    requires k < |x| && IsSpecial(x[k]) && Ordinary(x[..k]) && s.word == x[..k] && s.mode == Plain
    ensures FinishArgv(RunArgv(StepArgv(s, x[k]), x[k + 1..] + tail)) != Ok(out)
  {
    var next, rest := StepArgv(s, x[k]), x[k + 1..] + tail;
    if FinishArgv(RunArgv(next, rest)) == Ok(out) {
      ArgsAreCommitted(next, rest, out);
      if '<' in x[..k] {
        assert x[..k + 1] == x[..k] + [x[k]];
        NotBehindBlank(next, out, x, k + 1, tail);
      } else {
        LostBeforeBracket(next, out, x, k, tail);
      }
    }
  }

  lemma LostBeforeBracket(s: Scan, out: seq<string>, x: string, k: nat, tail: string)
    requires k < |x| && x[k] != '<' && Behind(s, out, x, k + 1) && '<' in x && '<' !in x[..k]
    ensures FinishArgv(RunArgv(s, x[k + 1..] + tail)) != Ok(out)
  {
    var f := FirstBracket(x);
    assert forall i :: 0 <= i < k ==> x[..k][i] == x[i];
    assert x[k + 1..] + tail == x[k + 1..f + 1] + (x[f + 1..] + tail);
    NotBehindBracket(s, out, x, k + 1, f, x[f + 1..] + tail);
  }

  /** The scanner reads a word up to its first special character, and then that one. */
  lemma ReadsUpToSpecial(args: seq<string>, x: string, k: nat, tail: string)
    requires k < |x| && Ordinary(x[..k])
    ensures RunArgv(Scan(args, "", Plain), x + tail) ==
              RunArgv(StepArgv(Scan(args, x[..k], Plain), x[k]), x[k + 1..] + tail)
  {
    var start, rest := Scan(args, "", Plain), x[k..] + tail;
    RunOrdinary(start, x[..k]);
    assert start.word + x[..k] == x[..k];
    assert x + tail == x[..k] + rest;
    RunArgvAppend(start, x[..k], rest);
    assert rest[0] == x[k] && rest[1..] == x[k + 1..] + tail;
  }

  /** A placeholder with a special character is not read back, whatever comes before and after. */
  lemma UnreadableIsLost(args: seq<string>, out: seq<string>, x: string, tail: string)
    requires |args| < |out| && out[|args|] == x && !Readable(x) && (tail == "" || tail[0] == ' ')
    ensures FinishArgv(RunArgv(Scan(args, "", Plain), x + tail)) != Ok(out)
  {
    var k := FirstSpecial(x);
    ReadsUpToSpecial(args, x, k, tail);
    LostAtSpecial(Scan(args, x[..k], Plain), out, x, k, tail);
  }

  lemma FirstSpecial(x: string) returns (k: nat)
    requires !Ordinary(x)
    ensures k < |x| && IsSpecial(x[k]) && Ordinary(x[..k])
  {
    k := 0;
    while !IsSpecial(x[k])
      invariant k < |x| && Ordinary(x[..k]) && exists i :: k <= i < |x| && IsSpecial(x[i])
      decreases |x| - k
    {
      k := k + 1;
    }
  }

  lemma FirstBracket(x: string) returns (f: nat)
    requires '<' in x
    ensures f < |x| && x[f] == '<' && '<' !in x[..f]
  {
    f := 0;
    while x[f] != '<'
      invariant f < |x| && '<' !in x[..f] && exists i :: f <= i < |x| && x[i] == '<'
      decreases |x| - f
    {
      f := f + 1;
    }
  }

  // ----- White space around the text ------------------------------------------------------------

  /** What TrimSpaceLeft and TrimSpaceRight take away holds no visible character. */
  ghost predicate Blank(s: string) {
    forall i :: 0 <= i < |s| ==> !Graphic(s[i])
  }

  lemma LeadingIsBlank(s: string)
    ensures Blank(s[..LeadingSpace(s)])
  {
  }

  lemma TrailingIsBlank(s: string)
    ensures Blank(s[|s| - TrailingSpace(s)..])
  {
  }

  lemma BlankConcat(a: string, b: string)
    requires Blank(a) && Blank(b)
    ensures Blank(a + b)
  {
  }

  lemma LongerFront(s: string, n: nat, m: nat)
    requires n + m <= |s| && Blank(s[..n]) && Blank(s[n..][..m])
    ensures Blank(s[..n + m]) && s[n..][m..] == s[n + m..]
  {
    BlankConcat(s[..n], s[n..][..m]);
    assert s[..n + m] == s[..n] + s[n..][..m];
  }

  lemma LongerBack(s: string, n: nat, m: nat)
    requires m <= n <= |s| && Blank(s[..n][m..]) && Blank(s[n..])
    ensures Blank(s[m..]) && s[..n][..m] == s[..m]
  {
    BlankConcat(s[..n][m..], s[n..]);
    assert s[m..] == s[..n][m..] + s[n..];
  }

  /** Where TrimSpaceLeft starts: behind a blank front. */
  lemma {:induction false} FrontCut(s: string) returns (m: nat)
    ensures m <= |s| && TrimSpaceLeft(s) == s[m..] && Blank(s[..m])
    decreases |s|
  {
    var n := LeadingSpace(s);
    LeadingIsBlank(s);
    if n == 0 {
      m := 0;
    } else {
      var k := FrontCut(s[n..]);
      LongerFront(s, n, k);
      m := n + k;
    }
  }

  /** Where TrimSpaceRight ends: before a blank back. */
  lemma {:induction false} BackCut(s: string) returns (n: nat)
    ensures n <= |s| && TrimSpaceRight(s) == s[..n] && Blank(s[n..])
    decreases |s|
  {
    var k := |s| - TrailingSpace(s);
    TrailingIsBlank(s);
    if k == |s| {
      n := |s|;
    } else {
      n := BackCut(s[..k]);
      LongerBack(s, k, n);
    }
  }

  lemma CutTwice(s: string, left: string, t: string, m: nat, k: nat)
    requires m <= |s| && left == s[m..] && k <= |left| && t == left[..k] && Blank(left[k..])
    ensures t == s[m..m + k] && Blank(s[m + k..])
  {
    assert s[m..][k..] == s[m + k..];
  }

  /** TrimSpace cuts a blank front and a blank back. */
  lemma Trimmed(s: string) returns (m: nat, n: nat)
    ensures m <= n <= |s| && TrimSpace(s) == s[m..n] && Blank(s[..m]) && Blank(s[n..])
  {
    m := FrontCut(s);
    var left := TrimSpaceLeft(s);
    var k := BackCut(left);
    CutTwice(s, left, TrimSpaceRight(left), m, k);
    n := m + k;
  }

  // ----- Lists that survive ---------------------------------------------------------------------

  ghost function Joined(parts: seq<string>): string {
    Join(QuoteAll(parts), " ")
  }

  /** What stands before part m. */
  ghost function Before(parts: seq<string>, m: nat): string
    requires m < |parts|
  {
    if m == 0 then "" else Joined(parts[..m]) + " "
  }

  lemma JoinedUpTo(parts: seq<string>, m: nat)
    requires m < |parts|
    ensures Joined(parts[..m + 1]) == Before(parts, m) + Quote(parts[m])
  {
    var upto := parts[..m + 1];
    if m == 0 {
      assert QuoteAll(upto) == [Quote(parts[0])];
    } else {
      QuoteAllSnoc(upto);
      assert upto[..m] == parts[..m];
    }
  }

  lemma StartsWithFirst(parts: seq<string>, sep: string)
    requires parts != []
    ensures parts[0] <= Join(parts, sep)
  {
  }

  lemma QuoteIsVisible(part: string)
    ensures !Blank(Quote(part))
  {
    if part != "" && IsPlaceholder(part) {
      var f := FirstBracket(part);
      assert Graphic(Quote(part)[f]);
    } else {
      QuoteEdges(part);
    }
  }

  lemma VisibleInside(a: string, b: string, text: string)
    requires !Blank(b) && a + b <= text
    ensures !Blank(text)
  {
    var i :| 0 <= i < |b| && Graphic(b[i]);
    assert text[|a| + i] == (a + b)[|a| + i] == b[i];
  }

  /** A separator and the parts that follow it. */
  lemma RestOfList(parts: seq<string>) returns (tail: string)
    requires parts != []
    ensures tail == " " + Joined(parts) && tail[0] == ' ' && !Blank(tail)
  {
    tail := " " + Joined(parts);
    StartsWithFirst(QuoteAll(parts), " ");
    QuoteIsVisible(parts[0]);
    VisibleInside(" ", Quote(parts[0]), tail);
  }

  /** The joined text around part m: what is read before it, the part, and a separator or nothing. */
  lemma AroundPart(parts: seq<string>, m: nat) returns (tail: string)
    requires m < |parts|
    ensures tail == "" || tail[0] == ' '
    ensures if m == |parts| - 1 then tail == "" else !Blank(tail)
    ensures Joined(parts) == Before(parts, m) + Quote(parts[m]) + tail
  {
    JoinedUpTo(parts, m);
    if m == |parts| - 1 {
      tail := "";
      assert parts[..m + 1] == parts;
    } else {
      tail := RestOfList(parts[m + 1..]);
      assert parts == parts[..m + 1] + parts[m + 1..];
      JoinedInTwo(parts[..m + 1], parts[m + 1..]);
      Regroup(Joined(parts[..m + 1]), " ", Joined(parts[m + 1..]));
    }
  }

  lemma JoinedInTwo(a: seq<string>, b: seq<string>)
    requires a != [] && b != []
    ensures Joined(a + b) == Joined(a) + " " + Joined(b)
  {
    assert QuoteAll(a + b) == QuoteAll(a) + QuoteAll(b);
    JoinAppend(QuoteAll(a), QuoteAll(b), " ");
  }

  lemma Regroup(a: string, b: string, c: string)
    ensures a + b + c == a + (b + c)
  {
  }

  /** After readable parts and a separator the scanner starts afresh. */
  lemma ReadsThenSeparator(text: string, init: seq<string>, rest: string)
    requires init != [] && RunArgv(START, text) == Scan(init[..|init| - 1], init[|init| - 1], Plain) && NoneEmpty(init)
    ensures RunArgv(START, text + " " + rest) == RunArgv(Scan(init, "", Plain), rest)
  {
    var s := Scan(init[..|init| - 1], init[|init| - 1], Plain);
    LastSplit(init);
    RunArgvAppend(START, text + " ", rest);
    RunArgvAppend(START, text, " ");
    RunArgvOne(s, ' ');
  }

  /** Reading what comes before part m, when all of that is readable. */
  lemma ReadsBefore(parts: seq<string>, m: nat, rest: string)
    requires m < |parts| && AllReadable(parts[..m]) && NoneEmpty(parts)
    ensures RunArgv(START, Before(parts, m) + rest) == RunArgv(Scan(parts[..m], "", Plain), rest)
  {
    if m == 0 {
      assert "" + rest == rest && parts[..0] == [];
    } else {
      ReadsJoined(parts[..m]);
      ReadsThenSeparator(Joined(parts[..m]), parts[..m], rest);
    }
  }

  /** Too little text is left to complete the argument. */
  lemma {:induction false} TooShort(s: Scan, out: seq<string>, x: string, rest: string)
    requires |s.args| < |out| && out[|s.args|] == x && |s.word| + |rest| < |x|
    ensures FinishArgv(RunArgv(s, rest)) != Ok(out)
    decreases |rest|
  {
    if FinishArgv(RunArgv(s, rest)) == Ok(out) && rest != "" {
      var next := StepArgv(s, rest[0]);
      ArgsAreCommitted(next, rest[1..], out);
      if next.args == s.args {
        TooShort(next, out, x, rest[1..]);
      }
    }
  }

  lemma VisibleIsKept(text: string, m: nat, n: nat, i: nat)
    requires m <= n <= |text| && Blank(text[..m]) && Blank(text[n..]) && i < |text| && Graphic(text[i])
    ensures m <= i < n
  {
    assert forall j :: 0 <= j < m ==> text[..m][j] == text[j];
    assert forall j :: n <= j < |text| ==> text[n..][j - n] == text[j];
  }

  lemma FrontPart(x: string, tail: string, m: nat, f: nat, n: nat)
    requires m <= f < |x| && f < n <= |x + tail|
    ensures (x + tail)[m..n] == x[m..f + 1] + (x + tail)[f + 1..n]
  {
    assert (x + tail)[m..f + 1] == x[m..f + 1];
    assert (x + tail)[m..n] == (x + tail)[m..f + 1] + (x + tail)[f + 1..n];
  }

  /** The scanner starts behind a placeholder whose front was cut. */
  lemma FrontOfPlaceholder(parts: seq<string>, tail: string, m: nat, n: nat)
    requires parts != [] && IsPlaceholder(parts[0])
    requires var text := parts[0] + tail; m <= n <= |text| && Blank(text[..m]) && Blank(text[n..])
    requires FinishArgv(RunArgv(START, (parts[0] + tail)[m..n])) == Ok(parts)
    ensures m == 0
  {
    var x, text := parts[0], parts[0] + tail;
    var f := FirstBracket(x);
    assert text[f] == '<';
    VisibleIsKept(text, m, n, f);
    if m > 0 {
      FrontPart(x, tail, m, f, n);
      NotBehindBracket(START, parts, x, m, f, text[f + 1..n]);
    }
  }

  /** White space cut from the front is missing from the first argument. */
  lemma FrontIsKept(parts: seq<string>, text: string, m: nat, n: nat)
    requires parts != [] && NoneEmpty(parts) && text == Joined(parts)
    requires m <= n <= |text| && Blank(text[..m]) && Blank(text[n..])
    requires FinishArgv(RunArgv(START, text[m..n])) == Ok(parts)
    ensures m == 0
  {
    var tail := AroundPart(parts, 0);
    assert text == Quote(parts[0]) + tail;
    if IsPlaceholder(parts[0]) {
      FrontOfPlaceholder(parts, tail, m, n);
    } else {
      QuoteEdges(parts[0]);
      VisibleIsKept(text, m, n, 0);
    }
  }

  lemma BackOfPlaceholder(parts: seq<string>, before: string, n: nat)
    requires parts != [] && NoneEmpty(parts) && AllReadable(parts[..|parts| - 1])
    requires before == Before(parts, |parts| - 1) && IsPlaceholder(parts[|parts| - 1])
    requires var text := before + parts[|parts| - 1];
             n <= |text| && Blank(text[n..]) && FinishArgv(RunArgv(START, text[..n])) == Ok(parts)
    ensures n == |before| + |parts[|parts| - 1]|
  {
    var last := |parts| - 1;
    var x, text := parts[last], before + parts[last];
    var f := FirstBracket(x);
    assert text[|before| + f] == '<';
    VisibleIsKept(text, 0, n, |before| + f);
    var rest := x[..n - |before|];
    assert text[..n] == before + rest;
    ReadsBefore(parts, last, rest);
    if |rest| < |x| {
      TooShort(Scan(parts[..last], "", Plain), parts, x, rest);
    }
  }

  /** White space cut from the back is missing from the last argument. */
  lemma BackIsKept(parts: seq<string>, text: string, n: nat)
    requires parts != [] && NoneEmpty(parts) && AllReadable(parts[..|parts| - 1]) && text == Joined(parts)
    requires n <= |text| && Blank(text[n..])
    requires FinishArgv(RunArgv(START, text[..n])) == Ok(parts)
    ensures n == |text|
  {
    var last := |parts| - 1;
    var tail := AroundPart(parts, last);
    var x, before := parts[last], Before(parts, last);
    assert text == before + Quote(x);
    if IsPlaceholder(x) {
      BackOfPlaceholder(parts, before, n);
    } else {
      QuoteEdges(x);
      assert text[|text| - 1] == Quote(x)[|Quote(x)| - 1];
      VisibleIsKept(text, 0, n, |text| - 1);
    }
  }

  lemma FirstUnreadable(parts: seq<string>) returns (j: nat)
    ensures j <= |parts| && AllReadable(parts[..j]) && (j < |parts| ==> !Readable(parts[j]))
  {
    j := 0;
    while j < |parts| && Readable(parts[j])
      invariant j <= |parts| && AllReadable(parts[..j])
    {
      j := j + 1;
    }
  }

  lemma VisibleTailIsKept(head: string, tail: string, n: nat)
    requires !Blank(tail) && n <= |head + tail| && Blank((head + tail)[n..])
    ensures |head| < n
  {
    var i :| 0 <= i < |tail| && Graphic(tail[i]);
    assert (head + tail)[|head| + i] == tail[i];
    VisibleIsKept(head + tail, 0, n, |head| + i);
  }

  /** Text that still has part j whole, which is the first unreadable one, is not read back. */
  lemma UnreadablePart(parts: seq<string>, j: nat, before: string, tail: string, n: nat)
    requires j < |parts| && AllReadable(parts[..j]) && !Readable(parts[j]) && NoneEmpty(parts)
    requires before == Before(parts, j)
    requires (tail == "" || tail[0] == ' ') && |before| + |parts[j]| <= n <= |before| + |parts[j]| + |tail|
    ensures FinishArgv(RunArgv(START, (before + parts[j] + tail)[..n])) != Ok(parts)
  {
    var x := parts[j];
    var text, cut := before + x + tail, tail[..n - |before| - |x|];
    assert text[..n] == before + (x + cut);
    ReadsBefore(parts, j, x + cut);
    UnreadableIsLost(parts[..j], parts, x, cut);
  }

  /** No part of a list that is read back is a placeholder with a special character. */
  lemma PartsAreReadable(parts: seq<string>, text: string, n: nat)
    requires parts != [] && NoneEmpty(parts) && text == Joined(parts)
    requires n <= |text| && Blank(text[n..])
    requires FinishArgv(RunArgv(START, text[..n])) == Ok(parts)
    ensures AllReadable(parts) && n == |text|
  {
    var j := FirstUnreadable(parts);
    var last := |parts| - 1;
    if j >= last {
      assert parts[..j][..last] == parts[..last];
      BackIsKept(parts, text, n);
    }
    if j < |parts| {
      var tail := AroundPart(parts, j);
      if j < last {
        VisibleTailIsKept(Before(parts, j) + parts[j], tail, n);
      }
      UnreadablePart(parts, j, Before(parts, j), tail, n);
    } else {
      assert parts[..j] == parts;
    }
  }

  lemma ReadBackIsReadable(parts: seq<string>, text: string, input: string)
    requires text == Joined(parts) && input == TrimSpace(text) && FinishArgv(RunArgv(START, input)) == Ok(parts)
    ensures parts != [] && NoneEmpty(parts) && AllReadable(parts) && input == text
  {
    var m, n := Trimmed(text);
    ArgsAreNotEmpty(START, input, parts);
    FrontIsKept(parts, text, m, n);
    assert text[m..n] == text[..n];
    PartsAreReadable(parts, text, n);
    assert text[..|text|] == text;
  }

  lemma ReadableIsReadBack(parts: seq<string>, text: string)
    requires text == Joined(parts) && parts != [] && NoneEmpty(parts) && AllReadable(parts)
    ensures FinishArgv(RunArgv(START, text)) == Ok(parts) && text != ""
  {
    ReadsJoined(parts);
    LastSplit(parts);
  }

  lemma ArgvOf(text: string, input: string, parts: seq<string>)
    requires input == TrimSpace(text)
    ensures Argv(text) == Ok(parts) <==> input != "" && FinishArgv(RunArgv(START, input)) == Ok(parts)
  {
  }

  /** parseStdioCommandArgv undoes shellJoin exactly on the non-empty lists of non-empty parts whose placeholders
      hold no character that the scanner interprets, and whose text has no white space around it. */
  lemma ArgvUndoesJoinIff(parts: seq<string>)
    ensures Argv(Joined(parts)) == Ok(parts) <==>
              && parts != [] && NoneEmpty(parts) && AllReadable(parts)
              && TrimSpace(Joined(parts)) == Joined(parts)
  {
    var text := Joined(parts);
    ArgvOf(text, TrimSpace(text), parts);
    if Argv(text) == Ok(parts) {
      ReadBackIsReadable(parts, text, TrimSpace(text));
    }
    if parts != [] && NoneEmpty(parts) && AllReadable(parts) {
      ReadableIsReadBack(parts, text);
    }
  }
}
