/**
  * The parts of Python's `str` type that the reset script relies on, with
  * the semantics of CPython 3: `strip()`, `rstrip(chars)`, `startswith`,
  * the substring test `p in s`, `split(sep)` with an explicit separator,
  * `sep.join(parts)`, `replace(old, new)` and `splitlines()`.
  */
module PyStr {
  import opened Wrappers

  /** Characters for which `str.isspace()` holds; `strip()` without an argument removes these. */
  predicate IsSpace(c: char) {
    c == ' ' || ('\t' <= c <= '\r') || ('\U{1C}' <= c <= '\U{1F}') ||
    c == '\U{85}' || c == '\U{A0}' || c == '\U{1680}' ||
    ('\U{2000}' <= c <= '\U{200A}') || c == '\U{2028}' || c == '\U{2029}' ||
    c == '\U{202F}' || c == '\U{205F}' || c == '\U{3000}'
  }

  /** Line boundaries recognised by `str.splitlines()` (`\r\n` is handled as one boundary). */
  predicate IsLineBreak(c: char) {
    c == '\n' || c == '\r' || c == '\U{0B}' || c == '\U{0C}' ||
    ('\U{1C}' <= c <= '\U{1E}') || c == '\U{85}' || c == '\U{2028}' || c == '\U{2029}'
  }

  /** `s.lstrip()`: the suffix of `s` left after dropping leading whitespace. */
  function LStrip(s: string): string
  {
    if s != [] && IsSpace(s[0]) then LStrip(s[1..]) else s
  }

  /** `s.rstrip()`: the prefix of `s` left after dropping trailing whitespace. */
  function RStrip(s: string): string
  {
    if s != [] && IsSpace(s[|s| - 1]) then RStrip(s[..|s| - 1]) else s
  }

  /** `s.strip()`. */
  function Strip(s: string): string {
    RStrip(LStrip(s))
  }

  /** `s.rstrip(c)` for a one-character argument: drop every trailing `c`. */
  function RStripChar(s: string, c: char): (r: string)
    ensures |r| <= |s| && r == s[..|r|]
    ensures r == [] || r[|r| - 1] != c
    ensures forall i :: |r| <= i < |s| ==> s[i] == c
  {
    if s != [] && s[|s| - 1] == c then RStripChar(s[..|s| - 1], c) else s
  }

  /** `s.startswith(p)`. */
  predicate StartsWith(s: string, p: string) {
    |p| <= |s| && s[..|p|] == p
  }

  /** `p` occurs in `s` starting at index `j`. */
  predicate OccursAt(s: string, p: string, j: int) {
    0 <= j <= |s| && StartsWith(s[j..], p)
  }

  /** `s.find(p)` for a non-empty `p`: the first index at which `p` occurs, if any. */
  function IndexOf(s: string, p: string): (r: Option<nat>)
    requires p != []
    ensures r.Some? ==> r.value + |p| <= |s|
    decreases |s|
  {
    if StartsWith(s, p) then Some(0)
    else if s == [] then None
    else
      match IndexOf(s[1..], p)
      case None => None
      case Some(k) => Some(k + 1)
  }

  /** `find` returns the first occurrence, and `None` exactly when there is none. */
  lemma {:induction false} IndexOfSpec(s: string, p: string)
    requires p != []
    ensures match IndexOf(s, p)
      case Some(k) => OccursAt(s, p, k) && forall j :: 0 <= j < k ==> !OccursAt(s, p, j)
      case None => forall j :: 0 <= j <= |s| ==> !OccursAt(s, p, j)
    decreases |s|
  {
    if StartsWith(s, p) {
      assert s[0..] == s;
    } else if s != [] {
      IndexOfSpec(s[1..], p);
      assert !OccursAt(s, p, 0) by {
        assert s[0..] == s;
      }
      forall j | 1 <= j <= |s|
        ensures OccursAt(s, p, j) == OccursAt(s[1..], p, j - 1)
      {
        assert s[j..] == s[1..][j - 1..];
      }
    }
  }

  /** An occurrence with none before it is what `find` returns. */
  lemma IndexOfFirst(s: string, p: string, k: nat)
    requires p != [] && OccursAt(s, p, k)
    requires forall j :: 0 <= j < k ==> !OccursAt(s, p, j)
    ensures IndexOf(s, p) == Some(k)
  {
    IndexOfSpec(s, p);
  }

  /** A text with `p` inside it passes the substring test. */
  lemma ContainsWithin(a: string, p: string, b: string)
    requires p != []
    ensures Contains(a + p + b, p)
  {
    var s := a + p + b;
    assert s[|a|..][..|p|] == p;
    assert OccursAt(s, p, |a|);
    IndexOfSpec(s, p);
  }

  /** Without any occurrence `find` returns `None`. */
  lemma IndexOfNone(s: string, p: string)
    requires p != []
    requires forall j :: 0 <= j <= |s| ==> !OccursAt(s, p, j)
    ensures IndexOf(s, p) == None
  {
    IndexOfSpec(s, p);
  }

  /** The substring test `p in s` (for a non-empty `p`). */
  predicate Contains(s: string, p: string)
    requires p != []
  {
    IndexOf(s, p).Some?
  }

  /** `s.split(sep)` with an explicit, non-empty separator: cut at every occurrence, left to right. */
  function Split(s: string, sep: string): (r: seq<string>)
    requires sep != []
    ensures r != []
    ensures Contains(s, sep) <==> |r| >= 2
    decreases |s|
  {
    match IndexOf(s, sep)
    case None => [s]
    case Some(i) => [s[..i]] + Split(s[i + |sep|..], sep)
  }

  /** The first field of a split is the text before the first separator. */
  lemma SplitFirst(s: string, sep: string, i: nat)
    requires sep != [] && IndexOf(s, sep) == Some(i)
    ensures Split(s, sep)[0] == s[..i]
  {
  }

  /** The second field of a split is the text between the first and the second separator. */
  lemma SplitSecond(s: string, sep: string, i: nat)
    requires sep != [] && IndexOf(s, sep) == Some(i)
    ensures |Split(s, sep)| >= 2 && Split(s, sep)[1] == Split(s[i + |sep|..], sep)[0]
  {
    SplitUnfold(s, sep, i);
  }

  /** One step of a split: the first field, then the split of what follows the first separator. */
  lemma SplitUnfold(s: string, sep: string, i: nat)
    requires sep != [] && IndexOf(s, sep) == Some(i)
    ensures Split(s, sep) == [s[..i]] + Split(s[i + |sep|..], sep)
  {
  }

  /** A text without the separator is one field. */
  lemma SplitNone(s: string, sep: string)
    requires sep != [] && IndexOf(s, sep) == None
    ensures Split(s, sep) == [s]
  {
  }

  /** `sep.join(parts)`. */
  function Join(parts: seq<string>, sep: string): string {
    if |parts| == 0 then ""
    else if |parts| == 1 then parts[0]
    else parts[0] + sep + Join(parts[1..], sep)
  }

  /** `s.replace(pat, sub)` for a non-empty `pat`: every occurrence, left to right, without overlap. */
  function Replace(s: string, pat: string, sub: string): string
    requires pat != []
  {
    Join(Split(s, pat), sub)
  }

  /** Index of the first line boundary in `s`, or `|s|` when there is none. */
  function LineEnd(s: string): (k: nat)
    ensures k <= |s|
    ensures forall i {:trigger IsLineBreak(s[i])} :: 0 <= i < k ==> !IsLineBreak(s[i])
    ensures k < |s| ==> IsLineBreak(s[k])
  {
    if s == [] || IsLineBreak(s[0]) then 0 else 1 + LineEnd(s[1..])
  }

  /** `s.splitlines()`: the lines of `s` without their terminators; a final terminator adds no empty line. */
  function SplitLines(s: string): (r: seq<string>)
    decreases |s|
  {
    if s == [] then []
    else
      var k := LineEnd(s);
      if k == |s| then [s]
      else
        [s[..k]] + SplitLines(s[k + BreakWidth(s, k)..])
  }

  /** Length of the line boundary at `s[k]`: two for `\r\n`, one otherwise. */
  function BreakWidth(s: string, k: nat): (w: nat)
    requires k < |s|
    ensures 1 <= w && k + w <= |s|
  {
    if s[k] == '\r' && k + 1 < |s| && s[k + 1] == '\n' then 2 else 1
  }

  // ---------------------------------------------------------------------
  // Properties of the string operations
  // ---------------------------------------------------------------------

  /** A text of one line without boundaries is a single line. */
  lemma SplitLinesSingle(a: string)
    requires a != []
    requires forall i {:trigger IsLineBreak(a[i])} :: 0 <= i < |a| ==> !IsLineBreak(a[i])
    ensures SplitLines(a) == [a]
  {
    LineEndNone(a);
  }

  /** A line followed by `\n` contributes exactly that line, then the rest is split. */
  lemma SplitLinesCons(a: string, rest: string)
    requires forall i {:trigger IsLineBreak(a[i])} :: 0 <= i < |a| ==> !IsLineBreak(a[i])
    ensures SplitLines(a + "\n" + rest) == [a] + SplitLines(rest)
  {
    var s := a + "\n" + rest;
    assert s == a + ("\n" + rest);
    LineEndAt(a, "\n" + rest);
    assert s[|a|] == '\n';
    assert s[..|a|] == a;
    assert s[|a| + 1..] == rest;
  }

  lemma {:induction false} LineEndNone(a: string)
    requires forall i {:trigger IsLineBreak(a[i])} :: 0 <= i < |a| ==> !IsLineBreak(a[i])
    ensures LineEnd(a) == |a|
  {
    if a != [] {
      LineEndNone(a[1..]);
    }
  }

  lemma {:induction false} LineEndAt(a: string, b: string)
    requires forall i {:trigger IsLineBreak(a[i])} :: 0 <= i < |a| ==> !IsLineBreak(a[i])
    requires b != [] && IsLineBreak(b[0])
    ensures LineEnd(a + b) == |a|
  {
    if a != [] {
      assert (a + b)[1..] == a[1..] + b;
      LineEndAt(a[1..], b);
    }
  }

  /** Whitespace only. */
  predicate Blank(s: string) {
    forall i {:trigger IsSpace(s[i])} :: 0 <= i < |s| ==> IsSpace(s[i])
  }

  /** Neither end of `s` is whitespace. */
  predicate Trimmed(s: string) {
    s != [] ==> !IsSpace(s[0]) && !IsSpace(s[|s| - 1])
  }

  /** Stripping a whitespace-only text leaves nothing. */
  lemma StripBlank(s: string)
    requires Blank(s)
    ensures Strip(s) == ""
  {
    StripPadded(s, "", "");
    assert s + "" + "" == s;
  }

  /** Every line of a whitespace-only text is itself whitespace only. */
  lemma {:induction false} SplitLinesBlank(s: string)
    requires Blank(s)
    ensures forall k :: 0 <= k < |SplitLines(s)| ==> Blank(SplitLines(s)[k])
    decreases |s|
  {
    if s != [] {
      var k := LineEnd(s);
      if k < |s| {
        var rest := s[k + BreakWidth(s, k)..];
        BlankSlice(s, k + BreakWidth(s, k), |s|);
        assert rest == s[k + BreakWidth(s, k)..|s|];
        SplitLinesBlank(rest);
        BlankSlice(s, 0, k);
        assert s[..k] == s[0..k];
        BlankLinesCons(s[..k], SplitLines(rest));
      }
    }
  }

  /** Prepending a whitespace-only line keeps every line whitespace only. */
  lemma BlankLinesCons(line: string, lines: seq<string>)
    requires Blank(line)
    requires forall k :: 0 <= k < |lines| ==> Blank(lines[k])
    ensures forall k :: 0 <= k < |[line] + lines| ==> Blank(([line] + lines)[k])
  {
  }

  /** A slice of a whitespace-only text is whitespace only. */
  lemma BlankSlice(s: string, i: nat, j: nat)
    requires Blank(s) && i <= j <= |s|
    ensures Blank(s[i..j])
  {
    forall k | 0 <= k < j - i ensures IsSpace(s[i..j][k]) {
      assert s[i..j][k] == s[i + k];
    }
  }

  /** A text that neither starts nor ends with whitespace is its own `strip()`. */
  lemma StripTrimmed(s: string)
    requires Trimmed(s)
    ensures Strip(s) == s
  {
    assert LStrip(s) == s;
  }

  /** `lstrip()` removes exactly a whitespace prefix in front of a text that starts with a non-space. */
  lemma {:induction false} LStripLead(lead: string, rest: string)
    requires Blank(lead)
    requires rest != [] ==> !IsSpace(rest[0])
    ensures LStrip(lead + rest) == rest
    decreases |lead|
  {
    if lead == [] {
      assert lead + rest == rest;
    } else {
      assert IsSpace(lead[0]);
      assert (lead + rest)[1..] == lead[1..] + rest;
      assert Blank(lead[1..]) by {
        forall i | 0 <= i < |lead[1..]| ensures IsSpace(lead[1..][i]) {
          assert lead[1..][i] == lead[i + 1];
        }
      }
      LStripLead(lead[1..], rest);
    }
  }

  /** `rstrip()` removes exactly a whitespace suffix behind a text that ends with a non-space. */
  lemma {:induction false} RStripTrail(core: string, trail: string)
    requires Blank(trail)
    requires core != [] ==> !IsSpace(core[|core| - 1])
    ensures RStrip(core + trail) == core
    decreases |trail|
  {
    if trail == [] {
      assert core + trail == core;
    } else {
      var shorter := trail[..|trail| - 1];
      assert IsSpace(trail[|trail| - 1]);
      assert (core + trail)[..|core + trail| - 1] == core + shorter;
      assert Blank(shorter) by {
        forall i | 0 <= i < |shorter| ensures IsSpace(shorter[i]) {
          assert shorter[i] == trail[i];
        }
      }
      RStripTrail(core, shorter);
    }
  }

  /** `strip()` removes exactly the whitespace padding around a core that starts and ends with a non-space. */
  lemma StripPadded(lead: string, core: string, trail: string)
    requires Blank(lead) && Blank(trail)
    requires core != [] ==> !IsSpace(core[0]) && !IsSpace(core[|core| - 1])
    ensures Strip(lead + core + trail) == core
  {
    if core != [] {
      assert (core + trail)[0] == core[0];
      assert lead + core + trail == lead + (core + trail);
      LStripLead(lead, core + trail);
      RStripTrail(core, trail);
    } else {
      assert lead + core + trail == lead + trail + [];
      assert Blank(lead + trail) by {
        forall i | 0 <= i < |lead + trail| ensures IsSpace((lead + trail)[i]) {
          if i < |lead| {
            assert (lead + trail)[i] == lead[i];
          } else {
            assert (lead + trail)[i] == trail[i - |lead|];
          }
        }
      }
      LStripLead(lead + trail, []);
    }
  }

  /** `split` followed by `join` with the same separator gives back the original string. */
  lemma {:induction false} JoinSplit(s: string, sep: string)
    requires sep != []
    ensures Join(Split(s, sep), sep) == s
    decreases |s|
  {
    var found := IndexOf(s, sep);
    IndexOfSpec(s, sep);
    if found.None? {
      assert Split(s, sep) == [s];
    } else {
      var i := found.value;
      var rest := s[i + |sep|..];
      var tail := Split(rest, sep);
      JoinSplit(rest, sep);
      assert Split(s, sep) == [s[..i]] + tail;
      JoinCons(s[..i], tail, sep);
      SliceAround(s, i, |sep|);
      assert s[i..][..|sep|] == sep;
    }
  }

  lemma SliceAround(s: string, i: nat, n: nat)
    requires i + n <= |s|
    ensures s == s[..i] + s[i..][..n] + s[i + n..]
  {
  }

  lemma JoinCons(x: string, ys: seq<string>, sep: string)
    requires ys != []
    ensures Join([x] + ys, sep) == x + sep + Join(ys, sep)
  {
    assert ([x] + ys)[1..] == ys;
  }

  /** A one-character separator that does not occur in `s` is not found. */
  lemma IndexOfCharAbsent(s: string, c: char)
    requires c !in s
    ensures IndexOf(s, [c]) == None
  {
    forall j | 0 <= j <= |s|
      ensures !OccursAt(s, [c], j)
    {
      if j < |s| {
        assert s[j..][..1] == [s[j]];
      }
    }
    IndexOfNone(s, [c]);
  }

  /** The first occurrence of a one-character separator is right after a prefix free of it. */
  lemma IndexOfCharAt(a: string, c: char, b: string)
    requires c !in a
    ensures IndexOf(a + [c] + b, [c]) == Some(|a|)
  {
    var s := a + [c] + b;
    assert s[|a|..][..1] == [c];
    assert OccursAt(s, [c], |a|);
    forall j | 0 <= j < |a|
      ensures !OccursAt(s, [c], j)
    {
      assert s[j..][..1] == [s[j]];
    }
    IndexOfFirst(s, [c], |a|);
  }

  /** Splitting a join on a one-character separator that no part contains recovers the parts. */
  lemma {:induction false} SplitJoinChar(parts: seq<string>, c: char)
    requires parts != []
    requires forall p :: p in parts ==> c !in p
    ensures Split(Join(parts, [c]), [c]) == parts
    decreases |parts|
  {
    if |parts| == 1 {
      IndexOfCharAbsent(parts[0], c);
    } else {
      var tail := Join(parts[1..], [c]);
      var s := parts[0] + [c] + tail;
      IndexOfCharAt(parts[0], c, tail);
      assert s[..|parts[0]|] == parts[0];
      assert s[|parts[0]| + 1..] == tail;
      SplitJoinChar(parts[1..], c);
      assert Join(parts, [c]) == s;
      assert parts == [parts[0]] + parts[1..];
    }
  }

  /** Two fields split on a one-character separator: the exact shape `a + c + b`. */
  lemma SplitTwoFields(s: string, c: char, a: string, b: string)
    ensures Split(s, [c]) == [a, b] <==> (s == a + [c] + b && c !in a && c !in b)
  {
    if Split(s, [c]) == [a, b] {
      JoinSplit(s, [c]);
      assert Join([a, b], [c]) == a + [c] + Join([b], [c]);
      SplitFieldsFree(s, c);
      assert a in Split(s, [c]) && b in Split(s, [c]);
    }
    if s == a + [c] + b && c !in a && c !in b {
      SplitJoinChar([a, b], c);
      assert Join([a, b], [c]) == a + [c] + Join([b], [c]);
    }
  }

  /** No field of a split on a one-character separator contains that character. */
  lemma {:induction false} SplitFieldsFree(s: string, c: char)
    ensures forall f :: f in Split(s, [c]) ==> c !in f
    decreases |s|
  {
    IndexOfSpec(s, [c]);
    match IndexOf(s, [c])
    case None =>
      forall j | 0 <= j < |s|
        ensures s[j] != c
      {
        assert !OccursAt(s, [c], j);
        assert s[j..][..1] == [s[j]];
      }
    case Some(i) =>
      SplitFieldsFree(s[i + 1..], c);
      forall j | 0 <= j < i
        ensures s[j] != c
      {
        assert !OccursAt(s, [c], j);
        assert s[j..][..1] == [s[j]];
      }
      assert forall x :: x in s[..i] ==> x != c;
  }
}
