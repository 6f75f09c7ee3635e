/**
  * The on-device helper `LocaleChanger`, started through `app_process` with
  * one locale tag per argument: the argument check of `main`, its loop that
  * parses every argument, and `parseLocale`, which turns a tag such as
  * `ja-JP` or `ja_JP` into a raw (language, country) pair. The reflective
  * call that installs the locale list on the device is not part of this
  * model.
  */
module LocaleTags {
  import opened Wrappers
  import opened PyStr

  /** A parsed tag; `country` is empty when the tag has a single segment (`new Locale(language)`). */
  datatype LocaleTag = LocaleTag(language: string, country: string)

  /** The two characters `parseLocale` accepts between segments. */
  predicate IsSeparator(c: char) {
    c == '-' || c == '_'
  }

  /** A segment: text without either separator. */
  predicate Segment(s: string) {
    forall i :: 0 <= i < |s| ==> !IsSeparator(s[i])
  }

  /** Java's `s.replace(from, to)` on one-character strings: every `from` becomes `to`, nothing else moves. */
  function ReplaceChar(s: string, from: char, to: char): (r: string)
    ensures |r| == |s|
    ensures forall i :: 0 <= i < |s| ==> r[i] == (if s[i] == from then to else s[i])
  {
    seq(|s|, i requires 0 <= i < |s| => if s[i] == from then to else s[i])
  }

  /**
    * The trailing-empty-string removal of Java's `split` with limit 0: the
    * result is the longest prefix that does not end with an empty string.
    */
  function DropTrailingEmpty(parts: seq<string>): (r: seq<string>)
    ensures |r| <= |parts| && r == parts[..|r|]
    ensures r != [] ==> r[|r| - 1] != ""
    ensures forall i :: |r| <= i < |parts| ==> parts[i] == ""
  {
    if parts == [] then []
    else if parts[|parts| - 1] == "" then DropTrailingEmpty(parts[..|parts| - 1])
    else parts
  }

  /**
    * Java's `s.split(sep)` for a separator without regular-expression
    * meta-characters: no occurrence gives `[s]` (even for an empty `s`);
    * otherwise the fields between occurrences, less any trailing empty ones.
    */
  function JavaSplit(s: string, sep: string): (r: seq<string>)
    requires sep != []
  {
    if Contains(s, sep) then DropTrailingEmpty(Split(s, sep)) else [s]
  }

  /**
    * `parseLocale`: `_` is normalised to `-`, the tag is split on `-`, two or
    * more segments give language and country, one segment gives a language
    * alone. A tag that splits into nothing (only separators) makes
    * `parts[0]` throw; `None` stands for that exception.
    */
  function ParseLocale(tag: string): Option<LocaleTag> {
    var parts := JavaSplit(ReplaceChar(tag, '_', '-'), "-");
    if |parts| >= 2 then Some(LocaleTag(parts[0], parts[1]))
    else if |parts| == 1 then Some(LocaleTag(parts[0], ""))
    else None
  }

  // ---------------------------------------------------------------------
  // Properties of parseLocale
  // ---------------------------------------------------------------------

  /** `_` and `-` are interchangeable: tags that differ only in which separator they use parse alike. */
  lemma SeparatorsInterchangeable(s: string, t: string)
    requires |s| == |t|
    requires forall i :: 0 <= i < |s| ==> s[i] == t[i] || (IsSeparator(s[i]) && IsSeparator(t[i]))
    ensures ParseLocale(s) == ParseLocale(t)
  {
    assert ReplaceChar(s, '_', '-') == ReplaceChar(t, '_', '-');
  }

  /** A segment has nothing to replace. */
  lemma SegmentUnchanged(s: string)
    requires Segment(s)
    ensures ReplaceChar(s, '_', '-') == s
  {
  }

  /** Replacement works piecewise on a concatenation. */
  lemma ReplaceCharAppend(a: string, b: string)
    ensures ReplaceChar(a + b, '_', '-') == ReplaceChar(a, '_', '-') + ReplaceChar(b, '_', '-')
  {
    var r := ReplaceChar(a + b, '_', '-');
    var q := ReplaceChar(a, '_', '-') + ReplaceChar(b, '_', '-');
    forall i | 0 <= i < |r|
      ensures r[i] == q[i]
    {
      if i < |a| {
        assert (a + b)[i] == a[i];
      } else {
        assert (a + b)[i] == b[i - |a|];
      }
    }
  }



  /** A segment holds no hyphen. */
  lemma SegmentNoHyphen(s: string)
    requires Segment(s)
    ensures '-' !in s
  {
    forall i | 0 <= i < |s|
      ensures s[i] != '-'
    {
      assert !IsSeparator(s[i]);
    }
  }

  /** A tag of one segment sets only the language, and the whole tag is that language. */
  lemma SingleSegment(language: string)
    requires Segment(language)
    ensures ParseLocale(language) == Some(LocaleTag(language, ""))
  {
    SegmentUnchanged(language);
    SegmentNoHyphen(language);
    IndexOfCharAbsent(language, '-');
  }

  /**
    * `language-country`: the first segment is the language and the second the
    * country. An empty country is the case of `TrailingSeparatorDropped`.
    */
  lemma TwoSegments(language: string, country: string)
    requires Segment(language) && Segment(country) && country != ""
    ensures ParseLocale(language + "-" + country) == Some(LocaleTag(language, country))
  {
    var tag := language + "-" + country;
    ReplaceCharAppend(language + "-", country);
    ReplaceCharAppend(language, "-");
    SegmentUnchanged(language);
    SegmentUnchanged(country);
    assert ReplaceChar(tag, '_', '-') == tag;
    SegmentNoHyphen(language);
    SegmentNoHyphen(country);
    IndexOfCharAt(language, '-', country);
    SplitTwoFields(tag, '-', language, country);
    assert Split(tag, "-") == [language, country];
  }

  /**
    * A trailing separator is dropped: `en-` splits into `en` and an empty
    * field, Java's `split` drops the trailing empty field, and the tag is read
    * as a language alone.
    */
  lemma TrailingSeparatorDropped(language: string)
    requires Segment(language) && language != ""
    ensures ParseLocale(language + "-") == Some(LocaleTag(language, ""))
  {
    var tag := language + "-";
    ReplaceCharAppend(language, "-");
    SegmentUnchanged(language);
    assert ReplaceChar(tag, '_', '-') == tag;
    SplitAfterSegment(language, "");
    assert language + "-" + "" == tag;
    SplitNone("", "-");
    assert Split(tag, "-") == [language, ""];
    assert Contains(tag, "-");
    assert DropTrailingEmpty([language, ""]) == [language];
  }

  /** Splitting on `-` after a leading segment: that segment, then the fields of the rest. */
  lemma SplitAfterSegment(a: string, tail: string)
    requires Segment(a)
    ensures Split(a + "-" + tail, "-") == [a] + Split(tail, "-")
  {
    var s := a + "-" + tail;
    SegmentNoHyphen(a);
    IndexOfCharAt(a, '-', tail);
    assert s[..|a|] == a && s[|a| + 1..] == tail;
  }

  /** Normalising `language-country-rest` touches only `rest`. */
  lemma NormaliseAfterTwo(language: string, country: string, rest: string)
    requires Segment(language) && Segment(country)
    ensures ReplaceChar(language + "-" + country + "-" + rest, '_', '-') ==
      language + "-" + (country + "-" + ReplaceChar(rest, '_', '-'))
  {
    var head := language + "-" + country + "-";
    ReplaceCharAppend(head, rest);
    forall i | 0 <= i < |head|
      ensures head[i] != '_'
    {
      if i < |language| {
        assert head[i] == language[i] && !IsSeparator(language[i]);
      } else if |language| < i < |language| + 1 + |country| {
        assert head[i] == country[i - |language| - 1] && !IsSeparator(country[i - |language| - 1]);
      }
    }
    assert ReplaceChar(head, '_', '-') == head;
    assert head + ReplaceChar(rest, '_', '-') == language + "-" + (country + "-" + ReplaceChar(rest, '_', '-'));
  }

  /**
    * Segments after the second are ignored: `language-country-anything`. (With
    * an empty country the parse can end after the language, as in
    * `TrailingSeparatorDropped`.)
    */
  lemma ExtraSegmentsIgnored(language: string, country: string, rest: string)
    requires Segment(language) && Segment(country) && country != ""
    ensures ParseLocale(language + "-" + country + "-" + rest) == Some(LocaleTag(language, country))
  {
    var tail := country + "-" + ReplaceChar(rest, '_', '-');
    NormaliseAfterTwo(language, country, rest);
    SplitAfterSegment(language, tail);
    SplitAfterSegment(country, ReplaceChar(rest, '_', '-'));
    var parts := Split(language + "-" + tail, "-");
    assert parts[0] == language && parts[1] == country;
    var kept := DropTrailingEmpty(parts);
    assert |kept| >= 2;
  }

  /** Every field of a split of a text made only of hyphens is empty. */
  lemma {:induction false} HyphensSplitEmpty(s: string)
    requires forall i :: 0 <= i < |s| ==> s[i] == '-'
    ensures forall k :: 0 <= k < |Split(s, "-")| ==> Split(s, "-")[k] == ""
    decreases |s|
  {
    if s == [] {
      IndexOfCharAbsent(s, '-');
    } else {
      assert s == [] + ['-'] + s[1..];
      IndexOfCharAt([], '-', s[1..]);
      HyphensSplitEmpty(s[1..]);
      assert Split(s, "-") == [s[..0]] + Split(s[1..], "-");
    }
  }

  /** A join of empty fields is made only of separators. */
  lemma {:induction false} JoinEmpties(parts: seq<string>)
    requires forall k :: 0 <= k < |parts| ==> parts[k] == ""
    ensures forall i :: 0 <= i < |Join(parts, "-")| ==> Join(parts, "-")[i] == '-'
    decreases |parts|
  {
    if |parts| > 1 {
      forall k | 0 <= k < |parts[1..]|
        ensures parts[1..][k] == ""
      {
        assert parts[1..][k] == parts[k + 1];
      }
      JoinEmpties(parts[1..]);
      assert Join(parts, "-") == "-" + Join(parts[1..], "-");
    }
  }

  /** A non-empty run of separators splits into nothing, so `parts[0]` throws. */
  lemma SeparatorsOnlyFail(tag: string)
    requires tag != "" && forall i :: 0 <= i < |tag| ==> IsSeparator(tag[i])
    ensures ParseLocale(tag) == None
  {
    var n := ReplaceChar(tag, '_', '-');
    assert n[..1] == "-";
    assert OccursAt(n, "-", 0);
    IndexOfFirst(n, "-", 0);
    HyphensSplitEmpty(n);
  }

  /** When `parseLocale` throws, the tag was a non-empty run of separators. */
  lemma FailureMeansSeparators(tag: string)
    requires ParseLocale(tag) == None
    ensures tag != "" && forall i :: 0 <= i < |tag| ==> IsSeparator(tag[i])
  {
    var n := ReplaceChar(tag, '_', '-');
    assert Contains(n, "-");
    var parts := Split(n, "-");
    assert DropTrailingEmpty(parts) == [];
    JoinSplit(n, "-");
    JoinEmpties(parts);
    forall i | 0 <= i < |tag|
      ensures IsSeparator(tag[i])
    {
      assert n[i] == '-';
    }
  }

  /** The tag that makes `parseLocale` throw is exactly a non-empty run of separators. */
  lemma OnlySeparatorsFail(tag: string)
    ensures ParseLocale(tag) == None <==> tag != "" && forall i :: 0 <= i < |tag| ==> IsSeparator(tag[i])
  {
    if tag != "" && forall i :: 0 <= i < |tag| ==> IsSeparator(tag[i]) {
      SeparatorsOnlyFail(tag);
    }
    if ParseLocale(tag) == None {
      FailureMeansSeparators(tag);
    }
  }

  // ---------------------------------------------------------------------
  // main: argument check and the parse loop
  // ---------------------------------------------------------------------

  /** How `main` ends before the reflective call: the usage error, a parse failure, or the parsed list. */
  datatype Outcome = Usage | Failed | Parsed(locales: seq<LocaleTag>)

  /**
    * `main` up to building the `LocaleList`: no argument is the usage error
    * (exit status 1); otherwise one locale per argument is parsed into an
    * array of the same length, and an exception from `parseLocale` is caught
    * and reported as a failure (exit status 1).
    */
  method ParseArguments(args: seq<string>) returns (outcome: Outcome)
    ensures outcome == Usage <==> |args| == 0
    ensures outcome == Failed <==> |args| > 0 && exists i :: 0 <= i < |args| && ParseLocale(args[i]) == None
    ensures outcome.Parsed? ==>
      (|outcome.locales| == |args| && forall i :: 0 <= i < |args| ==> ParseLocale(args[i]) == Some(outcome.locales[i]))
  {
    if |args| < 1 {
      return Usage;
    }
    var locales := new LocaleTag[|args|](_ => LocaleTag("", ""));
    for i := 0 to |args|
      invariant forall j :: 0 <= j < i ==> ParseLocale(args[j]) == Some(locales[j])
    {
      var parsed := ParseLocale(args[i]);
      if parsed.None? {
        return Failed;
      }
      locales[i] := parsed.value;
    }
    outcome := Parsed(locales[..]);
  }
}
