/**
  * The language menu of the reset script: one answer typed at the prompt is
  * stripped and either skips the language change (`0`), selects one of the
  * five locales, or is rejected (the prompt is then repeated).
  */
module Language {
  import opened Wrappers
  import opened PyStr
  import opened LocaleTags

  /** The menu: key typed by the operator to the locale tag handed to the device. */
  const LANGUAGE_OPTIONS: map<string, string> :=
    map["1" := "ja-JP", "2" := "en-US", "3" := "ko-KR", "4" := "zh-CN", "5" := "zh-TW"]

  /** The key that leaves the device language unchanged. */
  const SKIP_KEY: string := "0"

  /** What one answer at the prompt decides. */
  datatype Choice = Skip | Chosen(locale: string) | Rejected

  /** The decision `select_language` takes on one line of input. */
  function Decide(input: string): (c: Choice)
    ensures c.Chosen? ==> c.locale in LANGUAGE_OPTIONS.Values
  {
    var choice := Strip(input);
    if choice == SKIP_KEY then Skip
    else if choice in LANGUAGE_OPTIONS then Chosen(LANGUAGE_OPTIONS[choice])
    else Rejected
  }

  /** The locale `select_language` returns for a decisive answer (`None` for the skip key). */
  function LocaleOf(c: Choice): Option<string>
    requires !c.Rejected?
  {
    if c.Chosen? then Some(c.locale) else None
  }

  /**
    * Whitespace around the answer is ignored: a padded `0` skips, a padded
    * menu key selects its locale, and a padded answer of anything else
    * (including nothing at all) is rejected.
    */
  lemma DecidePadded(lead: string, answer: string, trail: string)
    requires Blank(lead) && Blank(trail) && Trimmed(answer)
    ensures answer == SKIP_KEY ==> Decide(lead + answer + trail) == Skip
    ensures answer in LANGUAGE_OPTIONS ==> Decide(lead + answer + trail) == Chosen(LANGUAGE_OPTIONS[answer])
    ensures answer != SKIP_KEY && answer !in LANGUAGE_OPTIONS ==> Decide(lead + answer + trail) == Rejected
  {
    StripPadded(lead, answer, trail);
  }

  /** An empty or blank answer is rejected, so the prompt is repeated. */
  lemma BlankRejected(input: string)
    requires Blank(input)
    ensures Decide(input) == Rejected
  {
    StripPadded(input, "", "");
    assert input + "" + "" == input;
  }

  /** Every menu locale is a `language-country` tag that the device helper reads as a two-letter pair. */
  lemma MenuLocalesParse(key: string)
    requires key in LANGUAGE_OPTIONS
    ensures var tag := ParseLocale(LANGUAGE_OPTIONS[key]);
      tag.Some? && |tag.value.language| == 2 && |tag.value.country| == 2
  {
    var locale := LANGUAGE_OPTIONS[key];
    var language, country := locale[..2], locale[3..];
    assert locale == language + "-" + country;
    TwoSegments(language, country);
  }
}
