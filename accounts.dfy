/**
  * The account inventory of the reset script: parsing the text that
  * `dumpsys account` prints into account records, and the classifier that
  * decides which account types are Samsung accounts to be kept.
  */
module Accounts {
  import opened Wrappers
  import opened PyStr
  import opened Seqs

  /** One registered account as the parser extracts it. */
  datatype Account = Account(name: string, accountType: string)

  /** The trusted prefixes, in the order the classifier tries them. */
  const SAMSUNG_ACCOUNT_TYPES: seq<string> := ["com.osp.app.signin", "com.samsung.android.mobileservice", "com.samsung"]

  /** The loop of `is_samsung_account`: try each prefix in turn, stop at the first that matches. */
  function MatchesAnyPrefix(prefixes: seq<string>, accountType: string): bool {
    if prefixes == [] then false
    else if StartsWith(accountType, prefixes[0]) then true
    else MatchesAnyPrefix(prefixes[1..], accountType)
  }

  /** `is_samsung_account`. */
  function IsSamsungAccount(accountType: string): bool {
    MatchesAnyPrefix(SAMSUNG_ACCOUNT_TYPES, accountType)
  }

  /** The early-return loop accepts exactly when some prefix of the list matches. */
  lemma {:induction false} MatchesAnyPrefixIff(prefixes: seq<string>, t: string)
    ensures MatchesAnyPrefix(prefixes, t) <==> exists p :: p in prefixes && StartsWith(t, p)
    decreases |prefixes|
  {
    if prefixes != [] {
      MatchesAnyPrefixIff(prefixes[1..], t);
      assert forall p :: p in prefixes <==> p == prefixes[0] || p in prefixes[1..];
    }
  }

  /**
    * An account type is kept exactly when it starts with one of the three
    * trusted prefixes; since `com.samsung` subsumes the mobile-service prefix,
    * that is the same as starting with `com.osp.app.signin` or `com.samsung`.
    */
  lemma SamsungAccountIff(t: string)
    ensures IsSamsungAccount(t) <==>
      StartsWith(t, "com.osp.app.signin") || StartsWith(t, "com.samsung.android.mobileservice") || StartsWith(t, "com.samsung")
    ensures IsSamsungAccount(t) <==> StartsWith(t, "com.osp.app.signin") || StartsWith(t, "com.samsung")
  {
    MatchesAnyPrefixIff(SAMSUNG_ACCOUNT_TYPES, t);
    if StartsWith(t, "com.samsung.android.mobileservice") {
      assert t[..11] == t[..33][..11];
    }
  }

  /** An exact match of a trusted prefix, and any extension of it, is a Samsung account. */
  lemma SamsungPrefixExtended(p: string, suffix: string)
    requires p in SAMSUNG_ACCOUNT_TYPES
    ensures IsSamsungAccount(p) && IsSamsungAccount(p + suffix)
  {
    assert (p + suffix)[..|p|] == p;
    MatchesAnyPrefixIff(SAMSUNG_ACCOUNT_TYPES, p);
    MatchesAnyPrefixIff(SAMSUNG_ACCOUNT_TYPES, p + suffix);
  }

  /** The post-removal check `[a for a in accounts if not is_samsung_account(a['type'])]`. */
  function NonSamsung(accounts: seq<Account>): seq<Account> {
    if accounts == [] then []
    else if IsSamsungAccount(accounts[0].accountType) then NonSamsung(accounts[1..])
    else [accounts[0]] + NonSamsung(accounts[1..])
  }

  /** The post-check keeps exactly the non-Samsung accounts: never a Samsung one, never drops another one. */
  lemma {:induction false} NonSamsungMembers(accounts: seq<Account>)
    ensures forall a :: a in NonSamsung(accounts) <==> a in accounts && !IsSamsungAccount(a.accountType)
    ensures |NonSamsung(accounts)| <= |accounts|
    decreases |accounts|
  {
    if accounts != [] {
      NonSamsungMembers(accounts[1..]);
      assert forall a :: a in accounts <==> a == accounts[0] || a in accounts[1..];
    }
  }

  /** The post-check keeps the order of the re-queried list. */
  lemma {:induction false} NonSamsungAppend(xs: seq<Account>, ys: seq<Account>)
    ensures NonSamsung(xs + ys) == NonSamsung(xs) + NonSamsung(ys)
    decreases |xs|
  {
    if xs == [] {
      assert xs + ys == ys;
    } else {
      assert (xs + ys)[1..] == xs[1..] + ys;
      NonSamsungAppend(xs[1..], ys);
    }
  }

  // ---------------------------------------------------------------------
  // Parsing `dumpsys account`
  // ---------------------------------------------------------------------

  /**
    * One line of the dump: after `strip()`, a line that starts with
    * `Account {` and contains `type=` is a record when it also contains
    * `name=` (otherwise `split('name=')[1]` raises `IndexError` and the
    * line is skipped).
    */
  function ParseAccountLine(raw: string): Option<Account> {
    var line := Strip(raw);
    if StartsWith(line, "Account {") && Contains(line, "type=") then
      if Contains(line, "name=") then
        var accountType := Strip(RStripChar(Split(line, "type=")[1], '}'));
        var name := Strip(Split(Split(line, "name=")[1], ",")[0]);
        Some(Account(name, accountType))
      else None
    else None
  }

  /** The loop of `get_device_accounts` over the lines of the dump. */
  function ParseAccountLines(lines: seq<string>): seq<Account> {
    FilterMap(ParseAccountLine, lines)
  }

  /** `get_device_accounts` given the dump's standard output: an empty output gives no accounts. */
  function ParseAccountDump(stdout: string): seq<Account> {
    if stdout == "" then [] else ParseAccountLines(SplitLines(stdout))
  }

  /** Exactly the lines that start with `Account {` (after stripping) and contain both fields give a record. */
  lemma AccountLineShape(raw: string)
    ensures ParseAccountLine(raw).Some? <==>
      StartsWith(Strip(raw), "Account {") && Contains(Strip(raw), "type=") && Contains(Strip(raw), "name=")
  {
  }

  /**
    * The records follow the lines of the dump: the dump of two consecutive
    * blocks of lines is the records of the first block, then those of the
    * second; and a record is listed exactly when some line yields it.
    */
  lemma AccountsInLineOrder(xs: seq<string>, ys: seq<string>, a: Account)
    ensures ParseAccountLines(xs + ys) == ParseAccountLines(xs) + ParseAccountLines(ys)
    ensures a in ParseAccountLines(xs) <==> exists i :: 0 <= i < |xs| && ParseAccountLine(xs[i]) == Some(a)
  {
    FilterMapAppend(ParseAccountLine, xs, ys);
    FilterMapMembers(ParseAccountLine, xs, a);
  }

  /** A record line lacking `name=` is skipped, not a partial record and not an error. */
  lemma MissingNameSkipped(raw: string)
    requires !Contains(Strip(raw), "name=")
    ensures ParseAccountLine(raw) == None
  {
  }

  // ---------------------------------------------------------------------
  // The record format, and the parser read back against it
  // ---------------------------------------------------------------------

  /** A record line as `dumpsys account` prints it. */
  function FormatAccount(a: Account): string {
    "Account {name=" + a.name + ", type=" + a.accountType + "}"
  }

  /** Field values the printed format can carry unambiguously. */
  predicate Printable(a: Account) {
    '=' !in a.name && ',' !in a.name && Trimmed(a.name) &&
    '=' !in a.accountType && Trimmed(a.accountType) &&
    (a.accountType != [] ==> a.accountType[|a.accountType| - 1] != '}')
  }

  /** A character of the pattern fixes the text at that offset of every occurrence. */
  lemma OccurrenceChar(s: string, p: string, j: nat, m: nat)
    requires OccursAt(s, p, j) && m < |p|
    ensures j + m < |s| && s[j + m] == p[m]
  {
    assert s[j..][..|p|][m] == p[m];
  }

  /** A pattern containing a character that the text lacks does not occur. */
  lemma AbsentChar(s: string, p: string, m: nat)
    requires p != [] && m < |p| && p[m] !in s
    ensures IndexOf(s, p) == None
  {
    forall j | 0 <= j <= |s|
      ensures !OccursAt(s, p, j)
    {
      if OccursAt(s, p, j) {
        OccurrenceChar(s, p, j, m);
      }
    }
    IndexOfNone(s, p);
  }

  /** An occurrence at `k` is the first one when no earlier offset can start the pattern. */
  lemma FirstOccurrence(s: string, p: string, k: nat, m: nat)
    requires p != [] && m < |p| && OccursAt(s, p, k)
    requires forall j :: 0 <= j < k && j + m < |s| && s[j + m] == p[m] ==> s[j] != p[0]
    ensures IndexOf(s, p) == Some(k)
  {
    forall j | 0 <= j < k
      ensures !OccursAt(s, p, j)
    {
      if OccursAt(s, p, j) {
        OccurrenceChar(s, p, j, 0);
        OccurrenceChar(s, p, j, m);
      }
    }
    IndexOfFirst(s, p, k);
  }

  /** The text of a record line after its first `name=`. */
  lemma NameFieldOfFormat(a: Account)
    requires Printable(a)
    ensures IndexOf(FormatAccount(a), "name=") == Some(9)
  {
    var l := FormatAccount(a);
    assert l[9..][..5] == "name=";
    forall j | 0 <= j < 9 && j + 4 < |l|
      ensures l[j + 4] == '=' ==> l[j] != 'n'
    {
      assert l[j + 4] == "Account {name="[j + 4];
    }
    FirstOccurrence(l, "name=", 9, 4);
  }

  /** The text of a record line after its first `type=`. */
  lemma TypeFieldOfFormat(a: Account)
    requires Printable(a)
    ensures IndexOf(FormatAccount(a), "type=") == Some(|a.name| + 16)
  {
    var l := FormatAccount(a);
    var n := |a.name|;
    assert l == "Account {name=" + a.name + ", type=" + a.accountType + "}";
    assert l[n + 16..][..5] == "type=";
    forall j | 0 <= j < n + 16 && j + 4 < |l|
      ensures l[j + 4] == '=' ==> l[j] != 't'
    {
      if j + 4 < 14 {
        assert l[j + 4] == "Account {name="[j + 4];
      } else if j + 4 < 14 + n {
        assert l[j + 4] == a.name[j + 4 - 14];
        assert a.name[j + 4 - 14] in a.name;
      } else if j + 4 < 14 + n + 6 {
        assert l[j + 4] == ", type="[j + 4 - 14 - n];
      }
    }
    FirstOccurrence(l, "type=", n + 16, 4);
  }

  /** The type field of a printed record is the account type. */
  lemma TypeOfFormat(a: Account)
    requires Printable(a)
    ensures Contains(FormatAccount(a), "type=")
    ensures Strip(RStripChar(Split(FormatAccount(a), "type=")[1], '}')) == a.accountType
  {
    var l := FormatAccount(a);
    var n := |a.name|;
    TypeFieldOfFormat(a);
    var typeRest := l[n + 21..];
    assert typeRest == a.accountType + "}";
    AbsentChar(typeRest, "type=", 4);
    assert Split(typeRest, "type=") == [typeRest];
    assert Split(l, "type=") == [l[..n + 16]] + [typeRest];
    assert RStripChar(typeRest, '}') == a.accountType;
    StripTrimmed(a.accountType);
  }

  /** After the `name=` of a printed record no second `name=` follows. */
  lemma NoSecondName(a: Account)
    requires Printable(a)
    ensures IndexOf(a.name + ", type=" + a.accountType + "}", "name=") == None
  {
    var rest := a.name + ", type=" + a.accountType + "}";
    var n := |a.name|;
    forall j | 0 <= j < |rest| && j + 4 < |rest|
      ensures rest[j + 4] == '=' ==> rest[j] != 'n'
    {
      if j + 4 < n {
        assert rest[j + 4] == a.name[j + 4];
        assert a.name[j + 4] in a.name;
      } else if j + 4 < n + 7 {
        assert rest[j + 4] == ", type="[j + 4 - n];
        assert rest[j] == (a.name + ", type=")[j];
      } else {
        assert rest[j + 4] == (a.accountType + "}")[j + 4 - n - 7];
        if j + 4 < n + 7 + |a.accountType| {
          assert a.accountType[j + 4 - n - 7] in a.accountType;
        }
      }
    }
    NoKeyOccurrence(rest, "name=");
  }

  /** The text between the `name=` of a printed record and the next `name=` is everything after it. */
  lemma NameFieldText(a: Account)
    requires Printable(a)
    ensures Contains(FormatAccount(a), "name=")
    ensures Split(FormatAccount(a), "name=")[1] == a.name + ", " + "type=" + a.accountType + "}"
  {
    var l := FormatAccount(a);
    FormatNameRest(a);
    NoSecondName(a);
    SplitNone(l[14..], "name=");
    NameFieldOfFormat(a);
    SplitSecond(l, "name=", 9);
  }

  /** What follows the `name=` of a printed record. */
  lemma FormatNameRest(a: Account)
    ensures FormatAccount(a)[14..] == a.name + ", type=" + a.accountType + "}"
  {
    assert FormatAccount(a) == "Account {name=" + (a.name + ", type=" + a.accountType + "}");
  }

  /** The name field of a printed record is the account name. */
  lemma NameOfFormat(a: Account)
    requires Printable(a)
    ensures Contains(FormatAccount(a), "name=")
    ensures Strip(Split(Split(FormatAccount(a), "name=")[1], ",")[0]) == a.name
  {
    NameFieldText(a);
    NameOfField(a, Split(FormatAccount(a), "name=")[1]);
  }

  lemma NameOfField(a: Account, field: string)
    requires Printable(a)
    requires field == a.name + ", " + "type=" + a.accountType + "}"
    ensures Strip(Split(field, ",")[0]) == a.name
  {
    var after := "type=" + a.accountType + "}";
    assert field == a.name + ", " + after;
    NameBeforeComma(a.name, after);
  }

  /** The text before the first comma of a field that starts with a comma-free, trimmed name. */
  lemma NameBeforeComma(name: string, after: string)
    requires ',' !in name && Trimmed(name)
    ensures Strip(Split(name + ", " + after, ",")[0]) == name
  {
    FirstCommaField(name, after);
    StripTrimmed(name);
  }

  lemma FirstCommaField(name: string, after: string)
    requires ',' !in name
    ensures Split(name + ", " + after, ",")[0] == name
  {
    var s := name + ", " + after;
    IndexOfCharAt(name, ',', " " + after);
    assert s == name + [','] + (" " + after);
    SplitFirst(s, ",", |name|);
    assert s[..|name|] == name;
  }

  /** `dumpsys account` output read back: an indented record line parses to the account it prints. */
  lemma ParseFormattedAccount(indent: string, a: Account)
    requires Blank(indent) && Printable(a)
    ensures ParseAccountLine(indent + FormatAccount(a)) == Some(a)
  {
    FormattedLineShape(indent, a);
    TypeOfFormat(a);
    NameOfFormat(a);
    ReadAccountLine(indent + FormatAccount(a), a.name, a.accountType);
  }

  /** An indented record line strips to the record, which starts with `Account {`. */
  lemma FormattedLineShape(indent: string, a: Account)
    requires Blank(indent)
    ensures Strip(indent + FormatAccount(a)) == FormatAccount(a)
    ensures StartsWith(FormatAccount(a), "Account {")
  {
    var l := FormatAccount(a);
    assert l[0] == 'A' && l[|l| - 1] == '}';
    StripPadded(indent, l, []);
    assert indent + l + [] == indent + l;
    assert l[..9] == "Account {";
  }

  /** What the parser makes of a line, once its shape and both fields are known. */
  lemma ReadAccountLine(raw: string, name: string, accountType: string)
    requires var line := Strip(raw);
      StartsWith(line, "Account {") && Contains(line, "type=") && Contains(line, "name=") &&
      Strip(RStripChar(Split(line, "type=")[1], '}')) == accountType &&
      Strip(Split(Split(line, "name=")[1], ",")[0]) == name
    ensures ParseAccountLine(raw) == Some(Account(name, accountType))
  {
  }

  /**
    * No field key (`name=`, `type=`: four letters, then `=`) occurs in a text
    * where no `=` is preceded four places earlier by the key's first letter.
    */
  lemma NoKeyOccurrence(s: string, key: string)
    requires |key| == 5 && key[4] == '='
    requires forall j :: 0 <= j < |s| && j + 4 < |s| && s[j + 4] == '=' ==> s[j] != key[0]
    ensures IndexOf(s, key) == None
  {
    forall j | 0 <= j <= |s|
      ensures !OccursAt(s, key, j)
    {
      if OccursAt(s, key, j) {
        OccurrenceChar(s, key, j, 4);
        OccurrenceChar(s, key, j, 0);
      }
    }
    IndexOfNone(s, key);
  }


  // ---------------------------------------------------------------------
  // A record whose fields come in the other order
  // ---------------------------------------------------------------------

  /** A record line with `type=` printed before `name=`. */
  function FormatSwapped(t: string, n: string): string {
    "Account {type=" + t + ", name=" + n + "}"
  }

  /** Field texts for which the swapped line reads back as described below. */
  predicate SwappedFields(t: string, n: string) {
    '=' !in t && '=' !in n && ',' !in n && Trimmed(t) && Trimmed(n) &&
    (n != [] ==> n[|n| - 1] != '}')
  }

  lemma SwappedTypeText(t: string, n: string)
    requires SwappedFields(t, n)
    ensures Contains(FormatSwapped(t, n), "type=")
    ensures Split(FormatSwapped(t, n), "type=")[1] == t + ", name=" + n + "}"
  {
    var l := FormatSwapped(t, n);
    SwappedTypeIndex(t, n);
    var rest := l[14..];
    assert rest == t + ", name=" + n + "}";
    NoSecondType(t, n);
    SplitNone(rest, "type=");
    SplitSecond(l, "type=", 9);
  }

  lemma SwappedTypeIndex(t: string, n: string)
    ensures IndexOf(FormatSwapped(t, n), "type=") == Some(9)
  {
    var l := FormatSwapped(t, n);
    assert l[9..][..5] == "type=";
    forall j | 0 <= j < 9 && j + 4 < |l|
      ensures l[j + 4] == '=' ==> l[j] != 't'
    {
      assert l[j + 4] == "Account {type="[j + 4];
    }
    FirstOccurrence(l, "type=", 9, 4);
  }

  lemma NoSecondType(t: string, n: string)
    requires SwappedFields(t, n)
    ensures IndexOf(t + ", name=" + n + "}", "type=") == None
  {
    var rest := t + ", name=" + n + "}";
    var k := |t|;
    forall j | 0 <= j < |rest| && j + 4 < |rest|
      ensures rest[j + 4] == '=' ==> rest[j] != 't'
    {
      if j + 4 < k {
        assert rest[j + 4] == t[j + 4];
        assert t[j + 4] in t;
      } else if j + 4 < k + 7 {
        assert rest[j + 4] == ", name="[j + 4 - k];
        assert rest[j] == (t + ", name=")[j];
      } else {
        assert rest[j + 4] == (n + "}")[j + 4 - k - 7];
        if j + 4 < k + 7 + |n| {
          assert n[j + 4 - k - 7] in n;
        }
      }
    }
    NoKeyOccurrence(rest, "type=");
  }

  lemma SwappedNameText(t: string, n: string)
    requires SwappedFields(t, n)
    ensures Contains(FormatSwapped(t, n), "name=")
    ensures Split(FormatSwapped(t, n), "name=")[1] == n + "}"
  {
    var l := FormatSwapped(t, n);
    var k := |t|;
    SwappedNameIndex(t, n);
    var rest := l[k + 21..];
    assert rest == n + "}";
    AbsentChar(rest, "name=", 4);
    SplitNone(rest, "name=");
    SplitSecond(l, "name=", k + 16);
  }

  lemma SwappedNameIndex(t: string, n: string)
    requires SwappedFields(t, n)
    ensures IndexOf(FormatSwapped(t, n), "name=") == Some(|t| + 16)
  {
    var l := FormatSwapped(t, n);
    var k := |t|;
    var pre := "Account {type=" + t + ", ";
    assert l == pre + ("name=" + n + "}");
    assert l[k + 16..] == "name=" + n + "}";
    assert l[k + 16..][..5] == "name=";
    forall j | 0 <= j < k + 16 && j + 4 < |l|
      ensures l[j + 4] == '=' ==> l[j] != 'n'
    {
      if j + 4 < 14 {
        assert l[j + 4] == "Account {type="[j + 4];
      } else if j + 4 < 14 + k {
        assert l[j + 4] == t[j + 4 - 14];
        assert t[j + 4 - 14] in t;
      } else if j + 4 < 14 + k + 6 {
        assert l[j + 4] == ", name="[j + 4 - 14 - k];
      }
    }
    FirstOccurrence(l, "name=", k + 16, 4);
  }

  lemma SwappedTypeValue(t: string, n: string, field: string)
    requires SwappedFields(t, n) && field == t + ", name=" + n + "}"
    ensures Strip(RStripChar(field, '}')) == t + ", name=" + n
  {
    var v := t + ", name=" + n;
    assert field == v + "}";
    assert RStripChar(field, '}') == v;
    assert v[|t|] == ',';
    StripTrimmed(v);
  }

  lemma SwappedNameValue(n: string, field: string)
    requires ',' !in n && Trimmed(n) && field == n + "}"
    ensures Strip(Split(field, ",")[0]) == n + "}"
  {
    IndexOfCharAbsent(field, ',');
    SplitNone(field, ",");
    StripTrimmed(n + "}");
  }

  lemma SwappedTypeOf(t: string, n: string)
    requires SwappedFields(t, n)
    ensures Contains(FormatSwapped(t, n), "type=")
    ensures Strip(RStripChar(Split(FormatSwapped(t, n), "type=")[1], '}')) == t + ", name=" + n
  {
    SwappedTypeText(t, n);
    SwappedTypeValue(t, n, Split(FormatSwapped(t, n), "type=")[1]);
  }

  lemma SwappedNameOf(t: string, n: string)
    requires SwappedFields(t, n)
    ensures Contains(FormatSwapped(t, n), "name=")
    ensures Strip(Split(Split(FormatSwapped(t, n), "name=")[1], ",")[0]) == n + "}"
  {
    SwappedNameText(t, n);
    SwappedNameValue(n, Split(FormatSwapped(t, n), "name=")[1]);
  }

  lemma SwappedLineShape(t: string, n: string)
    ensures Strip(FormatSwapped(t, n)) == FormatSwapped(t, n)
    ensures StartsWith(FormatSwapped(t, n), "Account {")
  {
    var l := FormatSwapped(t, n);
    assert l[0] == 'A' && l[|l| - 1] == '}';
    StripTrimmed(l);
    assert l[..9] == "Account {";
  }

  /**
    * The parser reads fields by position, not by key: with `type=` first,
    * the type runs on to the end of the line (minus the closing braces) and
    * the name keeps the closing brace.
    */
  lemma ParseSwappedFields(t: string, n: string)
    requires SwappedFields(t, n)
    ensures ParseAccountLine(FormatSwapped(t, n)) == Some(Account(n + "}", t + ", name=" + n))
  {
    SwappedLineShape(t, n);
    SwappedTypeOf(t, n);
    SwappedNameOf(t, n);
    ReadAccountLine(FormatSwapped(t, n), n + "}", t + ", name=" + n);
  }
}
