/** The email pattern of the User schema,
    `^\w+([.-]?\w+)*@\w+([.-]?\w+)*(\.\w{2,3})+$`, as a predicate over the
    (lower-cased, trimmed) string. `\w` is the ASCII word class. */
module EmailPattern {
  import opened Js

  predicate IsWordChar(c: char) {
    ('a' <= c <= 'z') || ('A' <= c <= 'Z') || ('0' <= c <= '9') || c == '_'
  }

  predicate IsSep(c: char) {
    c == '.' || c == '-'
  }

  predicate AllWord(s: string) {
    forall i :: 0 <= i < |s| ==> IsWordChar(s[i])
  }

  /** Strings matching `\w+([.-]?\w+)*`: runs of word characters separated by
      single dots or hyphens, starting and ending with a word character. */
  predicate WordRuns(s: string) {
    && |s| >= 1 && IsWordChar(s[0]) && IsWordChar(s[|s| - 1])
    && (forall i :: 0 <= i < |s| ==> IsWordChar(s[i]) || IsSep(s[i]))
    && (forall i :: 1 <= i < |s| ==> IsWordChar(s[i]) || IsWordChar(s[i - 1]))
  }

  /** A top-level label `\.\w{k}` closing `d`. */
  predicate EndsWithLabel(d: string, k: nat) {
    |d| >= k + 1 && d[|d| - k - 1] == '.' && AllWord(d[|d| - k..])
  }

  /** `\w+([.-]?\w+)*(\.\w{2,3})+`, read literally: a word-run stem followed
      by one or more labels of two or three word characters. */
  predicate DomainRegex(d: string)
    decreases |d|
  {
    || (EndsWithLabel(d, 2) && (WordRuns(d[..|d| - 3]) || DomainRegex(d[..|d| - 3])))
    || (EndsWithLabel(d, 3) && (WordRuns(d[..|d| - 4]) || DomainRegex(d[..|d| - 4])))
  }

  /** The same language, stated without repetition: a word-run stem and one
      closing label (earlier labels are themselves word runs). */
  predicate Domain(d: string) {
    || (EndsWithLabel(d, 2) && WordRuns(d[..|d| - 3]))
    || (EndsWithLabel(d, 3) && WordRuns(d[..|d| - 4]))
  }

  /** A word run followed by `.` and a non-empty word is still a word run. */
  lemma WordRunsExtend(a: string, t: string)
    requires WordRuns(a) && |t| >= 1 && AllWord(t)
    ensures WordRuns(a + "." + t)
  {
    WordRunsJoin(a, '.', t);
  }

  /** A word run, one separator and a non-empty word form a word run. */
  lemma WordRunsJoin(a: string, c: char, t: string)
    requires WordRuns(a) && IsSep(c) && |t| >= 1 && AllWord(t)
    ensures WordRuns(a + [c] + t)
  {
    var s := a + [c] + t;
    forall i | 1 <= i < |s|
      ensures IsWordChar(s[i]) || IsWordChar(s[i - 1])
    {
      if i == |a| {
        assert s[i - 1] == a[|a| - 1];
      } else if i == |a| + 1 {
        assert s[i] == t[0];
      } else if i > |a| + 1 {
        assert s[i] == t[i - |a| - 1];
      } else {
        assert s[i] == a[i] && s[i - 1] == a[i - 1];
      }
    }
    forall i | 0 <= i < |s|
      ensures IsWordChar(s[i]) || IsSep(s[i])
    {
      if i > |a| {
        assert s[i] == t[i - |a| - 1];
      } else if i < |a| {
        assert s[i] == a[i];
      }
    }
    assert s[|s| - 1] == t[|t| - 1];
  }

  lemma {:induction false} DomainRegexIsWordRuns(d: string)
    requires DomainRegex(d)
    ensures WordRuns(d)
    decreases |d|
  {
    var k := if EndsWithLabel(d, 2) && (WordRuns(d[..|d| - 3]) || DomainRegex(d[..|d| - 3])) then 2 else 3;
    var a := d[..|d| - k - 1];
    if !WordRuns(a) {
      DomainRegexIsWordRuns(a);
    }
    assert d == a + "." + d[|d| - k..];
    WordRunsExtend(a, d[|d| - k..]);
  }

  /** The flattened domain predicate accepts exactly what the regular expression does. */
  lemma DomainIff(d: string)
    ensures Domain(d) <==> DomainRegex(d)
  {
    if DomainRegex(d) {
      if EndsWithLabel(d, 2) && (WordRuns(d[..|d| - 3]) || DomainRegex(d[..|d| - 3])) {
        if !WordRuns(d[..|d| - 3]) {
          DomainRegexIsWordRuns(d[..|d| - 3]);
        }
      } else {
        if !WordRuns(d[..|d| - 4]) {
          DomainRegexIsWordRuns(d[..|d| - 4]);
        }
      }
    }
  }

  /** The whole pattern: a word-run local part, one `@`, a domain. The local
      part cannot hold `@`, so the split is at the first one. */
  predicate Matches(s: string) {
    '@' in s && WordRuns(s[..FirstIndex(s, '@')]) && Domain(s[FirstIndex(s, '@') + 1..])
  }

  /** Every accepted domain is itself a word run. */
  lemma DomainIsWordRuns(d: string)
    requires Domain(d)
    ensures WordRuns(d)
  {
    var k := if EndsWithLabel(d, 2) && WordRuns(d[..|d| - 3]) then 2 else 3;
    assert d == d[..|d| - k - 1] + "." + d[|d| - k..];
    WordRunsExtend(d[..|d| - k - 1], d[|d| - k..]);
  }

  /** A word run holds no `@`. */
  lemma NoAt(s: string)
    requires WordRuns(s)
    ensures '@' !in s
  {
    forall j | 0 <= j < |s|
      ensures s[j] != '@'
    {
      assert IsWordChar(s[j]) || IsSep(s[j]);
    }
  }

  /** An address is a local part, an `@` and a domain exactly when it matches:
      the split point is forced, as neither part can hold an `@`. */
  lemma MatchesSplit(local: string, d: string)
    ensures Matches(local + "@" + d) <==> WordRuns(local) && Domain(d)
  {
    if WordRuns(local) && Domain(d) {
      SplitMatches(local, d);
    }
    if Matches(local + "@" + d) {
      MatchesSplits(local, d);
    }
  }

  lemma SplitMatches(local: string, d: string)
    requires WordRuns(local) && Domain(d)
    ensures Matches(local + "@" + d)
  {
    var s := local + "@" + d;
    NoAt(local);
    assert s[..|local|] == local;
    assert s[|local|] == '@';
    FirstIndexUnique(s, '@', |local|);
    assert s[|local| + 1..] == d;
  }

  lemma MatchesSplits(local: string, d: string)
    requires Matches(local + "@" + d)
    ensures WordRuns(local) && Domain(d)
  {
    var s := local + "@" + d;
    var i := FirstIndex(s, '@');
    NoAt(s[..i]);
    DomainIsWordRuns(s[i + 1..]);
    NoAt(s[i + 1..]);
    assert s[|local|] == '@';
    assert i == |local|;
    assert s[..i] == local;
    assert s[i + 1..] == d;
  }

  /** In a matching address the `@` is the only one, and both parts are word runs. */
  lemma MatchShape(local: string, d: string)
    requires Matches(local + "@" + d)
    ensures '@' !in local && '@' !in d
    ensures IsWordChar(local[0]) && IsWordChar(d[0]) && IsWordChar(d[|d| - 1])
  {
    MatchesSplit(local, d);
    DomainIsWordRuns(d);
    NoAt(local);
    NoAt(d);
  }

  lemma ExampleSimple()
    ensures Matches("a@b.com")
  {
    var s := "a@b.com";
    assert FirstIndex(s, '@') == 1;
    assert s[..1] == "a";
    var d := s[2..];
    assert d == "b.com";
    assert d[..1] == "b";
    assert d[2..] == "com";
    assert EndsWithLabel(d, 3);
  }

  /** A non-empty word is a word run. */
  lemma WordIsWordRuns(t: string)
    requires |t| >= 1 && AllWord(t)
    ensures WordRuns(t)
  {
  }

  lemma DottedLocalPart()
    ensures WordRuns("first.last")
  {
    WordIsWordRuns("first");
    WordRunsJoin("first", '.', "last");
    assert "first" + ['.'] + "last" == "first.last";
  }

  lemma HyphenatedDomain()
    ensures Domain("mail-host.co.uk")
  {
    WordIsWordRuns("mail");
    WordRunsJoin("mail", '-', "host");
    assert "mail" + ['-'] + "host" == "mail-host";
    WordRunsJoin("mail-host", '.', "co");
    assert "mail-host" + ['.'] + "co" == "mail-host.co";
    var d := "mail-host.co.uk";
    assert d[..12] == "mail-host.co";
    assert d[13..] == "uk";
    assert EndsWithLabel(d, 2);
  }

  lemma ExampleDotted()
    ensures Matches("first.last@mail-host.co.uk")
  {
    var s := "first.last@mail-host.co.uk";
    DottedLocalPart();
    HyphenatedDomain();
    assert s[..10] == "first.last";
    assert s[11..] == "mail-host.co.uk";
    NoAt(s[..10]);
    FirstIndexUnique(s, '@', 10);
  }

  lemma ExampleNoLabel()
    ensures !Matches("a@b")
  {
    assert FirstIndex("a@b", '@') == 1;
    assert "a@b"[2..] == "b";
  }

  lemma ExampleNoLocalPart()
    ensures !Matches("@b.com")
  {
    assert FirstIndex("@b.com", '@') == 0;
    assert "@b.com"[..0] == "";
  }
}
