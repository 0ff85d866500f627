/** JavaScript value semantics that the server and client code lean on:
    absent values, JSON body fields, truthiness, `String.prototype.trim`,
    case mapping, `split(' ')`, `join`, `includes`, `replace` and the decimal
    rendering of whole numbers inside template strings. */
module Js {

  /** A value that may be absent (`undefined` or `null` where the code does not tell them apart). */
  datatype Option<+T> = None | Some(value: T) {
    function GetOr(default: T): T {
      match this
      case Some(v) => v
      case None => default
    }
  }

  /** A field of a parsed JSON request body: key missing (`undefined`),
      an explicit `null`, or a value. */
  datatype Field<+T> = Undefined | Null | Val(value: T)

  /** Truthiness of a string-valued field: present and not the empty string. */
  predicate TruthyStr(f: Field<string>) {
    f.Val? && f.value != ""
  }

  /** Truthiness of an optional string (`localStorage.getItem` and similar). */
  predicate TruthyOpt(o: Option<string>) {
    o.Some? && o.value != ""
  }

  /** Truthiness of a numeric field: present and not zero (NaN is not modelled). */
  predicate TruthyNum(f: Field<real>) {
    f.Val? && f.value != 0.0
  }

  predicate TruthyInt(f: Field<int>) {
    f.Val? && f.value != 0
  }

  /** `s || d` for strings. */
  function StrOr(f: Field<string>, d: string): string {
    if TruthyStr(f) then f.value else d
  }

  function OptOr(o: Option<string>, d: string): string {
    if TruthyOpt(o) then o.value else d
  }

  /** `x || d` for numbers. */
  function NumOr(f: Field<real>, d: real): real {
    if TruthyNum(f) then f.value else d
  }

  function IntOr(f: Field<int>, d: int): int {
    if TruthyInt(f) then f.value else d
  }

  // ---------------------------------------------------------------------------
  // Whitespace and trim

  /** The characters `String.prototype.trim` removes: ECMAScript WhiteSpace and LineTerminator. */
  predicate IsSpace(c: char) {
    || c == ' ' || c == '\t' || c == '\n' || c == '\r'
    || c == '\U{000B}' || c == '\U{000C}' || c == '\U{00A0}' || c == '\U{FEFF}'
    || c == '\U{1680}' || ('\U{2000}' <= c <= '\U{200A}')
    || c == '\U{2028}' || c == '\U{2029}' || c == '\U{202F}' || c == '\U{205F}' || c == '\U{3000}'
  }

  predicate AllSpace(s: string) {
    forall i :: 0 <= i < |s| ==> IsSpace(s[i])
  }

  /** Drops leading whitespace: the result is the suffix after the longest all-space prefix. */
  function TrimStart(s: string): (r: string)
    ensures |r| <= |s| && r == s[|s| - |r|..]
    ensures AllSpace(s[..|s| - |r|])
    ensures r == [] || !IsSpace(r[0])
    decreases |s|
  {
    if |s| > 0 && IsSpace(s[0]) then
      var t := TrimStart(s[1..]);
      DropOneMoreSpace(s, t);
      t
    else
      assert s[..0] == [];
      s
  }

  /** A suffix left after an all-space prefix of `s[1..]`, with `s[0]` a
      space, is left after an all-space prefix of `s`. */
  lemma DropOneMoreSpace(s: string, t: string)
    requires |s| > 0 && IsSpace(s[0])
    requires |t| <= |s| - 1 && t == s[1..][|s| - 1 - |t|..]
    requires AllSpace(s[1..][..|s| - 1 - |t|])
    ensures t == s[|s| - |t|..]
    ensures AllSpace(s[..|s| - |t|])
  {
    var p := s[1..];
    assert p[|p| - |t|..] == s[|s| - |t|..];
    assert s[..|s| - |t|] == [s[0]] + p[..|p| - |t|];
    AllSpaceAppend([s[0]], p[..|p| - |t|]);
  }

  /** Drops trailing whitespace: the result is the prefix before the longest all-space suffix. */
  function TrimEnd(s: string): (r: string)
    ensures |r| <= |s| && r == s[..|r|]
    ensures AllSpace(s[|r|..])
    ensures r == [] || !IsSpace(r[|r| - 1])
    decreases |s|
  {
    if |s| > 0 && IsSpace(s[|s| - 1]) then
      var t := TrimEnd(s[..|s| - 1]);
      DropOneMoreTrailingSpace(s, t);
      t
    else
      assert s[|s|..] == [];
      s
  }

  /** A prefix left before an all-space suffix of `s[..|s| - 1]`, with the
      last character a space, is left before an all-space suffix of `s`. */
  lemma DropOneMoreTrailingSpace(s: string, t: string)
    requires |s| > 0 && IsSpace(s[|s| - 1])
    requires |t| <= |s| - 1 && t == s[..|s| - 1][..|t|]
    requires AllSpace(s[..|s| - 1][|t|..])
    ensures t == s[..|t|]
    ensures AllSpace(s[|t|..])
  {
    var p := s[..|s| - 1];
    assert p[..|t|] == s[..|t|];
    assert s[|t|..] == p[|t|..] + [s[|s| - 1]];
    AllSpaceAppend(p[|t|..], [s[|s| - 1]]);
  }

  /** `s.trim()`. */
  function Trim(s: string): string {
    TrimEnd(TrimStart(s))
  }

  /** Number of leading whitespace characters trim removes. */
  function LeadingSpaces(s: string): nat {
    |s| - |TrimStart(s)|
  }

  /** What trim computes: the result sits inside `s` with only whitespace cut
      off on either side, and has no whitespace at either end. */
  lemma TrimShape(s: string)
    ensures var r := Trim(s); var i := LeadingSpaces(s);
      && i + |r| <= |s|
      && r == s[i..i + |r|]
      && AllSpace(s[..i]) && AllSpace(s[i + |r|..])
    ensures Trim(s) == [] || (!IsSpace(Trim(s)[0]) && !IsSpace(Trim(s)[|Trim(s)| - 1]))
  {
    TrimSlice(s);
    TrimEndsClean(s);
  }

  lemma TrimSlice(s: string)
    ensures var r := Trim(s); var i := LeadingSpaces(s);
      && i + |r| <= |s|
      && r == s[i..i + |r|]
      && AllSpace(s[..i]) && AllSpace(s[i + |r|..])
  {
    var a := TrimStart(s);
    var r := TrimEnd(a);
    assert Trim(s) == r && LeadingSpaces(s) == |s| - |a|;
    SliceOfTrims(s, a, r);
  }

  /** Whitespace cut off the front and then off the back leaves a middle
      slice with only whitespace around it. */
  lemma SliceOfTrims(s: string, a: string, r: string)
    requires |a| <= |s| && a == s[|s| - |a|..] && AllSpace(s[..|s| - |a|])
    requires |r| <= |a| && r == a[..|r|] && AllSpace(a[|r|..])
    ensures var i := |s| - |a|;
      && i + |r| <= |s|
      && r == s[i..i + |r|]
      && AllSpace(s[..i]) && AllSpace(s[i + |r|..])
  {
    var i := |s| - |a|;
    assert a[..|r|] == s[i..i + |r|];
    assert a[|r|..] == s[i + |r|..];
  }

  lemma TrimEndsClean(s: string)
    ensures Trim(s) == [] || (!IsSpace(Trim(s)[0]) && !IsSpace(Trim(s)[|Trim(s)| - 1]))
  {
    var a := TrimStart(s);
    var r := TrimEnd(a);
    if r != [] {
      assert r[0] == a[0];
    }
  }

  lemma AllSpaceAppend(a: string, b: string)
    ensures AllSpace(a + b) <==> AllSpace(a) && AllSpace(b)
  {
    assert forall j :: 0 <= j < |a| ==> a[j] == (a + b)[j];
    assert forall j :: 0 <= j < |b| ==> b[j] == (a + b)[|a| + j];
  }

  /** Trim removes everything exactly when the string is all whitespace. */
  lemma {:induction false} TrimEmptyIff(s: string)
    ensures Trim(s) == [] <==> AllSpace(s)
  {
    var r := Trim(s);
    var i := LeadingSpaces(s);
    TrimSlice(s);
    if r == [] {
      assert s == s[..i] + s[i..];
      AllSpaceAppend(s[..i], s[i..]);
    } else {
      TrimEndsClean(s);
      assert r[0] == s[i];
    }
  }

  /** A string trim leaves as it is: no whitespace at either end. */
  predicate Trimmed(s: string) {
    s == [] || (!IsSpace(s[0]) && !IsSpace(s[|s| - 1]))
  }

  /** Trim is the identity exactly on trimmed strings, and always yields one. */
  lemma TrimmedIff(s: string)
    ensures Trim(s) == s <==> Trimmed(s)
    ensures Trimmed(Trim(s))
  {
    TrimShape(s);
    if Trimmed(s) && s != [] {
      assert TrimStart(s) == s;
      assert TrimEnd(s) == s;
    }
  }

  /** Trimming twice is trimming once. */
  lemma TrimIdempotent(s: string)
    ensures Trim(Trim(s)) == Trim(s)
  {
    var r := Trim(s);
    TrimShape(s);
    if r != [] {
      assert TrimStart(r) == r;
      assert TrimEnd(r) == r;
    }
  }

  // ---------------------------------------------------------------------------
  // Case mapping (ASCII letters only)

  function LowerChar(c: char): char {
    if 'A' <= c <= 'Z' then (c as int + 32) as char else c
  }

  function UpperChar(c: char): char {
    if 'a' <= c <= 'z' then (c as int - 32) as char else c
  }

  /** `s.toLowerCase()`. */
  function Lower(s: string): (r: string)
    ensures |r| == |s|
  {
    seq(|s|, i requires 0 <= i < |s| => LowerChar(s[i]))
  }

  /** `s.toUpperCase()`. */
  function Upper(s: string): (r: string)
    ensures |r| == |s|
  {
    seq(|s|, i requires 0 <= i < |s| => UpperChar(s[i]))
  }

  /** No upper-case ASCII letter in `s`. */
  predicate LowerCased(s: string) {
    forall i :: 0 <= i < |s| ==> !('A' <= s[i] <= 'Z')
  }

  /** Lower-casing is the identity exactly on lower-cased strings; trimming a
      lower-cased string keeps it lower-cased. */
  lemma LowerCasedIff(s: string)
    ensures Lower(s) == s <==> LowerCased(s)
    ensures LowerCased(Lower(s))
    ensures LowerCased(Trim(Lower(s)))
  {
    LowerFixesLowerCased(s);
    assert LowerCased(Lower(s));
    TrimKeepsLowerCased(Lower(s));
  }

  lemma LowerFixesLowerCased(s: string)
    ensures Lower(s) == s <==> LowerCased(s)
  {
    if LowerCased(s) {
      assert forall i :: 0 <= i < |s| ==> Lower(s)[i] == s[i];
    }
    if Lower(s) == s {
      assert forall i :: 0 <= i < |s| ==> LowerChar(s[i]) == s[i];
    }
  }

  lemma TrimKeepsLowerCased(l: string)
    requires LowerCased(l)
    ensures LowerCased(Trim(l))
  {
    TrimSlice(l);
    var i := LeadingSpaces(l);
    var r := Trim(l);
    assert forall k :: 0 <= k < |r| ==> r[k] == l[i + k];
  }

  /** `t` is `s` with its first character upper-cased. */
  predicate Capitalized(t: string, s: string) {
    && s != "" && |t| == |s| && t[0] == UpperChar(s[0])
    && forall k :: 1 <= k < |s| ==> t[k] == s[k]
  }

  /** Capitalizing a lower-cased string that starts with a letter changes it,
      and lower-casing undoes the change. */
  lemma CapitalizedLowers(t: string, s: string)
    requires Capitalized(t, s) && LowerCased(s) && 'a' <= s[0] <= 'z'
    ensures t != s
    ensures Lower(t) == s
  {
    assert t[0] != s[0];
    forall k | 0 <= k < |s|
      ensures Lower(t)[k] == s[k]
    {
    }
  }

  lemma UpperConcat(a: string, b: string)
    ensures Upper(a + b) == Upper(a) + Upper(b)
  {
    assert forall i :: 0 <= i < |a + b| ==> Upper(a + b)[i] == (Upper(a) + Upper(b))[i];
  }

  lemma LowerSlice(s: string, i: int, j: int)
    requires 0 <= i <= j <= |s|
    ensures Lower(s)[i..j] == Lower(s[i..j])
  {
  }

  /** Lower-casing and trimming commute, so the order in which the two string
      setters of a schema path run does not matter. */
  lemma {:induction false} LowerTrimCommute(s: string)
    ensures Lower(Trim(s)) == Trim(Lower(s))
  {
    LowerTrimStart(s);
    LowerTrimEnd(TrimStart(s));
  }

  lemma {:induction false} LowerTrimStart(s: string)
    ensures Lower(TrimStart(s)) == TrimStart(Lower(s))
    decreases |s|
  {
    if |s| > 0 && IsSpace(s[0]) {
      assert Lower(s)[1..] == Lower(s[1..]);
      LowerTrimStart(s[1..]);
    }
  }

  lemma {:induction false} LowerTrimEnd(s: string)
    ensures Lower(TrimEnd(s)) == TrimEnd(Lower(s))
    decreases |s|
  {
    if |s| > 0 && IsSpace(s[|s| - 1]) {
      assert Lower(s)[..|s| - 1] == Lower(s[..|s| - 1]);
      LowerTrimEnd(s[..|s| - 1]);
    }
  }

  // ---------------------------------------------------------------------------
  // Length in UTF-16 code units

  /** The code units one character takes in UTF-16: two for a character
      outside the Basic Multilingual Plane (a surrogate pair), else one. */
  function CodeUnits(c: char): nat {
    if c as int < 0x1_0000 then 1 else 2
  }

  /** `s.length`: JavaScript counts UTF-16 code units, not characters. */
  function Length(s: string): (n: nat)
    ensures |s| <= n <= 2 * |s|
    decreases |s|
  {
    if |s| == 0 then 0 else CodeUnits(s[0]) + Length(s[1..])
  }

  lemma {:induction false} LengthAppend(a: string, b: string)
    ensures Length(a + b) == Length(a) + Length(b)
    decreases |a|
  {
    if |a| == 0 {
      assert a + b == b;
    } else {
      assert (a + b)[0] == a[0] && (a + b)[1..] == a[1..] + b;
      LengthAppend(a[1..], b);
    }
  }

  /** The length agrees with the character count exactly when every
      character lies in the Basic Multilingual Plane. */
  lemma {:induction false} LengthIsSizeIff(s: string)
    ensures Length(s) == |s| <==> forall i :: 0 <= i < |s| ==> CodeUnits(s[i]) == 1
    decreases |s|
  {
    if |s| > 0 {
      LengthIsSizeIff(s[1..]);
      SingleUnitsCons(s);
    }
  }

  lemma SingleUnitsCons(s: string)
    requires |s| > 0
    ensures (forall i :: 0 <= i < |s| ==> CodeUnits(s[i]) == 1)
        <==> CodeUnits(s[0]) == 1 && forall i :: 0 <= i < |s[1..]| ==> CodeUnits(s[1..][i]) == 1
  {
    if CodeUnits(s[0]) == 1 && forall i :: 0 <= i < |s[1..]| ==> CodeUnits(s[1..][i]) == 1 {
      forall i | 1 <= i < |s|
        ensures CodeUnits(s[i]) == 1
      {
        assert s[i] == s[1..][i - 1];
      }
    }
  }

  /** An emoji is two code units, so two of them are already four. */
  lemma EmojiLength()
    ensures Length("\U{1F600}\U{1F600}") == 4
    ensures |"\U{1F600}\U{1F600}"| == 2
  {
    var s := "\U{1F600}\U{1F600}";
    assert s[1..][1..] == "";
  }

  // ---------------------------------------------------------------------------
  // Searching and replacing

  predicate StartsWith(s: string, p: string) {
    |p| <= |s| && s[..|p|] == p
  }

  /** `s.includes(p)`. */
  predicate Contains(s: string, p: string)
    decreases |s|
  {
    StartsWith(s, p) || (|s| > 0 && Contains(s[1..], p))
  }

  predicate OccursAt(s: string, p: string, i: int) {
    0 <= i <= |s| - |p| && s[i..i + |p|] == p
  }

  /** `s.includes(p)` holds exactly when `p` occurs at some position. */
  lemma {:induction false} ContainsIff(s: string, p: string)
    ensures Contains(s, p) <==> exists i :: OccursAt(s, p, i)
    decreases |s|
  {
    if StartsWith(s, p) {
      assert OccursAt(s, p, 0);
    } else if |s| > 0 {
      ContainsIff(s[1..], p);
      if Contains(s[1..], p) {
        var i :| OccursAt(s[1..], p, i);
        assert s[i + 1..i + 1 + |p|] == s[1..][i..i + |p|];
        assert OccursAt(s, p, i + 1);
      } else {
        assert |p| <= |s| ==> s[0..|p|] != p;
        forall i | OccursAt(s, p, i)
          ensures OccursAt(s[1..], p, i - 1)
        {
          assert i != 0;
          assert s[1..][i - 1..i - 1 + |p|] == s[i..i + |p|];
        }
      }
    }
  }

  /** `s.replace(pat, rep)` with a string pattern: only the first occurrence is replaced. */
  function ReplaceFirst(s: string, pat: string, rep: string): string
    decreases |s|
  {
    if StartsWith(s, pat) then rep + s[|pat|..]
    else if |s| == 0 then s
    else [s[0]] + ReplaceFirst(s[1..], pat, rep)
  }

  /** Replacing a pattern by a text with the same upper-case form does not change the upper-case form. */
  lemma {:induction false} UpperReplaceFirst(s: string, pat: string, rep: string)
    requires Upper(pat) == Upper(rep)
    ensures Upper(ReplaceFirst(s, pat, rep)) == Upper(s)
    decreases |s|
  {
    if StartsWith(s, pat) {
      UpperConcat(rep, s[|pat|..]);
      UpperConcat(pat, s[|pat|..]);
      assert s == pat + s[|pat|..];
    } else if |s| > 0 {
      UpperReplaceFirst(s[1..], pat, rep);
      UpperConcat([s[0]], ReplaceFirst(s[1..], pat, rep));
      UpperConcat([s[0]], s[1..]);
      assert s == [s[0]] + s[1..];
    }
  }

  // ---------------------------------------------------------------------------
  // split(' ') and join

  /** `s.split(' ')`: the pieces between single spaces, empty pieces included. */
  function SplitSpace(s: string): (r: seq<string>)
    ensures |r| >= 1
    ensures forall k :: 0 <= k < |r| ==> ' ' !in r[k]
    decreases |s|
  {
    if ' ' !in s then [s]
    else
      var i := FirstIndex(s, ' ');
      [s[..i]] + SplitSpace(s[i + 1..])
  }

  /** Position of the first occurrence of `c`. */
  function FirstIndex(s: string, c: char): (i: nat)
    requires c in s
    ensures i < |s| && s[i] == c && c !in s[..i]
  {
    if s[0] == c then 0 else 1 + FirstIndex(s[1..], c)
  }

  /** The first occurrence is the one with no earlier occurrence. */
  lemma FirstIndexUnique(s: string, c: char, j: nat)
    requires j < |s| && s[j] == c && c !in s[..j]
    ensures FirstIndex(s, c) == j
  {
  }

  /** `xs.join(sep)`. */
  function Join(xs: seq<string>, sep: string): string
    decreases |xs|
  {
    if |xs| == 0 then ""
    else if |xs| == 1 then xs[0]
    else xs[0] + sep + Join(xs[1..], sep)
  }

  /** Joining after appending one more piece adds the separator and the piece at the end. */
  lemma {:induction false} JoinSnoc(xs: seq<string>, x: string, sep: string)
    requires |xs| >= 1
    ensures Join(xs + [x], sep) == Join(xs, sep) + sep + x
    decreases |xs|
  {
    if |xs| == 1 {
      assert (xs + [x])[1..] == [x];
    } else {
      assert (xs + [x])[1..] == xs[1..] + [x];
      JoinSnoc(xs[1..], x, sep);
    }
  }

  /** Splitting on spaces and joining with a space gives the string back. */
  lemma {:induction false} SplitJoinRoundTrip(s: string)
    ensures Join(SplitSpace(s), " ") == s
    decreases |s|
  {
    if ' ' in s {
      var i := FirstIndex(s, ' ');
      var rest := SplitSpace(s[i + 1..]);
      SplitJoinRoundTrip(s[i + 1..]);
      assert SplitSpace(s) == [s[..i]] + rest;
      assert s == s[..i] + " " + s[i + 1..];
    }
  }

  // ---------------------------------------------------------------------------
  // Numbers

  /** `Math.ceil(a / b)` for a non-negative dividend. */
  function CeilDiv(a: nat, b: nat): (r: nat)
    requires b > 0
    ensures r * b >= a
    ensures r > 0 ==> (r - 1) * b < a
  {
    var q := a / b;
    if q * b == a then q else q + 1
  }

  function DigitChar(d: nat): char
    requires d < 10
  {
    ('0' as int + d) as char
  }

  function DigitValue(c: char): nat {
    if '0' <= c <= '9' then c as int - '0' as int else 0
  }

  /** `${n}` for a whole number: its decimal digits, most significant first. */
  function NatToString(n: nat): (r: string)
    ensures |r| >= 1
    ensures forall i :: 0 <= i < |r| ==> '0' <= r[i] <= '9'
    decreases n
  {
    if n < 10 then [DigitChar(n)] else NatToString(n / 10) + [DigitChar(n % 10)]
  }

  /** Reads decimal digits back into a number. */
  function ParseNat(s: string): nat
    decreases |s|
  {
    if |s| == 0 then 0 else ParseNat(s[..|s| - 1]) * 10 + DigitValue(s[|s| - 1])
  }

  /** The decimal rendering reads back as the same number. */
  lemma {:induction false} NatToStringRoundTrip(n: nat)
    ensures ParseNat(NatToString(n)) == n
    decreases n
  {
    var s := NatToString(n);
    if n < 10 {
      assert s[..|s| - 1] == [];
    } else {
      var q, d := n / 10, n % 10;
      assert s == NatToString(q) + [DigitChar(d)];
      assert s[..|s| - 1] == NatToString(q);
      assert DigitValue(s[|s| - 1]) == d;
      NatToStringRoundTrip(q);
      assert ParseNat(s) == q * 10 + d;
    }
  }
}
