/**
 * The JavaScript string operations the core calls, on `seq<char>`: case mapping
 * and whitespace are the ASCII ones, `parseInt` is the radix-10 one.
 */
module Text {
  import opened Wrappers

  /** The ASCII characters `trim` and `parseInt` skip. */
  predicate IsWhitespace(c: char) {
    c == ' ' || c == '\t' || c == '\n' || c == '\r' || c == '\U{0B}' || c == '\U{0C}'
  }

  predicate IsDigit(c: char) {
    '0' <= c <= '9'
  }

  function DigitValue(c: char): nat
    requires IsDigit(c)
  {
    c as int - '0' as int
  }

  function DigitChar(d: nat): (c: char)
    requires d < 10
    ensures IsDigit(c) && DigitValue(c) == d
  {
    ('0' as int + d) as char
  }

  function LowerChar(c: char): char {
    if 'A' <= c <= 'Z' then (c as int + 32) as char else c
  }

  function UpperChar(c: char): char {
    if 'a' <= c <= 'z' then (c as int - 32) as char else c
  }

  /** `toLowerCase` */
  function Lower(s: string): string {
    seq(|s|, i requires 0 <= i < |s| => LowerChar(s[i]))
  }

  /** `replace(/from/g, to)` for a single character */
  function ReplaceAll(s: string, from: char, to: char): string {
    seq(|s|, i requires 0 <= i < |s| => if s[i] == from then to else s[i])
  }

  /** The number of whitespace characters at the start of `s`. */
  function LeadingWhitespace(s: string): (n: nat)
    ensures n <= |s|
    ensures forall i :: 0 <= i < n ==> IsWhitespace(s[i])
    ensures n < |s| ==> !IsWhitespace(s[n])
  {
    if s == [] || !IsWhitespace(s[0]) then 0 else 1 + LeadingWhitespace(s[1..])
  }

  /** The number of whitespace characters at the end of `s`. */
  function TrailingWhitespace(s: string): (n: nat)
    ensures n <= |s|
    ensures forall i :: |s| - n <= i < |s| ==> IsWhitespace(s[i])
    ensures n < |s| ==> !IsWhitespace(s[|s| - 1 - n])
  {
    if s == [] || !IsWhitespace(s[|s| - 1]) then 0 else 1 + TrailingWhitespace(s[..|s| - 1])
  }

  /** `trim`: the middle of `s` between its leading and trailing whitespace. */
  function Trim(s: string): (r: string)
    ensures r == "" || (!IsWhitespace(r[0]) && !IsWhitespace(r[|r| - 1]))
    ensures r == "" <==> forall i :: 0 <= i < |s| ==> IsWhitespace(s[i])
    ensures exists i, j ::
              && 0 <= i <= j <= |s| && r == s[i..j]
              && (forall k :: 0 <= k < i ==> IsWhitespace(s[k]))
              && (forall k :: j <= k < |s| ==> IsWhitespace(s[k]))
  {
    var lead := LeadingWhitespace(s);
    if lead == |s| then
      assert "" == s[|s|..|s|];
      ""
    else
      var trail := TrailingWhitespace(s);
      assert lead < |s| - trail;
      s[lead..|s| - trail]
  }

  predicate OccursAt(text: string, term: string, i: nat) {
    i + |term| <= |text| && text[i..i + |term|] == term
  }

  /** `text.includes(term)` */
  function Contains(text: string, term: string): bool
    decreases |text|
  {
    term <= text || (text != [] && Contains(text[1..], term))
  }

  lemma {:induction false} ContainsIff(text: string, term: string)
    ensures Contains(text, term) <==> exists i: nat :: OccursAt(text, term, i)
    decreases |text|
  {
    if term <= text {
      assert OccursAt(text, term, 0);
    } else if text != [] {
      ContainsIff(text[1..], term);
      if Contains(text[1..], term) {
        var i: nat :| OccursAt(text[1..], term, i);
        assert text[i + 1..i + 1 + |term|] == text[1..][i..i + |term|];
        assert OccursAt(text, term, i + 1);
      }
      if i: nat :| i > 0 && OccursAt(text, term, i) {
        assert text[1..][i - 1..i - 1 + |term|] == text[i..i + |term|];
        assert OccursAt(text[1..], term, i - 1);
      }
    }
  }

  /** An occurrence in `s` is an occurrence in `pre + s`. */
  lemma ContainsAfterPrefix(pre: string, s: string, term: string)
    requires Contains(s, term)
    ensures Contains(pre + s, term)
  {
    ContainsIff(s, term);
    var j: nat :| OccursAt(s, term, j);
    assert (pre + s)[|pre| + j..|pre| + j + |term|] == s[j..j + |term|];
    assert OccursAt(pre + s, term, |pre| + j);
    ContainsIff(pre + s, term);
  }

  /** A string contains each of its prefixes. */
  lemma ContainsPrefix(s: string, term: string)
    requires term <= s
    ensures Contains(s, term)
  {
  }

  /** `a.localeCompare(b) <= 0`, read as lexicographic order on character codes. */
  predicate LexLeq(a: string, b: string)
    decreases |a|
  {
    a == [] || (b != [] && (a[0] < b[0] || (a[0] == b[0] && LexLeq(a[1..], b[1..]))))
  }

  lemma {:induction false} LexLeqTotal(a: string, b: string)
    ensures LexLeq(a, b) || LexLeq(b, a)
    decreases |a|
  {
    if a != [] && b != [] && a[0] == b[0] {
      LexLeqTotal(a[1..], b[1..]);
    }
  }

  lemma {:induction false} LexLeqTransitive(a: string, b: string, c: string)
    requires LexLeq(a, b) && LexLeq(b, c)
    ensures LexLeq(a, c)
    decreases |a|
  {
    if a != [] && b != [] && c != [] && a[0] == b[0] && b[0] == c[0] {
      LexLeqTransitive(a[1..], b[1..], c[1..]);
    }
  }

  lemma {:induction false} LexLeqAntisymmetric(a: string, b: string)
    requires LexLeq(a, b) && LexLeq(b, a)
    ensures a == b
    decreases |a|
  {
    if a != [] {
      LexLeqAntisymmetric(a[1..], b[1..]);
      assert a == [a[0]] + a[1..] && b == [b[0]] + b[1..];
    }
  }

  /** Decimal digits of a natural number, without leading zeros. */
  function NatToString(n: nat): (s: string)
    ensures |s| >= 1
    ensures forall i :: 0 <= i < |s| ==> IsDigit(s[i])
    decreases n
  {
    if n < 10 then [DigitChar(n)] else NatToString(n / 10) + [DigitChar(n % 10)]
  }

  /** `String(n)` for an integer. */
  function IntToString(n: int): string {
    if n < 0 then "-" + NatToString(-n) else NatToString(n)
  }

  /** The length of the run of digits at the start of `s`. */
  function DigitRun(s: string): (n: nat)
    ensures n <= |s|
    ensures forall i :: 0 <= i < n ==> IsDigit(s[i])
    ensures n < |s| ==> !IsDigit(s[n])
  {
    if s == [] || !IsDigit(s[0]) then 0 else 1 + DigitRun(s[1..])
  }

  /** The decimal value of a string of digits, read left to right. */
  function DigitsValue(ds: string): nat
    requires forall i :: 0 <= i < |ds| ==> IsDigit(ds[i])
  {
    if ds == [] then 0 else DigitsValue(ds[..|ds| - 1]) * 10 + DigitValue(ds[|ds| - 1])
  }

  /**
   * `parseInt(s, 10)`: skip leading whitespace, read an optional sign and the
   * longest run of digits after it; no digit gives NaN, here `None`.
   */
  function ParseInt(s: string): Option<int> {
    var t := s[LeadingWhitespace(s)..];
    var negative := |t| > 0 && t[0] == '-';
    var body := if |t| > 0 && (t[0] == '-' || t[0] == '+') then t[1..] else t;
    var n := DigitRun(body);
    var magnitude: int := if n == 0 then 0 else DigitsValue(body[..n]);
    if n == 0 then None
    else if negative then Some(-magnitude)
    else Some(magnitude)
  }

  lemma {:induction false} DigitsValueOfNatToString(n: nat)
    ensures DigitsValue(NatToString(n)) == n
    decreases n
  {
    if n >= 10 {
      var s := NatToString(n);
      assert s[..|s| - 1] == NatToString(n / 10);
      DigitsValueOfNatToString(n / 10);
    }
  }

  /** A non-empty run of digits, with no sign, is read as its decimal value. */
  lemma ParseIntOfDigits(d: string)
    requires |d| > 0 && forall i :: 0 <= i < |d| ==> IsDigit(d[i])
    ensures ParseInt(d) == Some(DigitsValue(d))
  {
    assert LeadingWhitespace(d) == 0;
    assert d[0..] == d;
    assert DigitRun(d) == |d|;
    assert d[..|d|] == d;
  }

  /** A minus sign before a non-empty run of digits negates its value. */
  lemma ParseIntOfNegatedDigits(d: string)
    requires |d| > 0 && forall i :: 0 <= i < |d| ==> IsDigit(d[i])
    ensures ParseInt("-" + d).Some? && ParseInt("-" + d).value == 0 - DigitsValue(d) as int
  {
    var s := "-" + d;
    assert s[0] == '-';
    assert LeadingWhitespace(s) == 0;
    assert s[0..] == s;
    assert s[1..] == d;
    assert DigitRun(d) == |d|;
    assert d[..|d|] == d;
  }

  /** Reading back a printed integer gives the integer. */
  lemma ParseIntOfIntToString(n: int)
    ensures ParseInt(IntToString(n)) == Some(n)
  {
    var m: nat := if n < 0 then -n else n;
    DigitsValueOfNatToString(m);
    if n < 0 {
      ParseIntOfNegatedDigits(NatToString(m));
    } else {
      ParseIntOfDigits(NatToString(m));
    }
  }

  /** The first position of `c` in `s`, or `|s|`. */
  function IndexOf(s: string, c: char): (i: nat)
    ensures i <= |s|
    ensures i < |s| ==> s[i] == c
    ensures forall j :: 0 <= j < i ==> s[j] != c
  {
    if s == [] || s[0] == c then 0 else 1 + IndexOf(s[1..], c)
  }

  /** `s.split(c)`: the pieces between occurrences of `c`; never empty. */
  function Split(s: string, c: char): (parts: seq<string>)
    ensures |parts| >= 1
    ensures forall k :: 0 <= k < |parts| ==> c !in parts[k]
    decreases |s|
  {
    var i := IndexOf(s, c);
    if i == |s| then [s] else [s[..i]] + Split(s[i + 1..], c)
  }

  /** `parts.join(c)` */
  function Join(parts: seq<string>, c: char): string {
    if parts == [] then ""
    else if |parts| == 1 then parts[0]
    else parts[0] + [c] + Join(parts[1..], c)
  }

  lemma JoinCons(x: string, rest: seq<string>, c: char)
    requires rest != []
    ensures Join([x] + rest, c) == x + [c] + Join(rest, c)
  {
    assert ([x] + rest)[1..] == rest;
  }

  /** Splitting at the first separator. */
  lemma SplitAtFirst(s: string, c: char, i: nat)
    requires i < |s| && IndexOf(s, c) == i
    ensures Split(s, c) == [s[..i]] + Split(s[i + 1..], c)
  {
  }

  /** Joining the pieces of a split gives back the original string. */
  lemma {:induction false} JoinSplit(s: string, c: char)
    ensures Join(Split(s, c), c) == s
    decreases |s|
  {
    var i := IndexOf(s, c);
    if i < |s| {
      JoinSplit(s[i + 1..], c);
      assert s == s[..i] + [c] + s[i + 1..];
    }
  }

  lemma IndexOfAt(s: string, c: char, i: nat)
    requires i < |s| && s[i] == c
    requires forall j :: 0 <= j < i ==> s[j] != c
    ensures IndexOf(s, c) == i
  {
  }

  /** Splitting at a separator splits the two sides independently. */
  lemma {:induction false} SplitConcat(a: string, b: string, c: char)
    ensures Split(a + [c] + b, c) == Split(a, c) + Split(b, c)
    decreases |a|
  {
    var s := a + [c] + b;
    var i := IndexOf(a, c);
    if i < |a| {
      forall j | 0 <= j <= i ensures s[j] == a[j] { }
      IndexOfAt(s, c, i);
      var rest := a[i + 1..];
      assert s[i + 1..] == rest + [c] + b;
      assert s[..i] == a[..i];
      SplitConcat(rest, b, c);
      assert Split(s, c) == [a[..i]] + Split(rest + [c] + b, c);
      assert Split(a, c) == [a[..i]] + Split(rest, c);
    } else {
      forall j | 0 <= j < |a| ensures s[j] == a[j] { }
      IndexOfAt(s, c, |a|);
      assert s[..|a|] == a;
      assert s[|a| + 1..] == b;
    }
  }

  /** A string without the separator splits into itself. */
  lemma SplitWithoutSeparator(s: string, c: char)
    requires c !in s
    ensures Split(s, c) == [s]
  {
  }

  /** `parts.filter(Boolean).pop()`: the last non-empty part, if any. */
  function LastNonEmpty(parts: seq<string>): (r: Option<string>)
    ensures r.Some? ==> r.value != "" && r.value in parts
    ensures r.None? <==> forall k :: 0 <= k < |parts| ==> parts[k] == ""
    ensures r.Some? ==>
      exists i :: 0 <= i < |parts| && parts[i] == r.value && forall j :: i < j < |parts| ==> parts[j] == ""
  {
    if parts == [] then None
    else if parts[|parts| - 1] != "" then
      assert parts[|parts| - 1] in parts;
      Some(parts[|parts| - 1])
    else
      var p := parts[..|parts| - 1];
      assert forall k :: 0 <= k < |p| ==> p[k] == parts[k];
      var rest := LastNonEmpty(p);
      if rest.Some? then
        var i :| 0 <= i < |p| && p[i] == rest.value && forall j :: i < j < |p| ==> p[j] == "";
        assert parts[i] == rest.value;
        assert forall j :: i < j < |parts| ==> parts[j] == "";
        rest
      else rest
  }

  /** `url.split('/').filter(Boolean).pop()` */
  function LastSegment(url: string): Option<string> {
    LastNonEmpty(Split(url, '/'))
  }

  lemma LastNonEmptyOfTrailing(parts: seq<string>, d: string)
    requires d != ""
    ensures LastNonEmpty(parts + [d] + [""]) == Some(d)
  {
    var all := parts + [d] + [""];
    assert all[..|all| - 1] == parts + [d];
  }

  /** A resource URL `prefix/n/`, as the API writes them, ends in the segment `n`. */
  lemma LastSegmentOfResourceUrl(prefix: string, n: nat)
    ensures LastSegment(prefix + "/" + NatToString(n) + "/") == Some(NatToString(n))
  {
    var d := NatToString(n);
    var url := prefix + "/" + d + "/";
    assert url == (prefix + "/" + d) + ['/'] + "";
    SplitConcat(prefix + "/" + d, "", '/');
    assert prefix + "/" + d == prefix + ['/'] + d;
    SplitConcat(prefix, d, '/');
    assert '/' !in d by {
      forall i | 0 <= i < |d| ensures d[i] != '/' {
        assert IsDigit(d[i]);
      }
    }
    SplitWithoutSeparator(d, '/');
    assert Split("", '/') == [""];
    assert Split(url, '/') == Split(prefix, '/') + [d] + [""];
    LastNonEmptyOfTrailing(Split(prefix, '/'), d);
  }
}
