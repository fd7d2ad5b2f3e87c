/** The handful of `java.lang.String` operations the compiler relies on, over `seq<char>`. */
module Text {
  import opened Wrappers

  /** `" ".repeat(n)`. */
  function Spaces(n: nat): (r: string)
    ensures |r| == n
  {
    if n == 0 then "" else " " + Spaces(n - 1)
  }

  lemma {:induction false} SpacesAreSpaces(n: nat)
    ensures forall i :: 0 <= i < n ==> Spaces(n)[i] == ' '
  {
    if n > 0 {
      SpacesAreSpaces(n - 1);
    }
  }

  /** `s.repeat(n)`. */
  function Repeat(s: string, n: nat): (r: string)
    ensures |r| == n * |s|
  {
    if n == 0 then "" else s + Repeat(s, n - 1)
  }

  lemma {:induction false} RepeatSnoc(s: string, n: nat)
    ensures Repeat(s, n + 1) == Repeat(s, n) + s
  {
    if n > 0 {
      RepeatSnoc(s, n - 1);
    }
  }

  /** String concatenation in Java renders a null reference as the text `null`. */
  function J(s: Option<string>): string {
    match s
    case Some(v) => v
    case None => "null"
  }

  predicate IsDigit(c: char) { '0' <= c <= '9' }

  function DigitChar(d: nat): (c: char)
    requires d < 10
    ensures IsDigit(c)
  {
    "0123456789"[d]
  }

  /** The decimal rendering of a natural number (`String.valueOf`, `BigInteger.toString`). */
  function NatToString(n: nat): (r: string)
    ensures |r| >= 1
  {
    if n < 10 then [DigitChar(n)] else NatToString(n / 10) + [DigitChar(n % 10)]
  }

  lemma {:induction false} NatToStringDigits(n: nat)
    ensures forall i :: 0 <= i < |NatToString(n)| ==> IsDigit(NatToString(n)[i])
  {
    if n >= 10 {
      NatToStringDigits(n / 10);
    }
  }

  function IntToString(i: int): string {
    if i < 0 then "-" + NatToString(-i) else NatToString(i)
  }

  lemma NatToStringShort(n: nat)
    ensures |NatToString(n)| == 1 <==> n < 10
  {
    if n >= 10 {
      assert |NatToString(n)| == |NatToString(n / 10)| + 1;
    }
  }

  /** Different numbers render differently. */
  lemma {:induction false} NatToStringInjective(n: nat, m: nat)
    requires NatToString(n) == NatToString(m)
    ensures n == m
  {
    NatToStringShort(n);
    NatToStringShort(m);
    if n >= 10 && m >= 10 {
      var sn, sm := NatToString(n), NatToString(m);
      assert sn[|sn| - 1] == DigitChar(n % 10);
      assert sm[|sm| - 1] == DigitChar(m % 10);
      assert sn[..|sn| - 1] == NatToString(n / 10);
      assert sm[..|sm| - 1] == NatToString(m / 10);
      NatToStringInjective(n / 10, m / 10);
      assert "0123456789"[n % 10] == "0123456789"[m % 10];
    } else if n < 10 && m < 10 {
      assert "0123456789"[n] == "0123456789"[m];
    }
  }

  /** True when `s` does not end in a decimal digit. */
  predicate NoTrailingDigit(s: string) {
    s == [] || !IsDigit(s[|s| - 1])
  }

  /**
   * A name without a trailing digit followed by a counter can be split uniquely
   * back into the name and the counter.
   */
  lemma NameCounterInjective(a: string, n: nat, b: string, m: nat)
    requires NoTrailingDigit(a) && NoTrailingDigit(b)
    requires a + NatToString(n) == b + NatToString(m)
    ensures a == b && n == m
  {
    var s := a + NatToString(n);
    var dn, dm := NatToString(n), NatToString(m);
    NatToStringDigits(n);
    NatToStringDigits(m);
    // The last non-digit of `s` sits at the same place on both sides.
    if |a| > 0 {
      assert !IsDigit(s[|a| - 1]);
      assert forall k :: |b| <= k < |s| ==> IsDigit(s[k]) by {
        forall k | |b| <= k < |s| ensures IsDigit(s[k]) { assert s[k] == dm[k - |b|]; }
      }
    }
    if |b| > 0 {
      assert !IsDigit(s[|b| - 1]);
      assert forall k :: |a| <= k < |s| ==> IsDigit(s[k]) by {
        forall k | |a| <= k < |s| ensures IsDigit(s[k]) { assert s[k] == dn[k - |a|]; }
      }
    }
    assert |a| == |b|;
    assert a == s[..|a|] == b;
    assert dn == s[|a|..] == dm;
    NatToStringInjective(n, m);
  }

  predicate StartsWith(s: string, prefix: string) {
    |prefix| <= |s| && s[..|prefix|] == prefix
  }

  predicate EndsWith(s: string, suffix: string) {
    |suffix| <= |s| && s[|s| - |suffix|..] == suffix
  }

  /** `s.contains(sub)`: some suffix of `s` starts with `sub`. */
  predicate Contains(s: string, sub: string)
    decreases |s|
  {
    StartsWith(s, sub) || (|s| > 0 && Contains(s[1..], sub))
  }

  lemma {:induction false} ContainsAppended(a: string, sub: string, b: string)
    ensures Contains(a + sub + b, sub)
    decreases |a|
  {
    if a == [] {
      assert (a + sub + b)[..|sub|] == sub;
    } else {
      assert (a + sub + b)[1..] == a[1..] + sub + b;
      ContainsAppended(a[1..], sub, b);
    }
  }

  lemma {:induction false} ContainsExtended(s: string, sub: string, t: string)
    requires Contains(s, sub)
    ensures Contains(s + t, sub)
    decreases |s|
  {
    if StartsWith(s, sub) {
      assert (s + t)[..|sub|] == s[..|sub|];
    } else {
      assert (s + t)[1..] == s[1..] + t;
      ContainsExtended(s[1..], sub, t);
    }
  }

  /** The text before the first newline (`s.substring(0, s.indexOf('\n'))`, or all of `s`). */
  function FirstLine(s: string): (r: string)
    ensures StartsWith(s, r)
    ensures '\n' !in r
    ensures r == s || s[|r|] == '\n'
  {
    if s == [] || s[0] == '\n' then "" else [s[0]] + FirstLine(s[1..])
  }

  /** `replaceAll("[^a-zA-Z0-9_]", "_")`. */
  predicate IsWordChar(c: char) {
    ('a' <= c <= 'z') || ('A' <= c <= 'Z') || IsDigit(c) || c == '_'
  }

  function Sanitize(s: string): (r: string)
    ensures |r| == |s|
  {
    if s == [] then "" else [if IsWordChar(s[0]) then s[0] else '_'] + Sanitize(s[1..])
  }

  /** `String.join(sep, xs)`. */
  function Join(sep: string, xs: seq<string>): (r: string)
    ensures xs == [] ==> r == ""
    ensures |xs| == 1 ==> r == xs[0]
  {
    if xs == [] then "" else if |xs| == 1 then xs[0] else xs[0] + sep + Join(sep, xs[1..])
  }

  /** Appending one more item adds one separator and that item, and nothing else. */
  lemma {:induction false} JoinSnoc(sep: string, xs: seq<string>, x: string)
    ensures Join(sep, xs + [x]) == if xs == [] then x else Join(sep, xs) + sep + x
    decreases |xs|
  {
    if |xs| >= 2 {
      assert (xs + [x])[1..] == xs[1..] + [x];
      JoinSnoc(sep, xs[1..], x);
    } else if |xs| == 1 {
      assert (xs + [x])[1..] == [x];
    }
  }

  /**
   * What a loop that appends `xs[k]` and then, unless `xs[k]` is the last item, `sep`
   * has built after its first `i` rounds.
   */
  function JoinedUpTo(sep: string, xs: seq<string>, i: nat): string
    requires i <= |xs|
  {
    if i == 0 then "" else if i < |xs| then Join(sep, xs[..i]) + sep else Join(sep, xs)
  }

  lemma JoinedStep(sep: string, xs: seq<string>, i: nat)
    requires i < |xs|
    ensures i < |xs| - 1 ==> JoinedUpTo(sep, xs, i + 1) == JoinedUpTo(sep, xs, i) + xs[i] + sep
    ensures i == |xs| - 1 ==> JoinedUpTo(sep, xs, i + 1) == JoinedUpTo(sep, xs, i) + xs[i]
  {
    JoinSnoc(sep, xs[..i], xs[i]);
    assert xs[..i + 1] == xs[..i] + [xs[i]];
    assert xs[..|xs|] == xs;
  }

  /** The concatenation of all items, in order. */
  function Concat(xs: seq<string>): (r: string)
    ensures |xs| == 1 ==> r == xs[0]
  {
    if xs == [] then "" else Concat(xs[..|xs| - 1]) + xs[|xs| - 1]
  }

  /** `Character.isWhitespace`, which `String.isBlank` uses. */
  predicate IsJavaWhitespace(c: char) {
    var k := c as int;
    (9 <= k <= 13) || (28 <= k <= 32) || k == 0x1680 || (0x2000 <= k <= 0x2006)
    || (0x2008 <= k <= 0x200A) || k == 0x2028 || k == 0x2029 || k == 0x205F || k == 0x3000
  }

  predicate IsBlank(s: string) {
    forall i :: 0 <= i < |s| ==> IsJavaWhitespace(s[i])
  }

  /** `String.trim`: drops every leading and trailing character at or below U+0020. */
  function TrimStart(s: string): (r: string)
    ensures |r| <= |s| && r == s[|s| - |r|..]
    ensures r == [] || r[0] > ' '
  {
    if s != [] && s[0] <= ' ' then TrimStart(s[1..]) else s
  }

  function TrimEnd(s: string): (r: string)
    ensures |r| <= |s| && r == s[..|r|]
    ensures r == [] || r[|r| - 1] > ' '
  {
    if s != [] && s[|s| - 1] <= ' ' then TrimEnd(s[..|s| - 1]) else s
  }

  function Trim(s: string): string {
    TrimEnd(TrimStart(s))
  }

  /** The pieces of `s` between occurrences of `sep`, empty pieces included. */
  function SplitOn(s: string, sep: char): (r: seq<string>)
    ensures |r| >= 1
    ensures forall k :: 0 <= k < |r| ==> sep !in r[k]
  {
    if s == [] then [""]
    else
      var rest := SplitOn(s[1..], sep);
      if s[0] == sep then [""] + rest else [[s[0]] + rest[0]] + rest[1..]
  }

  function DropTrailingEmpty(xs: seq<string>): seq<string> {
    if xs != [] && xs[|xs| - 1] == "" then DropTrailingEmpty(xs[..|xs| - 1]) else xs
  }

  /** `s.split(";")` as Java defines it: trailing empty pieces are removed, except that "" splits to [""]. */
  function JavaSplit(s: string, sep: char): seq<string> {
    if s == [] then [""] else DropTrailingEmpty(SplitOn(s, sep))
  }
}
