/** String helpers standing in for the QString operations the tool relies on:
    startsWith, endsWith, contains, replace, toLower and number formatting. */
module Text {

  datatype Option<T> = None | Some(value: T)

  predicate StartsWith(s: string, prefix: string) {
    |prefix| <= |s| && s[..|prefix|] == prefix
  }

  predicate EndsWith(s: string, suffix: string) {
    |suffix| <= |s| && s[|s| - |suffix|..] == suffix
  }

  /** `pat` occurs somewhere in `s` (QString::contains, case-sensitive). */
  predicate Contains(s: string, pat: string)
    decreases |s|
  {
    |pat| <= |s| && (StartsWith(s, pat) || (|s| > 0 && Contains(s[1..], pat)))
  }

  function LowerChar(c: char): char {
    if 'A' <= c <= 'Z' then (c as int + 32) as char else c
  }

  /** QString::toLower, restricted to ASCII letters. */
  function LowerAscii(s: string): (r: string)
    ensures |r| == |s|
    ensures forall i :: 0 <= i < |s| ==> r[i] == LowerChar(s[i])
  {
    seq(|s|, i requires 0 <= i < |s| => LowerChar(s[i]))
  }

  /** QString::contains with Qt::CaseInsensitive, for ASCII text. */
  predicate ContainsIgnoringCase(s: string, pat: string) {
    Contains(LowerAscii(s), LowerAscii(pat))
  }

  /** QString::replace(before, after): every occurrence, scanning left to right. */
  function ReplaceAll(s: string, pat: string, rep: string): string
    requires |pat| > 0
    decreases |s|
  {
    if |s| < |pat| then s
    else if StartsWith(s, pat) then rep + ReplaceAll(s[|pat|..], pat, rep)
    else [s[0]] + ReplaceAll(s[1..], pat, rep)
  }

  /** QStringList::join: the items with `sep` between neighbours. */
  function Join(xs: seq<string>, sep: string): string {
    if xs == [] then "" else if |xs| == 1 then xs[0] else xs[0] + sep + Join(xs[1..], sep)
  }

  /** `xs` is `ys` with some elements left out, the rest kept in order. */
  predicate Subsequence<T(==)>(xs: seq<T>, ys: seq<T>)
    decreases |ys|
  {
    xs == [] || (ys != [] && ((xs[0] == ys[0] && Subsequence(xs[1..], ys[1..])) || Subsequence(xs, ys[1..])))
  }

  /** Decimal rendering of a count, as QString::arg(int) prints it. */
  function NatToString(n: nat): (r: string)
    ensures |r| > 0
    decreases n
  {
    if n < 10 then [DigitChar(n)] else NatToString(n / 10) + [DigitChar(n % 10)]
  }

  function DigitChar(d: nat): char
    requires d < 10
  {
    ('0' as int + d) as char
  }

  function DigitValue(c: char): nat {
    if '0' <= c <= '9' then (c as int - '0' as int) as nat else 0
  }

  /** Reads a decimal number back, as a C preprocessor reads `IMAGE_COUNT`. */
  function ParseNat(s: string): nat
    decreases |s|
  {
    if s == [] then 0 else ParseNat(s[..|s| - 1]) * 10 + DigitValue(s[|s| - 1])
  }

  lemma {:induction false} ParseNatToString(n: nat)
    ensures ParseNat(NatToString(n)) == n
    decreases n
  {
    if n >= 10 {
      var s := NatToString(n);
      assert s[..|s| - 1] == NatToString(n / 10);
      ParseNatToString(n / 10);
    }
  }

  lemma {:induction false} ContainsPrepend(x: string, s: string, pat: string)
    requires Contains(s, pat)
    ensures Contains(x + s, pat)
    decreases |x|
  {
    if x != [] {
      ContainsPrepend(x[1..], s, pat);
      assert (x + s)[1..] == x[1..] + s;
      assert Contains((x + s)[1..], pat);
    } else {
      assert x + s == s;
    }
  }

  lemma {:induction false} ContainsAppend(s: string, y: string, pat: string)
    requires Contains(s, pat)
    ensures Contains(s + y, pat)
    decreases |s|
  {
    if StartsWith(s, pat) {
      assert (s + y)[..|pat|] == s[..|pat|];
    } else {
      ContainsAppend(s[1..], y, pat);
      assert (s + y)[1..] == s[1..] + y;
    }
  }

  /** A character missing from a text is missing from each of its heads. */
  lemma NotInPrefix(s: string, p: string, c: char)
    requires StartsWith(s, p) && c !in s
    ensures c !in p
  {
    assert forall k :: 0 <= k < |p| ==> p[k] == s[k];
  }

  /** Every item of a joined list occurs in the joined text. */
  lemma {:induction false} JoinContainsEach(xs: seq<string>, sep: string, i: nat)
    requires i < |xs|
    ensures Contains(Join(xs, sep), xs[i])
    decreases |xs|
  {
    var x := xs[0];
    assert x[..|x|] == x;
    assert Contains(x, x);
    if |xs| > 1 {
      var rest := Join(xs[1..], sep);
      assert Join(xs, sep) == x + (sep + rest) == (x + sep) + rest;
      if i == 0 {
        ContainsAppend(x, sep + rest, x);
      } else {
        JoinContainsEach(xs[1..], sep, i - 1);
        ContainsPrepend(x + sep, rest, xs[i]);
      }
    }
  }

  /** Replacing an absent pattern changes nothing. */
  lemma {:induction false} ReplaceAbsent(s: string, pat: string, rep: string)
    requires |pat| > 0 && !Contains(s, pat)
    ensures ReplaceAll(s, pat, rep) == s
    decreases |s|
  {
    if |s| >= |pat| {
      ReplaceAbsent(s[1..], pat, rep);
    }
  }

  /** After replacing every `pat` by `rep`, a text that held `pat` holds `rep`. */
  lemma {:induction false} ReplacePresent(s: string, pat: string, rep: string)
    requires |pat| > 0 && Contains(s, pat)
    ensures Contains(ReplaceAll(s, pat, rep), rep)
    decreases |s|
  {
    if StartsWith(s, pat) {
      var r := ReplaceAll(s, pat, rep);
      assert r == rep + ReplaceAll(s[|pat|..], pat, rep);
      assert r[..|rep|] == rep;
    } else {
      ReplacePresent(s[1..], pat, rep);
      ContainsPrepend([s[0]], ReplaceAll(s[1..], pat, rep), rep);
    }
  }

  /** A replacement never shortens the text when `rep` is at least as long as `pat`. */
  lemma {:induction false} ReplaceNoShorter(s: string, pat: string, rep: string)
    requires 0 < |pat| <= |rep|
    ensures |ReplaceAll(s, pat, rep)| >= |s|
    decreases |s|
  {
    if |s| >= |pat| {
      if StartsWith(s, pat) {
        ReplaceNoShorter(s[|pat|..], pat, rep);
      } else {
        ReplaceNoShorter(s[1..], pat, rep);
      }
    }
  }

  lemma {:induction false} LowerAsciiIdempotent(s: string)
    ensures LowerAscii(LowerAscii(s)) == LowerAscii(s)
  {
    var l := LowerAscii(s);
    forall i | 0 <= i < |s|
      ensures LowerAscii(l)[i] == l[i]
    {
      assert LowerChar(LowerChar(s[i])) == LowerChar(s[i]);
    }
  }

  /** Concatenation is associative. */
  lemma AppendAssoc<T>(a: seq<T>, b: seq<T>, c: seq<T>)
    ensures a + (b + c) == (a + b) + c
  {
  }

  /** A prefix one longer is the prefix and the next element. */
  lemma TakeStep<T>(s: seq<T>, i: nat)
    requires i < |s|
    ensures s[..i + 1] == s[..i] + [s[i]]
  {
  }

  /** TakeStep behind a fixed head. */
  lemma HeadTakeStep<T>(h: seq<T>, s: seq<T>, i: nat)
    requires i < |s|
    ensures h + s[..i + 1] == (h + s[..i]) + [s[i]]
  {
    TakeStep(s, i);
    AppendAssoc(h, s[..i], [s[i]]);
  }

  /** The head and tail of a concatenation whose left part is not empty. */
  lemma TailOfAppend<T>(a: seq<T>, b: seq<T>)
    requires a != []
    ensures (a + b)[0] == a[0] && (a + b)[1..] == a[1..] + b
  {
  }

  /** Whether `a + s` ends in `e` depends only on `s` when `e` is no longer than `s`. */
  lemma EndsWithAppend(a: string, s: string, e: string)
    requires |e| <= |s|
    ensures EndsWith(a + s, e) <==> EndsWith(s, e)
  {
    assert (a + s)[|a + s| - |e|..] == s[|s| - |e|..];
  }

  /** What a prefix says about one position of the string. */
  lemma StartsWithAt(s: string, p: string, k: int)
    requires 0 <= k < |p|
    ensures StartsWith(s, p) ==> k < |s| && s[k] == p[k]
  {
  }

  /** What a suffix says about one position of the string. */
  lemma EndsWithAt(s: string, e: string, k: int)
    requires 0 <= k < |e|
    ensures EndsWith(s, e) ==> |e| <= |s| && s[|s| - |e| + k] == e[k]
  {
  }

  /** Suffixes with different last characters exclude each other. */
  lemma LastCharsDiffer(s: string, e1: string, e2: string)
    requires EndsWith(s, e1) && |e1| > 0 && |e2| > 0 && e1[|e1| - 1] != e2[|e2| - 1]
    ensures !EndsWith(s, e2)
  {
    EndsWithAt(s, e1, |e1| - 1);
    EndsWithAt(s, e2, |e2| - 1);
  }

  /** Two prefixes of one string are prefixes of each other. */
  lemma PrefixesAgree(p: string, a: string, b: string)
    requires StartsWith(p, a) && StartsWith(p, b) && |a| <= |b|
    ensures StartsWith(b, a)
  {
    assert b[..|a|] == p[..|b|][..|a|];
  }
}
