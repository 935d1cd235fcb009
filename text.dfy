/** String rules the scripts rely on, as Python's `str` methods behave on
    them. Strings are sequences of characters. */
module Text {

  predicate IsUpper(c: char) { 'A' <= c <= 'Z' }

  /** `str.lower()` on one character (ASCII letters only). */
  function LowerChar(c: char): char
  {
    if IsUpper(c) then (c as int + 32) as char else c
  }

  /** `str.lower()`. */
  function Lower(s: string): (r: string)
    ensures |r| == |s|
    ensures forall i :: 0 <= i < |r| ==> !IsUpper(r[i])
  {
    seq(|s|, i requires 0 <= i < |s| => LowerChar(s[i]))
  }

  lemma LowerIdempotent(s: string)
    ensures Lower(Lower(s)) == Lower(s)
  {
    var l := Lower(s);
    assert forall i :: 0 <= i < |l| ==> LowerChar(l[i]) == l[i];
  }

  /** `needle` occurs in `hay` starting at position `k`. */
  ghost predicate OccursAt(hay: string, needle: string, k: nat)
  {
    k + |needle| <= |hay| && hay[k..k + |needle|] == needle
  }

  /** An occurrence in the tail is an occurrence one position further on. */
  lemma OccursShift(hay: string, needle: string, k: nat)
    requires |hay| >= 1
    ensures OccursAt(hay[1..], needle, k) <==> OccursAt(hay, needle, k + 1)
  {
    if k + |needle| <= |hay[1..]| {
      assert hay[1..][k..k + |needle|] == hay[k + 1..k + 1 + |needle|];
    }
  }

  /** Python's `needle in hay` for strings (true for an empty needle). */
  function Contains(hay: string, needle: string): (b: bool)
    ensures b <==> exists k: nat :: OccursAt(hay, needle, k)
    decreases |hay|
  {
    if |needle| > |hay| then false
    else if hay[..|needle|] == needle then
      assert OccursAt(hay, needle, 0);
      true
    else
      var rest := Contains(hay[1..], needle);
      forall k: nat ensures OccursAt(hay[1..], needle, k) <==> OccursAt(hay, needle, k + 1) {
        OccursShift(hay, needle, k);
      }
      assert forall k: nat :: OccursAt(hay, needle, k) ==> k == 0 || OccursAt(hay[1..], needle, k - 1);
      rest
  }

  /** `s.endswith(suffix)`. */
  predicate EndsWith(s: string, suffix: string)
  {
    |suffix| <= |s| && s[|s| - |suffix|..] == suffix
  }

  /** `s.startswith(prefix)`. */
  predicate StartsWith(s: string, prefix: string)
  {
    |prefix| <= |s| && s[..|prefix|] == prefix
  }

  /** `s.replace(pat, "")`: scans left to right and deletes each
      non-overlapping occurrence of `pat`. */
  function RemoveAll(s: string, pat: string): (r: string)
    requires |pat| > 0
    ensures |r| <= |s|
    decreases |s|
  {
    if |s| < |pat| then s
    else if s[..|pat|] == pat then RemoveAll(s[|pat|..], pat)
    else [s[0]] + RemoveAll(s[1..], pat)
  }

  /** No proper prefix of `pat` is also a suffix of it, so an occurrence
      of `pat` can never start inside a text that `pat` follows. */
  predicate Borderless(pat: string)
  {
    forall l :: 0 < l < |pat| ==> pat[l..] != pat[..|pat| - l]
  }

  /** Removing every occurrence leaves a text without one unchanged. */
  lemma {:induction false} RemoveAllAbsent(s: string, pat: string)
    requires |pat| > 0 && !Contains(s, pat)
    ensures RemoveAll(s, pat) == s
    decreases |s|
  {
    if |s| >= |pat| {
      assert !OccursAt(s, pat, 0);
      forall k: nat ensures OccursAt(s[1..], pat, k) <==> OccursAt(s, pat, k + 1) {
        OccursShift(s, pat, k);
      }
      RemoveAllAbsent(s[1..], pat);
      assert [s[0]] + s[1..] == s;
    }
  }

  /** An occurrence in the tail is an occurrence in the whole. */
  lemma ContainsTail(s: string, pat: string)
    requires |s| >= 1
    ensures Contains(s[1..], pat) ==> Contains(s, pat)
  {
    if Contains(s[1..], pat) {
      var k: nat :| OccursAt(s[1..], pat, k);
      OccursShift(s, pat, k);
      assert OccursAt(s, pat, k + 1);
    }
  }

  /** A borderless `pat` placed after a non-empty text free of it does
      not occur at the very start. */
  lemma NotAtStart(name: string, pat: string, rest: string)
    requires |pat| > 0 && Borderless(pat) && !Contains(name, pat) && |name| > 0
    ensures (name + pat + rest)[..|pat|] != pat
  {
    var s := name + pat + rest;
    if |name| >= |pat| {
      assert s[..|pat|] == name[..|pat|];
      assert !OccursAt(name, pat, 0);
    } else {
      var l := |name|;
      assert pat[l..] != pat[..|pat| - l];
      assert s[..|pat|][l..] == pat[..|pat| - l];
    }
  }

  /** A text that does not start with `pat` keeps its first character. */
  lemma RemoveAllSkip(s: string, pat: string)
    requires |pat| > 0 && |s| >= |pat| && s[..|pat|] != pat
    ensures RemoveAll(s, pat) == [s[0]] + RemoveAll(s[1..], pat)
  {
  }

  /** A borderless `pat` after a text free of it is removed whole, and
      removal carries on in what follows it. */
  lemma {:induction false} RemoveAllAppended(name: string, pat: string, rest: string)
    requires |pat| > 0 && Borderless(pat) && !Contains(name, pat)
    ensures RemoveAll(name + pat + rest, pat) == name + RemoveAll(rest, pat)
    decreases |name|
  {
    var s := name + pat + rest;
    if |name| == 0 {
      assert s == pat + rest;
      assert s[..|pat|] == pat;
      assert s[|pat|..] == rest;
    } else {
      var tail := name[1..];
      NotAtStart(name, pat, rest);
      ContainsTail(name, pat);
      assert !Contains(tail, pat);
      RemoveAllAppended(tail, pat, rest);
      assert s[1..] == tail + pat + rest;
      RemoveAllSkip(s, pat);
      assert s[0] == name[0] && [name[0]] + tail == name;
    }
  }

  /** `s.split(sep)[-1]`: the text after the last `sep`, or all of `s`
      when it has none. */
  function AfterLast(s: string, sep: char): (r: string)
    ensures sep !in r
    ensures |r| <= |s| && r == s[|s| - |r|..]
    ensures |r| < |s| ==> s[|s| - |r| - 1] == sep
    decreases |s|
  {
    if |s| == 0 then s
    else if s[|s| - 1] == sep then []
    else
      var p := s[..|s| - 1];
      var q := AfterLast(p, sep);
      assert s[|s| - |q| - 1..] == p[|p| - |q|..] + [s[|s| - 1]];
      assert |q| < |p| ==> s[|s| - |q| - 2] == p[|p| - |q| - 1];
      q + [s[|s| - 1]]
  }

  function DigitChar(d: nat): (c: char)
    requires d < 10
    ensures '0' <= c <= '9' && c as int - '0' as int == d
  {
    (d + '0' as int) as char
  }

  /** `str(n)` for a non-negative integer: decimal, no leading zeros. */
  function NatToString(n: nat): (s: string)
    ensures 1 <= |s|
    ensures forall i :: 0 <= i < |s| ==> '0' <= s[i] <= '9'
    ensures |s| > 1 ==> s[0] != '0'
    decreases n
  {
    if n < 10 then [DigitChar(n)]
    else NatToString(n / 10) + [DigitChar(n % 10)]
  }

  /** Distinct numbers print as distinct strings. */
  lemma {:induction false} NatToStringInjective(a: nat, b: nat)
    requires NatToString(a) == NatToString(b)
    ensures a == b
    decreases a
  {
    var s := NatToString(a);
    if a >= 10 && b >= 10 {
      var sa, sb := NatToString(a / 10), NatToString(b / 10);
      assert s == sa + [DigitChar(a % 10)] == sb + [DigitChar(b % 10)];
      assert s[|s| - 1] == DigitChar(a % 10) == DigitChar(b % 10);
      assert sa == s[..|s| - 1] == sb;
      NatToStringInjective(a / 10, b / 10);
    }
  }

  /** `sep.join(parts)`. */
  function JoinWith(parts: seq<string>, sep: string): (r: string)
    ensures |parts| == 1 ==> r == parts[0]
    decreases |parts|
  {
    if |parts| == 0 then ""
    else if |parts| == 1 then parts[0]
    else parts[0] + sep + JoinWith(parts[1..], sep)
  }

  /** `s.split(sep)` for a one-character separator. */
  function Split(s: string, sep: char): (r: seq<string>)
    ensures |r| >= 1
    decreases |s|
  {
    if sep !in s then [s]
    else
      var i := IndexOf(s, sep);
      [s[..i]] + Split(s[i + 1..], sep)
  }

  /** Position of the first `c` in `s`. */
  function IndexOf(s: string, c: char): (i: nat)
    requires c in s
    ensures i < |s| && s[i] == c && c !in s[..i]
  {
    if s[0] == c then 0
    else
      var i := 1 + IndexOf(s[1..], c);
      assert s[..i] == [s[0]] + s[1..][..i - 1];
      i
  }

  /** A `c` preceded by none is found by IndexOf. */
  lemma {:induction false} IndexOfAt(s: string, c: char, j: nat)
    requires j < |s| && s[j] == c
    requires forall k :: 0 <= k < j ==> s[k] != c
    ensures IndexOf(s, c) == j
  {
    if j > 0 {
      IndexOfAt(s[1..], c, j - 1);
    }
  }

  /** Joining parts free of the separator and splitting again gives the
      parts back (a non-empty list: joining `[]` and `[""]` both give ""). */
  lemma {:induction false} SplitJoin(parts: seq<string>, sep: char)
    requires |parts| >= 1
    requires forall i :: 0 <= i < |parts| ==> sep !in parts[i]
    ensures Split(JoinWith(parts, [sep]), sep) == parts
    decreases |parts|
  {
    if |parts| > 1 {
      var first, tail := parts[0], parts[1..];
      assert parts == [first] + tail;
      assert forall i :: 0 <= i < |tail| ==> sep !in tail[i] by {
        forall i | 0 <= i < |tail| ensures sep !in tail[i] {
          assert tail[i] == parts[i + 1];
        }
      }
      var rest := JoinWith(tail, [sep]);
      var s := first + [sep] + rest;
      assert JoinWith(parts, [sep]) == s;
      assert sep !in first && s[|first|] == sep;
      assert forall k :: 0 <= k < |first| ==> s[k] == first[k];
      IndexOfAt(s, sep, |first|);
      assert s[..|first|] == first;
      assert s[|first| + 1..] == rest;
      assert Split(s, sep) == [first] + Split(rest, sep);
      SplitJoin(tail, sep);
    }
  }
}
