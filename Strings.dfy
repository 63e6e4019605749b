/** Optional values, used where the source returns "nothing found". */
module Wrappers {
  datatype Option<T> = None | Some(value: T)
}

/**
 * The character classes and string operations of Python's `str` that the
 * line protocol relies on: `str.strip`, `in`, `split(sep, 1)`, `int(...)`
 * on a run of ASCII digits, and the regex classes `\s`, `\S`, `\d`.
 */
module Strings {
  import opened Wrappers

  /** Python's `str.isspace()`: the characters `str.strip()` removes and `\s` matches. */
  predicate IsSpace(c: char) {
    var n := c as int;
    n == 0x20 || 0x09 <= n <= 0x0D || 0x1C <= n <= 0x1F || n == 0x85 || n == 0xA0
    || n == 0x1680 || 0x2000 <= n <= 0x200A || n == 0x2028 || n == 0x2029
    || n == 0x202F || n == 0x205F || n == 0x3000
  }

  /** The regex class `\S`. */
  predicate NonSpace(c: char) { !IsSpace(c) }

  /** The regex class `\d`, restricted to ASCII digits. */
  predicate IsDigit(c: char) { '0' <= c <= '9' }

  /** The regex class `[\d\.]`. */
  predicate DigitOrDot(c: char) { IsDigit(c) || c == '.' }

  /** The one character `strip("\r")` removes. */
  predicate IsCR(c: char) { c == '\r' }

  predicate AllOf(s: string, p: char -> bool) {
    forall i :: 0 <= i < |s| ==> p(s[i])
  }

  /** The end of the longest run of `p`-characters starting at `from`. */
  function RunEnd(s: string, from: nat, p: char -> bool): (e: nat)
    requires from <= |s|
    ensures from <= e <= |s|
    ensures forall i :: from <= i < e ==> p(s[i])
    ensures e == |s| || !p(s[e])
    decreases |s| - from
  {
    if from == |s| || !p(s[from]) then from else RunEnd(s, from + 1, p)
  }

  /** A run is determined by where it starts. */
  lemma RunEndAt(s: string, from: nat, p: char -> bool, m: nat)
    requires from <= m <= |s|
    requires forall i :: from <= i < m ==> p(s[i])
    requires m == |s| || !p(s[m])
    ensures RunEnd(s, from, p) == m
  {
  }

  /** A run reaches at least as far as any stretch of `p`-characters from its start. */
  lemma RunEndAtLeast(s: string, from: nat, p: char -> bool, m: nat)
    requires from <= m <= |s|
    requires forall i :: from <= i < m ==> p(s[i])
    ensures m <= RunEnd(s, from, p)
  {
  }

  /** The start of the longest run of `p`-characters ending at `hi`, not going below `lo`. */
  function RunBack(s: string, hi: nat, lo: nat, p: char -> bool): (b: nat)
    requires lo <= hi <= |s|
    ensures lo <= b <= hi
    ensures forall i :: b <= i < hi ==> p(s[i])
    ensures b == lo || !p(s[b - 1])
    decreases hi
  {
    if hi == lo || !p(s[hi - 1]) then hi else RunBack(s, hi - 1, lo, p)
  }

  /** How many characters `Strip` removes at the front. */
  function StripLead(s: string, p: char -> bool): nat {
    RunEnd(s, 0, p)
  }

  /**
   * Python's `s.strip(chars)`: drop the `p`-characters at both ends. The
   * contract determines the result: a slice of `s`, everything outside it a
   * `p`-character, and (when non-empty) neither of its ends one.
   */
  function Strip(s: string, p: char -> bool): (r: string)
    ensures StripLead(s, p) + |r| <= |s|
    ensures r == s[StripLead(s, p)..StripLead(s, p) + |r|]
    ensures forall i :: 0 <= i < StripLead(s, p) ==> p(s[i])
    ensures forall i :: StripLead(s, p) + |r| <= i < |s| ==> p(s[i])
    ensures r != [] ==> !p(r[0]) && !p(r[|r| - 1])
  {
    var a := RunEnd(s, 0, p);
    if a == |s| then [] else s[a..RunBack(s, |s|, a, p)]
  }

  /** Any slice with only `p`-characters outside it and none at its ends is the stripped string. */
  lemma StripUnique(s: string, p: char -> bool, i: nat, n: nat)
    requires i + n <= |s|
    requires forall j :: 0 <= j < i ==> p(s[j])
    requires forall j :: i + n <= j < |s| ==> p(s[j])
    requires n > 0 ==> !p(s[i]) && !p(s[i + n - 1])
    ensures Strip(s, p) == s[i..i + n]
  {
    if n == 0 {
      RunEndAt(s, 0, p, |s|);
    } else {
      RunEndAt(s, 0, p, i);
    }
  }

  /** Stripping twice is stripping once. */
  lemma StripIdempotent(s: string, p: char -> bool)
    ensures Strip(Strip(s, p), p) == Strip(s, p)
  {
    var r := Strip(s, p);
    StripUnique(r, p, 0, |r|);
  }

  /** Where `Strip(Strip(s, q), p)` starts within `s`. */
  function DoubleLead(s: string, q: char -> bool, p: char -> bool): nat {
    StripLead(s, q) + StripLead(Strip(s, q), p)
  }

  /** A slice of a slice is a slice. */
  lemma SliceOfSlice(s: string, a: nat, n: nat, b: nat, m: nat)
    requires a + n <= |s| && b + m <= n
    ensures s[a..a + n][b..b + m] == s[a + b..a + b + m]
  {
    var t := s[a..a + n][b..b + m];
    assert forall i :: 0 <= i < m ==> t[i] == s[a + b + i];
  }

  lemma StripTwiceSlice(s: string, q: char -> bool, p: char -> bool)
    ensures var u := Strip(Strip(s, q), p);
      DoubleLead(s, q, p) + |u| <= |s| && u == s[DoubleLead(s, q, p)..DoubleLead(s, q, p) + |u|]
  {
    var t := Strip(s, q);
    var a := StripLead(s, q);
    var u := Strip(t, p);
    var a2 := StripLead(t, p);
    SliceOfSlice(s, a, |t|, a2, |u|);
  }

  lemma StripTwiceOutside(s: string, q: char -> bool, p: char -> bool)
    requires forall i :: 0 <= i < |s| && q(s[i]) ==> p(s[i])
    ensures var i, u := DoubleLead(s, q, p), Strip(Strip(s, q), p);
      (forall j :: 0 <= j < i ==> p(s[j])) && (forall j :: i + |u| <= j < |s| ==> p(s[j]))
  {
    var t := Strip(s, q);
    var a := StripLead(s, q);
    var u := Strip(t, p);
    var a2 := StripLead(t, p);
    assert a + |t| <= |s| && t == s[a..a + |t|];
    assert a2 + |u| <= |t|;
    forall j | 0 <= j < a + a2 ensures p(s[j]) {
      if j >= a {
        assert s[j] == t[j - a];
      }
    }
    forall j | a + a2 + |u| <= j < |s| ensures p(s[j]) {
      if j < a + |t| {
        assert s[j] == t[j - a];
      }
    }
  }

  /** Stripping characters of a smaller class first changes nothing. */
  lemma StripSubsumed(s: string, q: char -> bool, p: char -> bool)
    requires forall i :: 0 <= i < |s| && q(s[i]) ==> p(s[i])
    ensures Strip(Strip(s, q), p) == Strip(s, p)
  {
    var i, u := DoubleLead(s, q, p), Strip(Strip(s, q), p);
    StripTwiceSlice(s, q, p);
    StripTwiceOutside(s, q, p);
    assert u != [] ==> s[i] == u[0] && s[i + |u| - 1] == u[|u| - 1];
    StripUnique(s, p, i, |u|);
  }

  /** `line.strip("\r").strip()` is `line.strip()`: a carriage return is whitespace. */
  lemma StripCRThenSpace(s: string)
    ensures Strip(Strip(s, IsCR), IsSpace) == Strip(s, IsSpace)
  {
    StripSubsumed(s, IsCR, IsSpace);
  }

  /** The first index of `c` in `s`. */
  function IndexOf(s: string, c: char): (k: nat)
    requires c in s
    ensures k < |s| && s[k] == c && c !in s[..k]
  {
    if s[0] == c then 0
    else
      var k := 1 + IndexOf(s[1..], c);
      assert s[..k] == [s[0]] + s[1..][..k - 1];
      k
  }

  /** A `c` with none before it is the first one. */
  lemma IndexOfAt(s: string, c: char, i: nat)
    requires i < |s| && s[i] == c && c !in s[..i]
    ensures IndexOf(s, c) == i
  {
  }

  /** The first `c` of `a` is still the first one after text is appended. */
  lemma {:induction false} IndexOfAppend(a: string, b: string, c: char)
    requires c in a
    ensures c in a + b && IndexOf(a + b, c) == IndexOf(a, c)
  {
    if a[0] != c {
      assert (a + b)[1..] == a[1..] + b;
      IndexOfAppend(a[1..], b, c);
    }
  }

  /** `a` is a suffix of `b`. */
  predicate IsSuffix(a: string, b: string) {
    |a| <= |b| && a == b[|b| - |a|..]
  }

  lemma SuffixTrans(a: string, b: string, c: string)
    requires IsSuffix(a, b) && IsSuffix(b, c)
    ensures IsSuffix(a, c)
  {
    assert c[|c| - |b|..][|b| - |a|..] == c[|c| - |a|..];
  }

  /** `pat` occurs in `s` starting at index `i`. */
  predicate OccursAt(s: string, pat: string, i: nat) {
    i + |pat| <= |s| && s[i..i + |pat|] == pat
  }

  /** Python's `s.find(pat, from)`, as an option: the first occurrence at or after `from`. */
  function FindFrom(s: string, pat: string, from: nat): (r: Option<nat>)
    ensures r.Some? ==> from <= r.value && OccursAt(s, pat, r.value)
    ensures forall j :: from <= j && (r.None? || j < r.value) ==> !OccursAt(s, pat, j)
    decreases |s| - from
  {
    if from + |pat| > |s| then None
    else if OccursAt(s, pat, from) then Some(from)
    else FindFrom(s, pat, from + 1)
  }

  /** Python's `pat in s`. */
  predicate Contains(s: string, pat: string)
    ensures Contains(s, pat) <==> exists i: nat :: OccursAt(s, pat, i)
  {
    FindFrom(s, pat, 0).Some?
  }

  /** The number of occurrences of `c` in `s`. */
  function Count(s: string, c: char): (n: nat)
    ensures n <= |s|
    ensures n == 0 <==> c !in s
  {
    if s == [] then 0 else (if s[0] == c then 1 else 0) + Count(s[1..], c)
  }

  lemma {:induction false} CountAppend(a: string, b: string, c: char)
    ensures Count(a + b, c) == Count(a, c) + Count(b, c)
  {
    if a != [] {
      assert (a + b)[1..] == a[1..] + b;
      CountAppend(a[1..], b, c);
    } else {
      assert a + b == b;
    }
  }

  /** Python's `int(s)` on a string of ASCII digits. */
  function NatValue(s: string): nat
    requires AllOf(s, IsDigit)
  {
    if s == [] then 0 else NatValue(s[..|s| - 1]) * 10 + (s[|s| - 1] as int - '0' as int)
  }

  /** Leading zeros do not change the value: `int("007") == int("7")`. */
  lemma {:induction false} NatValueLeadingZero(s: string)
    requires AllOf(s, IsDigit)
    ensures NatValue("0" + s) == NatValue(s)
  {
    if s != [] {
      var t := "0" + s;
      assert t[..|t| - 1] == "0" + s[..|s| - 1];
      NatValueLeadingZero(s[..|s| - 1]);
    }
  }

  /** The value of digits written after others: `int(w + f) == int(w) * 10 ** len(f) + int(f)`. */
  lemma {:induction false} NatValueAppend(w: string, f: string)
    requires AllOf(w, IsDigit) && AllOf(f, IsDigit)
    ensures AllOf(w + f, IsDigit)
    ensures NatValue(w + f) == NatValue(w) * Pow10(|f|) + NatValue(f)
  {
    var t := w + f;
    assert forall i :: 0 <= i < |t| ==> IsDigit(t[i]) by {
      forall i | 0 <= i < |t| ensures IsDigit(t[i]) {
        if i >= |w| { assert t[i] == f[i - |w|]; }
      }
    }
    if f == [] {
      assert t == w;
    } else {
      var g := f[..|f| - 1];
      var d := f[|f| - 1] as int - '0' as int;
      assert t[..|t| - 1] == w + g;
      assert AllOf(g, IsDigit) by {
        forall i | 0 <= i < |g| ensures IsDigit(g[i]) { assert g[i] == f[i]; }
      }
      NatValueAppend(w, g);
      var a, pg, vg := NatValue(w), Pow10(|g|), NatValue(g);
      assert NatValue(t) == NatValue(w + g) * 10 + d;
      assert NatValue(f) == vg * 10 + d;
      assert Pow10(|f|) == 10 * pg;
      ShiftDigit(a, pg, vg);
    }
  }

  /** One more digit multiplies what stands before it by ten. */
  lemma ShiftDigit(a: int, p: int, v: int)
    ensures (a * p + v) * 10 == a * (10 * p) + v * 10
  {
  }

  function Pow10(n: nat): (r: nat)
    ensures r >= 1
  {
    if n == 0 then 1 else 10 * Pow10(n - 1)
  }
}
