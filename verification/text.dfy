/** The few Python string operations the services use: `str.strip()`, `str.lower()`, the
    substring test `k in s`, `str.endswith` and `str(n)` for a non-negative integer. */
module Text {

  /** Characters for which Python's `str.isspace()` holds, i.e. those `str.strip()` removes. */
  predicate IsSpace(c: char) {
    c == ' ' || ('\t' <= c <= '\r') || ('\U{1C}' <= c <= '\U{1F}') || c == '\U{85}' || c == '\U{A0}'
    || c == '\U{1680}' || ('\U{2000}' <= c <= '\U{200A}') || c == '\U{2028}' || c == '\U{2029}'
    || c == '\U{202F}' || c == '\U{205F}' || c == '\U{3000}'
  }

  /** Number of whitespace characters at the front of `s`. */
  function LeadingSpaces(s: string): (k: nat)
    ensures k <= |s|
    ensures forall i :: 0 <= i < k ==> IsSpace(s[i])
    ensures k < |s| ==> !IsSpace(s[k])
  {
    if s != [] && IsSpace(s[0]) then 1 + LeadingSpaces(s[1..]) else 0
  }

  /** Number of whitespace characters at the back of `s`. */
  function TrailingSpaces(s: string): (k: nat)
    ensures k <= |s|
    ensures forall i :: |s| - k <= i < |s| ==> IsSpace(s[i])
    ensures k < |s| ==> !IsSpace(s[|s| - k - 1])
  {
    if s != [] && IsSpace(s[|s| - 1]) then 1 + TrailingSpaces(s[..|s| - 1]) else 0
  }

  /** `s.strip()`: the slice `s[a..b]` left after removing whitespace at both ends. */
  function Strip(s: string): (r: string)
  {
    var t := s[LeadingSpaces(s)..];
    t[..|t| - TrailingSpaces(t)]
  }

  /** Strip removes exactly whitespace from both ends and nothing else. */
  lemma StripSlice(s: string) returns (a: nat, b: nat)
    ensures a <= b <= |s| && Strip(s) == s[a..b]
    ensures forall i :: 0 <= i < a ==> IsSpace(s[i])
    ensures forall i :: b <= i < |s| ==> IsSpace(s[i])
    ensures a < b ==> !IsSpace(s[a]) && !IsSpace(s[b - 1])
  {
    a := LeadingSpaces(s);
    var t := s[a..];
    b := a + |t| - TrailingSpaces(t);
    forall i | b <= i < |s| ensures IsSpace(s[i]) {
      assert s[i] == t[i - a];
    }
    if a < b {
      assert s[b - 1] == t[|t| - TrailingSpaces(t) - 1];
    }
  }

  function LowerChar(c: char): char {
    if 'A' <= c <= 'Z' then (c as int - 'A' as int + 'a' as int) as char else c
  }

  /** `s.lower()`, for the ASCII letters. */
  function Lower(s: string): (r: string)
    ensures |r| == |s| && forall i :: 0 <= i < |s| ==> r[i] == LowerChar(s[i])
  {
    if s == [] then [] else [LowerChar(s[0])] + Lower(s[1..])
  }

  /** `k` occurs in `s` at position `i`. */
  predicate OccursAt(s: string, k: string, i: int) {
    0 <= i && i + |k| <= |s| && s[i..i + |k|] == k
  }

  /** Python's `k in s` for strings. */
  function Contains(s: string, k: string): (r: bool)
    ensures r <==> exists i :: OccursAt(s, k, i)
  {
    if |k| > |s| then false
    else if s[..|k|] == k then assert OccursAt(s, k, 0); true
    else
      var r := Contains(s[1..], k);
      forall i ensures OccursAt(s[1..], k, i) <==> OccursAt(s, k, i + 1) {
        if 0 <= i && i + |k| <= |s| - 1 {
          assert s[1..][i..i + |k|] == s[i + 1..i + 1 + |k|];
        }
      }
      assert !OccursAt(s, k, 0);
      assert (exists i :: OccursAt(s, k, i)) ==> exists i :: OccursAt(s[1..], k, i) by {
        if i :| OccursAt(s, k, i) {
          assert OccursAt(s[1..], k, i - 1);
        }
      }
      r
  }

  /** A keyword made of non-whitespace characters is found in `s.strip()` exactly when it is
      found in `s`: the strip before a keyword test never changes the outcome. */
  lemma {:induction false} ContainsStrip(s: string, k: string)
    requires k != [] && forall j :: 0 <= j < |k| ==> !IsSpace(k[j])
    ensures Contains(Strip(s), k) <==> Contains(s, k)
  {
    var a, b := StripSlice(s);
    if i :| OccursAt(s, k, i) {
      assert s[i] == k[0] && s[i + |k| - 1] == k[|k| - 1];
      assert a <= i && i + |k| <= b;
      SliceOfSlice(s, a, b, i - a, i - a + |k|);
      assert OccursAt(Strip(s), k, i - a);
    }
    if i :| OccursAt(Strip(s), k, i) {
      SliceOfSlice(s, a, b, i, i + |k|);
      assert OccursAt(s, k, a + i);
    }
  }

  lemma SliceOfSlice(s: string, a: nat, b: nat, i: nat, j: nat)
    requires a <= b <= |s| && i <= j <= b - a
    ensures s[a..b][i..j] == s[a + i..a + j]
  {
    assert |s[a..b][i..j]| == |s[a + i..a + j]|;
    forall m | 0 <= m < j - i ensures s[a..b][i..j][m] == s[a + i..a + j][m] {
    }
  }

  lemma {:induction false} LeadingSpacesLower(s: string)
    ensures LeadingSpaces(Lower(s)) == LeadingSpaces(s)
  {
    if s != [] {
      assert Lower(s)[1..] == Lower(s[1..]);
      LeadingSpacesLower(s[1..]);
    }
  }

  lemma {:induction false} TrailingSpacesLower(s: string)
    ensures TrailingSpaces(Lower(s)) == TrailingSpaces(s)
    decreases |s|
  {
    if s != [] {
      LowerPrefix(s, |s| - 1);
      TrailingSpacesLower(s[..|s| - 1]);
    }
  }

  lemma LowerDropLeading(s: string)
    ensures Lower(s)[LeadingSpaces(Lower(s))..] == Lower(s[LeadingSpaces(s)..])
  {
    LeadingSpacesLower(s);
    LowerSuffix(s, LeadingSpaces(s));
  }

  lemma LowerDropTrailing(t: string)
    ensures Lower(t)[..|t| - TrailingSpaces(Lower(t))] == Lower(t[..|t| - TrailingSpaces(t)])
  {
    TrailingSpacesLower(t);
    LowerPrefix(t, |t| - TrailingSpaces(t));
  }

  /** Lowering and stripping commute: `s.strip().lower() == s.lower().strip()`. */
  lemma StripLower(s: string)
    ensures Lower(Strip(s)) == Strip(Lower(s))
  {
    var t := s[LeadingSpaces(s)..];
    var u := Lower(s)[LeadingSpaces(Lower(s))..];
    LowerDropLeading(s);
    assert u == Lower(t);
    LowerDropTrailing(t);
    assert Strip(Lower(s)) == u[..|u| - TrailingSpaces(u)];
    assert Strip(s) == t[..|t| - TrailingSpaces(t)];
  }

  lemma LowerSuffix(s: string, i: nat)
    requires i <= |s|
    ensures Lower(s)[i..] == Lower(s[i..])
  {
  }

  lemma LowerPrefix(s: string, j: nat)
    requires j <= |s|
    ensures Lower(s)[..j] == Lower(s[..j])
  {
  }

  /** The keyword test on `s.strip().lower()` gives the same answer as on `s.lower()`. */
  lemma ContainsLowerStrip(s: string, k: string)
    requires k != [] && forall j :: 0 <= j < |k| ==> !IsSpace(k[j])
    ensures Contains(Lower(Strip(s)), k) <==> Contains(Lower(s), k)
  {
    StripLower(s);
    ContainsStrip(Lower(s), k);
  }

  /** `s.endswith(suffix)` */
  predicate EndsWith(s: string, suffix: string) {
    |suffix| <= |s| && s[|s| - |suffix|..] == suffix
  }

  predicate IsDigit(c: char) {
    '0' <= c <= '9'
  }

  function DigitChar(d: nat): (c: char)
    requires d < 10
    ensures IsDigit(c) && c as int - '0' as int == d
  {
    (d + '0' as int) as char
  }

  /** `str(n)` for a non-negative integer: its decimal digits, without leading zeros. */
  function NatToString(n: nat): (r: string)
    ensures |r| >= 1 && forall i :: 0 <= i < |r| ==> IsDigit(r[i])
    ensures |r| > 1 ==> r[0] != '0'
  {
    if n < 10 then [DigitChar(n)] else NatToString(n / 10) + [DigitChar(n % 10)]
  }

  /** The value of a string of decimal digits. */
  function DigitsValue(s: string): nat
    requires forall i :: 0 <= i < |s| ==> IsDigit(s[i])
  {
    if s == [] then 0
    else
      var last := s[|s| - 1];
      assert IsDigit(last);
      10 * DigitsValue(s[..|s| - 1]) + (last as int - '0' as int)
  }

  /** Reading the digits `str(n)` prints gives back `n`. */
  lemma {:induction false} NatToStringRoundTrip(n: nat)
    ensures DigitsValue(NatToString(n)) == n
  {
    if n >= 10 {
      var r := NatToString(n);
      assert r[..|r| - 1] == NatToString(n / 10);
      NatToStringRoundTrip(n / 10);
    }
  }

  /** Distinct numbers print differently. */
  lemma NatToStringInjective(m: nat, n: nat)
    requires NatToString(m) == NatToString(n)
    ensures m == n
  {
    NatToStringRoundTrip(m);
    NatToStringRoundTrip(n);
  }
}
