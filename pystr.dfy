/**
 * The few Python `str` operations the notebook rewriter relies on, written
 * over `string` (`seq<char>`): prefix test, character counting, slicing,
 * repetition, `rstrip()`, one-character `replace`, `str(n)` for a natural
 * number and `split(sep)[0]`. `DecimalValue`, `LastSegment` and `OccursAt`
 * are not used by the rewriter: they are reference definitions used to state
 * properties (reading an anchor's ordinal back, characterizing the split).
 */
module PyStr {

  /** `s.startswith(c)` for a one-character prefix. */
  predicate StartsWith(s: string, c: char) {
    |s| > 0 && s[0] == c
  }

  /** `len(re.findall(c, s))` for a single literal character: every occurrence counts. */
  function Count(s: string, c: char): (n: nat)
    ensures n <= |s|
    ensures n == 0 <==> c !in s
  {
    if s == [] then 0
    else (if s[0] == c then 1 else 0) + Count(s[1..], c)
  }

  lemma {:induction false} CountConcat(a: string, b: string, c: char)
    ensures Count(a + b, c) == Count(a, c) + Count(b, c)
  {
    if a != [] {
      assert (a + b)[1..] == a[1..] + b;
      CountConcat(a[1..], b, c);
    } else {
      assert a + b == b;
    }
  }

  /** The slice `s[k:]` for `k >= 0`: empty when `k` is past the end. */
  function Drop(s: string, k: nat): string {
    if k <= |s| then s[k..] else []
  }

  /** `c * n`. */
  function Repeat(c: char, n: nat): (r: string)
    ensures |r| == n
    ensures forall i :: 0 <= i < n ==> r[i] == c
  {
    if n == 0 then [] else [c] + Repeat(c, n - 1)
  }

  /** Python's `str.isspace()` on one character: the characters `rstrip()` removes. */
  predicate IsSpace(c: char) {
    var n := c as int;
    (9 <= n <= 13) || (28 <= n <= 32) || n == 0x85 || n == 0xA0 || n == 0x1680
    || (0x2000 <= n <= 0x200A) || n == 0x2028 || n == 0x2029 || n == 0x202F
    || n == 0x205F || n == 0x3000
  }

  /** `s.rstrip()`: trailing whitespace removed. */
  function RStrip(s: string): string {
    if s != [] && IsSpace(s[|s| - 1]) then RStrip(s[..|s| - 1]) else s
  }

  /** `RStrip` keeps the longest prefix of `s` that does not end in whitespace. */
  lemma {:induction false} RStripIsLongestPrefix(s: string)
    ensures var r := RStrip(s);
      |r| <= |s| && r == s[..|r|]
      && (r == [] || !IsSpace(r[|r| - 1]))
      && forall i :: |r| <= i < |s| ==> IsSpace(s[i])
  {
    if s != [] && IsSpace(s[|s| - 1]) {
      RStripIsLongestPrefix(s[..|s| - 1]);
    }
  }

  /** `s.replace(a, b)` for one-character `a` and `b`. */
  function Replace(s: string, a: char, b: char): string {
    if s == [] then [] else [if s[0] == a then b else s[0]] + Replace(s[1..], a, b)
  }

  /** `Replace` turns every `a` into `b` and leaves every other character where it was. */
  lemma {:induction false} ReplacePointwise(s: string, a: char, b: char)
    ensures var r := Replace(s, a, b);
      |r| == |s| && forall i :: 0 <= i < |s| ==> r[i] == (if s[i] == a then b else s[i])
  {
    if s != [] {
      ReplacePointwise(s[1..], a, b);
    }
  }

  predicate IsDigit(c: char) {
    '0' <= c <= '9'
  }

  predicate AllDigits(s: string) {
    forall i :: 0 <= i < |s| ==> IsDigit(s[i])
  }

  function DigitChar(d: nat): (c: char)
    requires d < 10
    ensures IsDigit(c)
  {
    ('0' as int + d) as char
  }

  /** `str(n)` for a natural number: its decimal digits, most significant first. */
  function Str(n: nat): (r: string)
    ensures |r| > 0 && AllDigits(r)
    ensures n > 0 ==> r[0] != '0'
    ensures |r| == 1 || r[0] != '0'
  {
    if n < 10 then [DigitChar(n)] else Str(n / 10) + [DigitChar(n % 10)]
  }

  /** The number a string of decimal digits denotes (the empty string gives 0); used to state properties. */
  function DecimalValue(s: string): nat
    requires AllDigits(s)
  {
    if s == [] then 0
    else DecimalValue(s[..|s| - 1]) * 10 + (s[|s| - 1] as int - '0' as int)
  }

  /** `int(str(n)) == n`. */
  lemma {:induction false} StrRoundTrip(n: nat)
    ensures DecimalValue(Str(n)) == n
  {
    var s := Str(n);
    if n >= 10 {
      assert s[..|s| - 1] == Str(n / 10);
      StrRoundTrip(n / 10);
    }
  }

  /** Distinct numbers print differently. */
  lemma StrInjective(m: nat, n: nat)
    requires m != n
    ensures Str(m) != Str(n)
  {
    StrRoundTrip(m);
    StrRoundTrip(n);
  }

  /** What follows the last `sep` in `s` (all of `s` if there is none); used to state properties. */
  function LastSegment(s: string, sep: char): (r: string)
    ensures |r| <= |s| && r == s[|s| - |r|..]
    ensures sep !in r
    ensures |r| < |s| ==> s[|s| - |r| - 1] == sep
  {
    if s == [] || s[|s| - 1] == sep then []
    else LastSegment(s[..|s| - 1], sep) + [s[|s| - 1]]
  }

  /** Appending `sep` and a `sep`-free tail makes that tail the last segment. */
  lemma LastSegmentOf(p: string, sep: char, d: string)
    requires sep !in d
    ensures LastSegment(p + [sep] + d, sep) == d
  {
    var s := p + [sep] + d;
    var r := LastSegment(s, sep);
    assert s[|p|] == sep;
    assert |r| == |d|;
    assert r == s[|p| + 1..] == d;
  }

  /** `sep` occurs in `s` starting at index `i`. */
  predicate OccursAt(s: string, sep: string, i: nat) {
    i + |sep| <= |s| && s[i..i + |sep|] == sep
  }

  /** `s.split(sep)[0]`: everything before the first occurrence of `sep`, or all of `s`. */
  function SplitHead(s: string, sep: string): (r: string)
    requires |sep| > 0
    ensures |r| <= |s| && r == s[..|r|]
    ensures forall i :: 0 <= i < |r| ==> !OccursAt(s, sep, i)
    ensures |r| < |s| ==> OccursAt(s, sep, |r|)
    ensures |r| == |s| ==> forall i :: 0 <= i <= |s| ==> !OccursAt(s, sep, i)
  {
    if |s| < |sep| then s
    else if s[..|sep|] == sep then []
    else
      var t := SplitHead(s[1..], sep);
      assert s[0..|sep|] == s[..|sep|];
      assert forall i :: 1 <= i <= |s| ==> (OccursAt(s[1..], sep, i - 1) <==> OccursAt(s, sep, i)) by {
        forall i | 1 <= i <= |s| ensures OccursAt(s[1..], sep, i - 1) <==> OccursAt(s, sep, i) {
          if i + |sep| <= |s| {
            assert s[1..][i - 1..i - 1 + |sep|] == s[i..i + |sep|];
          }
        }
      }
      [s[0]] + t
  }
}
