/** Text and sequence searching, splitting, decimal numerals and the order of text,
    as the components below use them. */
module Text {

  /** `pat` stands in `s` at index `i`. */
  predicate OccursAt<T(==)>(s: seq<T>, pat: seq<T>, i: int) {
    0 <= i && i + |pat| <= |s| && forall k :: 0 <= k < |pat| ==> s[i + k] == pat[k]
  }

  /** The index of the first occurrence at or after `from`, or -1. */
  function IndexFrom<T(==)>(s: seq<T>, pat: seq<T>, from: nat): (i: int)
    ensures i == -1 || from <= i
    ensures i == -1 ==> forall j :: from <= j ==> !OccursAt(s, pat, j)
    ensures i != -1 ==> OccursAt(s, pat, i) && forall j :: from <= j < i ==> !OccursAt(s, pat, j)
    decreases |s| - from
  {
    if OccursAt(s, pat, from) then from
    else if |s| <= from then -1
    else IndexFrom(s, pat, from + 1)
  }

  /** The index of the first occurrence, or -1 when there is none. */
  function IndexOf<T(==)>(s: seq<T>, pat: seq<T>): (i: int)
    ensures -1 <= i
    ensures i == -1 ==> forall j :: !OccursAt(s, pat, j)
    ensures i != -1 ==> OccursAt(s, pat, i) && forall j :: 0 <= j < i ==> !OccursAt(s, pat, j)
  {
    IndexFrom(s, pat, 0)
  }

  lemma OccursInPrefix<T>(s: seq<T>, t: seq<T>, pat: seq<T>, i: int)
    requires 0 <= i && i + |pat| <= |s|
    ensures OccursAt(s + t, pat, i) == OccursAt(s, pat, i)
  {
  }

  /** What follows never moves the first occurrence. */
  lemma IndexOfStays<T>(s: seq<T>, t: seq<T>, pat: seq<T>)
    requires IndexOf(s, pat) != -1
    ensures IndexOf(s + t, pat) == IndexOf(s, pat)
  {
    var i := IndexOf(s, pat);
    OccursInPrefix(s, t, pat, i);
    forall j | 0 <= j < i ensures !OccursAt(s + t, pat, j) {
      OccursInPrefix(s, t, pat, j);
    }
  }

  /** The pieces of `s` between the separators `c`; always at least one. */
  function Split(s: string, c: char): (r: seq<string>)
    ensures |r| >= 1
    ensures forall i :: 0 <= i < |r| ==> c !in r[i]
  {
    if s == "" then [""]
    else
      var r := Split(s[1..], c);
      if s[0] == c then [""] + r else [[s[0]] + r[0]] + r[1..]
  }

  function Join(xs: seq<string>, c: char): string {
    if |xs| == 0 then ""
    else if |xs| == 1 then xs[0]
    else xs[0] + [c] + Join(xs[1..], c)
  }

  lemma {:induction false} SplitCons(x: string, rest: string, c: char)
    requires c !in x
    ensures Split(x + [c] + rest, c) == [x] + Split(rest, c)
  {
    var s := x + [c] + rest;
    if x == "" {
      assert s == [c] + rest && s[1..] == rest;
    } else {
      SplitCons(x[1..], rest, c);
      assert s[1..] == x[1..] + [c] + rest;
      assert [x[0]] + x[1..] == x;
    }
  }

  lemma {:induction false} SplitNone(x: string, c: char)
    requires c !in x
    ensures Split(x, c) == [x]
  {
    if x != "" {
      SplitNone(x[1..], c);
      assert [x[0]] + x[1..] == x;
    }
  }

  /** Splitting undoes joining when no piece holds the separator. */
  lemma {:induction false} SplitJoin(xs: seq<string>, c: char)
    requires |xs| >= 1
    requires forall i :: 0 <= i < |xs| ==> c !in xs[i]
    ensures Split(Join(xs, c), c) == xs
  {
    if |xs| == 1 {
      SplitNone(xs[0], c);
    } else {
      SplitJoin(xs[1..], c);
      SplitCons(xs[0], Join(xs[1..], c), c);
    }
  }

  lemma {:induction false} JoinLacks(xs: seq<string>, c: char, d: char)
    requires c != d
    requires forall i :: 0 <= i < |xs| ==> d !in xs[i]
    ensures d !in Join(xs, c)
  {
    if |xs| > 1 {
      JoinLacks(xs[1..], c, d);
    }
  }

  // ---- white space ----

  /** White space as JavaScript patterns and trimming see it. */
  predicate IsSpace(c: char) {
    c == ' ' || '\t' <= c <= '\r' || c == '\U{A0}' || c == '\U{1680}' || '\U{2000}' <= c <= '\U{200A}'
    || c == '\U{2028}' || c == '\U{2029}' || c == '\U{202F}' || c == '\U{205F}' || c == '\U{3000}' || c == '\U{FEFF}'
  }

  /** White space and line ends of ECMA-262, sections 12.2 and 12.3, by code point. */
  lemma SpaceCodes(c: char)
    ensures IsSpace(c) <==>
      var n := c as int;
      n == 9 || n == 10 || n == 11 || n == 12 || n == 13 || n == 32 || n == 160 || n == 5760
      || 8192 <= n <= 8202 || n == 8232 || n == 8233 || n == 8239 || n == 8287 || n == 12288 || n == 65279
  {
  }

  function TrimStart(s: string): string { if s != "" && IsSpace(s[0]) then TrimStart(s[1..]) else s }

  function TrimEnd(s: string): string {
    if s != "" && IsSpace(s[|s| - 1]) then TrimEnd(s[..|s| - 1]) else s
  }

  function Trim(s: string): string { TrimEnd(TrimStart(s)) }

  lemma {:induction false} StartTrimmed(s: string) returns (i: nat)
    ensures i <= |s| && TrimStart(s) == s[i..] && (forall k :: 0 <= k < i ==> IsSpace(s[k]))
    ensures i < |s| ==> !IsSpace(s[i])
  {
    i := 0;
    if s != "" && IsSpace(s[0]) {
      var j := StartTrimmed(s[1..]);
      i := j + 1;
      assert s[1..][j..] == s[i..];
      assert forall k :: 0 < k < i ==> s[k] == s[1..][k - 1];
    }
  }

  lemma {:induction false} EndTrimmed(s: string) returns (j: nat)
    ensures j <= |s| && TrimEnd(s) == s[..j] && (forall k :: j <= k < |s| ==> IsSpace(s[k]))
    ensures j > 0 ==> !IsSpace(s[j - 1])
  {
    j := |s|;
    if s != "" && IsSpace(s[|s| - 1]) {
      var init := s[..|s| - 1];
      j := EndTrimmed(init);
      assert init[..j] == s[..j];
      assert forall k :: j <= k < |init| ==> s[k] == init[k];
    }
  }

  /** `t` is what stands between the white space at both ends. */
  predicate IsTrimmed(s: string, t: string, i: nat) {
    && i + |t| <= |s| && s[i..i + |t|] == t
    && (forall k :: 0 <= k < |s| && !(i <= k < i + |t|) ==> IsSpace(s[k]))
    && (t != "" ==> !IsSpace(t[0]) && !IsSpace(t[|t| - 1]))
  }

  lemma TrimSpec(s: string) returns (i: nat)
    ensures IsTrimmed(s, Trim(s), i)
  {
    i := StartTrimmed(s);
    var tail := s[i..];
    var j := EndTrimmed(tail);
    assert s[i..i + j] == tail[..j];
    forall k | i + j <= k < |s| ensures IsSpace(s[k]) { assert s[k] == tail[k - i]; }
  }

  // ---- decimal numerals ----

  predicate IsDigit(c: char) { '0' <= c <= '9' }

  function Decimal(n: nat): (s: string)
    ensures |s| >= 1
    ensures forall i :: 0 <= i < |s| ==> IsDigit(s[i])
  {
    if n < 10 then [('0' as int + n) as char]
    else Decimal(n / 10) + [('0' as int + n % 10) as char]
  }

  function ParseDecimal(s: string): nat
    requires forall i :: 0 <= i < |s| ==> IsDigit(s[i])
  {
    if s == "" then 0
    else
      var c := s[|s| - 1];
      assert IsDigit(c);
      10 * ParseDecimal(s[..|s| - 1]) + (c as int - '0' as int)
  }

  lemma {:induction false} DecimalRoundTrip(n: nat)
    ensures ParseDecimal(Decimal(n)) == n
  {
    if n < 10 {
      assert Decimal(n)[..0] == "";
    } else {
      DecimalRoundTrip(n / 10);
      assert Decimal(n)[..|Decimal(n)| - 1] == Decimal(n / 10);
    }
  }

  // ---- the order of text ----

  /** Dictionary order by character code. */
  predicate LexLe(a: string, b: string) {
    a == "" || (b != "" && (a[0] < b[0] || (a[0] == b[0] && LexLe(a[1..], b[1..]))))
  }

  /** The order, without recursion: a start of the other text comes first, and otherwise
      the first character that differs decides. */
  ghost predicate Earlier(a: string, b: string) {
    a <= b || exists k :: 0 <= k < |a| && k < |b| && DiffersAt(a, b, k) && a[k] < b[k]
  }

  predicate DiffersAt(a: string, b: string, k: nat)
    requires k < |a| && k < |b|
  {
    a[..k] == b[..k] && a[k] != b[k]
  }

  lemma {:induction false} LexIff(a: string, b: string)
    ensures LexLe(a, b) <==> Earlier(a, b)
  {
    if a != "" && b != "" {
      if a[0] == b[0] {
        LexIff(a[1..], b[1..]);
        EarlierTail(a, b);
      } else {
        FirstDiffers(a, b);
      }
    }
  }

  lemma EarlierTail(a: string, b: string)
    requires a != "" && b != "" && a[0] == b[0]
    ensures Earlier(a, b) <==> Earlier(a[1..], b[1..])
  {
    assert a == [a[0]] + a[1..] && b == [b[0]] + b[1..];
    forall k: nat | k < |a| - 1 && k < |b| - 1
      ensures DiffersAt(a[1..], b[1..], k) <==> DiffersAt(a, b, k + 1)
    {
      TailDiffers(a, b, k);
    }
    if k :| 0 <= k < |a| && k < |b| && DiffersAt(a, b, k) && a[k] < b[k] {
      assert k != 0;
      assert DiffersAt(a[1..], b[1..], k - 1);
    }
    if k :| 0 <= k < |a[1..]| && k < |b[1..]| && DiffersAt(a[1..], b[1..], k) && a[1..][k] < b[1..][k] {
      assert DiffersAt(a, b, k + 1);
    }
  }

  lemma TailDiffers(a: string, b: string, k: nat)
    requires k + 1 < |a| && k + 1 < |b| && a[0] == b[0]
    ensures DiffersAt(a[1..], b[1..], k) <==> DiffersAt(a, b, k + 1)
  {
    assert a[..k + 1] == [a[0]] + a[1..][..k] && b[..k + 1] == [b[0]] + b[1..][..k];
    assert a[..k + 1][1..] == a[1..][..k] && b[..k + 1][1..] == b[1..][..k];
  }

  lemma FirstDiffers(a: string, b: string)
    requires a != "" && b != "" && a[0] != b[0]
    ensures !(a <= b) && DiffersAt(a, b, 0)
    ensures forall k :: 0 < k < |a| && k < |b| ==> !DiffersAt(a, b, k)
  {
    forall k | 0 < k < |a| && k < |b| ensures !DiffersAt(a, b, k) {
      assert a[..k][0] == a[0] && b[..k][0] == b[0];
    }
  }

  lemma {:induction false} LexTotal(a: string, b: string)
    ensures LexLe(a, b) || LexLe(b, a)
  {
    if a != "" && b != "" && a[0] == b[0] {
      LexTotal(a[1..], b[1..]);
    }
  }

  lemma {:induction false} LexTransitive(a: string, b: string, c: string)
    requires LexLe(a, b) && LexLe(b, c)
    ensures LexLe(a, c)
  {
    if a != "" && a[0] == b[0] == c[0] {
      LexTransitive(a[1..], b[1..], c[1..]);
    }
  }

  lemma {:induction false} LexAntisymmetric(a: string, b: string)
    requires LexLe(a, b) && LexLe(b, a)
    ensures a == b
  {
    if a != "" && b != "" {
      LexAntisymmetric(a[1..], b[1..]);
      assert a == [a[0]] + a[1..] && b == [b[0]] + b[1..];
    }
  }
}
