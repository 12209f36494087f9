/** The JavaScript string operations the sign-up screen and the stores rely on:
    `trim`, `toLowerCase`, `includes`, counting a character, `indexOf` and the
    last piece of `split`. */
module Strings {

  /** The characters `String.prototype.trim` strips: the ECMAScript WhiteSpace
      and LineTerminator code points. */
  predicate IsWhitespace(c: char) {
    c == ' ' || c == '\t' || c == '\n' || c == '\r' || c == '\U{000B}' || c == '\U{000C}'
    || c == '\U{00A0}' || c == '\U{1680}' || ('\U{2000}' <= c <= '\U{200A}')
    || c == '\U{2028}' || c == '\U{2029}' || c == '\U{202F}' || c == '\U{205F}'
    || c == '\U{3000}' || c == '\U{FEFF}'
  }

  /** The first position at or after `i` that does not hold whitespace. */
  function SkipSpace(s: string, i: nat): (n: nat)
    requires i <= |s|
    ensures i <= n <= |s|
    ensures forall k :: i <= k < n ==> IsWhitespace(s[k])
    ensures n < |s| ==> !IsWhitespace(s[n])
    decreases |s| - i
  {
    if i < |s| && IsWhitespace(s[i]) then SkipSpace(s, i + 1) else i
  }

  /** The start of the run of whitespace that ends at position `j`. */
  function SkipSpaceBack(s: string, j: nat): (m: nat)
    requires j <= |s|
    ensures m <= j
    ensures forall k :: m <= k < j ==> IsWhitespace(s[k])
    ensures 0 < m ==> !IsWhitespace(s[m - 1])
  {
    if 0 < j && IsWhitespace(s[j - 1]) then SkipSpaceBack(s, j - 1) else j
  }

  /** The number of whitespace characters `s` starts with. */
  function LeadingSpace(s: string): (n: nat)
    ensures n <= |s|
    ensures forall k :: 0 <= k < n ==> IsWhitespace(s[k])
    ensures n < |s| ==> !IsWhitespace(s[n])
  {
    SkipSpace(s, 0)
  }

  /** Where the whitespace `s` ends with begins. */
  function TrailingSpace(s: string): (m: nat)
    ensures m <= |s|
    ensures forall k :: m <= k < |s| ==> IsWhitespace(s[k])
    ensures 0 < m ==> !IsWhitespace(s[m - 1])
  {
    SkipSpaceBack(s, |s|)
  }

  /** The leading whitespace is the run of whitespace before the first other character. */
  lemma LeadingSpaceIs(s: string, n: nat)
    requires n <= |s| && (n < |s| ==> !IsWhitespace(s[n]))
    requires forall k :: 0 <= k < n ==> IsWhitespace(s[k])
    ensures LeadingSpace(s) == n
  {
  }

  /** The trailing whitespace is the run of whitespace after the last other character. */
  lemma TrailingSpaceIs(s: string, m: nat)
    requires m <= |s| && (0 < m ==> !IsWhitespace(s[m - 1]))
    requires forall k :: m <= k < |s| ==> IsWhitespace(s[k])
    ensures TrailingSpace(s) == m
  {
  }

  /** Every character of `s` is whitespace. */
  predicate AllWhitespace(s: string) {
    forall k :: 0 <= k < |s| ==> IsWhitespace(s[k])
  }

  /** `String.prototype.trim`: `s` without its leading and trailing whitespace. */
  function Trim(s: string): (r: string)
    ensures |r| <= |s|
    ensures r != [] ==> !IsWhitespace(r[0]) && !IsWhitespace(r[|r| - 1])
    ensures r == [] <==> AllWhitespace(s)
    ensures exists a, b :: 0 <= a <= b <= |s| && r == s[a..b]
                           && (forall k :: 0 <= k < a ==> IsWhitespace(s[k]))
                           && (forall k :: b <= k < |s| ==> IsWhitespace(s[k]))
  {
    var n := LeadingSpace(s);
    if n == |s| then
      assert s[|s|..|s|] == [];
      []
    else
      s[n..TrailingSpace(s)]
  }

  /** Trimming twice is trimming once. */
  lemma TrimIdempotent(s: string)
    ensures Trim(Trim(s)) == Trim(s)
  {
    var t := Trim(s);
    if t != [] {
      assert LeadingSpace(t) == 0;
      assert TrailingSpace(t) == |t|;
      assert t[0..|t|] == t;
    }
  }

  /** A concatenation is all whitespace exactly when both parts are. */
  lemma AllWhitespaceConcat(a: string, b: string)
    ensures AllWhitespace(a + b) <==> AllWhitespace(a) && AllWhitespace(b)
  {
    assert forall k :: 0 <= k < |a| ==> (a + b)[k] == a[k];
    assert forall k :: 0 <= k < |b| ==> (a + b)[|a| + k] == b[k];
  }

  /** Leading whitespace put in front adds to the leading whitespace. */
  lemma LeadingSpaceAfterSpace(w: string, x: string)
    requires AllWhitespace(w)
    ensures LeadingSpace(w + x) == |w| + LeadingSpace(x)
  {
    var y, n := w + x, LeadingSpace(x);
    forall k | 0 <= k < |w| + n ensures IsWhitespace(y[k]) {
      if k < |w| {
        assert y[k] == w[k];
      } else {
        assert y[k] == x[k - |w|];
      }
    }
    if n < |x| {
      assert y[|w| + n] == x[n];
    }
    LeadingSpaceIs(y, |w| + n);
  }

  /** Anything after a non-whitespace character leaves the leading whitespace alone. */
  lemma LeadingSpaceBeforeAnything(x: string, w: string)
    requires !AllWhitespace(x)
    ensures LeadingSpace(x + w) == LeadingSpace(x)
  {
    var y, n := x + w, LeadingSpace(x);
    var k :| 0 <= k < |x| && !IsWhitespace(x[k]);
    assert n <= k;
    assert forall i :: 0 <= i < |x| ==> y[i] == x[i];
    LeadingSpaceIs(y, n);
  }

  /** Trailing whitespace put after a string does not move where its own trailing whitespace starts. */
  lemma TrailingSpaceBeforeSpace(x: string, w: string)
    requires AllWhitespace(w)
    ensures TrailingSpace(x + w) == TrailingSpace(x)
  {
    var y, m := x + w, TrailingSpace(x);
    forall k | m <= k < |y| ensures IsWhitespace(y[k]) {
      if k < |x| {
        assert y[k] == x[k];
      } else {
        assert y[k] == w[k - |x|];
      }
    }
    if 0 < m {
      assert y[m - 1] == x[m - 1];
    }
    TrailingSpaceIs(y, m);
  }

  /** Whitespace in front of a string with a non-whitespace character shifts
      where its trailing whitespace starts. */
  lemma TrailingSpaceAfterSpace(w: string, x: string)
    requires !AllWhitespace(x)
    ensures TrailingSpace(w + x) == |w| + TrailingSpace(x)
  {
    var y, m := w + x, TrailingSpace(x);
    var k :| 0 <= k < |x| && !IsWhitespace(x[k]);
    assert k < m;
    assert forall i :: 0 <= i < |x| ==> y[|w| + i] == x[i];
    assert y[|w| + m - 1] == x[m - 1];
    TrailingSpaceIs(y, |w| + m);
  }

  /** A string with a non-whitespace character is trimmed to what lies between
      its leading and its trailing whitespace. */
  lemma TrimBetween(s: string, a: nat, b: nat, t: string)
    requires LeadingSpace(s) == a < |s| && TrailingSpace(s) == b
    requires a <= b && s[a..b] == t
    ensures Trim(s) == t
  {
  }

  /** The stretch of `x` between `n` and `m` is the same stretch of `w + x`, shifted. */
  lemma SliceAfterPrefix(w: string, x: string, n: nat, m: nat)
    requires n <= m <= |x|
    ensures (w + x)[|w| + n..|w| + m] == x[n..m]
  {
    assert forall k :: 0 <= k < m - n ==> (w + x)[|w| + n..|w| + m][k] == x[n..m][k];
  }

  /** The stretch of `x` between `n` and `m` is the same stretch of `x + w`. */
  lemma SliceBeforeSuffix(x: string, w: string, n: nat, m: nat)
    requires n <= m <= |x|
    ensures (x + w)[n..m] == x[n..m]
  {
    assert forall k :: 0 <= k < m - n ==> (x + w)[n..m][k] == x[n..m][k];
  }

  /** Whitespace in front of a string is removed by `trim`. */
  lemma TrimDropsLeadingSpace(w: string, x: string)
    requires AllWhitespace(w)
    ensures Trim(w + x) == Trim(x)
  {
    AllWhitespaceConcat(w, x);
    if !AllWhitespace(x) {
      var k :| 0 <= k < |x| && !IsWhitespace(x[k]);
      var n, m := LeadingSpace(x), TrailingSpace(x);
      assert n <= k;
      LeadingSpaceAfterSpace(w, x);
      TrailingSpaceAfterSpace(w, x);
      SliceAfterPrefix(w, x, n, m);
      TrimBetween(w + x, |w| + n, |w| + m, x[n..m]);
      TrimBetween(x, n, m, x[n..m]);
    } else {
      assert Trim(w + x) == [] && Trim(x) == [];
    }
  }

  /** Whitespace after a string is removed by `trim`. */
  lemma TrimDropsTrailingSpace(x: string, w: string)
    requires AllWhitespace(w)
    ensures Trim(x + w) == Trim(x)
  {
    AllWhitespaceConcat(x, w);
    if !AllWhitespace(x) {
      var k :| 0 <= k < |x| && !IsWhitespace(x[k]);
      var n, m := LeadingSpace(x), TrailingSpace(x);
      assert n <= k;
      LeadingSpaceBeforeAnything(x, w);
      TrailingSpaceBeforeSpace(x, w);
      SliceBeforeSuffix(x, w, n, m);
      TrimBetween(x + w, n, m, x[n..m]);
      TrimBetween(x, n, m, x[n..m]);
    } else {
      assert Trim(x + w) == [] && Trim(x) == [];
    }
  }

  /** Whitespace around a string is exactly what `trim` removes. */
  lemma TrimDropsSurroundingSpace(w1: string, x: string, w2: string)
    requires AllWhitespace(w1) && AllWhitespace(w2)
    ensures Trim(w1 + x + w2) == Trim(x)
  {
    assert w1 + x + w2 == w1 + (x + w2);
    TrimDropsLeadingSpace(w1, x + w2);
    TrimDropsTrailingSpace(x, w2);
  }

  /** `toLowerCase` on one character, for the ASCII letters. */
  function LowerChar(c: char): (r: char)
    ensures r == c <==> !('A' <= c <= 'Z')
    ensures 'A' <= c <= 'Z' ==> 'a' <= r <= 'z'
  {
    if 'A' <= c <= 'Z' then (c as int - 'A' as int + 'a' as int) as char else c
  }

  /** `String.prototype.toLowerCase`, for the ASCII letters. */
  function ToLower(s: string): (r: string)
    ensures |r| == |s|
    ensures forall k :: 0 <= k < |s| ==> r[k] == LowerChar(s[k])
  {
    seq(|s|, k requires 0 <= k < |s| => LowerChar(s[k]))
  }

  /** Lower-casing is character by character, so it distributes over concatenation. */
  lemma ToLowerConcat(a: string, b: string)
    ensures ToLower(a + b) == ToLower(a) + ToLower(b)
  {
  }

  /** Lower-casing a lower-cased string changes nothing. */
  lemma ToLowerIdempotent(s: string)
    ensures ToLower(ToLower(s)) == s <==> ToLower(s) == s
    ensures ToLower(ToLower(s)) == ToLower(s)
  {
  }

  /** Trimming a lower-cased string leaves it lower-cased. */
  lemma TrimKeepsLower(s: string)
    requires ToLower(s) == s
    ensures ToLower(Trim(s)) == Trim(s)
  {
    var t := Trim(s);
    var a, b :| 0 <= a <= b <= |s| && t == s[a..b];
    forall k | 0 <= k < |t| ensures ToLower(t)[k] == t[k] {
      assert t[k] == s[a + k] && ToLower(s)[a + k] == LowerChar(s[a + k]);
    }
  }

  /** Lower-casing does not move whitespace, so it commutes with `trim`. */
  lemma LowerKeepsWhitespace(c: char)
    ensures IsWhitespace(LowerChar(c)) <==> IsWhitespace(c)
  {
  }

  predicate AsciiLetter(c: char) {
    'a' <= c <= 'z' || 'A' <= c <= 'Z'
  }

  predicate AsciiDigit(c: char) {
    '0' <= c <= '9'
  }

  /** `sub` occurs in `s` starting at position `i`. */
  predicate OccursAt(s: string, sub: string, i: nat) {
    i + |sub| <= |s| && s[i..i + |sub|] == sub
  }

  /** `String.prototype.includes(sub)`. */
  predicate Includes(s: string, sub: string)
    ensures Includes(s, sub) ==> |sub| <= |s|
  {
    exists i: nat :: i <= |s| && OccursAt(s, sub, i)
  }

  /** Every string includes the empty string. */
  lemma IncludesEmpty(s: string)
    ensures Includes(s, "")
  {
    assert OccursAt(s, "", 0);
  }

  /** The number of occurrences of `c` in `s` (`(s.match(/c/g) || []).length`). */
  function CountChar(s: string, c: char): (n: nat)
    ensures n == multiset(s)[c]
    ensures n <= |s|
    ensures n == 0 <==> c !in s
  {
    if s == [] then 0
    else
      assert s == [s[0]] + s[1..];
      (if s[0] == c then 1 else 0) + CountChar(s[1..], c)
  }

  /** Counting is additive over concatenation. */
  lemma {:induction false} CountCharConcat(a: string, b: string, c: char)
    ensures CountChar(a + b, c) == CountChar(a, c) + CountChar(b, c)
  {
    if a == [] {
      assert a + b == b;
    } else {
      assert (a + b)[1..] == a[1..] + b;
      CountCharConcat(a[1..], b, c);
    }
  }

  /** A character that occurs at `p` and nowhere else is counted once. */
  lemma CountCharOnce(s: string, c: char, p: nat)
    requires p < |s| && s[p] == c
    requires forall k :: 0 <= k < |s| && k != p ==> s[k] != c
    ensures CountChar(s, c) == 1
  {
    assert s == s[..p] + [c] + s[p + 1..];
    CountCharConcat(s[..p] + [c], s[p + 1..], c);
    CountCharConcat(s[..p], [c], c);
    assert c !in s[..p];
    assert c !in s[p + 1..];
  }

  /** `String.prototype.indexOf(c)`, with `|s|` in place of -1. */
  function IndexOf(s: string, c: char): (i: nat)
    ensures i <= |s|
    ensures i < |s| <==> c in s
    ensures i < |s| ==> s[i] == c
    ensures c !in s[..i]
  {
    if s == [] then 0
    else if s[0] == c then 0
    else
      var i := 1 + IndexOf(s[1..], c);
      assert s[..i] == [s[0]] + s[1..][..i - 1];
      i
  }

  /** The last piece of `s.split(sep)`: the longest suffix of `s` free of `sep`. */
  function LastPiece(s: string, sep: char): (r: string)
    ensures |r| <= |s| && r == s[|s| - |r|..]
    ensures sep !in r
    ensures |r| < |s| ==> s[|s| - |r| - 1] == sep
  {
    if s == [] || s[|s| - 1] == sep then []
    else LastPiece(s[..|s| - 1], sep) + [s[|s| - 1]]
  }

  /** When `sep` occurs at `p` and not after it, the last piece is what follows `p`. */
  lemma LastPieceAfter(s: string, sep: char, p: nat)
    requires p < |s| && s[p] == sep
    requires forall k :: p < k < |s| ==> s[k] != sep
    ensures LastPiece(s, sep) == s[p + 1..]
  {
  }
}
