/**
 * The part of JavaScript's string and number semantics that the routes rely on:
 * truthiness of optional strings, `trim`, `parseInt`, decimal rendering of
 * integers in template literals, `slice`, `indexOf`, `replace` with a string
 * pattern, and `join`, together with `split` as the inverse of `join`.
 *
 * Characters are Unicode scalar values; JavaScript measures strings in UTF-16
 * code units, so lengths agree only on text inside the Basic Multilingual Plane.
 */
module JsText {
  import opened Wrappers

  // ---------------------------------------------------------------------------
  // Truthiness

  /** JavaScript truthiness of an optional string: absent and '' are both falsy. */
  predicate Truthy(x: Option<string>) {
    x.Some? && x.value != ""
  }

  /** `x || fallback` for an optional string. */
  function Or(x: Option<string>, fallback: string): string {
    if Truthy(x) then x.value else fallback
  }

  // ---------------------------------------------------------------------------
  // Whitespace and trim

  /** The characters `String.prototype.trim` removes: WhiteSpace and LineTerminator. */
  predicate IsWhitespace(c: char) {
    || c == ' ' || c == '\t' || c == '\n' || c == '\r'
    || c == '\U{000B}' || c == '\U{000C}' || c == '\U{00A0}' || c == '\U{1680}'
    || ('\U{2000}' <= c <= '\U{200A}')
    || c == '\U{2028}' || c == '\U{2029}' || c == '\U{202F}' || c == '\U{205F}'
    || c == '\U{3000}' || c == '\U{FEFF}'
  }

  /** Drops leading whitespace: the result is the suffix that starts at the first non-blank. */
  function TrimStart(s: string): (r: string)
    ensures |r| <= |s| && r == s[|s| - |r|..]
    ensures forall k | 0 <= k < |s| - |r| :: IsWhitespace(s[k])
    ensures |r| > 0 ==> !IsWhitespace(r[0])
  {
    if |s| > 0 && IsWhitespace(s[0]) then TrimStart(s[1..]) else s
  }

  /** Drops trailing whitespace: the result is the prefix that ends at the last non-blank. */
  function TrimEnd(s: string): (r: string)
    ensures |r| <= |s| && r == s[..|r|]
    ensures forall k | |r| <= k < |s| :: IsWhitespace(s[k])
    ensures |r| > 0 ==> !IsWhitespace(r[|r| - 1])
  {
    if |s| > 0 && IsWhitespace(s[|s| - 1]) then TrimEnd(s[..|s| - 1]) else s
  }

  /** `s.trim()`: a blank-free-at-both-ends piece of `s`, empty exactly when `s` is all blank. */
  function Trim(s: string): (r: string)
    ensures |r| <= |s|
    ensures |r| > 0 ==> !IsWhitespace(r[0]) && !IsWhitespace(r[|r| - 1])
    ensures r == "" <==> forall k | 0 <= k < |s| :: IsWhitespace(s[k])
    ensures exists a :: BlankPadded(s, r, a)
  {
    var t := TrimStart(s);
    var r := TrimEnd(t);
    PaddedInside(s, t, r);
    r
  }

  /** A blank-led suffix `t` of `s`, cut back to a prefix `r` followed by blanks, leaves `r` blank-padded in `s`. */
  lemma PaddedInside(s: string, t: string, r: string)
    requires |t| <= |s| && t == s[|s| - |t|..] && BlankBetween(s, 0, |s| - |t|)
    requires |r| <= |t| && r == t[..|r|] && BlankBetween(t, |r|, |t|)
    ensures BlankPadded(s, r, |s| - |t|)
  {
    var a := |s| - |t|;
    assert r == s[a..a + |r|];
    forall k | a + |r| <= k < |s| ensures IsWhitespace(s[k]) {
      assert s[k] == t[k - a];
    }
  }

  /** `s` is `r` with only blanks before it (the first `a` characters) and after it. */
  predicate BlankPadded(s: string, r: string, a: int) {
    && 0 <= a && a + |r| <= |s|
    && r == s[a..a + |r|]
    && BlankBetween(s, 0, a)
    && BlankBetween(s, a + |r|, |s|)
  }

  /** Every character of `s` from index `lo` up to `hi` is whitespace. */
  predicate BlankBetween(s: string, lo: int, hi: int) {
    forall k | lo <= k < hi && 0 <= k < |s| :: IsWhitespace(s[k])
  }

  /** `trim` undoes blank padding: a text with non-blank ends, padded on both sides, trims back to itself. */
  lemma TrimPadded(p: string, x: string, q: string)
    requires forall k | 0 <= k < |p| :: IsWhitespace(p[k])
    requires forall k | 0 <= k < |q| :: IsWhitespace(q[k])
    requires |x| > 0 && !IsWhitespace(x[0]) && !IsWhitespace(x[|x| - 1])
    ensures Trim(p + x + q) == x
  {
    assert p + x + q == p + (x + q);
    TrimStartSkips(p, x + q);
    TrimEndSkips(x, q);
  }

  lemma {:induction false} TrimStartSkips(p: string, t: string)
    requires forall k | 0 <= k < |p| :: IsWhitespace(p[k])
    requires |t| > 0 && !IsWhitespace(t[0])
    ensures TrimStart(p + t) == t
    decreases |p|
  {
    if |p| == 0 {
      assert p + t == t;
    } else {
      assert (p + t)[1..] == p[1..] + t;
      TrimStartSkips(p[1..], t);
    }
  }

  lemma {:induction false} TrimEndSkips(t: string, q: string)
    requires forall k | 0 <= k < |q| :: IsWhitespace(q[k])
    requires |t| > 0 && !IsWhitespace(t[|t| - 1])
    ensures TrimEnd(t + q) == t
    decreases |q|
  {
    if |q| == 0 {
      assert t + q == t;
    } else {
      var u := t + q;
      assert u[..|u| - 1] == t + q[..|q| - 1];
      TrimEndSkips(t, q[..|q| - 1]);
    }
  }

  // ---------------------------------------------------------------------------
  // Integers in template literals and `parseInt`

  /** The decimal digit character for `d`. */
  function DigitChar(d: nat): (c: char)
    requires d < 10
    ensures '0' <= c <= '9'
  {
    ('0' as int + d) as char
  }

  lemma DigitValueOfDigitChar(d: nat)
    requires d < 10
    ensures IsRadixDigit(DigitChar(d), 10) && DigitValue(DigitChar(d)) == Some(d)
  {
  }

  /** `${n}` for a non-negative integer: decimal digits without leading zeros. */
  function NatToString(n: nat): (r: string)
    ensures |r| >= 1
    ensures forall k | 0 <= k < |r| :: '0' <= r[k] <= '9'
    ensures r[0] == '0' ==> r == "0"
    decreases n
  {
    if n < 10 then [DigitChar(n)] else NatToString(n / 10) + [DigitChar(n % 10)]
  }

  /** The value `parseInt` gives a digit character in radix up to 36. */
  function DigitValue(c: char): Option<nat> {
    if '0' <= c <= '9' then Some(c as nat - '0' as nat)
    else if 'a' <= c <= 'z' then Some(c as nat - 'a' as nat + 10)
    else if 'A' <= c <= 'Z' then Some(c as nat - 'A' as nat + 10)
    else None
  }

  predicate IsRadixDigit(c: char, radix: nat) {
    DigitValue(c).Some? && DigitValue(c).value < radix
  }

  /** Length of the longest prefix of `s` made of digits in `radix`. */
  function DigitRun(s: string, radix: nat): (n: nat)
    ensures n <= |s|
    ensures forall k | 0 <= k < n :: IsRadixDigit(s[k], radix)
    ensures n < |s| ==> !IsRadixDigit(s[n], radix)
  {
    if |s| > 0 && IsRadixDigit(s[0], radix) then 1 + DigitRun(s[1..], radix) else 0
  }

  /** The product of two naturals, with its sign stated for the solver. */
  function MulNat(a: nat, b: nat): (p: nat)
    ensures p == a * b
  {
    a * b
  }

  /** The number a digit string denotes in `radix`, most significant digit first. */
  function DigitsValue(ds: string, radix: nat): nat
    requires forall k | 0 <= k < |ds| :: IsRadixDigit(ds[k], radix)
  {
    if |ds| == 0 then 0
    else
      assert IsRadixDigit(ds[|ds| - 1], radix);
      var high := DigitsValue(ds[..|ds| - 1], radix);
      var shifted: nat := MulNat(high, radix);
      shifted + DigitValue(ds[|ds| - 1]).value
  }

  /**
   * The magnitude part of `parseInt`, after whitespace and sign: an optional
   * `0x`/`0X` prefix selects radix 16, then the longest run of digits is read.
   * `None` stands for `NaN` (no digit at all).
   */
  function ParseMagnitude(u: string): Option<nat> {
    var hex := |u| >= 2 && u[0] == '0' && (u[1] == 'x' || u[1] == 'X');
    var radix := if hex then 16 else 10;
    var body := if hex then u[2..] else u;
    var n := DigitRun(body, radix);
    if n == 0 then None else Some(DigitsValue(body[..n], radix))
  }

  /**
   * `parseInt(s)` with no radix: leading whitespace skipped, one optional sign,
   * then the magnitude. `None` stands for `NaN`; `-0` reads as 0. Blank text
   * is NaN, and so is text whose first non-blank is neither a sign nor a digit.
   */
  function ParseInt(s: string): (r: Option<int>)
    ensures (forall k | 0 <= k < |s| :: IsWhitespace(s[k])) ==> r.None?
    ensures r.Some? ==> var t := TrimStart(s);
      |t| > 0 && (t[0] == '-' || t[0] == '+' || '0' <= t[0] <= '9')
    ensures r.Some? && r.value < 0 ==> |TrimStart(s)| > 0 && TrimStart(s)[0] == '-'
  {
    var t := TrimStart(s);
    var negative := |t| > 0 && t[0] == '-';
    var u := if |t| > 0 && (t[0] == '-' || t[0] == '+') then t[1..] else t;
    MagnitudeStartsWithDigit(u);
    assert |t| > 0 ==> t[0] == s[|s| - |t|];
    match ParseMagnitude(u)
    case None => None
    case Some(v) => Some(if negative then 0 - v as int else v as int)
  }

  /** A magnitude is read only from text that starts with a decimal digit. */
  lemma MagnitudeStartsWithDigit(u: string)
    ensures ParseMagnitude(u).Some? ==> |u| > 0 && '0' <= u[0] <= '9'
  {
    if ParseMagnitude(u).Some? && !(|u| >= 2 && u[0] == '0') {
      assert DigitRun(u, 10) > 0;
      assert IsRadixDigit(u[0], 10);
    }
  }

  lemma {:induction false} DigitsValueOfNatToString(n: nat)
    ensures forall k | 0 <= k < |NatToString(n)| :: IsRadixDigit(NatToString(n)[k], 10)
    ensures DigitsValue(NatToString(n), 10) == n
    decreases n
  {
    var r := NatToString(n);
    NatToStringRadixDigits(n);
    DigitValueOfDigitChar(n % 10);
    if n >= 10 {
      DigitsValueOfNatToString(n / 10);
      assert r[..|r| - 1] == NatToString(n / 10);
    }
  }

  lemma NatToStringRadixDigits(n: nat)
    ensures forall k | 0 <= k < |NatToString(n)| :: IsRadixDigit(NatToString(n)[k], 10)
  {
  }

  lemma ParseMagnitudeOfNatToString(n: nat)
    ensures ParseMagnitude(NatToString(n)) == Some(n)
  {
    var r := NatToString(n);
    DigitsValueOfNatToString(n);
    if |r| >= 2 {
      assert r[1] != 'x' && r[1] != 'X';
    }
    assert DigitRun(r, 10) == |r|;
    assert r[..|r|] == r;
  }

  /** Rendering a number in a template literal and reading it back with `parseInt` is the identity. */
  lemma ParseIntOfNatToString(n: nat)
    ensures ParseInt(NatToString(n)) == Some(n)
  {
    var r := NatToString(n);
    ParseMagnitudeOfNatToString(n);
    ParseIntUnsigned(r);
  }

  /** Any text that is the rendering of `n` reads back as `n`. */
  lemma ParseIntOfNatText(s: string, n: nat)
    requires s == NatToString(n)
    ensures ParseInt(s) == Some(n)
  {
    ParseIntOfNatToString(n);
  }

  /** Text that starts with a digit is read by `parseInt` as its magnitude alone. */
  lemma ParseIntUnsigned(s: string)
    requires |s| > 0 && '0' <= s[0] <= '9'
    ensures ParseInt(s) == if ParseMagnitude(s).Some? then Some(ParseMagnitude(s).value as int) else None
  {
    assert !IsWhitespace(s[0]);
    assert TrimStart(s) == s;
  }

  /** Distinct numbers render to distinct strings. */
  lemma NatToStringInjective(m: nat, n: nat)
    requires NatToString(m) == NatToString(n)
    ensures m == n
  {
    ParseIntOfNatToString(m);
    ParseIntOfNatToString(n);
  }

  // ---------------------------------------------------------------------------
  // slice

  /** How `slice` reads one bound: `NaN` counts as 0, negatives count from the end, then clamp. */
  function RelativeIndex(k: Option<int>, len: nat): (r: nat)
    ensures r <= len
    ensures k.Some? && 0 <= k.value ==> r == if k.value < len then k.value else len
    ensures k.Some? && k.value < 0 ==> r == if len + k.value < 0 then 0 else len + k.value
    ensures k.None? ==> r == 0
  {
    var i := k.GetOr(0);
    if i < 0 then (if len + i < 0 then 0 else len + i) else if i > len then len else i
  }

  /**
   * `s.slice(start, end)` on an array or a string: the contiguous run of `s`
   * between the two resolved bounds, or empty when they cross.
   */
  function Slice<T>(s: seq<T>, start: Option<int>, end: Option<int>): (r: seq<T>)
    ensures |r| == (if RelativeIndex(start, |s|) < RelativeIndex(end, |s|)
                    then RelativeIndex(end, |s|) - RelativeIndex(start, |s|) else 0)
    ensures forall k | 0 <= k < |r| :: r[k] == s[RelativeIndex(start, |s|) + k]
  {
    var from := RelativeIndex(start, |s|);
    var to := RelativeIndex(end, |s|);
    if from < to then s[from..to] else []
  }

  /** `s.slice(0, n)` keeps the first `min(n, |s|)` elements. */
  lemma SlicePrefix<T>(s: seq<T>, n: nat)
    ensures Slice(s, Some(0), Some(n)) == s[..if n < |s| then n else |s|]
  {
  }

  // ---------------------------------------------------------------------------
  // indexOf and replace

  /** `pat` occurs in `s` starting at index `k`. */
  predicate OccursAt(s: string, pat: string, k: int) {
    0 <= k && k + |pat| <= |s| && s[k..k + |pat|] == pat
  }

  /** `s` contains `pat` somewhere. */
  ghost predicate Contains(s: string, pat: string) {
    exists k :: OccursAt(s, pat, k)
  }

  /** The first occurrence of `pat` in `s` at or after `from`. */
  function IndexOfFrom(s: string, pat: string, from: nat): (r: Option<nat>)
    ensures r.Some? ==> from <= r.value && OccursAt(s, pat, r.value)
    ensures r.Some? ==> forall k | from <= k < r.value :: !OccursAt(s, pat, k)
    ensures r.None? ==> forall k | from <= k :: !OccursAt(s, pat, k)
    decreases |s| - from
  {
    if from + |pat| > |s| then None
    else if s[from..from + |pat|] == pat then Some(from)
    else IndexOfFrom(s, pat, from + 1)
  }

  /** `s.indexOf(pat)`, with `None` for -1. */
  function IndexOf(s: string, pat: string): Option<nat> {
    IndexOfFrom(s, pat, 0)
  }

  /** `s.indexOf(c)` for a single character. */
  function IndexOfChar(s: string, c: char): (r: Option<nat>)
    ensures r.Some? ==> r.value < |s| && s[r.value] == c
    ensures r.Some? ==> forall k | 0 <= k < r.value :: s[k] != c
    ensures r.None? ==> forall k | 0 <= k < |s| :: s[k] != c
  {
    if |s| == 0 then None
    else if s[0] == c then Some(0)
    else match IndexOfChar(s[1..], c)
      case None => None
      case Some(k) => Some(k + 1)
  }

  /** `s.lastIndexOf(c)` for a single character. */
  function LastIndexOfChar(s: string, c: char): (r: Option<nat>)
    ensures r.Some? ==> r.value < |s| && s[r.value] == c
    ensures r.Some? ==> forall k | r.value < k < |s| :: s[k] != c
    ensures r.None? ==> forall k | 0 <= k < |s| :: s[k] != c
  {
    if |s| == 0 then None
    else if s[|s| - 1] == c then Some(|s| - 1)
    else LastIndexOfChar(s[..|s| - 1], c)
  }

  /** `s.replace(pat, rep)` with a string pattern: only the first occurrence is replaced. */
  function ReplaceFirst(s: string, pat: string, rep: string): (r: string)
    ensures !Contains(s, pat) ==> r == s
    ensures Contains(s, pat) ==> exists k :: ReplacedFirstAt(s, pat, rep, r, k)
  {
    match IndexOf(s, pat)
    case None => s
    case Some(k) =>
      var r := s[..k] + rep + s[k + |pat|..];
      assert ReplacedFirstAt(s, pat, rep, r, k);
      r
  }

  /** `r` is `s` with the occurrence of `pat` at `k`, the first one, replaced by `rep`. */
  predicate ReplacedFirstAt(s: string, pat: string, rep: string, r: string, k: int) {
    && OccursAt(s, pat, k)
    && (forall j | 0 <= j < k :: !OccursAt(s, pat, j))
    && r == s[..k] + rep + s[k + |pat|..]
  }

  /** Text framed by `a` and `c` starts with `a`, ends with `c`, and keeps what `m` contains. */
  lemma FrameEnds(a: string, m: string, c: string)
    ensures a <= a + m + c
    ensures |c| <= |a + m + c| && (a + m + c)[|a + m + c| - |c|..] == c
  {
  }

  lemma FrameContains(a: string, m: string, c: string, x: string)
    requires Contains(m, x)
    ensures Contains(a + m + c, x)
  {
    var k :| OccursAt(m, x, k);
    assert (a + m + c)[|a| + k..|a| + k + |x|] == m[k..k + |x|];
    assert OccursAt(a + m + c, x, |a| + k);
  }

  lemma ContainsSuffix(a: string, x: string)
    ensures Contains(a + x, x)
  {
    assert (a + x)[|a|..|a| + |x|] == x;
    assert OccursAt(a + x, x, |a|);
  }

  lemma ContainsPrepend(a: string, s: string, x: string)
    requires Contains(s, x)
    ensures Contains(a + s, x)
  {
    var k :| OccursAt(s, x, k);
    assert (a + s)[|a| + k..|a| + k + |x|] == s[k..k + |x|];
    assert OccursAt(a + s, x, |a| + k);
  }

  lemma ContainsExtend(s: string, x: string, b: string)
    requires Contains(s, x)
    ensures Contains(s + b, x)
  {
    var k :| OccursAt(s, x, k);
    assert (s + b)[k..k + |x|] == s[k..k + |x|];
    assert OccursAt(s + b, x, k);
  }

  // ---------------------------------------------------------------------------
  // join and its inverse

  /** `xs.join(sep)`: empty for no pieces, otherwise the first piece comes first. */
  function Join(xs: seq<string>, sep: string): (r: string)
    ensures |xs| == 0 ==> r == ""
    ensures |xs| > 0 ==> xs[0] <= r
    ensures |xs| > 1 ==> xs[0] + sep <= r
  {
    if |xs| == 0 then "" else if |xs| == 1 then xs[0] else xs[0] + sep + Join(xs[1..], sep)
  }

  /** Every piece appears in the joined text. */
  lemma {:induction false} JoinContainsEach(xs: seq<string>, sep: string)
    ensures forall i | 0 <= i < |xs| :: Contains(Join(xs, sep), xs[i])
    decreases |xs|
  {
    if |xs| > 0 {
      assert OccursAt(Join(xs, sep), xs[0], 0);
    }
    if |xs| > 1 {
      var rest := Join(xs[1..], sep);
      JoinContainsEach(xs[1..], sep);
      forall i | 1 <= i < |xs| ensures Contains(Join(xs, sep), xs[i]) {
        assert xs[1..][i - 1] == xs[i];
        ContainsPrepend(xs[0] + sep, rest, xs[i]);
      }
    }
  }

  /** Joining with no separator: one more piece is appended as it is. */
  lemma ConcatSnoc(xs: seq<string>, x: string)
    ensures Join(xs + [x], "") == Join(xs, "") + x
  {
    JoinSnoc(xs, x, "");
    if |xs| == 0 {
      assert Join(xs, "") + x == x;
    } else {
      assert Join(xs, "") + "" + x == Join(xs, "") + x;
    }
  }

  /** Appending one more piece adds one separator and the piece at the end. */
  lemma {:induction false} JoinSnoc(xs: seq<string>, x: string, sep: string)
    ensures Join(xs + [x], sep) == if |xs| == 0 then x else Join(xs, sep) + sep + x
    decreases |xs|
  {
    if |xs| >= 2 {
      JoinSnoc(xs[1..], x, sep);
      assert (xs + [x])[1..] == xs[1..] + [x];
    } else if |xs| == 1 {
      assert (xs + [x])[1..] == [x];
    }
  }

  /** `s.split(sep)` for a non-empty separator: cut at each leftmost occurrence. */
  function Split(s: string, sep: string): (r: seq<string>)
    requires |sep| > 0
    ensures |r| >= 1
    decreases |s|
  {
    match IndexOf(s, sep)
    case None => [s]
    case Some(k) => [s[..k]] + Split(s[k + |sep|..], sep)
  }

  /** No occurrence of `sep` starts inside `x`, even one running on into a following `sep`. */
  predicate SeparatorFree(x: string, sep: string) {
    forall k | 0 <= k < |x| :: !OccursAt(x + sep, sep, k)
  }

  lemma JoinCons(x: string, xs: seq<string>, sep: string)
    requires |xs| >= 1
    ensures Join([x] + xs, sep) == x + sep + Join(xs, sep)
  {
    assert ([x] + xs)[1..] == xs;
  }

  lemma {:induction false} JoinSplit(s: string, sep: string)
    requires |sep| > 0
    ensures Join(Split(s, sep), sep) == s
    decreases |s|
  {
    var idx := IndexOf(s, sep);
    if idx.Some? {
      var k := idx.value;
      var rest := s[k + |sep|..];
      JoinSplit(rest, sep);
      JoinCons(s[..k], Split(rest, sep), sep);
      CutAround(s, sep, k);
    }
  }

  /** Cutting `s` around an occurrence of `sep` and gluing it back gives `s`. */
  lemma CutAround(s: string, sep: string, k: nat)
    requires OccursAt(s, sep, k)
    ensures s == s[..k] + sep + s[k + |sep|..]
  {
    assert s == s[..k] + s[k..k + |sep|] + s[k + |sep|..];
  }

  /** Joining separator-free pieces and splitting again gives back the pieces. */
  lemma {:induction false} SplitJoin(xs: seq<string>, sep: string)
    requires |sep| > 0 && |xs| >= 1
    requires forall i | 0 <= i < |xs| :: SeparatorFree(xs[i], sep)
    ensures Split(Join(xs, sep), sep) == xs
    decreases |xs|
  {
    var x := xs[0];
    if |xs| == 1 {
      assert Join(xs, sep) == x;
      assert SeparatorFree(x, sep);
      forall k | 0 <= k ensures !OccursAt(x, sep, k) {
        if k < |x| && k + |sep| <= |x| {
          assert (x + sep)[k..k + |sep|] == x[k..k + |sep|];
          assert !OccursAt(x + sep, sep, k);
        }
      }
    } else {
      var j := Join(xs[1..], sep);
      var s := x + sep + j;
      assert Join(xs, sep) == s;
      assert OccursAt(s, sep, |x|) by {
        assert s[|x|..|x| + |sep|] == sep;
      }
      forall k | 0 <= k < |x| ensures !OccursAt(s, sep, k) {
        assert s[k..k + |sep|] == (x + sep)[k..k + |sep|];
        assert !OccursAt(x + sep, sep, k);
      }
      assert IndexOf(s, sep) == Some(|x|);
      assert s[..|x|] == x;
      assert s[|x| + |sep|..] == j;
      SplitJoin(xs[1..], sep);
      assert Split(s, sep) == [x] + xs[1..];
    }
  }

  /** For a one-character separator, being separator-free just means not containing it. */
  lemma SeparatorFreeChar(x: string, c: char)
    requires c !in x
    ensures SeparatorFree(x, [c])
  {
    forall k | 0 <= k < |x| ensures !OccursAt(x + [c], [c], k) {
      assert (x + [c])[k] == x[k];
    }
  }
}
