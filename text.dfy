/** Character classes and small string utilities used by the string-processing modules. */
module Text {

  predicate IsDigit(c: char) { '0' <= c <= '9' }

  predicate IsAsciiLetter(c: char) { 'a' <= c <= 'z' || 'A' <= c <= 'Z' }

  /** A character of the class `[A-Za-z0-9_]`. */
  predicate IsWordChar(c: char) { IsAsciiLetter(c) || IsDigit(c) || c == '_' }

  /** A character that may appear in a JavaScript identifier of the ASCII kind: `[A-Za-z0-9_$]`. */
  predicate IsIdentChar(c: char) { IsWordChar(c) || c == '$' }

  /** `p` occurs in `s` starting at index `i`. */
  predicate StartsWithAt(s: string, i: nat, p: string) {
    i + |p| <= |s| && s[i..i + |p|] == p
  }

  /** `p` occurs somewhere in `s` (JavaScript's `s.includes(p)`). */
  ghost predicate Occurs(p: string, s: string) {
    exists i: nat :: StartsWithAt(s, i, p)
  }

  /** Executable substring test: scans `s` from index `i` for an occurrence of `p`. */
  function ContainsFrom(s: string, p: string, i: nat): (r: bool)
    requires i <= |s|
    ensures r <==> exists k: nat :: i <= k && StartsWithAt(s, k, p)
    decreases |s| - i
  {
    if i + |p| > |s| then false
    else if StartsWithAt(s, i, p) then true
    else
      var r := ContainsFrom(s, p, i + 1);
      assert forall k: nat :: i <= k && StartsWithAt(s, k, p) ==> k == i || i + 1 <= k;
      r
  }

  function Contains(s: string, p: string): (r: bool)
    ensures r <==> Occurs(p, s)
  {
    ContainsFrom(s, p, 0)
  }

  /** Characters that JavaScript's `String.prototype.trim` removes: white space and line
      terminators of ECMAScript. */
  predicate IsWhitespace(c: char) {
    c == ' ' || c == '\t' || c == '\n' || c == '\r' || c == '\U{000B}' || c == '\U{000C}'
    || c == '\U{00A0}' || c == '\U{1680}' || '\U{2000}' <= c <= '\U{200A}'
    || c == '\U{2028}' || c == '\U{2029}' || c == '\U{202F}' || c == '\U{205F}'
    || c == '\U{3000}' || c == '\U{FEFF}'
  }

  function TrimStart(s: string): (r: string)
    ensures |r| <= |s| && r == s[|s| - |r|..]
    ensures r == [] || !IsWhitespace(r[0])
    ensures forall k :: 0 <= k < |s| - |r| ==> IsWhitespace(s[k])
  {
    if s != [] && IsWhitespace(s[0]) then TrimStart(s[1..]) else s
  }

  function TrimEnd(s: string): (r: string)
    ensures |r| <= |s| && r == s[..|r|]
    ensures r == [] || !IsWhitespace(r[|r| - 1])
    ensures forall k :: |r| <= k < |s| ==> IsWhitespace(s[k])
  {
    if s != [] && IsWhitespace(s[|s| - 1]) then TrimEnd(s[..|s| - 1]) else s
  }

  /** JavaScript's `s.trim()`. */
  function Trim(s: string): (r: string)
  {
    TrimEnd(TrimStart(s))
  }

  /** Trimming keeps a contiguous slice of the input, drops only whitespace on either side, and
      leaves no whitespace at either end of the result. */
  lemma TrimSlice(s: string) returns (a: nat, b: nat)
    ensures a <= b <= |s| && Trim(s) == s[a..b]
    ensures forall k :: 0 <= k < a ==> IsWhitespace(s[k])
    ensures forall k :: b <= k < |s| ==> IsWhitespace(s[k])
    ensures Trim(s) == [] || (!IsWhitespace(Trim(s)[0]) && !IsWhitespace(Trim(s)[|Trim(s)| - 1]))
  {
    var t := TrimStart(s);
    var u := TrimEnd(t);
    a := |s| - |t|;
    b := a + |u|;
    PrefixOfSuffix(s, t, u, a, IsWhitespace);
  }

  /** A prefix `u` of a suffix `t` of `s` is a slice of `s`, and what `P` holds of past `u` in
      `t` it holds of past that slice in `s`. */
  lemma PrefixOfSuffix<T>(s: seq<T>, t: seq<T>, u: seq<T>, a: nat, P: T -> bool)
    requires a <= |s| && t == s[a..] && |u| <= |t| && u == t[..|u|]
    requires forall k :: |u| <= k < |t| ==> P(t[k])
    ensures u == s[a..a + |u|]
    ensures forall k :: a + |u| <= k < |s| ==> P(s[k])
  {
    forall k | a + |u| <= k < |s| ensures P(s[k]) {
      assert s[k] == t[k - a];
    }
  }

  /** Trimming twice is trimming once. */
  lemma TrimIdempotent(s: string)
    ensures Trim(Trim(s)) == Trim(s)
  {
    var a, b := TrimSlice(s);
    var t := Trim(s);
    if t != [] {
      assert TrimStart(t) == t;
      assert TrimEnd(t) == t;
    }
  }

  /** The decimal digit for `d < 10`. */
  function DigitChar(d: nat): (c: char)
    requires d < 10
    ensures IsDigit(c)
  {
    ['0', '1', '2', '3', '4', '5', '6', '7', '8', '9'][d]
  }

  function DigitValue(c: char): (d: nat)
    requires IsDigit(c)
    ensures d < 10 && DigitChar(d) == c
  {
    (c as int - '0' as int) as nat
  }

  /** The decimal spelling of `n` without leading zeros, as JavaScript's `String(n)` gives it. */
  function NatToDecimal(n: nat): (r: string)
    ensures |r| > 0 && forall k :: 0 <= k < |r| ==> IsDigit(r[k])
    decreases n
  {
    if n < 10 then [DigitChar(n)] else NatToDecimal(n / 10) + [DigitChar(n % 10)]
  }

  /** The value of a string of decimal digits. */
  function DecimalValue(s: string): nat
    requires forall k :: 0 <= k < |s| ==> IsDigit(s[k])
  {
    if s == [] then 0 else 10 * DecimalValue(s[..|s| - 1]) + DigitValue(s[|s| - 1])
  }

  /** Reading back the decimal spelling gives the number: the spelling is a round trip. */
  lemma {:induction false} DecimalRoundTrip(n: nat)
    ensures DecimalValue(NatToDecimal(n)) == n
    decreases n
  {
    var r := NatToDecimal(n);
    if n >= 10 {
      DecimalRoundTrip(n / 10);
      assert r[..|r| - 1] == NatToDecimal(n / 10);
    }
  }

  /** Distinct numbers have distinct decimal spellings. */
  lemma DecimalInjective(m: nat, n: nat)
    requires NatToDecimal(m) == NatToDecimal(n)
    ensures m == n
  {
    DecimalRoundTrip(m);
    DecimalRoundTrip(n);
  }

  // Sequence identities, kept apart from the recursive functions that use them so that proving
  // them does not unfold those functions

  lemma HeadThenTail<T>(t: seq<T>, u: seq<T>)
    requires t != []
    ensures [t[0]] + (t[1..] + u) == t + u
  {
    assert [t[0]] + t[1..] == t;
  }

  lemma FirstThenRest<T>(s: seq<T>)
    requires s != []
    ensures [s[0]] + s[1..] == s
  {
  }

  lemma ElementThenRest<T>(s: seq<T>, i: nat)
    requires i < |s|
    ensures [s[i]] + s[i + 1..] == s[i..]
  {
  }

  lemma SliceThenRest<T>(s: seq<T>, i: nat, j: nat)
    requires i <= j <= |s|
    ensures s[i..j] + s[j..] == s[i..]
  {
  }

  lemma PrefixRejoin<T>(e: seq<T>, i: nat, j: nat, k: nat)
    requires i <= j <= k <= |e|
    ensures e[..i] + e[i..j] + e[j..k] == e[..k]
  {
  }

  /** Replacing the middle of `a + x + c + rest` by `y`, where `c` is `q + close`. */
  lemma Splice<T>(a: seq<T>, x: seq<T>, q: seq<T>, close: seq<T>, rest: seq<T>, y: seq<T>, tail: seq<T>)
    ensures var s := a + x + q + close + rest;
      var b := |a| + |x|;
      var end := b + |q| + |close|;
      end <= |s| && s[..|a|] + y + s[b..end] + tail == a + y + q + close + tail && s[end..] == rest
  {
    var s := a + x + q + close + rest;
    var b := |a| + |x|;
    var end := b + |q| + |close|;
    assert s[..|a|] == a;
    assert s[b..end] == q + close;
    assert s[end..] == rest;
  }

  /** The segments joined with `sep` between consecutive ones (JavaScript's `segs.join(sep)`). */
  function Join(segs: seq<string>, sep: string): (r: string)
    ensures segs == [] ==> r == []
    ensures |segs| == 1 ==> r == segs[0]
  {
    if segs == [] then []
    else if |segs| == 1 then segs[0]
    else segs[0] + sep + Join(segs[1..], sep)
  }
}
