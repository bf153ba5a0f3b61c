/** The three escaping helpers of the node-reference utilities: the dot-notation test for a
    node name, the escaping of a name for use as a literal inside a regular expression, and the
    escaping of a name for use inside a replacement string. */
module ReferenceEscape {
  import opened Wrappers
  import opened Text

  /** Some index at or after `i` holds a character outside `[A-Za-z0-9_]`. */
  function NonWordFrom(s: string, i: nat): (r: bool)
    requires i <= |s|
    ensures r <==> exists k :: i <= k < |s| && !IsWordChar(s[k])
    decreases |s| - i
  {
    if i == |s| then false else !IsWordChar(s[i]) || NonWordFrom(s, i + 1)
  }

  /** The name cannot follow `$node.` as a bare property name: it starts with a digit or holds a
      character outside `[A-Za-z0-9_]`. */
  function HasDotNotationBannedChar(name: string): (r: bool)
    ensures r <==> (|name| > 0 && IsDigit(name[0])) || exists k :: 0 <= k < |name| && !IsWordChar(name[k])
    ensures !r ==> forall k :: 0 <= k < |name| ==> IsIdentChar(name[k])
  {
    |name| > 0 && (IsDigit(name[0]) || NonWordFrom(name, 0))
  }

  /** The characters that carry a meaning of their own in a JavaScript regular expression. */
  predicate IsRegexMeta(c: char) {
    c == '.' || c == '*' || c == '+' || c == '?' || c == '^' || c == '$' || c == '{' || c == '}'
    || c == '(' || c == ')' || c == '|' || c == '[' || c == ']' || c == '\\'
  }

  function MetaCount(s: string): nat {
    if s == [] then 0 else (if IsRegexMeta(s[0]) then 1 else 0) + MetaCount(s[1..])
  }

  /** `backslashEscape`: a backslash before every regular-expression metacharacter. */
  function BackslashEscape(s: string): (r: string)
    ensures |r| == |s| + MetaCount(s)
  {
    if s == [] then []
    else (if IsRegexMeta(s[0]) then ['\\', s[0]] else [s[0]]) + BackslashEscape(s[1..])
  }

  /** The string that a regular expression matches when it is made only of plain characters and
      escaped metacharacters; `None` when it holds an operator (an unescaped metacharacter) or an
      escape that is not a literal one (such as `\d`). */
  function LiteralPatternText(p: string): Option<string> {
    if p == [] then Some([])
    else if p[0] == '\\' then
      if |p| >= 2 && IsRegexMeta(p[1]) then
        match LiteralPatternText(p[2..])
        case Some(t) => Some([p[1]] + t)
        case None => None
      else None
    else if IsRegexMeta(p[0]) then None
    else
      match LiteralPatternText(p[1..])
      case Some(t) => Some([p[0]] + t)
      case None => None
  }

  /** An escaped name, read as a regular expression, matches exactly the original name and
      nothing else. */
  lemma {:induction false} BackslashEscapeIsLiteral(s: string)
    ensures LiteralPatternText(BackslashEscape(s)) == Some(s)
  {
    if s != [] {
      BackslashEscapeIsLiteral(s[1..]);
      var r := BackslashEscape(s);
      assert [s[0]] + s[1..] == s;
      if IsRegexMeta(s[0]) {
        assert r[2..] == BackslashEscape(s[1..]);
      } else {
        assert r[0] == s[0] && r[1..] == BackslashEscape(s[1..]);
      }
    }
  }

  /** A name without metacharacters is left as it is. */
  lemma {:induction false} BackslashEscapeIdentity(s: string)
    requires forall k :: 0 <= k < |s| ==> !IsRegexMeta(s[k])
    ensures BackslashEscape(s) == s
  {
    if s != [] {
      BackslashEscapeIdentity(s[1..]);
    }
  }

  /** Escaping works character by character, so it distributes over concatenation. */
  lemma {:induction false} BackslashEscapeConcat(a: string, b: string)
    ensures BackslashEscape(a + b) == BackslashEscape(a) + BackslashEscape(b)
  {
    if a == [] {
      assert a + b == b;
    } else {
      assert (a + b)[0] == a[0] && (a + b)[1..] == a[1..] + b;
      BackslashEscapeConcat(a[1..], b);
    }
  }

  function DollarCount(s: string): nat {
    if s == [] then 0 else (if s[0] == '$' then 1 else 0) + DollarCount(s[1..])
  }

  /** `dollarEscape`: every `$` doubled. */
  function DollarEscape(s: string): (r: string)
    ensures |r| == |s| + DollarCount(s)
  {
    if s == [] then [] else (if s[0] == '$' then "$$" else [s[0]]) + DollarEscape(s[1..])
  }

  /** A character that gives `$` a special meaning in a JavaScript replacement string
      (`$&`, `` $` ``, `$'`, `$<name>`, `$1`). */
  predicate IsReplacementSpecial(c: char) {
    c == '&' || c == '`' || c == '\'' || c == '<' || IsDigit(c)
  }

  /** The text a JavaScript replacement string inserts when it holds no capture-group reference:
      `$$` inserts one `$`, a `$` before any other character or at the end stands for itself;
      `None` when the string refers to the match or to a group. */
  function ReplacementText(p: string): Option<string> {
    if p == [] then Some([])
    else if p[0] == '$' && |p| >= 2 && p[1] == '$' then
      match ReplacementText(p[2..])
      case Some(t) => Some("$" + t)
      case None => None
    else if p[0] == '$' && |p| >= 2 && IsReplacementSpecial(p[1]) then None
    else
      match ReplacementText(p[1..])
      case Some(t) => Some([p[0]] + t)
      case None => None
  }

  /** An escaped name used as a replacement string inserts exactly the original name. */
  lemma {:induction false} DollarEscapeIsLiteral(s: string)
    ensures ReplacementText(DollarEscape(s)) == Some(s)
  {
    if s != [] {
      DollarEscapeIsLiteral(s[1..]);
      var r := DollarEscape(s);
      assert [s[0]] + s[1..] == s;
      if s[0] == '$' {
        assert r[2..] == DollarEscape(s[1..]);
      } else {
        assert r[0] == s[0] && r[1..] == DollarEscape(s[1..]);
      }
    }
  }

  /** A name without `$` is left as it is. */
  lemma {:induction false} DollarEscapeIdentity(s: string)
    requires forall k :: 0 <= k < |s| ==> s[k] != '$'
    ensures DollarEscape(s) == s
  {
    if s != [] {
      DollarEscapeIdentity(s[1..]);
    }
  }

  lemma {:induction false} DollarEscapeConcat(a: string, b: string)
    ensures DollarEscape(a + b) == DollarEscape(a) + DollarEscape(b)
  {
    if a == [] {
      assert a + b == b;
    } else {
      assert (a + b)[0] == a[0] && (a + b)[1..] == a[1..] + b;
      DollarEscapeConcat(a[1..], b);
    }
  }

  /** The vectors of the unit tests of `hasDotNotationBannedChar`. */
  lemma DotNotationVectors()
    ensures HasDotNotationBannedChar("1abc") && HasDotNotationBannedChar("abc!")
    ensures HasDotNotationBannedChar("abc@")
    ensures !HasDotNotationBannedChar("abc") && !HasDotNotationBannedChar("validName")
  {
    assert !IsWordChar("abc!"[3]);
    assert !IsWordChar("abc@"[3]);
  }

  /** The vectors of the unit tests of `backslashEscape`, each written as the concatenation of
      its plain runs and its metacharacters. */
  lemma BackslashEscapeVectors()
    ensures BackslashEscape("abc" + "." + "def") == "abc" + "\\." + "def"
    ensures BackslashEscape("[" + "abc" + "]") == "\\[" + "abc" + "\\]"
    ensures BackslashEscape("a" + "+" + "b") == "a" + "\\+" + "b"
    ensures BackslashEscape("abc") == "abc"
  {
    EscapeOneMeta("abc", '.', "def");
    EscapeOneMeta("a", '+', "b");
    EscapeOneMeta([], '[', "abc" + "]");
    assert [] + "[" + ("abc" + "]") == "[" + "abc" + "]";
    EscapeOneMeta("abc", ']', []);
    assert "abc" + "]" + [] == "abc" + "]";
  }

  /** Escaping a metacharacter between two plain runs. */
  lemma EscapeOneMeta(a: string, c: char, b: string)
    requires forall k :: 0 <= k < |a| ==> !IsRegexMeta(a[k])
    requires IsRegexMeta(c)
    ensures BackslashEscape(a + [c] + b) == a + ['\\', c] + BackslashEscape(b)
  {
    BackslashEscapeConcat(a + [c], b);
    BackslashEscapeConcat(a, [c]);
    BackslashEscapeIdentity(a);
  }

  /** The vectors of the unit tests of `dollarEscape`, each written as the concatenation of its
      `$` signs and the text after them. */
  lemma DollarEscapeVectors()
    ensures DollarEscape("$" + "abc") == "$$" + "abc"
    ensures DollarEscape("abc" + "$") == "abc" + "$$"
    ensures DollarEscape(("$" + "a") + ("$" + "b") + ("$" + "c")) == ("$$" + "a") + ("$$" + "b") + ("$$" + "c")
    ensures DollarEscape("abc") == "abc"
  {
    DollarThenText("abc");
    DollarEscapeConcat("abc", "$");
    DollarEscapeIdentity("abc");
    DollarThenText("a");
    DollarThenText("b");
    DollarThenText("c");
    DollarEscapeConcat(("$" + "a") + ("$" + "b"), "$" + "c");
    DollarEscapeConcat("$" + "a", "$" + "b");
  }

  /** A `$` followed by text without `$`. */
  lemma DollarThenText(t: string)
    requires forall k :: 0 <= k < |t| ==> t[k] != '$'
    ensures DollarEscape("$" + t) == "$$" + t
  {
    DollarEscapeConcat("$", t);
    DollarEscapeIdentity(t);
  }
}
