/** `applyAccessPatterns`: renaming every reference to one node inside an expression text.

    The four reference forms are recognised by explicit scanning, one case per form:
      1. `$node[` q NAME q `]`
      2. `$node.` NAME, only for a NAME that dot notation admits, ending where the identifier ends
      3. `$items(` q NAME q `,`
      4. `$(` q NAME q `)`
    where each q is a quote `"` or `'`, optionally preceded by a backslash (an expression that sits
    inside a string literal escapes its quotes). */
module AccessPatterns {
  import opened Wrappers
  import opened Text
  import opened ReferenceEscape

  predicate IsQuoteChar(c: char) { c == '"' || c == '\'' }

  /** The length of the quote at index `i`: 1 for a bare quote, 2 for a backslash-escaped one,
      0 when there is none. */
  function QuoteLenAt(s: string, i: nat): (n: nat)
    ensures n <= 2 && (n > 0 ==> i + n <= |s|)
  {
    if i < |s| && IsQuoteChar(s[i]) then 1
    else if i + 1 < |s| && s[i] == '\\' && IsQuoteChar(s[i + 1]) then 2
    else 0
  }

  /** The quotes that delimit a name literal: `"`, `'`, `\"` or `\'`. */
  predicate IsQuote(q: string) {
    (|q| == 1 && IsQuoteChar(q[0])) || (|q| == 2 && q[0] == '\\' && IsQuoteChar(q[1]))
  }

  datatype Form = NodeBracket | NodeDot | Items | Call
  /** A reference at the start of the text: which form, where the name literal starts and ends,
      and where the matched text ends. */
  datatype Match = Match(form: Form, nameStart: nat, nameEnd: nat, end: nat)

  /** A quoted-name form whose opening ends at index `a0`: q NAME q `closing`. */
  function QuotedAt(s: string, a0: nat, name: string, closing: char, form: Form): (m: Option<Match>)
    ensures m.Some? ==>
              && m.value.form == form && a0 < m.value.nameStart
              && m.value.nameStart + |name| == m.value.nameEnd < m.value.end <= |s|
              && s[m.value.nameStart..m.value.nameEnd] == name
  {
    var q1 := QuoteLenAt(s, a0);
    var a := a0 + q1;
    if q1 == 0 || !StartsWithAt(s, a, name) then None
    else
      var b := a + |name|;
      var q2 := QuoteLenAt(s, b);
      if q2 == 0 || b + q2 >= |s| || s[b + q2] != closing then None
      else Some(Match(form, a, b, b + q2 + 1))
  }

  /** The dot form `$node.NAME`; only a name that dot notation admits can be written this way,
      and the identifier must end with the name. */
  function DotAt(s: string, name: string): (m: Option<Match>)
    ensures m.Some? ==>
              && m.value.form == NodeDot && m.value.nameStart == 6
              && m.value.nameEnd == m.value.end == 6 + |name| <= |s| && s[6..m.value.end] == name
  {
    if HasDotNotationBannedChar(name) || !StartsWithAt(s, 6, name) then None
    else
      var b := 6 + |name|;
      if b < |s| && IsIdentChar(s[b]) then None else Some(Match(NodeDot, 6, b, b))
  }

  /** A reference to `name`, in any of the four forms, at the start of `s`. */
  function MatchPrefix(s: string, name: string): (m: Option<Match>)
    ensures m.Some? ==>
              && 0 < m.value.end <= |s| && m.value.nameStart <= m.value.nameEnd <= m.value.end
              && s[m.value.nameStart..m.value.nameEnd] == name
    ensures m.Some? ==> s[0] == '$'
  {
    if |s| < 2 || s[0] != '$' then None
    else if s[1] == '(' then QuotedAt(s, 2, name, ')', Call)
    else if StartsWithAt(s, 0, "$node[") then QuotedAt(s, 6, name, ']', NodeBracket)
    else if StartsWithAt(s, 0, "$node.") then DotAt(s, name)
    else if StartsWithAt(s, 0, "$items(") then QuotedAt(s, 7, name, ',', Items)
    else None
  }

  /** The dot form once the node is called `newName`: it stays a dot access when dot notation
      admits the new name and becomes the bracket form `$node["NEW"]` otherwise. */
  function DotReferenceText(newName: string): string {
    if HasDotNotationBannedChar(newName) then "$node[\"" + newName + "\"]" else "$node." + newName
  }

  /** The text a matched reference becomes once the node is called `newName`: the quoted forms
      keep their own delimiters and quotes. */
  function Renamed(s: string, m: Match, newName: string): string
    requires m.nameStart <= m.nameEnd <= m.end <= |s|
  {
    if m.form == NodeDot then DotReferenceText(newName)
    else s[..m.nameStart] + newName + s[m.nameEnd..m.end]
  }

  /** `applyAccessPatterns(expression, previousName, newName)`: every reference to
      `previousName`, scanning from left to right and resuming after each rewritten reference. */
  function ApplyAccessPatterns(e: string, previousName: string, newName: string): string
    decreases |e|
  {
    if e == [] then []
    else if e[0] != '$' then [e[0]] + ApplyAccessPatterns(e[1..], previousName, newName)
    else
      match MatchPrefix(e, previousName)
      case Some(m) => Renamed(e, m, newName) + ApplyAccessPatterns(e[m.end..], previousName, newName)
      case None => [e[0]] + ApplyAccessPatterns(e[1..], previousName, newName)
  }

  /** Every reference form starts with `$`: a character other than `$` is copied. */
  lemma PlainCharKept(e: string, oldName: string, newName: string)
    requires e != [] && e[0] != '$'
    ensures ApplyAccessPatterns(e, oldName, newName) == [e[0]] + ApplyAccessPatterns(e[1..], oldName, newName)
  {
  }

  /** A reference recognised at the start is rewritten and the scan resumes after it. */
  lemma ReferenceStep(e: string, oldName: string, newName: string, m: Match)
    requires MatchPrefix(e, oldName) == Some(m)
    ensures ApplyAccessPatterns(e, oldName, newName)
         == Renamed(e, m, newName) + ApplyAccessPatterns(e[m.end..], oldName, newName)
  {
  }

  /** A step at a quoted-name reference `pre NAME q2 close`: the name alone is replaced. */
  lemma QuotedStep(pre: string, oldName: string, q2: string, close: string, rest: string, newName: string, m: Match)
    requires MatchPrefix(pre + oldName + q2 + close + rest, oldName) == Some(m)
    requires m.form != NodeDot && m.nameStart == |pre| && m.end == |pre| + |oldName| + |q2| + |close|
    ensures ApplyAccessPatterns(pre + oldName + q2 + close + rest, oldName, newName)
         == pre + newName + q2 + close + ApplyAccessPatterns(rest, oldName, newName)
  {
    ReferenceStep(pre + oldName + q2 + close + rest, oldName, newName, m);
    Splice(pre, oldName, q2, close, rest, newName, ApplyAccessPatterns(rest, oldName, newName));
  }

  /** Text that holds no `$`, and so no reference. */
  predicate IsPlainText(t: string) {
    forall k :: 0 <= k < |t| ==> t[k] != '$'
  }

  /** A stretch of text without `$` is copied unchanged. */
  lemma {:induction false} PlainTextKept(t: string, rest: string, oldName: string, newName: string)
    requires IsPlainText(t)
    ensures ApplyAccessPatterns(t + rest, oldName, newName) == t + ApplyAccessPatterns(rest, oldName, newName)
  {
    if t == [] {
      assert t + rest == rest;
    } else {
      var u := t + rest;
      PlainCharKept(u, oldName, newName);
      assert u[0] == t[0] && u[1..] == t[1..] + rest;
      PlainTextKept(t[1..], rest, oldName, newName);
      HeadThenTail(t, ApplyAccessPatterns(rest, oldName, newName));
    }
  }

  lemma PlainTextUnchanged(t: string, oldName: string, newName: string)
    requires IsPlainText(t)
    ensures ApplyAccessPatterns(t, oldName, newName) == t
  {
    PlainTextKept(t, [], oldName, newName);
    assert t + [] == t;
  }

  /** A match in the dot form comes from `$node.` followed by a name that dot notation admits. */
  lemma DotMatchShape(e: string, name: string, m: Match)
    requires MatchPrefix(e, name) == Some(m) && m.form == NodeDot
    ensures StartsWithAt(e, 0, "$node.") && !HasDotNotationBannedChar(name)
    ensures m.nameStart == 6 && m.nameEnd == m.end
  {
  }

  /** A reference renamed to the name it already has is its own text. */
  lemma SelfRenamed(e: string, name: string, m: Match)
    requires MatchPrefix(e, name) == Some(m)
    ensures m.end <= |e| && Renamed(e, m, name) == e[..m.end]
  {
    if m.form == NodeDot {
      DotMatchShape(e, name, m);
      PrefixRejoin(e, 6, 6, m.end);
    } else {
      PrefixRejoin(e, m.nameStart, m.nameEnd, m.end);
    }
  }

  /** Renaming a node to its own name changes nothing. */
  lemma {:induction false} RenameToSelfIsIdentity(e: string, name: string)
    ensures ApplyAccessPatterns(e, name, name) == e
    decreases |e|
  {
    if e != [] {
      match MatchPrefix(e, name)
      case Some(m) =>
        ReferenceStep(e, name, name, m);
        RenameToSelfIsIdentity(e[m.end..], name);
        SelfRenamed(e, name, m);
        SliceThenRest(e, 0, m.end);
      case None =>
        RenameToSelfIsIdentity(e[1..], name);
        ElementThenRest(e, 0);
    }
  }

  /** What occurs in the tail of a text occurs in the text. */
  lemma OccursInTail(e: string, p: string)
    requires e != [] && !Occurs(p, e)
    ensures !Occurs(p, e[1..])
  {
    forall k: nat | StartsWithAt(e[1..], k, p) ensures StartsWithAt(e, k + 1, p) {
      assert e[1..][k..k + |p|] == e[k + 1..k + 1 + |p|];
    }
  }

  /** A text in which the old name does not occur at all is left unchanged. */
  lemma {:induction false} AbsentNameIsIdentity(e: string, oldName: string, newName: string)
    requires !Occurs(oldName, e)
    ensures ApplyAccessPatterns(e, oldName, newName) == e
    decreases |e|
  {
    if e != [] {
      var m := MatchPrefix(e, oldName);
      if m.Some? {
        assert StartsWithAt(e, m.value.nameStart, oldName);
        assert false;
      }
      OccursInTail(e, oldName);
      AbsentNameIsIdentity(e[1..], oldName, newName);
      assert [e[0]] + e[1..] == e;
    }
  }

  /** `$(q OLD q)` is recognised as a reference. */
  lemma CallMatches(q1: string, name: string, q2: string, rest: string)
    requires IsQuote(q1) && IsQuote(q2)
    ensures var s := "$(" + q1 + name + q2 + ")" + rest;
      var b := 2 + |q1| + |name|;
      MatchPrefix(s, name) == Some(Match(Call, 2 + |q1|, b, b + |q2| + 1))
  {
    var s := "$(" + q1 + name + q2 + ")" + rest;
    var b := 2 + |q1| + |name|;
    assert s[1] == '(';
    assert s[2] == q1[0];
    assert |q1| == 2 ==> s[3] == q1[1];
    assert s[2 + |q1|..b] == name;
    assert s[b] == q2[0];
    assert |q2| == 2 ==> s[b + 1] == q2[1];
    assert s[b + |q2|] == ')';
  }

  /** `$(q OLD q)` becomes `$(q NEW q)`, with the quotes kept. */
  lemma RenameCall(q1: string, q2: string, oldName: string, newName: string, rest: string)
    requires IsQuote(q1) && IsQuote(q2)
    ensures ApplyAccessPatterns("$(" + q1 + oldName + q2 + ")" + rest, oldName, newName)
         == "$(" + q1 + newName + q2 + ")" + ApplyAccessPatterns(rest, oldName, newName)
  {
    CallMatches(q1, oldName, q2, rest);
    var b := 2 + |q1| + |oldName|;
    QuotedStep("$(" + q1, oldName, q2, ")", rest, newName, Match(Call, 2 + |q1|, b, b + |q2| + 1));
  }

  /** `$node[q OLD q]` is recognised as a reference. */
  lemma NodeBracketMatches(q1: string, name: string, q2: string, rest: string)
    requires IsQuote(q1) && IsQuote(q2)
    ensures var s := "$node[" + q1 + name + q2 + "]" + rest;
      var b := 6 + |q1| + |name|;
      MatchPrefix(s, name) == Some(Match(NodeBracket, 6 + |q1|, b, b + |q2| + 1))
  {
    var s := "$node[" + q1 + name + q2 + "]" + rest;
    var b := 6 + |q1| + |name|;
    assert s[1] == 'n';
    assert s[..6] == "$node[";
    assert s[6] == q1[0];
    assert |q1| == 2 ==> s[7] == q1[1];
    assert s[6 + |q1|..b] == name;
    assert s[b] == q2[0];
    assert |q2| == 2 ==> s[b + 1] == q2[1];
    assert s[b + |q2|] == ']';
  }

  /** `$node[q OLD q]` becomes `$node[q NEW q]`, with the quotes kept. */
  lemma RenameNodeBracket(q1: string, q2: string, oldName: string, newName: string, rest: string)
    requires IsQuote(q1) && IsQuote(q2)
    ensures ApplyAccessPatterns("$node[" + q1 + oldName + q2 + "]" + rest, oldName, newName)
         == "$node[" + q1 + newName + q2 + "]" + ApplyAccessPatterns(rest, oldName, newName)
  {
    NodeBracketMatches(q1, oldName, q2, rest);
    var b := 6 + |q1| + |oldName|;
    QuotedStep("$node[" + q1, oldName, q2, "]", rest, newName, Match(NodeBracket, 6 + |q1|, b, b + |q2| + 1));
  }

  /** `$items(q OLD q,` is recognised as a reference. */
  lemma ItemsMatches(q1: string, name: string, q2: string, rest: string)
    requires IsQuote(q1) && IsQuote(q2)
    ensures var s := "$items(" + q1 + name + q2 + "," + rest;
      var b := 7 + |q1| + |name|;
      MatchPrefix(s, name) == Some(Match(Items, 7 + |q1|, b, b + |q2| + 1))
  {
    var s := "$items(" + q1 + name + q2 + "," + rest;
    var b := 7 + |q1| + |name|;
    assert s[1] == 'i';
    assert s[..7] == "$items(";
    assert s[7] == q1[0];
    assert |q1| == 2 ==> s[8] == q1[1];
    assert s[7 + |q1|..b] == name;
    assert s[b] == q2[0];
    assert |q2| == 2 ==> s[b + 1] == q2[1];
    assert s[b + |q2|] == ',';
  }

  /** `$items(q OLD q,` becomes `$items(q NEW q,`, with the quotes kept. */
  lemma RenameItems(q1: string, q2: string, oldName: string, newName: string, rest: string)
    requires IsQuote(q1) && IsQuote(q2)
    ensures ApplyAccessPatterns("$items(" + q1 + oldName + q2 + "," + rest, oldName, newName)
         == "$items(" + q1 + newName + q2 + "," + ApplyAccessPatterns(rest, oldName, newName)
  {
    ItemsMatches(q1, oldName, q2, rest);
    var b := 7 + |q1| + |oldName|;
    QuotedStep("$items(" + q1, oldName, q2, ",", rest, newName, Match(Items, 7 + |q1|, b, b + |q2| + 1));
  }

  /** `$node.OLD` is recognised as a reference when dot notation admits the name and the
      identifier ends there. */
  lemma NodeDotMatches(name: string, rest: string)
    requires !HasDotNotationBannedChar(name)
    requires rest == [] || !IsIdentChar(rest[0])
    ensures var s := "$node." + name + rest;
      MatchPrefix(s, name) == Some(Match(NodeDot, 6, 6 + |name|, 6 + |name|))
  {
    var s := "$node." + name + rest;
    assert s[1] == 'n';
    assert s[..6] == "$node.";
    assert s[5] != '[';
    assert s[6..6 + |name|] == name;
    if rest != [] {
      assert s[6 + |name|] == rest[0];
    }
  }

  /** `$node.OLD` becomes `$node.NEW`, or `$node["NEW"]` when dot notation does not admit the
      new name. */
  lemma RenameNodeDot(oldName: string, newName: string, rest: string)
    requires !HasDotNotationBannedChar(oldName)
    requires rest == [] || !IsIdentChar(rest[0])
    ensures ApplyAccessPatterns("$node." + oldName + rest, oldName, newName)
         == DotReferenceText(newName) + ApplyAccessPatterns(rest, oldName, newName)
  {
    var s := "$node." + oldName + rest;
    NodeDotMatches(oldName, rest);
    ReferenceStep(s, oldName, newName, Match(NodeDot, 6, 6 + |oldName|, 6 + |oldName|));
    assert s[6 + |oldName|..] == rest;
  }
}
