/** Recognising a reference to another node's output inside expression text, and the names
    derived from it.

    A reference has the shape
        `$(` q NODE q `)` ACCESSOR [ `.json` (`.` FIELD)+ ]
    where q is `"` or `'` (the same on both sides), NODE is a name from the workflow's list of
    node names, ACCESSOR is one of `.item`, `.first()`, `.last()`, `.all()` or
    `.itemMatching(ARG)` with ARG any text whose parentheses balance, and each FIELD is a run of
    identifier characters. */
module ReferenceScanner {
  import opened Wrappers
  import opened Text

  /** The item-selection method applied to the referenced node's output. */
  datatype Accessor = Item | First | Last | All | ItemMatching(argument: string)

  /** What identifies a reference, whatever its spelling: the node, the accessor and the field
      path after `.json` (empty when the expression goes on with something else). */
  datatype Signature = Signature(node: string, accessor: Accessor, fields: seq<string>)

  /** A reference found in a text, and the index just past its last character. */
  datatype Found = Found(sig: Signature, end: nat)

  // Sanitising a node name

  /** The fragment of a variable name made from a node name: a space becomes `_`, a character of
      `[A-Za-z0-9_$]` is kept, and every other character is dropped. */
  function Sanitize(name: string): (r: string)
    ensures |r| <= |name|
    ensures forall k :: 0 <= k < |r| ==> IsIdentChar(r[k])
  {
    if name == [] then []
    else (if name[0] == ' ' then "_" else if IsIdentChar(name[0]) then [name[0]] else []) + Sanitize(name[1..])
  }

  /** Sanitising works character by character. */
  lemma {:induction false} SanitizeConcat(a: string, b: string)
    ensures Sanitize(a + b) == Sanitize(a) + Sanitize(b)
  {
    if a == [] {
      assert a + b == b;
    } else {
      assert (a + b)[0] == a[0] && (a + b)[1..] == a[1..] + b;
      SanitizeConcat(a[1..], b);
    }
  }

  /** A name made only of `[A-Za-z0-9_$]` is its own sanitised form. */
  lemma {:induction false} SanitizeKeepsIdentifiers(name: string)
    requires forall k :: 0 <= k < |name| ==> IsIdentChar(name[k])
    ensures Sanitize(name) == name
  {
    if name != [] {
      SanitizeKeepsIdentifiers(name[1..]);
      assert [name[0]] + name[1..] == name;
    }
  }

  /** Sanitising is idempotent: its result is already sanitised. */
  lemma SanitizeIdempotent(name: string)
    ensures Sanitize(Sanitize(name)) == Sanitize(name)
  {
    SanitizeKeepsIdentifiers(Sanitize(name));
  }

  // Recognising a reference

  predicate IsNameQuote(c: char) { c == '"' || c == '\'' }

  /** `$(` q NAME q `)` starts at index `i`. */
  predicate CallNameFits(s: string, i: nat, name: string) {
    i + 5 + |name| <= |s| && s[i] == '$' && s[i + 1] == '(' && IsNameQuote(s[i + 2])
    && StartsWithAt(s, i + 3, name) && s[i + 3 + |name|] == s[i + 2] && s[i + 4 + |name|] == ')'
  }

  /** The first of `names` that the call at index `i` names. */
  function NamedNode(s: string, i: nat, names: seq<string>): (r: Option<string>)
    ensures r.Some? ==> r.value in names && CallNameFits(s, i, r.value)
    ensures r.None? ==> forall k :: 0 <= k < |names| ==> !CallNameFits(s, i, names[k])
  {
    if names == [] then None
    else if CallNameFits(s, i, names[0]) then Some(names[0])
    else NamedNode(s, i, names[1..])
  }

  /** The index of the `)` that closes a parenthesis opened before index `p`, when `depth` more
      parentheses are open in between. */
  function ClosingParen(s: string, p: nat, depth: nat): (r: Option<nat>)
    requires p <= |s|
    ensures r.Some? ==> p <= r.value < |s| && s[r.value] == ')'
    decreases |s| - p
  {
    if p == |s| then None
    else if s[p] == ')' then (if depth == 0 then Some(p) else ClosingParen(s, p + 1, depth - 1))
    else if s[p] == '(' then ClosingParen(s, p + 1, depth + 1)
    else ClosingParen(s, p + 1, depth)
  }

  /** The accessor starting at index `k`, and the index just past it. */
  function AccessorAt(s: string, k: nat): (r: Option<(Accessor, nat)>)
    requires k <= |s|
    ensures r.Some? ==> k < r.value.1 <= |s|
  {
    if StartsWithAt(s, k, ".itemMatching(") then
      match ClosingParen(s, k + 14, 0)
      case Some(c) => Some((ItemMatching(s[k + 14..c]), c + 1))
      case None => None
    else if StartsWithAt(s, k, ".item") && (k + 5 == |s| || !IsIdentChar(s[k + 5])) then Some((Item, k + 5))
    else if StartsWithAt(s, k, ".first()") then Some((First, k + 8))
    else if StartsWithAt(s, k, ".last()") then Some((Last, k + 7))
    else if StartsWithAt(s, k, ".all()") then Some((All, k + 6))
    else None
  }

  /** The end of the run of identifier characters starting at index `p`. */
  function IdentifierEnd(s: string, p: nat): (r: nat)
    requires p <= |s|
    ensures p <= r <= |s| && (r == |s| || !IsIdentChar(s[r]))
    decreases |s| - p
  {
    if p < |s| && IsIdentChar(s[p]) then IdentifierEnd(s, p + 1) else p
  }

  /** The property names of a chain `.a.b.c` starting at index `p`, and the index where it ends. */
  function FieldsFrom(s: string, p: nat): (r: (seq<string>, nat))
    requires p <= |s|
    ensures p <= r.1 <= |s| && (r.0 == [] <==> r.1 == p)
    decreases |s| - p
  {
    if p < |s| && s[p] == '.' && IdentifierEnd(s, p + 1) > p + 1 then
      var e := IdentifierEnd(s, p + 1);
      var rest := FieldsFrom(s, e);
      ([s[p + 1..e]] + rest.0, rest.1)
    else ([], p)
  }

  /** The field path of `.json.a.b` at index `k`; empty, and ending at `k`, when no `.json`
      followed by at least one property comes next. */
  function JsonFieldsAt(s: string, k: nat): (r: (seq<string>, nat))
    requires k <= |s|
    ensures k <= r.1 <= |s| && (r.0 == [] <==> r.1 == k)
  {
    if StartsWithAt(s, k, ".json") then
      var chain := FieldsFrom(s, k + 5);
      if chain.0 == [] then ([], k) else chain
    else ([], k)
  }

  /** The reference starting at index `i`, if one does: a call naming one of `nodeNames`, an
      accessor, and the field path if there is one. Without a written accessor, a field path
      right after the call reads through the implicit `item`. */
  function ReferenceAt(s: string, i: nat, nodeNames: seq<string>): (r: Option<Found>)
    ensures r.Some? ==> i < r.value.end <= |s| && r.value.sig.node in nodeNames
  {
    match NamedNode(s, i, nodeNames)
    case None => None
    case Some(node) =>
      match AccessorAt(s, i + 5 + |node|)
      case None =>
        var (fields, e) := JsonFieldsAt(s, i + 5 + |node|);
        if fields == [] then None else Some(Found(Signature(node, Item, fields), e))
      case Some((accessor, a)) =>
        var (fields, e) := JsonFieldsAt(s, a);
        Some(Found(Signature(node, accessor, fields), e))
  }

  // Text in which no reference can start

  /** No `$(` occurs in `a`, and `a` does not end with `$`: no call can start inside it. */
  predicate NoCallIn(a: string) {
    forall j :: 0 <= j < |a| && a[j] == '$' ==> j + 1 < |a| && a[j + 1] != '('
  }

  /** No reference starts at the beginning of such a text, whatever follows it. */
  lemma NoCallNoReference(a: string, b: string, nodeNames: seq<string>)
    requires NoCallIn(a) && a != []
    ensures ReferenceAt(a + b, 0, nodeNames).None?
  {
  }

  /** When no listed name contains the quote character, at most one of them fits a call. */
  lemma OnlyCallName(s: string, i: nat, n: string, m: string)
    requires CallNameFits(s, i, n) && CallNameFits(s, i, m)
    requires s[i + 2] !in n && s[i + 2] !in m
    ensures n == m
  {
    assert s[i + 3..i + 3 + |n|] == n && s[i + 3..i + 3 + |m|] == m;
  }

  // Names and text derived from a reference

  function AccessorSuffix(a: Accessor): string {
    match a
    case Item => ""
    case First => "_first"
    case Last => "_last"
    case All => "_all"
    case ItemMatching(arg) => "_itemMatching_" + arg
  }

  /** The accessor as it is written after the node call, without the leading dot. */
  function AccessorText(a: Accessor): string {
    match a
    case Item => "item"
    case First => "first()"
    case Last => "last()"
    case All => "all()"
    case ItemMatching(arg) => "itemMatching(" + arg + ")"
  }

  /** The first name tried for a reference's variable: the field path joined with `_`, or the
      sanitised node name when there is no field path, followed by the accessor's suffix. */
  function Key(sig: Signature): string {
    (if sig.fields == [] then Sanitize(sig.node) else Join(sig.fields, "_")) + AccessorSuffix(sig.accessor)
  }

  /** The second name tried: the key behind the sanitised node name. */
  function PrefixedKey(sig: Signature): string {
    Sanitize(sig.node) + "_" + Key(sig)
  }

  /** The text that replaces an external reference: the same accessor applied to the start node,
      and the variable read from its JSON. */
  function Replacement(startNodeName: string, a: Accessor, variable: string): string {
    "$('" + startNodeName + "')." + AccessorText(a) + ".json." + variable
  }
}
