/** References written out, and the scanner reading back exactly what was written: the partner of
    `ReferenceScanner.ReferenceAt`. */
module ReferenceSyntax {
  import opened Wrappers
  import opened Text
  import opened ReferenceScanner

  /** The field path as written after `.json`: `.a.b.c`. */
  function DotPath(fields: seq<string>): (r: string)
    ensures fields == [] <==> r == []
  {
    if fields == [] then [] else "." + fields[0] + DotPath(fields[1..])
  }

  /** The `.json.a.b` part of a reference; nothing when there is no field path. */
  function JsonPath(fields: seq<string>): string {
    if fields == [] then [] else ".json" + DotPath(fields)
  }

  /** A reference written out with the quote `q` around the node name. */
  function ReferenceText(q: char, sig: Signature): string {
    "$(" + [q] + sig.node + [q] + ")" + "." + AccessorText(sig.accessor) + JsonPath(sig.fields)
  }

  predicate IsIdentifier(f: string) {
    f != [] && forall c :: 0 <= c < |f| ==> IsIdentChar(f[c])
  }

  predicate AllIdentifiers(fields: seq<string>) {
    fields == [] || (IsIdentifier(fields[0]) && AllIdentifiers(fields[1..]))
  }

  /** The parentheses of `arg` balance when `depth` of them are already open, and none closes
      more than is open. */
  predicate Balanced(arg: string, depth: nat)
    decreases |arg|
  {
    if arg == [] then depth == 0
    else if arg[0] == ')' then depth > 0 && Balanced(arg[1..], depth - 1)
    else if arg[0] == '(' then Balanced(arg[1..], depth + 1)
    else Balanced(arg[1..], depth)
  }

  /** Nothing in `rest` could be read as part of the reference: no identifier character right
      after `.item` or a field, no further `.field` after a field path, and no `.json.field` right
      after an accessor without one. */
  predicate EndsReference(sig: Signature, rest: string) {
    EndsAt(sig, rest, 0)
  }

  /** The reference with signature `sig` can end at index `e` of `s`. */
  predicate EndsAt(sig: Signature, s: string, e: nat) {
    && (sig.fields != [] || sig.accessor.Item? ==> WordEndsAt(s, e))
    && (sig.fields != [] ==> NoFieldAt(s, e))
    && (sig.fields == [] ==> !JsonFieldAt(s, e))
  }

  /** No identifier character at index `e`. */
  predicate WordEndsAt(s: string, e: nat) {
    e >= |s| || !IsIdentChar(s[e])
  }

  /** No `.` followed by an identifier character at index `e`. */
  predicate NoFieldAt(s: string, e: nat) {
    e >= |s| || s[e] != '.' || e + 1 >= |s| || !IsIdentChar(s[e + 1])
  }

  /** `.json.` followed by an identifier character at index `e`. */
  predicate JsonFieldAt(s: string, e: nat) {
    StartsWithAt(s, e, ".json.") && e + 6 < |s| && IsIdentChar(s[e + 6])
  }

  lemma {:induction false} IdentifierEndAt(s: string, p: nat, q: nat)
    requires p <= q <= |s|
    requires forall j :: p <= j < q ==> IsIdentChar(s[j])
    requires WordEndsAt(s, q)
    ensures IdentifierEnd(s, p) == q
    decreases q - p
  {
    if p < q {
      IdentifierEndAt(s, p + 1, q);
    }
  }

  // Reading pieces of a text

  lemma SplitAt(s: string, p: nat, a: string, b: string)
    requires StartsWithAt(s, p, a + b)
    ensures StartsWithAt(s, p, a) && StartsWithAt(s, p + |a|, b)
  {
    assert s[p..p + |a|] == (a + b)[..|a|];
    assert s[p + |a|..p + |a| + |b|] == (a + b)[|a|..];
  }

  lemma CharAt(s: string, p: nat, a: string, j: nat)
    requires StartsWithAt(s, p, a) && j < |a|
    ensures s[p + j] == a[j]
  {
    assert s[p..p + |a|][j] == a[j];
  }

  lemma NotStartsWith(s: string, k: nat, p: string, j: nat)
    requires j < |p| && (k + j >= |s| || s[k + j] != p[j])
    ensures !StartsWithAt(s, k, p)
  {
  }

  lemma {:induction false} ClosingParenAfter(s: string, p: nat, arg: string, depth: nat)
    requires StartsWithAt(s, p, arg + ")")
    requires Balanced(arg, depth)
    ensures ClosingParen(s, p, depth) == Some(p + |arg|)
    decreases |arg|
  {
    if arg == [] {
      CharAt(s, p, arg + ")", 0);
    } else {
      CharAt(s, p, arg + ")", 0);
      assert arg + ")" == [arg[0]] + (arg[1..] + ")");
      SplitAt(s, p, [arg[0]], arg[1..] + ")");
      if arg[0] == ')' {
        ClosingParenAfter(s, p + 1, arg[1..], depth - 1);
      } else if arg[0] == '(' {
        ClosingParenAfter(s, p + 1, arg[1..], depth + 1);
      } else {
        ClosingParenAfter(s, p + 1, arg[1..], depth);
      }
    }
  }

  // Accessors

  /** A written accessor is read back, and reading stops right after it. */
  lemma AccessorAtText(s: string, k: nat, a: Accessor)
    requires StartsWithAt(s, k, "." + AccessorText(a))
    requires a.Item? ==> WordEndsAt(s, k + 5)
    requires a.ItemMatching? ==> Balanced(a.argument, 0)
    ensures AccessorAt(s, k) == Some((a, k + 1 + |AccessorText(a)|))
  {
    match a
    case ItemMatching(arg) =>
      ItemMatchingShape(arg);
      SplitAt(s, k, ".itemMatching(", arg + ")");
      ItemMatchingAtText(s, k, arg);
    case Item => ItemAtText(s, k);
    case First => CallAccessorAtText(s, k, First);
    case Last => CallAccessorAtText(s, k, Last);
    case All => CallAccessorAtText(s, k, All);
  }

  lemma ItemMatchingAtText(s: string, k: nat, arg: string)
    requires k + 14 <= |s| && s[k..k + 14] == ".itemMatching(" && StartsWithAt(s, k + 14, arg + ")")
    requires Balanced(arg, 0)
    ensures AccessorAt(s, k) == Some((ItemMatching(arg), k + 15 + |arg|))
  {
    ArgumentClosed(s, k, arg);
    ItemMatchingBranch(s, k, arg);
  }

  /** The argument of `.itemMatching(` at `k` runs up to the `)` that balances it. */
  lemma ArgumentClosed(s: string, k: nat, arg: string)
    requires StartsWithAt(s, k + 14, arg + ")") && Balanced(arg, 0)
    ensures k + 14 + |arg| < |s| && s[k + 14..k + 14 + |arg|] == arg && ClosingParen(s, k + 14, 0) == Some(k + 14 + |arg|)
  {
    ClosingParenAfter(s, k + 14, arg, 0);
    SplitAt(s, k + 14, arg, ")");
  }

  lemma ItemMatchingBranch(s: string, k: nat, arg: string)
    requires k + 14 + |arg| < |s| && s[k..k + 14] == ".itemMatching("
    requires s[k + 14..k + 14 + |arg|] == arg && ClosingParen(s, k + 14, 0) == Some(k + 14 + |arg|)
    ensures AccessorAt(s, k) == Some((ItemMatching(arg), k + 15 + |arg|))
  {
  }

  lemma ItemMatchingShape(arg: string)
    ensures "." + AccessorText(ItemMatching(arg)) == ".itemMatching(" + (arg + ")")
  {
    assert "." + AccessorText(ItemMatching(arg)) == ("." + "itemMatching(") + (arg + ")");
    assert "." + "itemMatching(" == ".itemMatching(";
  }

  lemma ItemAtText(s: string, k: nat)
    requires StartsWithAt(s, k, ".item")
    requires WordEndsAt(s, k + 5)
    ensures AccessorAt(s, k).Some? && AccessorAt(s, k).value.0 == Item && AccessorAt(s, k).value.1 == k + 5
  {
    NotStartsWith(s, k, ".itemMatching(", 5);
  }

  /** `.first()`, `.last()` and `.all()`: none starts with `.i`. */
  lemma CallAccessorAtText(s: string, k: nat, a: Accessor)
    requires a.First? || a.Last? || a.All?
    requires StartsWithAt(s, k, "." + AccessorText(a))
    ensures AccessorAt(s, k).Some? && AccessorAt(s, k).value.0 == a && AccessorAt(s, k).value.1 == k + 1 + |AccessorText(a)|
  {
    CharAt(s, k, "." + AccessorText(a), 1);
    NotStartsWith(s, k, ".itemMatching(", 1);
    NotStartsWith(s, k, ".item", 1);
    if !a.First? {
      NotStartsWith(s, k, ".first()", 1);
    }
    if a.All? {
      NotStartsWith(s, k, ".last()", 1);
    }
  }

  // Field paths

  lemma IdentifierRun(s: string, p: nat, f: string)
    requires StartsWithAt(s, p, f) && IsIdentifier(f)
    ensures forall j :: p <= j < p + |f| ==> IsIdentChar(s[j])
  {
    forall j | p <= j < p + |f|
      ensures IsIdentChar(s[j])
    {
      CharAt(s, p, f, j - p);
    }
  }

  lemma NoFieldsFrom(s: string, p: nat)
    requires p <= |s| && NoFieldAt(s, p)
    ensures FieldsFrom(s, p) == ([], p)
  {
    if p < |s| && s[p] == '.' {
      IdentifierEndAt(s, p + 1, p + 1);
    }
  }

  lemma FieldsFromStep(s: string, p: nat, f: string)
    requires p < |s| && s[p] == '.' && f != []
    requires IdentifierEnd(s, p + 1) == p + 1 + |f| && s[p + 1..p + 1 + |f|] == f
    ensures FieldsFrom(s, p) == ([f] + FieldsFrom(s, p + 1 + |f|).0, FieldsFrom(s, p + 1 + |f|).1)
  {
  }

  /** A written path starts with `.`, its first field, and the rest of the path right after. */
  lemma FirstFieldRead(s: string, p: nat, fields: seq<string>)
    requires fields != [] && AllIdentifiers(fields)
    requires StartsWithAt(s, p, DotPath(fields))
    requires WordEndsAt(s, p + |DotPath(fields)|)
    ensures StartsWithAt(s, p + 1 + |fields[0]|, DotPath(fields[1..]))
    ensures |DotPath(fields)| == 1 + |fields[0]| + |DotPath(fields[1..])|
    ensures p < |s| && s[p] == '.' && fields[0] != []
    ensures IdentifierEnd(s, p + 1) == p + 1 + |fields[0]| && s[p + 1..p + 1 + |fields[0]|] == fields[0]
  {
    var f, rest := fields[0], fields[1..];
    assert DotPath(fields) == "." + f + DotPath(rest);
    assert StartsWithAt(s, p, ".") && StartsWithAt(s, p + 1, f) && StartsWithAt(s, p + 1 + |f|, DotPath(rest)) by {
      SplitAt(s, p, "." + f, DotPath(rest));
      SplitAt(s, p, ".", f);
    }
    assert DotPath(rest) == [] || DotPath(rest)[0] == '.';
    FirstFieldEnds(s, p, f, DotPath(rest));
  }

  /** The first field of a written path is a run of identifier characters that ends where the
      rest `d` of the path, or the text after the whole path, begins. */
  lemma FirstFieldEnds(s: string, p: nat, f: string, d: string)
    requires IsIdentifier(f) && (d == [] || d[0] == '.')
    requires StartsWithAt(s, p, ".") && StartsWithAt(s, p + 1, f) && StartsWithAt(s, p + 1 + |f|, d)
    requires WordEndsAt(s, p + 1 + |f| + |d|)
    ensures p < |s| && s[p] == '.'
    ensures IdentifierEnd(s, p + 1) == p + 1 + |f| && s[p + 1..p + 1 + |f|] == f
  {
    assert s[p] == '.' by {
      CharAt(s, p, ".", 0);
    }
    assert WordEndsAt(s, p + 1 + |f|) by {
      if d != [] {
        CharAt(s, p + 1 + |f|, d, 0);
      }
    }
    assert IdentifierEnd(s, p + 1) == p + 1 + |f| by {
      IdentifierEndOf(s, p + 1, f);
    }
  }

  /** A written identifier followed by the end of a word is read as one run. */
  lemma IdentifierEndOf(s: string, p: nat, f: string)
    requires StartsWithAt(s, p, f) && IsIdentifier(f) && WordEndsAt(s, p + |f|)
    ensures IdentifierEnd(s, p) == p + |f|
  {
    IdentifierRun(s, p, f);
    IdentifierEndAt(s, p, p + |f|);
  }

  /** A written field path is read back, and reading stops right after it. */
  lemma {:induction false} FieldsFromPath(s: string, p: nat, fields: seq<string>)
    requires AllIdentifiers(fields)
    requires StartsWithAt(s, p, DotPath(fields))
    requires fields != [] ==> WordEndsAt(s, p + |DotPath(fields)|)
    requires NoFieldAt(s, p + |DotPath(fields)|)
    ensures FieldsFrom(s, p) == (fields, p + |DotPath(fields)|)
    decreases |fields|
  {
    if fields == [] {
      NoFieldsFrom(s, p);
    } else {
      RestOfPath(s, p, fields);
      FieldsFromPath(s, p + 1 + |fields[0]|, fields[1..]);
      FieldsFromCons(s, p, fields);
    }
  }

  /** After the first field of a written path, the rest of the path is written and ends where
      the whole path ends. */
  lemma RestOfPath(s: string, p: nat, fields: seq<string>)
    requires fields != [] && AllIdentifiers(fields)
    requires StartsWithAt(s, p, DotPath(fields))
    requires WordEndsAt(s, p + |DotPath(fields)|)
    ensures AllIdentifiers(fields[1..]) && StartsWithAt(s, p + 1 + |fields[0]|, DotPath(fields[1..]))
    ensures p + 1 + |fields[0]| + |DotPath(fields[1..])| == p + |DotPath(fields)|
  {
    FirstFieldRead(s, p, fields);
  }

  /** The first field read, then the rest of the path read as written. */
  lemma FieldsFromCons(s: string, p: nat, fields: seq<string>)
    requires fields != [] && AllIdentifiers(fields)
    requires StartsWithAt(s, p, DotPath(fields))
    requires WordEndsAt(s, p + |DotPath(fields)|)
    requires FieldsFrom(s, p + 1 + |fields[0]|) == (fields[1..], p + |DotPath(fields)|)
    ensures FieldsFrom(s, p) == (fields, p + |DotPath(fields)|)
  {
    FieldsFromFirst(s, p, fields);
    FirstThenRest(fields);
  }

  /** Reading a written path reads its first field, then goes on right after it. */
  lemma FieldsFromFirst(s: string, p: nat, fields: seq<string>)
    requires fields != [] && AllIdentifiers(fields)
    requires StartsWithAt(s, p, DotPath(fields))
    requires WordEndsAt(s, p + |DotPath(fields)|)
    ensures p + 1 + |fields[0]| <= |s|
    ensures FieldsFrom(s, p)
      == ([fields[0]] + FieldsFrom(s, p + 1 + |fields[0]|).0, FieldsFrom(s, p + 1 + |fields[0]|).1)
  {
    FirstFieldRead(s, p, fields);
    FieldsFromStep(s, p, fields[0]);
  }

  /** The `.json` part of a written reference is read back. */
  lemma JsonFieldsAtText(s: string, k: nat, fields: seq<string>)
    requires AllIdentifiers(fields)
    requires StartsWithAt(s, k, JsonPath(fields))
    requires fields != [] ==> WordEndsAt(s, k + |JsonPath(fields)|) && NoFieldAt(s, k + |JsonPath(fields)|)
    requires fields == [] ==> !JsonFieldAt(s, k)
    ensures JsonFieldsAt(s, k).0 == fields
    ensures JsonFieldsAt(s, k).1 == k + |JsonPath(fields)|
  {
    if fields == [] {
    } else {
      SplitAt(s, k, ".json", DotPath(fields));
      FieldsFromPath(s, k + 5, fields);
    }
  }

  // The whole reference

  lemma CallFits(s: string, q: char, node: string)
    requires IsNameQuote(q)
    requires StartsWithAt(s, 0, "$(" + [q] + node + [q] + ")")
    ensures CallNameFits(s, 0, node)
  {
    var call := "$(" + [q] + node + [q] + ")";
    SplitAt(s, 0, "$(" + [q], node + ([q] + ")"));
    SplitAt(s, 3, node, [q] + ")");
    assert call == "$(" + [q] + (node + ([q] + ")"));
    CharAt(s, 0, call, 0);
    CharAt(s, 0, call, 1);
    CharAt(s, 0, call, 2);
    CharAt(s, 0, call, 3 + |node|);
    CharAt(s, 0, call, 4 + |node|);
  }

  /** The parts of a written reference followed by `rest`, and where each starts. */
  lemma ReferenceParts(q: char, sig: Signature, rest: string)
    ensures StartsWithAt(ReferenceText(q, sig) + rest, 0, "$(" + [q] + sig.node + [q] + ")")
    ensures StartsWithAt(ReferenceText(q, sig) + rest, |sig.node| + 5, "." + AccessorText(sig.accessor))
    ensures StartsWithAt(ReferenceText(q, sig) + rest, |sig.node| + 6 + |AccessorText(sig.accessor)|, JsonPath(sig.fields))
    ensures |ReferenceText(q, sig)| == |sig.node| + 6 + |AccessorText(sig.accessor)| + |JsonPath(sig.fields)|
    ensures StartsWithAt(ReferenceText(q, sig) + rest, |ReferenceText(q, sig)|, rest)
  {
    var call := "$(" + [q] + sig.node + [q] + ")";
    var acc := "." + AccessorText(sig.accessor);
    ReferenceTextShape(q, sig, rest);
    FourParts(ReferenceText(q, sig) + rest, call, acc, JsonPath(sig.fields), rest);
  }

  lemma ReferenceTextShape(q: char, sig: Signature, rest: string)
    ensures ReferenceText(q, sig) + rest
         == ("$(" + [q] + sig.node + [q] + ")") + (("." + AccessorText(sig.accessor)) + (JsonPath(sig.fields) + rest))
    ensures |ReferenceText(q, sig)| == |"$(" + [q] + sig.node + [q] + ")"| + |"." + AccessorText(sig.accessor)| + |JsonPath(sig.fields)|
  {
  }

  lemma FourParts(s: string, a: string, b: string, c: string, d: string)
    requires s == a + (b + (c + d))
    ensures StartsWithAt(s, 0, a) && StartsWithAt(s, |a|, b) && StartsWithAt(s, |a| + |b|, c)
    ensures StartsWithAt(s, |a| + |b| + |c|, d) && |s| == |a| + |b| + |c| + |d|
  {
    assert s[..|a|] == a;
    assert s[|a|..|a| + |b|] == b;
    assert s[|a| + |b|..|a| + |b| + |c|] == c;
    assert s[|a| + |b| + |c|..] == d;
  }

  lemma RestAt(s: string, e: nat, sig: Signature, rest: string)
    requires StartsWithAt(s, e, rest) && e + |rest| == |s|
    requires EndsReference(sig, rest)
    ensures EndsAt(sig, s, e)
  {
    assert s[e..] == rest;
    if JsonFieldAt(s, e) {
      assert s[e..e + 6] == rest[0..6];
    }
  }

  /** The scanner reads back a written reference: the same signature, ending right after the
      written text, provided that no other listed node name fits the call and nothing after the
      reference could be read as part of it. */
  lemma ReferenceRoundTrip(q: char, sig: Signature, rest: string, nodeNames: seq<string>)
    requires IsNameQuote(q)
    requires AllIdentifiers(sig.fields)
    requires sig.accessor.ItemMatching? ==> Balanced(sig.accessor.argument, 0)
    requires EndsReference(sig, rest)
    requires sig.node in nodeNames
    requires forall k :: 0 <= k < |nodeNames| && CallNameFits(ReferenceText(q, sig) + rest, 0, nodeNames[k]) ==> nodeNames[k] == sig.node
    ensures ReferenceAt(ReferenceText(q, sig) + rest, 0, nodeNames) == Some(Found(sig, |ReferenceText(q, sig)|))
  {
    var s := ReferenceText(q, sig) + rest;
    ReferenceParts(q, sig, rest);
    RestAt(s, |ReferenceText(q, sig)|, sig, rest);
    CallFits(s, q, sig.node);
    ReadBack(s, sig, nodeNames, |ReferenceText(q, sig)|);
  }

  /** The same on any text that holds the parts of a reference one after another. */
  lemma ReadBack(s: string, sig: Signature, nodeNames: seq<string>, e: nat)
    requires e == |sig.node| + 6 + |AccessorText(sig.accessor)| + |JsonPath(sig.fields)|
    requires AllIdentifiers(sig.fields)
    requires sig.accessor.ItemMatching? ==> Balanced(sig.accessor.argument, 0)
    requires sig.node in nodeNames && CallNameFits(s, 0, sig.node)
    requires forall k :: 0 <= k < |nodeNames| && CallNameFits(s, 0, nodeNames[k]) ==> nodeNames[k] == sig.node
    requires StartsWithAt(s, |sig.node| + 5, "." + AccessorText(sig.accessor))
    requires StartsWithAt(s, |sig.node| + 6 + |AccessorText(sig.accessor)|, JsonPath(sig.fields))
    requires EndsAt(sig, s, e)
    ensures ReferenceAt(s, 0, nodeNames) == Some(Found(sig, e))
  {
    var a := |sig.node| + 6 + |AccessorText(sig.accessor)|;
    AccessorRead(s, sig);
    JsonFieldsAtText(s, a, sig.fields);
    ReferenceAtOf(s, nodeNames, sig, a, e);
  }

  lemma ReferenceAtOf(s: string, nodeNames: seq<string>, sig: Signature, a: nat, e: nat)
    requires NamedNode(s, 0, nodeNames) == Some(sig.node)
    requires AccessorAt(s, 0 + 5 + |sig.node|) == Some((sig.accessor, a))
    requires JsonFieldsAt(s, a).0 == sig.fields && JsonFieldsAt(s, a).1 == e
    ensures ReferenceAt(s, 0, nodeNames) == Some(Found(sig, e))
  {
  }

  lemma AccessorRead(s: string, sig: Signature)
    requires sig.accessor.ItemMatching? ==> Balanced(sig.accessor.argument, 0)
    requires StartsWithAt(s, |sig.node| + 5, "." + AccessorText(sig.accessor))
    requires StartsWithAt(s, |sig.node| + 6 + |AccessorText(sig.accessor)|, JsonPath(sig.fields))
    requires EndsAt(sig, s, |sig.node| + 6 + |AccessorText(sig.accessor)| + |JsonPath(sig.fields)|)
    ensures AccessorAt(s, 0 + 5 + |sig.node|) == Some((sig.accessor, |sig.node| + 6 + |AccessorText(sig.accessor)|))
  {
    var k := 0 + 5 + |sig.node|;
    if sig.accessor.Item? {
      ItemWordEnds(s, sig);
    }
    AccessorAtText(s, k, sig.accessor);
  }

  /** After a written `.item`, the identifier ends: a field path starts with `.`, and without
      one the reference ends there. */
  lemma ItemWordEnds(s: string, sig: Signature)
    requires sig.accessor.Item?
    requires StartsWithAt(s, |sig.node| + 6 + |AccessorText(sig.accessor)|, JsonPath(sig.fields))
    requires EndsAt(sig, s, |sig.node| + 6 + |AccessorText(sig.accessor)| + |JsonPath(sig.fields)|)
    ensures WordEndsAt(s, |sig.node| + 10)
  {
    assert |AccessorText(sig.accessor)| == 4;
    if sig.fields != [] {
      CharAt(s, |sig.node| + 10, JsonPath(sig.fields), 0);
    }
  }

  // References without a written accessor

  /** A reference written without an accessor: the call followed directly by `.json` and a
      field path, which reads through the implicit `item`. */
  function ImplicitItemText(q: char, node: string, fields: seq<string>): string {
    "$(" + [q] + node + [q] + ")" + JsonPath(fields)
  }

  /** No accessor is read where `.json` follows the call. */
  lemma NoAccessorBeforeJson(s: string, k: nat)
    requires StartsWithAt(s, k, ".json")
    ensures AccessorAt(s, k) == None
  {
    CharAt(s, k, ".json", 1);
    NotStartsWith(s, k, ".itemMatching(", 1);
    NotStartsWith(s, k, ".item", 1);
    NotStartsWith(s, k, ".first()", 1);
    NotStartsWith(s, k, ".last()", 1);
    NotStartsWith(s, k, ".all()", 1);
  }

  /** The scanner reads a reference without an accessor as the `item` accessor with the same
      fields: the signature of the same reference with `.item` written out. */
  lemma ImplicitItemRoundTrip(q: char, node: string, fields: seq<string>, rest: string, nodeNames: seq<string>)
    requires IsNameQuote(q) && fields != [] && AllIdentifiers(fields)
    requires EndsReference(Signature(node, Item, fields), rest)
    requires node in nodeNames
    requires forall k :: 0 <= k < |nodeNames| && CallNameFits(ImplicitItemText(q, node, fields) + rest, 0, nodeNames[k]) ==> nodeNames[k] == node
    ensures ReferenceAt(ImplicitItemText(q, node, fields) + rest, 0, nodeNames)
         == Some(Found(Signature(node, Item, fields), |ImplicitItemText(q, node, fields)|))
  {
    var s := ImplicitItemText(q, node, fields) + rest;
    var e := |ImplicitItemText(q, node, fields)|;
    ImplicitItemParts(q, node, fields, rest);
    RestAt(s, e, Signature(node, Item, fields), rest);
    ImplicitReadBack(s, q, node, fields, nodeNames, e);
  }

  /** The same on any text that holds the call and then the field path. */
  lemma ImplicitReadBack(s: string, q: char, node: string, fields: seq<string>, nodeNames: seq<string>, e: nat)
    requires IsNameQuote(q) && fields != [] && AllIdentifiers(fields)
    requires StartsWithAt(s, 0, "$(" + [q] + node + [q] + ")") && StartsWithAt(s, |node| + 5, ".json" + DotPath(fields))
    requires e == |node| + 5 + |JsonPath(fields)| && EndsAt(Signature(node, Item, fields), s, e)
    requires node in nodeNames
    requires forall k :: 0 <= k < |nodeNames| && CallNameFits(s, 0, nodeNames[k]) ==> nodeNames[k] == node
    ensures ReferenceAt(s, 0, nodeNames) == Some(Found(Signature(node, Item, fields), e))
  {
    var k := |node| + 5;
    NamedCall(s, q, node, nodeNames);
    assert AccessorAt(s, k) == None by {
      SplitAt(s, k, ".json", DotPath(fields));
      NoAccessorBeforeJson(s, k);
    }
    assert JsonFieldsAt(s, k) == (fields, e) by {
      assert JsonPath(fields) == ".json" + DotPath(fields);
      JsonFieldsAtText(s, k, fields);
    }
    ImplicitReferenceAtOf(s, nodeNames, node, fields, e);
  }

  /** The call at the start of `s` names `node` when no other listed name fits it. */
  lemma NamedCall(s: string, q: char, node: string, nodeNames: seq<string>)
    requires IsNameQuote(q) && StartsWithAt(s, 0, "$(" + [q] + node + [q] + ")") && node in nodeNames
    requires forall k :: 0 <= k < |nodeNames| && CallNameFits(s, 0, nodeNames[k]) ==> nodeNames[k] == node
    ensures NamedNode(s, 0, nodeNames) == Some(node)
  {
    CallFits(s, q, node);
  }

  lemma ImplicitItemParts(q: char, node: string, fields: seq<string>, rest: string)
    requires fields != []
    ensures StartsWithAt(ImplicitItemText(q, node, fields) + rest, 0, "$(" + [q] + node + [q] + ")")
    ensures StartsWithAt(ImplicitItemText(q, node, fields) + rest, |node| + 5, ".json" + DotPath(fields))
    ensures StartsWithAt(ImplicitItemText(q, node, fields) + rest, |ImplicitItemText(q, node, fields)|, rest)
    ensures |ImplicitItemText(q, node, fields)| == |node| + 5 + |JsonPath(fields)|
    ensures |ImplicitItemText(q, node, fields) + rest| == |ImplicitItemText(q, node, fields)| + |rest|
  {
    var call := "$(" + [q] + node + [q] + ")";
    var j := JsonPath(fields);
    assert j == ".json" + DotPath(fields);
    assert |call| == |node| + 5;
    ThreeParts(call, j, rest);
  }

  lemma ThreeParts(a: string, b: string, c: string)
    ensures StartsWithAt(a + b + c, 0, a) && StartsWithAt(a + b + c, |a|, b) && StartsWithAt(a + b + c, |a + b|, c)
    ensures |a + b + c| == |a + b| + |c| && |a + b| == |a| + |b|
  {
    assert (a + b + c)[..|a|] == a;
    assert (a + b + c)[|a|..|a| + |b|] == b;
    assert (a + b + c)[|a + b|..] == c;
  }

  lemma ImplicitReferenceAtOf(s: string, nodeNames: seq<string>, node: string, fields: seq<string>, e: nat)
    requires NamedNode(s, 0, nodeNames) == Some(node) && |node| + 5 <= |s|
    requires AccessorAt(s, |node| + 5) == None
    requires JsonFieldsAt(s, |node| + 5) == (fields, e) && fields != []
    ensures ReferenceAt(s, 0, nodeNames) == Some(Found(Signature(node, Item, fields), e))
  {
  }
}
