/** `extractReferencesInNodeExpressions(nodes, nodeNames, startNodeName)`: the nodes of a
    subgraph about to become a sub-workflow have every reference to a node outside the subgraph
    replaced by a read of a variable from the new start node, and the variables are collected in
    the order they were first seen, each with the reference text it stands for. */
module ReferenceExtractor {
  import opened Wrappers
  import opened Text
  import opened ReferenceScanner
  import opened ReferenceSyntax
  import opened VariableNames

  /** A parameter's value: a string, which is scanned, or any other value, which is kept. */
  datatype ParameterValue = StringValue(s: string) | OtherValue

  datatype Parameter = Parameter(key: string, value: ParameterValue)

  datatype Node = Node(name: string, parameters: seq<Parameter>)

  /** The rewritten nodes and the ordered map of variables (name and original text). */
  datatype Extraction = Extraction(nodes: seq<Node>, variables: seq<Variable>)

  datatype ExtractError =
    | StartNameClash(name: string)  // a subgraph node already has the start node's name
    | UnknownNode(name: string)     // a subgraph node is missing from the list of node names

  /** What the scan needs besides the text: every node name, the subgraph's node names and the
      name of the start node. */
  datatype Context = Context(nodeNames: seq<string>, subgraph: set<string>, startNodeName: string)

  function NamesOf(nodes: seq<Node>): set<string> {
    set k | 0 <= k < |nodes| :: nodes[k].name
  }

  // The specification

  /** A reference at the start of `s` to a node outside the subgraph. */
  function ExternalAt(s: string, ctx: Context): (r: Option<Found>)
    ensures r.Some? ==> 0 < r.value.end <= |s| && r.value.sig.node !in ctx.subgraph
  {
    match ReferenceAt(s, 0, ctx.nodeNames)
    case Some(f) => if f.sig.node in ctx.subgraph then None else Some(f)
    case None => None
  }

  /** The text with every external reference replaced, scanning from left to right: a reference
      to a subgraph node is copied whole and the scan resumes after it, an external reference is
      replaced and the scan resumes after it, and any other character is copied. The table names
      the external references. */
  function Rewritten(s: string, ctx: Context, t: Table): (string, Table)
    decreases |s|
  {
    if s == [] then ([], t)
    else
      match ReferenceAt(s, 0, ctx.nodeNames)
      case Some(f) =>
        if f.sig.node in ctx.subgraph then
          var (rest, t1) := Rewritten(s[f.end..], ctx, t);
          (s[..f.end] + rest, t1)
        else
          var (name, t1) := ResolveIn(t, f.sig, s[..f.end]);
          var (rest, t2) := Rewritten(s[f.end..], ctx, t1);
          (Replacement(ctx.startNodeName, f.sig.accessor, name) + rest, t2)
      case None =>
        var (rest, t1) := Rewritten(s[1..], ctx, t);
        ([s[0]] + rest, t1)
  }

  /** One step of the scan at an external reference: it is replaced and the scan resumes after
      it with the table that names it. */
  lemma RewriteExternalStep(s: string, ctx: Context, t: Table, f: Found)
    requires ExternalAt(s, ctx) == Some(f)
    ensures var (name, t1) := ResolveIn(t, f.sig, s[..f.end]);
      Rewritten(s, ctx, t)
      == (Replacement(ctx.startNodeName, f.sig.accessor, name) + Rewritten(s[f.end..], ctx, t1).0, Rewritten(s[f.end..], ctx, t1).1)
  {
  }

  /** One step of the scan at a reference to a subgraph node: the whole reference is kept as it
      is, nothing inside it is scanned, and nothing is named. */
  lemma InternalReferenceKept(s: string, ctx: Context, t: Table, f: Found)
    requires ReferenceAt(s, 0, ctx.nodeNames) == Some(f) && f.sig.node in ctx.subgraph
    ensures Rewritten(s, ctx, t) == (s[..f.end] + Rewritten(s[f.end..], ctx, t).0, Rewritten(s[f.end..], ctx, t).1)
  {
  }

  /** One step of the scan where no reference starts: the character is copied. */
  lemma RewriteCopyStep(s: string, ctx: Context, t: Table)
    requires s != [] && ReferenceAt(s, 0, ctx.nodeNames).None?
    ensures Rewritten(s, ctx, t) == ([s[0]] + Rewritten(s[1..], ctx, t).0, Rewritten(s[1..], ctx, t).1)
  {
  }

  function RewriteValue(v: ParameterValue, ctx: Context, t: Table): (ParameterValue, Table) {
    match v
    case StringValue(s) =>
      var (s', t') := Rewritten(s, ctx, t);
      (StringValue(s'), t')
    case OtherValue => (v, t)
  }

  /** The parameters in order, the table threaded from one to the next. */
  function RewriteParameters(ps: seq<Parameter>, ctx: Context, t: Table): (seq<Parameter>, Table) {
    if ps == [] then ([], t)
    else
      var (v, t1) := RewriteValue(ps[0].value, ctx, t);
      var (rest, t2) := RewriteParameters(ps[1..], ctx, t1);
      ([Parameter(ps[0].key, v)] + rest, t2)
  }

  /** The nodes in order, the table threaded from one to the next. */
  function RewriteNodes(nodes: seq<Node>, ctx: Context, t: Table): (seq<Node>, Table) {
    if nodes == [] then ([], t)
    else
      var (ps, t1) := RewriteParameters(nodes[0].parameters, ctx, t);
      var (rest, t2) := RewriteNodes(nodes[1..], ctx, t1);
      ([Node(nodes[0].name, ps)] + rest, t2)
  }

  /** The first subgraph node whose name is not among `nodeNames`. */
  function FirstUnknown(nodes: seq<Node>, nodeNames: seq<string>): (r: Option<string>)
    ensures r.None? <==> forall k :: 0 <= k < |nodes| ==> nodes[k].name in nodeNames
    ensures r.Some? ==> r.value !in nodeNames && exists k :: 0 <= k < |nodes| && nodes[k].name == r.value
  {
    if nodes == [] then None
    else if nodes[0].name !in nodeNames then Some(nodes[0].name)
    else
      var r := FirstUnknown(nodes[1..], nodeNames);
      assert forall k :: 1 <= k < |nodes| ==> nodes[k] == nodes[1..][k - 1];
      r
  }

  /** The whole extraction: the start-name clash is checked first, then the node names, and
      only then is anything rewritten. */
  function Extract(nodes: seq<Node>, nodeNames: seq<string>, startNodeName: string): Result<Extraction, ExtractError> {
    if startNodeName in NamesOf(nodes) then Failure(StartNameClash(startNodeName))
    else
      match FirstUnknown(nodes, nodeNames)
      case Some(name) => Failure(UnknownNode(name))
      case None =>
        var (rewritten, t) := RewriteNodes(nodes, Context(nodeNames, NamesOf(nodes), startNodeName), EmptyTable);
        Success(Extraction(rewritten, t.vars))
  }

  // The implementation: loops over the nodes, their parameters and each text

  /** One step of the scan at the start of `s`: the replacement of the external reference
      starting there, the internal reference starting there, or the character itself, and the
      length of text consumed. */
  method RewriteStep(s: string, ctx: Context, table: VariableTable) returns (piece: string, n: nat)
    requires s != []
    modifies table
    ensures 0 < n <= |s|
    ensures Rewritten(s, ctx, old(table.State()))
         == (piece + Rewritten(s[n..], ctx, table.State()).0, Rewritten(s[n..], ctx, table.State()).1)
  {
    ghost var t0 := table.State();
    var found := ReferenceAt(s, 0, ctx.nodeNames);
    if found.Some? && found.value.sig.node in ctx.subgraph {
      var f := found.value;
      InternalReferenceKept(s, ctx, t0, f);
      piece, n := s[..f.end], f.end;
    } else if found.Some? {
      var f := found.value;
      RewriteExternalStep(s, ctx, t0, f);
      var name := table.Resolve(f.sig, s[..f.end]);
      piece, n := Replacement(ctx.startNodeName, f.sig.accessor, name), f.end;
    } else {
      RewriteCopyStep(s, ctx, t0);
      piece, n := [s[0]], 1;
    }
  }

  /** One text scanned from left to right, naming references through the shared table. */
  method RewriteText(s: string, ctx: Context, table: VariableTable) returns (r: string)
    modifies table
    ensures (r, table.State()) == Rewritten(s, ctx, old(table.State()))
  {
    ghost var goal := Rewritten(s, ctx, table.State());
    r := [];
    var i := 0;
    assert s[i..] == s;
    while i < |s|
      invariant i <= |s|
      invariant r + Rewritten(s[i..], ctx, table.State()).0 == goal.0
      invariant Rewritten(s[i..], ctx, table.State()).1 == goal.1
      decreases |s| - i
    {
      var piece, n := RewriteStep(s[i..], ctx, table);
      assert s[i..][n..] == s[i + n..];
      r, i := r + piece, i + n;
    }
    assert Rewritten(s[i..], ctx, table.State()) == ([], table.State());
    assert r == goal.0 && table.State() == goal.1;
  }

  /** A parameter's value: a string is scanned, any other value is kept. */
  method RewriteParameterValue(v: ParameterValue, ctx: Context, table: VariableTable) returns (r: ParameterValue)
    modifies table
    ensures (r, table.State()) == RewriteValue(v, ctx, old(table.State()))
  {
    r := v;
    if v.StringValue? {
      var s' := RewriteText(v.s, ctx, table);
      r := StringValue(s');
    }
  }

  lemma ParametersStep(ps: seq<Parameter>, ctx: Context, t: Table)
    requires ps != []
    ensures var (v, t1) := RewriteValue(ps[0].value, ctx, t);
      RewriteParameters(ps, ctx, t)
      == ([Parameter(ps[0].key, v)] + RewriteParameters(ps[1..], ctx, t1).0, RewriteParameters(ps[1..], ctx, t1).1)
  {
  }

  /** Every parameter of one node, in order. */
  method RewriteNodeParameters(ps: seq<Parameter>, ctx: Context, table: VariableTable) returns (r: seq<Parameter>)
    modifies table
    ensures (r, table.State()) == RewriteParameters(ps, ctx, old(table.State()))
  {
    ghost var goal := RewriteParameters(ps, ctx, table.State());
    r := [];
    var k := 0;
    while k < |ps|
      invariant k <= |ps|
      invariant r + RewriteParameters(ps[k..], ctx, table.State()).0 == goal.0
      invariant RewriteParameters(ps[k..], ctx, table.State()).1 == goal.1
    {
      ParametersStep(ps[k..], ctx, table.State());
      assert ps[k..][0] == ps[k] && ps[k..][1..] == ps[k + 1..];
      var v := RewriteParameterValue(ps[k].value, ctx, table);
      r := r + [Parameter(ps[k].key, v)];
      k := k + 1;
    }
    assert RewriteParameters(ps[k..], ctx, table.State()) == ([], table.State());
    assert r == goal.0 && table.State() == goal.1;
  }

  lemma NodesStep(nodes: seq<Node>, ctx: Context, t: Table)
    requires nodes != []
    ensures var (ps, t1) := RewriteParameters(nodes[0].parameters, ctx, t);
      RewriteNodes(nodes, ctx, t)
      == ([Node(nodes[0].name, ps)] + RewriteNodes(nodes[1..], ctx, t1).0, RewriteNodes(nodes[1..], ctx, t1).1)
  {
  }

  /** `extractReferencesInNodeExpressions`. */
  method ExtractReferencesInNodeExpressions(nodes: seq<Node>, nodeNames: seq<string>, startNodeName: string)
    returns (r: Result<Extraction, ExtractError>)
    ensures r == Extract(nodes, nodeNames, startNodeName)
  {
    var k := 0;
    while k < |nodes|
      invariant k <= |nodes|
      invariant forall j :: 0 <= j < k ==> nodes[j].name != startNodeName
    {
      if nodes[k].name == startNodeName {
        return Failure(StartNameClash(startNodeName));
      }
      k := k + 1;
    }
    k := 0;
    while k < |nodes|
      invariant k <= |nodes|
      invariant FirstUnknown(nodes, nodeNames) == FirstUnknown(nodes[k..], nodeNames)
    {
      assert nodes[k..][1..] == nodes[k + 1..];
      if nodes[k].name !in nodeNames {
        return Failure(UnknownNode(nodes[k].name));
      }
      k := k + 1;
    }
    assert nodes[k..] == [];
    var subgraph := set j | 0 <= j < |nodes| :: nodes[j].name;
    var ctx := Context(nodeNames, subgraph, startNodeName);
    var table := new VariableTable();
    ghost var goal := RewriteNodes(nodes, ctx, EmptyTable);
    var rewritten := [];
    k := 0;
    while k < |nodes|
      invariant k <= |nodes|
      invariant rewritten + RewriteNodes(nodes[k..], ctx, table.State()).0 == goal.0
      invariant RewriteNodes(nodes[k..], ctx, table.State()).1 == goal.1
    {
      NodesStep(nodes[k..], ctx, table.State());
      assert nodes[k..][0] == nodes[k] && nodes[k..][1..] == nodes[k + 1..];
      var ps := RewriteNodeParameters(nodes[k].parameters, ctx, table);
      rewritten := rewritten + [Node(nodes[k].name, ps)];
      k := k + 1;
    }
    assert RewriteNodes(nodes[k..], ctx, table.State()) == ([], table.State());
    assert rewritten == goal.0 && table.vars == goal.1.vars;
    return Success(Extraction(rewritten, table.vars));
  }

  // Properties of the extraction

  /** The extraction fails exactly when a subgraph node has the start node's name or is missing
      from the list of node names, and the clash is the error reported when both happen. */
  lemma ExtractFails(nodes: seq<Node>, nodeNames: seq<string>, startNodeName: string)
    ensures Extract(nodes, nodeNames, startNodeName).Failure?
        <==> exists k :: 0 <= k < |nodes| && (nodes[k].name == startNodeName || nodes[k].name !in nodeNames)
    ensures Extract(nodes, nodeNames, startNodeName) == Failure(StartNameClash(startNodeName))
        <==> exists k :: 0 <= k < |nodes| && nodes[k].name == startNodeName
    ensures Extract(nodes, nodeNames, startNodeName).Failure? && Extract(nodes, nodeNames, startNodeName).error.UnknownNode? ==>
              var name := Extract(nodes, nodeNames, startNodeName).error.name;
              name !in nodeNames && name in NamesOf(nodes) && startNodeName !in NamesOf(nodes)
  {
    if exists k :: 0 <= k < |nodes| && nodes[k].name == startNodeName {
      var k :| 0 <= k < |nodes| && nodes[k].name == startNodeName;
      assert startNodeName in NamesOf(nodes);
    }
  }

  /** `t2` extends `t1`: the variables only grew at the end and every binding is kept. */
  ghost predicate Extends(t1: Table, t2: Table) {
    t1.vars <= t2.vars && forall sig :: sig in t1.nameOf ==> sig in t2.nameOf && t2.nameOf[sig] == t1.nameOf[sig]
  }

  lemma ExtendsTransitive(t1: Table, t2: Table, t3: Table)
    requires Extends(t1, t2) && Extends(t2, t3)
    ensures Extends(t1, t3)
  {
  }

  lemma {:induction false} RewrittenValid(s: string, ctx: Context, t: Table)
    requires Valid(t)
    ensures Valid(Rewritten(s, ctx, t).1) && Extends(t, Rewritten(s, ctx, t).1)
    decreases |s|
  {
    if s != [] {
      match ReferenceAt(s, 0, ctx.nodeNames)
      case Some(f) =>
        if f.sig.node in ctx.subgraph {
          InternalReferenceKept(s, ctx, t, f);
          RewrittenValid(s[f.end..], ctx, t);
        } else {
          var t1 := ResolveIn(t, f.sig, s[..f.end]).1;
          RewriteExternalStep(s, ctx, t, f);
          ResolveValid(t, f.sig, s[..f.end]);
          RewrittenValid(s[f.end..], ctx, t1);
          var t2 := Rewritten(s[f.end..], ctx, t1).1;
          assert Rewritten(s, ctx, t).1 == t2;
          ExtendsTransitive(t, t1, t2);
        }
      case None =>
        RewriteCopyStep(s, ctx, t);
        RewrittenValid(s[1..], ctx, t);
        assert Rewritten(s, ctx, t).1 == Rewritten(s[1..], ctx, t).1;
    }
  }

  lemma {:induction false} RewriteParametersValid(ps: seq<Parameter>, ctx: Context, t: Table)
    requires Valid(t)
    ensures Valid(RewriteParameters(ps, ctx, t).1) && Extends(t, RewriteParameters(ps, ctx, t).1)
  {
    if ps != [] {
      var t1 := RewriteValue(ps[0].value, ctx, t).1;
      if ps[0].value.StringValue? {
        RewrittenValid(ps[0].value.s, ctx, t);
      }
      RewriteParametersValid(ps[1..], ctx, t1);
    }
  }

  lemma {:induction false} RewriteNodesValid(nodes: seq<Node>, ctx: Context, t: Table)
    requires Valid(t)
    ensures Valid(RewriteNodes(nodes, ctx, t).1) && Extends(t, RewriteNodes(nodes, ctx, t).1)
  {
    if nodes != [] {
      RewriteParametersValid(nodes[0].parameters, ctx, t);
      RewriteNodesValid(nodes[1..], ctx, RewriteParameters(nodes[0].parameters, ctx, t).1);
    }
  }

  /** The extracted variables have pairwise distinct names. */
  lemma ExtractedNamesDistinct(nodes: seq<Node>, nodeNames: seq<string>, startNodeName: string)
    requires Extract(nodes, nodeNames, startNodeName).Success?
    ensures var vs := Extract(nodes, nodeNames, startNodeName).value.variables;
      forall i, j :: 0 <= i < j < |vs| ==> vs[i].name != vs[j].name
  {
    EmptyTableValid();
    RewriteNodesValid(nodes, Context(nodeNames, NamesOf(nodes), startNodeName), EmptyTable);
  }

  /** No external reference starts anywhere in `s`. */
  predicate NoExternal(s: string, ctx: Context) {
    forall j :: 0 <= j < |s| ==> ExternalAt(s[j..], ctx).None?
  }

  lemma NoExternalInSuffix(s: string, ctx: Context, k: nat)
    requires NoExternal(s, ctx) && k <= |s|
    ensures NoExternal(s[k..], ctx)
  {
    forall j | 0 <= j < |s[k..]| ensures ExternalAt(s[k..][j..], ctx).None? {
      assert s[k..][j..] == s[k + j..];
    }
  }

  /** A text without external references is kept as it is, and names nothing. */
  lemma {:induction false} NoExternalKept(s: string, ctx: Context, t: Table)
    requires NoExternal(s, ctx)
    ensures Rewritten(s, ctx, t) == (s, t)
    decreases |s|
  {
    if s != [] {
      assert s[0..] == s;
      match ReferenceAt(s, 0, ctx.nodeNames)
      case Some(f) =>
        assert f.sig.node in ctx.subgraph by { assert ExternalAt(s[0..], ctx).None?; }
        InternalReferenceKept(s, ctx, t, f);
        NoExternalInSuffix(s, ctx, f.end);
        NoExternalKept(s[f.end..], ctx, t);
        assert s[..f.end] + s[f.end..] == s;
      case None =>
        RewriteCopyStep(s, ctx, t);
        NoExternalInSuffix(s, ctx, 1);
        NoExternalKept(s[1..], ctx, t);
        assert [s[0]] + s[1..] == s;
    }
  }

  /** Every string parameter of every node is free of external references. */
  predicate NoExternalIn(nodes: seq<Node>, ctx: Context) {
    forall k, m :: 0 <= k < |nodes| && 0 <= m < |nodes[k].parameters| && nodes[k].parameters[m].value.StringValue? ==>
      NoExternal(nodes[k].parameters[m].value.s, ctx)
  }

  lemma {:induction false} NoExternalParametersKept(ps: seq<Parameter>, ctx: Context, t: Table)
    requires forall m :: 0 <= m < |ps| && ps[m].value.StringValue? ==> NoExternal(ps[m].value.s, ctx)
    ensures RewriteParameters(ps, ctx, t) == (ps, t)
  {
    if ps != [] {
      if ps[0].value.StringValue? {
        NoExternalKept(ps[0].value.s, ctx, t);
      }
      NoExternalParametersKept(ps[1..], ctx, t);
      assert [ps[0]] + ps[1..] == ps;
    }
  }

  lemma {:induction false} NoExternalNodesKept(nodes: seq<Node>, ctx: Context, t: Table)
    requires NoExternalIn(nodes, ctx)
    ensures RewriteNodes(nodes, ctx, t) == (nodes, t)
  {
    if nodes != [] {
      NoExternalParametersKept(nodes[0].parameters, ctx, t);
      assert NoExternalIn(nodes[1..], ctx) by {
        forall k, m | 0 <= k < |nodes[1..]| && 0 <= m < |nodes[1..][k].parameters| && nodes[1..][k].parameters[m].value.StringValue?
          ensures NoExternal(nodes[1..][k].parameters[m].value.s, ctx)
        {
          assert nodes[1..][k] == nodes[k + 1];
        }
      }
      NoExternalNodesKept(nodes[1..], ctx, t);
      assert [nodes[0]] + nodes[1..] == nodes;
    }
  }

  /** A subgraph that refers to no node outside itself is extracted unchanged, with no
      variables. */
  lemma NoExternalExtractsNothing(nodes: seq<Node>, nodeNames: seq<string>, startNodeName: string)
    requires Extract(nodes, nodeNames, startNodeName).Success?
    requires NoExternalIn(nodes, Context(nodeNames, NamesOf(nodes), startNodeName))
    ensures Extract(nodes, nodeNames, startNodeName) == Success(Extraction(nodes, []))
  {
    NoExternalNodesKept(nodes, Context(nodeNames, NamesOf(nodes), startNodeName), EmptyTable);
  }

  // Written references inside a text

  /** Text in which no call can start is copied, and what follows it is scanned as if it stood
      alone. */
  lemma {:induction false} CallFreePrefixKept(a: string, b: string, ctx: Context, t: Table)
    requires NoCallIn(a)
    ensures Rewritten(a + b, ctx, t) == (a + Rewritten(b, ctx, t).0, Rewritten(b, ctx, t).1)
    decreases |a|
  {
    var r := Rewritten(b, ctx, t);
    if a == [] {
      assert a + b == b && a + r.0 == r.0;
    } else {
      NoCallNoReference(a, b, ctx.nodeNames);
      RewriteCopyStep(a + b, ctx, t);
      assert (a + b)[0] == a[0] && (a + b)[1..] == a[1..] + b;
      NoCallInTail(a);
      CallFreePrefixKept(a[1..], b, ctx, t);
      HeadThenTail(a, r.0);
    }
  }

  /** Dropping the first character keeps a text free of calls. */
  lemma NoCallInTail(a: string)
    requires NoCallIn(a) && a != []
    ensures NoCallIn(a[1..])
  {
    forall j | 0 <= j < |a[1..]| && a[1..][j] == '$' ensures j + 1 < |a[1..]| && a[1..][j + 1] != '(' {
      assert a[1..][j] == a[j + 1];
    }
  }

  /** A text in which no call can start is kept as it is, and names nothing. */
  lemma CallFreeKept(a: string, ctx: Context, t: Table)
    requires NoCallIn(a)
    ensures Rewritten(a, ctx, t) == (a, t)
  {
    CallFreePrefixKept(a, [], ctx, t);
    assert a + [] == a;
  }

  /** What the scanner needs to read a reference written with quote `q` back whole when `rest`
      follows it: the reference is well formed, names a listed node, nothing in `rest` extends
      it, and no listed node name holds the quote. */
  predicate ReadsBack(q: char, sig: Signature, rest: string, nodeNames: seq<string>) {
    && IsNameQuote(q) && AllIdentifiers(sig.fields)
    && (sig.accessor.ItemMatching? ==> Balanced(sig.accessor.argument, 0))
    && EndsReference(sig, rest) && sig.node in nodeNames
    && forall k :: 0 <= k < |nodeNames| ==> q !in nodeNames[k]
  }

  lemma ReadsBackWhole(q: char, sig: Signature, rest: string, nodeNames: seq<string>)
    requires ReadsBack(q, sig, rest, nodeNames)
    ensures ReferenceAt(ReferenceText(q, sig) + rest, 0, nodeNames) == Some(Found(sig, |ReferenceText(q, sig)|))
    ensures (ReferenceText(q, sig) + rest)[..|ReferenceText(q, sig)|] == ReferenceText(q, sig)
    ensures (ReferenceText(q, sig) + rest)[|ReferenceText(q, sig)|..] == rest
  {
    var s := ReferenceText(q, sig) + rest;
    ReferenceParts(q, sig, rest);
    CallFits(s, q, sig.node);
    forall k | 0 <= k < |nodeNames| && CallNameFits(s, 0, nodeNames[k]) ensures nodeNames[k] == sig.node {
      OnlyCallName(s, 0, nodeNames[k], sig.node);
    }
    ReferenceRoundTrip(q, sig, rest, nodeNames);
  }

  /** A written reference to a node outside the subgraph is replaced by a read of its variable
      from the start node, and the scan goes on after it. */
  lemma ExternalReferenceReplaced(q: char, sig: Signature, rest: string, ctx: Context, t: Table)
    requires ReadsBack(q, sig, rest, ctx.nodeNames) && sig.node !in ctx.subgraph
    ensures var (name, t1) := ResolveIn(t, sig, ReferenceText(q, sig));
      Rewritten(ReferenceText(q, sig) + rest, ctx, t)
      == (Replacement(ctx.startNodeName, sig.accessor, name) + Rewritten(rest, ctx, t1).0, Rewritten(rest, ctx, t1).1)
  {
    var s := ReferenceText(q, sig) + rest;
    ReadsBackWhole(q, sig, rest, ctx.nodeNames);
    RewriteExternalStep(s, ctx, t, Found(sig, |ReferenceText(q, sig)|));
  }

  /** A written reference to a subgraph node is copied unchanged, and the scan goes on after it. */
  lemma InternalReferenceCopied(q: char, sig: Signature, rest: string, ctx: Context, t: Table)
    requires ReadsBack(q, sig, rest, ctx.nodeNames) && sig.node in ctx.subgraph
    ensures Rewritten(ReferenceText(q, sig) + rest, ctx, t)
         == (ReferenceText(q, sig) + Rewritten(rest, ctx, t).0, Rewritten(rest, ctx, t).1)
  {
    var s := ReferenceText(q, sig) + rest;
    ReadsBackWhole(q, sig, rest, ctx.nodeNames);
    InternalReferenceKept(s, ctx, t, Found(sig, |ReferenceText(q, sig)|));
  }

  /** A reference written without an accessor, followed by text that does not extend it, is
      found whole at the start of the text. */
  lemma ImplicitReadsWhole(q: char, node: string, fields: seq<string>, rest: string, nodeNames: seq<string>)
    requires IsNameQuote(q) && fields != [] && AllIdentifiers(fields)
    requires EndsReference(Signature(node, Item, fields), rest) && node in nodeNames
    requires forall k :: 0 <= k < |nodeNames| ==> q !in nodeNames[k]
    ensures ReferenceAt(ImplicitItemText(q, node, fields) + rest, 0, nodeNames)
         == Some(Found(Signature(node, Item, fields), |ImplicitItemText(q, node, fields)|))
    ensures (ImplicitItemText(q, node, fields) + rest)[..|ImplicitItemText(q, node, fields)|] == ImplicitItemText(q, node, fields)
    ensures (ImplicitItemText(q, node, fields) + rest)[|ImplicitItemText(q, node, fields)|..] == rest
  {
    var s := ImplicitItemText(q, node, fields) + rest;
    ImplicitItemParts(q, node, fields, rest);
    CallFits(s, q, node);
    forall k | 0 <= k < |nodeNames| && CallNameFits(s, 0, nodeNames[k]) ensures nodeNames[k] == node {
      OnlyCallName(s, 0, nodeNames[k], node);
    }
    ImplicitItemRoundTrip(q, node, fields, rest, nodeNames);
  }

  /** A reference written without an accessor is replaced like the same reference with `.item`
      written out: it reads the `item` accessor's variable from the start node. */
  lemma ImplicitReferenceReplaced(q: char, node: string, fields: seq<string>, rest: string, ctx: Context, t: Table)
    requires IsNameQuote(q) && fields != [] && AllIdentifiers(fields)
    requires EndsReference(Signature(node, Item, fields), rest)
    requires node in ctx.nodeNames && node !in ctx.subgraph
    requires forall k :: 0 <= k < |ctx.nodeNames| ==> q !in ctx.nodeNames[k]
    ensures var (name, t1) := ResolveIn(t, Signature(node, Item, fields), ImplicitItemText(q, node, fields));
      Rewritten(ImplicitItemText(q, node, fields) + rest, ctx, t)
      == (Replacement(ctx.startNodeName, Item, name) + Rewritten(rest, ctx, t1).0, Rewritten(rest, ctx, t1).1)
  {
    var x := ImplicitItemText(q, node, fields);
    ImplicitReadsWhole(q, node, fields, rest, ctx.nodeNames);
    RewriteExternalStep(x + rest, ctx, t, Found(Signature(node, Item, fields), |x|));
  }
}
