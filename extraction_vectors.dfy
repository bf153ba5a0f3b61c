/** The extraction examples of the node-reference utilities' unit tests
    (`packages/workflow/test/NodeReferenceParserUtils.test.ts`), each proved through `Extract`
    from the general lemmas about written references. The tests build every parameter with
    `makeNode`, which wraps an expression `x` as `={{ x }}` under the keys `p0`, `p1`, ...

    The many small lemmas that only spell a literal (`HeadAItem`, `OutHeadFirst`, `SpelledOutGap`,
    ...) are there to keep the solver's work small: each joins or splits one literal string on
    its own, so that the lemmas assembling a vector never compute with long literals. */
module ExtractionVectors {
  import opened Wrappers
  import opened Text
  import opened ReferenceScanner
  import opened ReferenceSyntax
  import opened VariableNames
  import opened ReferenceExtractor
  import opened NamingVectors

  /** The parameter text `makeNode` builds for the expression `x`. */
  function Wrapped(x: string): string {
    "={{ " + x + " }}"
  }

  /** A parameter as `makeNode` builds it. */
  function Made(key: string, x: string): Parameter {
    Parameter(key, StringValue(Wrapped(x)))
  }

  /** A parameter holding the text `s`. */
  function Holding(key: string, s: string): Parameter {
    Parameter(key, StringValue(s))
  }

  // A text holding one reference between two pieces in which no call starts

  /** An external reference is replaced, and the text around it is kept. */
  lemma EmbeddedExternal(a: string, q: char, sig: Signature, b: string, ctx: Context, t: Table)
    requires NoCallIn(a) && NoCallIn(b)
    requires ReadsBack(q, sig, b, ctx.nodeNames) && sig.node !in ctx.subgraph
    ensures var (name, t1) := ResolveIn(t, sig, ReferenceText(q, sig));
      Rewritten(a + ReferenceText(q, sig) + b, ctx, t) == (a + Replacement(ctx.startNodeName, sig.accessor, name) + b, t1)
  {
    var x := ReferenceText(q, sig);
    var (name, t1) := ResolveIn(t, sig, x);
    var y := Replacement(ctx.startNodeName, sig.accessor, name);
    CallFreeKept(b, ctx, t1);
    ExternalReferenceReplaced(q, sig, b, ctx, t);
    assert Rewritten(x + b, ctx, t) == (y + b, t1);
    CallFreePrefixKept(a, x + b, ctx, t);
    assert Rewritten(a + (x + b), ctx, t) == (a + (y + b), t1);
    assert a + x + b == a + (x + b) && a + (y + b) == a + y + b;
  }

  /** A reference to a subgraph node is kept with the text around it, and nothing is named. */
  lemma EmbeddedInternal(a: string, q: char, sig: Signature, b: string, ctx: Context, t: Table)
    requires NoCallIn(a) && NoCallIn(b)
    requires ReadsBack(q, sig, b, ctx.nodeNames) && sig.node in ctx.subgraph
    ensures Rewritten(a + ReferenceText(q, sig) + b, ctx, t) == (a + ReferenceText(q, sig) + b, t)
  {
    var x := ReferenceText(q, sig);
    assert a + x + b == a + (x + b);
    CallFreePrefixKept(a, x + b, ctx, t);
    InternalReferenceCopied(q, sig, b, ctx, t);
    CallFreeKept(b, ctx, t);
  }

  /** The table after `name` is bound to the reference `sig`, written `x`. */
  function Bound(t: Table, sig: Signature, name: string, x: string): Table {
    Table(t.vars + [Variable(name, x)], t.nameOf[sig := name], t.sigOf[name := sig])
  }

  /** An external reference seen for the first time: the first free candidate is bound. */
  lemma FreshExternal(a: string, q: char, sig: Signature, b: string, ctx: Context, t: Table, x: string, name: string, y: string)
    requires NoCallIn(a) && NoCallIn(b)
    requires ReadsBack(q, sig, b, ctx.nodeNames) && sig.node !in ctx.subgraph
    requires x == ReferenceText(q, sig) && y == a + Replacement(ctx.startNodeName, sig.accessor, name) + b
    requires sig !in t.nameOf && name == FreshName(Key(sig), PrefixedKey(sig), Taken(t))
    ensures Rewritten(a + x + b, ctx, t) == (y, Bound(t, sig, name, x))
  {
    EmbeddedExternal(a, q, sig, b, ctx, t);
  }

  /** An external reference seen before: its variable is read again and nothing is bound. */
  lemma ReusedExternal(a: string, q: char, sig: Signature, b: string, ctx: Context, t: Table, x: string, name: string, y: string)
    requires NoCallIn(a) && NoCallIn(b)
    requires ReadsBack(q, sig, b, ctx.nodeNames) && sig.node !in ctx.subgraph
    requires x == ReferenceText(q, sig) && y == a + Replacement(ctx.startNodeName, sig.accessor, name) + b
    requires sig in t.nameOf && name == t.nameOf[sig]
    ensures Rewritten(a + x + b, ctx, t) == (y, t)
  {
    EmbeddedExternal(a, q, sig, b, ctx, t);
  }

  lemma WrapperCallFree()
    ensures NoCallIn("={{ ") && NoCallIn(" }}")
  {
  }

  /** `makeNode`'s text for an external reference seen for the first time. */
  lemma WrappedFresh(q: char, sig: Signature, ctx: Context, t: Table, x: string, name: string, y: string)
    requires ReadsBack(q, sig, " }}", ctx.nodeNames) && sig.node !in ctx.subgraph
    requires x == ReferenceText(q, sig) && y == Wrapped(Replacement(ctx.startNodeName, sig.accessor, name))
    requires sig !in t.nameOf && name == FreshName(Key(sig), PrefixedKey(sig), Taken(t))
    ensures Rewritten(Wrapped(x), ctx, t) == (y, Bound(t, sig, name, x))
  {
    WrapperCallFree();
    FreshExternal("={{ ", q, sig, " }}", ctx, t, x, name, y);
  }

  /** `makeNode`'s text for an external reference seen before. */
  lemma WrappedReused(q: char, sig: Signature, ctx: Context, t: Table, x: string, name: string, y: string)
    requires ReadsBack(q, sig, " }}", ctx.nodeNames) && sig.node !in ctx.subgraph
    requires x == ReferenceText(q, sig) && y == Wrapped(Replacement(ctx.startNodeName, sig.accessor, name))
    requires sig in t.nameOf && name == t.nameOf[sig]
    ensures Rewritten(Wrapped(x), ctx, t) == (y, t)
  {
    WrapperCallFree();
    ReusedExternal("={{ ", q, sig, " }}", ctx, t, x, name, y);
  }

  /** `makeNode`'s text for a reference to a subgraph node. */
  lemma WrappedKept(q: char, sig: Signature, ctx: Context, t: Table, x: string)
    requires ReadsBack(q, sig, " }}", ctx.nodeNames) && sig.node in ctx.subgraph
    requires x == ReferenceText(q, sig)
    ensures Rewritten(Wrapped(x), ctx, t) == (Wrapped(x), t)
  {
    WrapperCallFree();
    EmbeddedInternal("={{ ", q, sig, " }}", ctx, t);
  }

  /** The variables of a table built by binding new signatures one after another. */
  lemma BoundVars(s1: Signature, n1: string, x1: string, s2: Signature, n2: string, x2: string,
                  s3: Signature, n3: string, x3: string, s4: Signature, n4: string, x4: string)
    ensures var t1 := Bound(EmptyTable, s1, n1, x1);
      var t2 := Bound(t1, s2, n2, x2);
      var t3 := Bound(t2, s3, n3, x3);
      && t1.vars == [Variable(n1, x1)]
      && t2.vars == [Variable(n1, x1), Variable(n2, x2)]
      && t3.vars == [Variable(n1, x1), Variable(n2, x2), Variable(n3, x3)]
      && Bound(t3, s4, n4, x4).vars == [Variable(n1, x1), Variable(n2, x2), Variable(n3, x3), Variable(n4, x4)]
  {
    var v1, v2, v3, v4 := Variable(n1, x1), Variable(n2, x2), Variable(n3, x3), Variable(n4, x4);
    assert [] + [v1] == [v1] && [v1] + [v2] == [v1, v2] && [v1, v2] + [v3] == [v1, v2, v3];
    assert [v1, v2, v3] + [v4] == [v1, v2, v3, v4];
  }

  /** A fourth signature, after three are bound, whose key is the first name and whose prefixed
      key is the second takes the first numbered name when that is free. */
  lemma NumberedAfterThree(s1: Signature, n1: string, x1: string, s2: Signature, n2: string, x2: string,
                           s3: Signature, n3: string, x3: string, sig: Signature)
    requires sig != s1 && sig != s2 && sig != s3
    requires Key(sig) == n1 && PrefixedKey(sig) == n2
    requires Numbered(n2, 1) != n1 && Numbered(n2, 1) != n2 && Numbered(n2, 1) != n3
    ensures var t3 := Bound(Bound(Bound(EmptyTable, s1, n1, x1), s2, n2, x2), s3, n3, x3);
      sig !in t3.nameOf && FreshName(Key(sig), PrefixedKey(sig), Taken(t3)) == Numbered(n2, 1)
  {
    var t3 := Bound(Bound(Bound(EmptyTable, s1, n1, x1), s2, n2, x2), s3, n3, x3);
    assert Taken(t3) == {n1, n2, n3};
    assert FirstFreeNumber(n2, Taken(t3), 1) == 1;
  }

  /** A parameter made from an external reference seen for the first time. */
  lemma MadeFresh(key: string, q: char, sig: Signature, ctx: Context, t: Table, x: string, name: string, y: string)
    requires ReadsBack(q, sig, " }}", ctx.nodeNames) && sig.node !in ctx.subgraph
    requires x == ReferenceText(q, sig) && y == Wrapped(Replacement(ctx.startNodeName, sig.accessor, name))
    requires sig !in t.nameOf && name == FreshName(Key(sig), PrefixedKey(sig), Taken(t))
    ensures RewriteParameters([Made(key, x)], ctx, t) == ([Holding(key, y)], Bound(t, sig, name, x))
  {
    WrappedFresh(q, sig, ctx, t, x, name, y);
    OneText(key, Wrapped(x), ctx, t, y, Bound(t, sig, name, x));
  }

  // Nodes and parameters, in order

  /** Parameters holding texts: the first is rewritten, then the rest with the table it leaves. */
  lemma ConsText(key: string, s: string, rest: seq<Parameter>, ctx: Context, t: Table, y: string, t1: Table,
                 out: seq<Parameter>, t2: Table)
    requires Rewritten(s, ctx, t) == (y, t1) && RewriteParameters(rest, ctx, t1) == (out, t2)
    ensures RewriteParameters([Holding(key, s)] + rest, ctx, t) == ([Holding(key, y)] + out, t2)
  {
    var ps := [Holding(key, s)] + rest;
    ParametersStep(ps, ctx, t);
    assert ps[0] == Parameter(key, StringValue(s)) && ps[1..] == rest;
    assert RewriteValue(StringValue(s), ctx, t) == (StringValue(y), t1);
  }

  lemma OneText(key: string, s: string, ctx: Context, t: Table, y: string, t1: Table)
    requires Rewritten(s, ctx, t) == (y, t1)
    ensures RewriteParameters([Holding(key, s)], ctx, t) == ([Holding(key, y)], t1)
  {
    ConsText(key, s, [], ctx, t, y, t1, [], t1);
    assert [Holding(key, s)] + [] == [Holding(key, s)] && [Holding(key, y)] + [] == [Holding(key, y)];
  }

  lemma TwoTexts(k1: string, s1: string, k2: string, s2: string, ctx: Context, t: Table,
                 y1: string, t1: Table, y2: string, t2: Table)
    requires Rewritten(s1, ctx, t) == (y1, t1) && Rewritten(s2, ctx, t1) == (y2, t2)
    ensures RewriteParameters([Holding(k1, s1), Holding(k2, s2)], ctx, t) == ([Holding(k1, y1), Holding(k2, y2)], t2)
  {
    OneText(k2, s2, ctx, t1, y2, t2);
    ConsText(k1, s1, [Holding(k2, s2)], ctx, t, y1, t1, [Holding(k2, y2)], t2);
    assert [Holding(k1, s1)] + [Holding(k2, s2)] == [Holding(k1, s1), Holding(k2, s2)];
    assert [Holding(k1, y1)] + [Holding(k2, y2)] == [Holding(k1, y1), Holding(k2, y2)];
  }

  /** Nodes: the first node's parameters are rewritten, then the rest with the table it leaves. */
  lemma ConsNode(a: Node, rest: seq<Node>, ctx: Context, t: Table, ps: seq<Parameter>, t1: Table, out: seq<Node>, t2: Table)
    requires RewriteParameters(a.parameters, ctx, t) == (ps, t1) && RewriteNodes(rest, ctx, t1) == (out, t2)
    ensures RewriteNodes([a] + rest, ctx, t) == ([Node(a.name, ps)] + out, t2)
  {
    NodesStep([a] + rest, ctx, t);
    assert ([a] + rest)[0] == a && ([a] + rest)[1..] == rest;
  }

  lemma OneNode(a: Node, ctx: Context, t: Table, ps: seq<Parameter>, t1: Table)
    requires RewriteParameters(a.parameters, ctx, t) == (ps, t1)
    ensures RewriteNodes([a], ctx, t) == ([Node(a.name, ps)], t1)
  {
    ConsNode(a, [], ctx, t, ps, t1, [], t1);
    assert [a] + [] == [a] && [Node(a.name, ps)] + [] == [Node(a.name, ps)];
  }

  /** Neither check fails, so the extraction is the rewritten nodes and the table's variables. */
  lemma Succeeds(nodes: seq<Node>, names: set<string>, nodeNames: seq<string>, start: string, out: seq<Node>, t: Table)
    requires NamesOf(nodes) == names && start !in names && forall n :: n in names ==> n in nodeNames
    requires RewriteNodes(nodes, Context(nodeNames, names, start), EmptyTable) == (out, t)
    ensures Extract(nodes, nodeNames, start) == Success(Extraction(out, t.vars))
  {
    assert forall k :: 0 <= k < |nodes| ==> nodes[k].name in NamesOf(nodes);
  }

  lemma NamesOfCons(a: Node, rest: seq<Node>)
    ensures NamesOf([a] + rest) == {a.name} + NamesOf(rest)
  {
    var nodes := [a] + rest;
    forall n | n in NamesOf(nodes) ensures n in {a.name} + NamesOf(rest) {
      var k :| 0 <= k < |nodes| && nodes[k].name == n;
      if k > 0 {
        assert nodes[k] == rest[k - 1];
      }
    }
    forall n | n in NamesOf(rest) ensures n in NamesOf(nodes) {
      var k :| 0 <= k < |rest| && rest[k].name == n;
      assert nodes[k + 1] == rest[k];
    }
    assert nodes[0] == a;
  }

  lemma ExtractOne(n: string, ps: seq<Parameter>, nodeNames: seq<string>, start: string, qs: seq<Parameter>, t: Table)
    requires n in nodeNames && n != start
    requires RewriteParameters(ps, Context(nodeNames, {n}, start), EmptyTable) == (qs, t)
    ensures Extract([Node(n, ps)], nodeNames, start) == Success(Extraction([Node(n, qs)], t.vars))
  {
    var a := Node(n, ps);
    assert [a][0] == a;
    assert NamesOf([a]) == {n};
    OneNode(a, Context(nodeNames, {n}, start), EmptyTable, qs, t);
    Succeeds([a], {n}, nodeNames, start, [Node(n, qs)], t);
  }

  lemma ExtractTwo(n1: string, ps1: seq<Parameter>, n2: string, ps2: seq<Parameter>, nodeNames: seq<string>, start: string,
                   qs1: seq<Parameter>, t1: Table, qs2: seq<Parameter>, t2: Table)
    requires n1 in nodeNames && n2 in nodeNames && start != n1 && start != n2
    requires RewriteParameters(ps1, Context(nodeNames, {n1, n2}, start), EmptyTable) == (qs1, t1)
    requires RewriteParameters(ps2, Context(nodeNames, {n1, n2}, start), t1) == (qs2, t2)
    ensures Extract([Node(n1, ps1), Node(n2, ps2)], nodeNames, start)
         == Success(Extraction([Node(n1, qs1), Node(n2, qs2)], t2.vars))
  {
    var a, b := Node(n1, ps1), Node(n2, ps2);
    var ctx := Context(nodeNames, {n1, n2}, start);
    assert [a, b][0] == a && [a, b][1] == b;
    assert NamesOf([a, b]) == {n1, n2};
    OneNode(b, ctx, t1, qs2, t2);
    ConsNode(a, [b], ctx, EmptyTable, qs1, t1, [Node(n2, qs2)], t2);
    assert [a] + [b] == [a, b] && [Node(n1, qs1)] + [Node(n2, qs2)] == [Node(n1, qs1), Node(n2, qs2)];
    Succeeds([a, b], {n1, n2}, nodeNames, start, [Node(n1, qs1), Node(n2, qs2)], t2);
  }

  lemma ThreeNodes(a: Node, b: Node, c: Node, ctx: Context, t0: Table,
                   qs1: seq<Parameter>, t1: Table, qs2: seq<Parameter>, t2: Table, qs3: seq<Parameter>, t3: Table)
    requires RewriteParameters(a.parameters, ctx, t0) == (qs1, t1)
    requires RewriteParameters(b.parameters, ctx, t1) == (qs2, t2)
    requires RewriteParameters(c.parameters, ctx, t2) == (qs3, t3)
    ensures RewriteNodes([a, b, c], ctx, t0) == ([Node(a.name, qs1), Node(b.name, qs2), Node(c.name, qs3)], t3)
  {
    OneNode(c, ctx, t2, qs3, t3);
    ConsNode(b, [c], ctx, t1, qs2, t2, [Node(c.name, qs3)], t3);
    assert [b] + [c] == [b, c] && [Node(b.name, qs2)] + [Node(c.name, qs3)] == [Node(b.name, qs2), Node(c.name, qs3)];
    ConsNode(a, [b, c], ctx, t0, qs1, t1, [Node(b.name, qs2), Node(c.name, qs3)], t3);
    assert [a] + [b, c] == [a, b, c];
    assert [Node(a.name, qs1)] + [Node(b.name, qs2), Node(c.name, qs3)] == [Node(a.name, qs1), Node(b.name, qs2), Node(c.name, qs3)];
  }

  lemma NamesOfThree(a: Node, b: Node, c: Node)
    ensures NamesOf([a, b, c]) == {a.name, b.name, c.name}
  {
    NamesOfCons(c, []);
    NamesOfCons(b, [c]);
    NamesOfCons(a, [b, c]);
    assert [c] + [] == [c] && [b] + [c] == [b, c] && [a] + [b, c] == [a, b, c];
  }

  lemma ExtractThree(n1: string, ps1: seq<Parameter>, n2: string, ps2: seq<Parameter>, n3: string, ps3: seq<Parameter>,
                     nodeNames: seq<string>, start: string,
                     qs1: seq<Parameter>, t1: Table, qs2: seq<Parameter>, t2: Table, qs3: seq<Parameter>, t3: Table)
    requires n1 in nodeNames && n2 in nodeNames && n3 in nodeNames && start !in {n1, n2, n3}
    requires RewriteParameters(ps1, Context(nodeNames, {n1, n2, n3}, start), EmptyTable) == (qs1, t1)
    requires RewriteParameters(ps2, Context(nodeNames, {n1, n2, n3}, start), t1) == (qs2, t2)
    requires RewriteParameters(ps3, Context(nodeNames, {n1, n2, n3}, start), t2) == (qs3, t3)
    ensures Extract([Node(n1, ps1), Node(n2, ps2), Node(n3, ps3)], nodeNames, start)
         == Success(Extraction([Node(n1, qs1), Node(n2, qs2), Node(n3, qs3)], t3.vars))
  {
    var a, b, c := Node(n1, ps1), Node(n2, ps2), Node(n3, ps3);
    ThreeNodes(a, b, c, Context(nodeNames, {n1, n2, n3}, start), EmptyTable, qs1, t1, qs2, t2, qs3, t3);
    NamesOfThree(a, b, c);
    Succeeds([a, b, c], {n1, n2, n3}, nodeNames, start, [Node(n1, qs1), Node(n2, qs2), Node(n3, qs3)], t3);
  }

  lemma FourNodes(a: Node, b: Node, c: Node, d: Node, ctx: Context, t0: Table,
                  qs1: seq<Parameter>, t1: Table, qs2: seq<Parameter>, t2: Table, qs3: seq<Parameter>, t3: Table,
                  qs4: seq<Parameter>, t4: Table)
    requires RewriteParameters(a.parameters, ctx, t0) == (qs1, t1)
    requires RewriteParameters(b.parameters, ctx, t1) == (qs2, t2)
    requires RewriteParameters(c.parameters, ctx, t2) == (qs3, t3)
    requires RewriteParameters(d.parameters, ctx, t3) == (qs4, t4)
    ensures RewriteNodes([a, b, c, d], ctx, t0)
         == ([Node(a.name, qs1), Node(b.name, qs2), Node(c.name, qs3), Node(d.name, qs4)], t4)
  {
    ThreeNodes(b, c, d, ctx, t1, qs2, t2, qs3, t3, qs4, t4);
    var out := [Node(b.name, qs2), Node(c.name, qs3), Node(d.name, qs4)];
    ConsNode(a, [b, c, d], ctx, t0, qs1, t1, out, t4);
    assert [a] + [b, c, d] == [a, b, c, d];
    assert [Node(a.name, qs1)] + out == [Node(a.name, qs1), Node(b.name, qs2), Node(c.name, qs3), Node(d.name, qs4)];
  }

  lemma NamesOfFour(a: Node, b: Node, c: Node, d: Node)
    ensures NamesOf([a, b, c, d]) == {a.name, b.name, c.name, d.name}
  {
    NamesOfThree(b, c, d);
    NamesOfCons(a, [b, c, d]);
    assert [a] + [b, c, d] == [a, b, c, d];
  }

  lemma ExtractFour(nodes: seq<Node>, nodeNames: seq<string>, start: string, out: seq<Node>,
                    t1: Table, t2: Table, t3: Table, t4: Table)
    requires |nodes| == 4 && |out| == 4
    requires nodes[0].name in nodeNames && nodes[1].name in nodeNames && nodes[2].name in nodeNames && nodes[3].name in nodeNames
    requires start !in {nodes[0].name, nodes[1].name, nodes[2].name, nodes[3].name}
    requires out[0].name == nodes[0].name && out[1].name == nodes[1].name && out[2].name == nodes[2].name && out[3].name == nodes[3].name
    requires var ctx := Context(nodeNames, {nodes[0].name, nodes[1].name, nodes[2].name, nodes[3].name}, start);
      && RewriteParameters(nodes[0].parameters, ctx, EmptyTable) == (out[0].parameters, t1)
      && RewriteParameters(nodes[1].parameters, ctx, t1) == (out[1].parameters, t2)
      && RewriteParameters(nodes[2].parameters, ctx, t2) == (out[2].parameters, t3)
      && RewriteParameters(nodes[3].parameters, ctx, t3) == (out[3].parameters, t4)
    ensures Extract(nodes, nodeNames, start) == Success(Extraction(out, t4.vars))
  {
    var names := {nodes[0].name, nodes[1].name, nodes[2].name, nodes[3].name};
    var ctx := Context(nodeNames, names, start);
    assert nodes == [nodes[0], nodes[1], nodes[2], nodes[3]];
    assert out == [Node(nodes[0].name, out[0].parameters), Node(nodes[1].name, out[1].parameters),
                   Node(nodes[2].name, out[2].parameters), Node(nodes[3].name, out[3].parameters)];
    FourNodes(nodes[0], nodes[1], nodes[2], nodes[3], ctx, EmptyTable,
      out[0].parameters, t1, out[1].parameters, t2, out[2].parameters, t3, out[3].parameters, t4);
    NamesOfFour(nodes[0], nodes[1], nodes[2], nodes[3]);
    Succeeds(nodes, names, nodeNames, start, out, t4);
  }

  // How references and replacements are spelled, appended left to right

  lemma ReferenceSpelled1(q: char, node: string, a: Accessor, f: string)
    ensures ReferenceText(q, Signature(node, a, [f])) == "$(" + [q] + node + [q] + ")" + "." + AccessorText(a) + ".json" + "." + f
  {
    assert DotPath([f]) == "." + f + DotPath([]);
  }

  lemma ReferenceSpelled2(q: char, node: string, a: Accessor, f: string, g: string)
    ensures ReferenceText(q, Signature(node, a, [f, g])) == "$(" + [q] + node + [q] + ")" + "." + AccessorText(a) + ".json" + "." + f + "." + g
  {
    assert [f, g][1..] == [g];
    assert DotPath([g]) == "." + g + DotPath([]);
    assert DotPath([f, g]) == "." + f + ("." + g);
  }

  lemma ReplacementSpelled(start: string, a: Accessor, v: string)
    ensures Wrapped(Replacement(start, a, v)) == "={{ $('" + start + "')." + AccessorText(a) + ".json." + v + " }}"
  {
  }

  lemma ReferenceSpelled0(q: char, node: string, a: Accessor)
    ensures ReferenceText(q, Signature(node, a, [])) == "$(" + [q] + node + [q] + ")" + "." + AccessorText(a)
  {
    assert JsonPath([]) == [];
  }

  // Test lines 155-171: two external references, named by their field paths

  lemma ReadsBack155()
    ensures ReadsBack('"', Signature("A", Item, ["myField"]), " }}", ["A", "B", "C"])
    ensures ReadsBack('"', Signature("A", First, ["myField", "anotherField"]), " }}", ["A", "B", "C"])
  {
  }

  lemma HeadAItem()
    ensures "$(" + ['"'] + "A" + ['"'] + ")" + "." + AccessorText(Item) + ".json" == "$(\"A\").item.json"
  {
  }

  lemma HeadAFirst()
    ensures "$(" + ['"'] + "A" + ['"'] + ")" + "." + AccessorText(First) + ".json" == "$(\"A\").first().json"
  {
  }

  lemma OutHeadItem()
    ensures "={{ $('" + "Start" + "')." + AccessorText(Item) + ".json." == "={{ $('Start').item.json."
  {
  }

  lemma OutHeadFirst()
    ensures "={{ $('" + "Start" + "')." + AccessorText(First) + ".json." == "={{ $('Start').first().json."
  {
  }

  lemma SpelledAItem()
    ensures "$(" + ['"'] + "A" + ['"'] + ")" + "." + AccessorText(Item) + ".json" + "." + "myField" == "$(\"A\").item.json.myField"
  {
    HeadAItem();
  }

  lemma FirstTail()
    ensures "$(\"A\").first().json" + "." + "myField" + "." + "anotherField" == "$(\"A\").first().json.myField.anotherField"
  {
  }

  lemma SpelledAFirst()
    ensures "$(" + ['"'] + "A" + ['"'] + ")" + "." + AccessorText(First) + ".json" + "." + "myField" + "." + "anotherField"
         == "$(\"A\").first().json.myField.anotherField"
  {
    HeadAFirst();
    FirstTail();
  }

  lemma SpelledOutItem()
    ensures "={{ $('" + "Start" + "')." + AccessorText(Item) + ".json." + "myField" + " }}" == "={{ $('Start').item.json.myField }}"
  {
    OutHeadItem();
  }

  lemma OutFirstTail()
    ensures "={{ $('Start').first().json." + "myField_anotherField_first" + " }}" == "={{ $('Start').first().json.myField_anotherField_first }}"
  {
  }

  lemma SpelledOutFirst()
    ensures "={{ $('" + "Start" + "')." + AccessorText(First) + ".json." + "myField_anotherField_first" + " }}"
         == "={{ $('Start').first().json.myField_anotherField_first }}"
  {
    OutHeadFirst();
    OutFirstTail();
  }

  /** `$("A").item.json.myField`, the first reference of several examples, read from `Start`. */
  lemma RewritesItem(x1: string, y1: string, ctx: Context)
    requires x1 == "$(\"A\").item.json.myField" && y1 == "={{ $('Start').item.json.myField }}"
    requires ctx.startNodeName == "Start" && "A" !in ctx.subgraph
    requires ReadsBack('"', Signature("A", Item, ["myField"]), " }}", ctx.nodeNames)
    ensures RewriteParameters([Made("p0", x1)], ctx, EmptyTable)
         == ([Holding("p0", y1)], Bound(EmptyTable, Signature("A", Item, ["myField"]), "myField", x1))
  {
    var sig := Signature("A", Item, ["myField"]);
    ReferenceSpelled1('"', "A", Item, "myField");
    SpelledAItem();
    ReplacementSpelled("Start", Item, "myField");
    SpelledOutItem();
    KeyVectors();
    FreshNameEscalates("myField", PrefixedKey(sig), {});
    MadeFresh("p0", '"', sig, ctx, EmptyTable, x1, "myField", y1);
  }

  lemma RewritesFirst(x1: string, x2: string, y2: string)
    requires x2 == "$(\"A\").first().json.myField.anotherField"
    requires y2 == "={{ $('Start').first().json.myField_anotherField_first }}"
    ensures var t1 := Bound(EmptyTable, Signature("A", Item, ["myField"]), "myField", x1);
      RewriteParameters([Made("p0", x2)], Context(["A", "B", "C"], {"B", "C"}, "Start"), t1)
      == ([Holding("p0", y2)], Bound(t1, Signature("A", First, ["myField", "anotherField"]), "myField_anotherField_first", x2))
  {
    var sig := Signature("A", First, ["myField", "anotherField"]);
    var t1 := Bound(EmptyTable, Signature("A", Item, ["myField"]), "myField", x1);
    ReferenceSpelled2('"', "A", First, "myField", "anotherField");
    SpelledAFirst();
    ReplacementSpelled("Start", First, "myField_anotherField_first");
    SpelledOutFirst();
    ReadsBack155();
    KeyVectors();
    FreshNameEscalates("myField_anotherField_first", PrefixedKey(sig), {"myField"});
    MadeFresh("p0", '"', sig, Context(["A", "B", "C"], {"B", "C"}, "Start"), t1, x2, "myField_anotherField_first", y2);
  }

  /** Test lines 155-171. */
  lemma ExtractsUsedExpressions(x1: string, x2: string, y1: string, y2: string)
    requires x1 == "$(\"A\").item.json.myField"
    requires x2 == "$(\"A\").first().json.myField.anotherField"
    requires y1 == "={{ $('Start').item.json.myField }}"
    requires y2 == "={{ $('Start').first().json.myField_anotherField_first }}"
    ensures Extract([Node("B", [Made("p0", x1)]), Node("C", [Made("p0", x2)])], ["A", "B", "C"], "Start")
         == Success(Extraction([Node("B", [Holding("p0", y1)]), Node("C", [Holding("p0", y2)])],
                               [Variable("myField", x1), Variable("myField_anotherField_first", x2)]))
  {
    var t1 := Bound(EmptyTable, Signature("A", Item, ["myField"]), "myField", x1);
    var t2 := Bound(t1, Signature("A", First, ["myField", "anotherField"]), "myField_anotherField_first", x2);
    ReadsBack155();
    RewritesItem(x1, y1, Context(["A", "B", "C"], {"B", "C"}, "Start"));
    RewritesFirst(x1, x2, y2);
    ExtractTwo("B", [Made("p0", x1)], "C", [Made("p0", x2)], ["A", "B", "C"], "Start", [Holding("p0", y1)], t1, [Holding("p0", y2)], t2);
    BoundVars(Signature("A", Item, ["myField"]), "myField", x1, Signature("A", First, ["myField", "anotherField"]),
      "myField_anotherField_first", x2, Signature("A", Item, ["myField"]), "", x1, Signature("A", Item, ["myField"]), "", x1);
  }

  // Shorter spellings for `.item` with one field

  lemma ItemSpelled(q: char, n: string, f: string)
    ensures ReferenceText(q, Signature(n, Item, [f])) == "$(" + [q] + n + [q] + ").item.json." + f
  {
    ReferenceSpelled1(q, n, Item, f);
  }

  lemma ItemReplaced(start: string, v: string)
    ensures Wrapped(Replacement(start, Item, v)) == "={{ $('" + start + "').item.json." + v + " }}"
  {
  }

  /** A fresh `.item` reference with one field, whose text is the head `h` naming the node
      followed by the field, and whose replacement is the head `o` naming the start node followed
      by the variable. */
  lemma ItemFreshText(n: string, f: string, ctx: Context, t: Table, name: string, h: string, o: string, x: string, y: string)
    requires ReadsBack('"', Signature(n, Item, [f]), " }}", ctx.nodeNames) && n !in ctx.subgraph
    requires h == "$(" + ['"'] + n + ['"'] + ").item.json." && x == h + f
    requires o == "={{ $('" + ctx.startNodeName + "').item.json." && y == o + name + " }}"
    requires Signature(n, Item, [f]) !in t.nameOf && name == FreshName(Key(Signature(n, Item, [f])), PrefixedKey(Signature(n, Item, [f])), Taken(t))
    ensures Rewritten(Wrapped(x), ctx, t) == (y, Bound(t, Signature(n, Item, [f]), name, x))
  {
    ItemSpelled('"', n, f);
    ItemReplaced(ctx.startNodeName, name);
    WrappedFresh('"', Signature(n, Item, [f]), ctx, t, x, name, y);
  }

  /** The same for a parameter that holds only that reference. */
  lemma ItemFresh(n: string, f: string, ctx: Context, t: Table, name: string, h: string, o: string, x: string, y: string)
    requires ReadsBack('"', Signature(n, Item, [f]), " }}", ctx.nodeNames) && n !in ctx.subgraph
    requires h == "$(" + ['"'] + n + ['"'] + ").item.json." && x == h + f
    requires o == "={{ $('" + ctx.startNodeName + "').item.json." && y == o + name + " }}"
    requires Signature(n, Item, [f]) !in t.nameOf && name == FreshName(Key(Signature(n, Item, [f])), PrefixedKey(Signature(n, Item, [f])), Taken(t))
    ensures RewriteParameters([Made("p0", x)], ctx, t) == ([Holding("p0", y)], Bound(t, Signature(n, Item, [f]), name, x))
  {
    ItemFreshText(n, f, ctx, t, name, h, o, x, y);
    OneText("p0", Wrapped(x), ctx, t, y, Bound(t, Signature(n, Item, [f]), name, x));
  }

  /** A `.item` reference seen before reads the variable it was given. */
  lemma ItemReusedText(n: string, f: string, ctx: Context, t: Table, name: string, h: string, o: string, x: string, y: string)
    requires ReadsBack('"', Signature(n, Item, [f]), " }}", ctx.nodeNames) && n !in ctx.subgraph
    requires h == "$(" + ['"'] + n + ['"'] + ").item.json." && x == h + f
    requires o == "={{ $('" + ctx.startNodeName + "').item.json." && y == o + name + " }}"
    requires Signature(n, Item, [f]) in t.nameOf && name == t.nameOf[Signature(n, Item, [f])]
    ensures Rewritten(Wrapped(x), ctx, t) == (y, t)
  {
    ItemSpelled('"', n, f);
    ItemReplaced(ctx.startNodeName, name);
    WrappedReused('"', Signature(n, Item, [f]), ctx, t, x, name, y);
  }

  /** A `.item` reference to a subgraph node is kept. */
  lemma ItemKeptText(n: string, f: string, ctx: Context, t: Table, h: string, x: string)
    requires ReadsBack('"', Signature(n, Item, [f]), " }}", ctx.nodeNames) && n in ctx.subgraph
    requires h == "$(" + ['"'] + n + ['"'] + ").item.json." && x == h + f
    ensures Rewritten(Wrapped(x), ctx, t) == (Wrapped(x), t)
  {
    ItemSpelled('"', n, f);
    WrappedKept('"', Signature(n, Item, [f]), ctx, t, x);
  }

  lemma FieldSpelled(q: char, n: string, a: Accessor, f: string)
    ensures ReferenceText(q, Signature(n, a, [f])) == "$(" + [q] + n + [q] + ")." + AccessorText(a) + ".json." + f
  {
    ReferenceSpelled1(q, n, a, f);
  }

  lemma FieldReplaced(start: string, a: Accessor, v: string)
    ensures Wrapped(Replacement(start, a, v)) == "={{ $('" + start + "')." + AccessorText(a) + ".json." + v + " }}"
  {
  }

  /** A fresh reference with one field under any accessor, spelled as for `ItemFreshText`. */
  lemma FieldFreshText(n: string, a: Accessor, f: string, ctx: Context, t: Table, name: string, h: string, o: string, x: string, y: string)
    requires ReadsBack('"', Signature(n, a, [f]), " }}", ctx.nodeNames) && n !in ctx.subgraph
    requires h == "$(" + ['"'] + n + ['"'] + ")." + AccessorText(a) + ".json." && x == h + f
    requires o == "={{ $('" + ctx.startNodeName + "')." + AccessorText(a) + ".json." && y == o + name + " }}"
    requires Signature(n, a, [f]) !in t.nameOf && name == FreshName(Key(Signature(n, a, [f])), PrefixedKey(Signature(n, a, [f])), Taken(t))
    ensures Rewritten(Wrapped(x), ctx, t) == (y, Bound(t, Signature(n, a, [f]), name, x))
  {
    FieldSpelled('"', n, a, f);
    FieldReplaced(ctx.startNodeName, a, name);
    WrappedFresh('"', Signature(n, a, [f]), ctx, t, x, name, y);
  }

  lemma FourTexts(k1: string, s1: string, k2: string, s2: string, k3: string, s3: string, k4: string, s4: string,
                  ctx: Context, t: Table, y1: string, t1: Table, y2: string, t2: Table, y3: string, t3: Table, y4: string, t4: Table)
    requires Rewritten(s1, ctx, t) == (y1, t1) && Rewritten(s2, ctx, t1) == (y2, t2)
    requires Rewritten(s3, ctx, t2) == (y3, t3) && Rewritten(s4, ctx, t3) == (y4, t4)
    ensures RewriteParameters([Holding(k1, s1), Holding(k2, s2), Holding(k3, s3), Holding(k4, s4)], ctx, t)
         == ([Holding(k1, y1), Holding(k2, y2), Holding(k3, y3), Holding(k4, y4)], t4)
  {
    var p1, p2, p3, p4 := Holding(k1, s1), Holding(k2, s2), Holding(k3, s3), Holding(k4, s4);
    var q1, q2, q3, q4 := Holding(k1, y1), Holding(k2, y2), Holding(k3, y3), Holding(k4, y4);
    TwoTexts(k3, s3, k4, s4, ctx, t2, y3, t3, y4, t4);
    ConsText(k2, s2, [p3, p4], ctx, t1, y2, t2, [q3, q4], t4);
    assert [p2] + [p3, p4] == [p2, p3, p4] && [q2] + [q3, q4] == [q2, q3, q4];
    ConsText(k1, s1, [p2, p3, p4], ctx, t, y1, t1, [q2, q3, q4], t4);
    assert [p1] + [p2, p3, p4] == [p1, p2, p3, p4] && [q1] + [q2, q3, q4] == [q1, q2, q3, q4];
  }

  /** Under `.item` a one-field path is its own key, and the fallback puts the node name in front. */
  lemma ItemKeys(n: string, f: string)
    requires forall k :: 0 <= k < |n| ==> IsIdentChar(n[k])
    ensures Key(Signature(n, Item, [f])) == f
    ensures PrefixedKey(Signature(n, Item, [f])) == n + "_" + f
  {
    SanitizeKeepsIdentifiers(n);
  }

  // Test lines 173-200: equal keys from different nodes fall back to the node name

  lemma ReadsBack173()
    ensures forall n :: n in ["A", "D", "F"] ==> ReadsBack('"', Signature(n, Item, ["myField"]), " }}", ["A", "B", "C", "D", "E", "F"])
  {
  }

  lemma HeadD()
    ensures "$(" + ['"'] + "D" + ['"'] + ").item.json." == "$(\"D\").item.json."
  {
  }

  lemma HeadF()
    ensures "$(" + ['"'] + "F" + ['"'] + ").item.json." == "$(\"F\").item.json."
  {
  }

  lemma OutHeadStart()
    ensures "={{ $('" + "Start" + "').item.json." == "={{ $('Start').item.json."
  {
  }

  lemma SpelledD()
    ensures "$(\"D\").item.json." + "myField" == "$(\"D\").item.json.myField"
    ensures "={{ $('Start').item.json." + "D_myField" + " }}" == "={{ $('Start').item.json.D_myField }}"
  {
  }

  lemma SpelledF()
    ensures "$(\"F\").item.json." + "myField" == "$(\"F\").item.json.myField"
    ensures "={{ $('Start').item.json." + "F_myField" + " }}" == "={{ $('Start').item.json.F_myField }}"
  {
  }

  /** The second reference, `$("D").item.json.myField`, after `myField` is bound. */
  lemma RewritesD(x1: string, x2: string, y2: string)
    requires x2 == "$(\"D\").item.json.myField" && y2 == "={{ $('Start').item.json.D_myField }}"
    ensures var t1 := Bound(EmptyTable, Signature("A", Item, ["myField"]), "myField", x1);
      RewriteParameters([Made("p0", x2)], Context(["A", "B", "C", "D", "E", "F"], {"B", "C", "E"}, "Start"), t1)
      == ([Holding("p0", y2)], Bound(t1, Signature("D", Item, ["myField"]), "D_myField", x2))
  {
    var t1 := Bound(EmptyTable, Signature("A", Item, ["myField"]), "myField", x1);
    HeadD();
    OutHeadStart();
    SpelledD();
    ReadsBack173();
    ItemKeys("D", "myField");
    assert Taken(t1) == {"myField"};
    FreshNameEscalates("myField", "D_myField", Taken(t1));
    ItemFresh("D", "myField", Context(["A", "B", "C", "D", "E", "F"], {"B", "C", "E"}, "Start"), t1, "D_myField",
      "$(\"D\").item.json.", "={{ $('Start').item.json.", x2, y2);
  }

  /** The third reference, `$("F").item.json.myField`, after `myField` and `D_myField` are bound. */
  lemma RewritesF(x1: string, x2: string, x3: string, y3: string)
    requires x3 == "$(\"F\").item.json.myField" && y3 == "={{ $('Start').item.json.F_myField }}"
    ensures var t1 := Bound(EmptyTable, Signature("A", Item, ["myField"]), "myField", x1);
      var t2 := Bound(t1, Signature("D", Item, ["myField"]), "D_myField", x2);
      RewriteParameters([Made("p0", x3)], Context(["A", "B", "C", "D", "E", "F"], {"B", "C", "E"}, "Start"), t2)
      == ([Holding("p0", y3)], Bound(t2, Signature("F", Item, ["myField"]), "F_myField", x3))
  {
    var t1 := Bound(EmptyTable, Signature("A", Item, ["myField"]), "myField", x1);
    var t2 := Bound(t1, Signature("D", Item, ["myField"]), "D_myField", x2);
    HeadF();
    OutHeadStart();
    SpelledF();
    ReadsBack173();
    ItemKeys("F", "myField");
    assert Taken(t2) == {"myField", "D_myField"};
    assert "F_myField" != "D_myField";
    FreshNameEscalates("myField", "F_myField", Taken(t2));
    ItemFresh("F", "myField", Context(["A", "B", "C", "D", "E", "F"], {"B", "C", "E"}, "Start"), t2, "F_myField",
      "$(\"F\").item.json.", "={{ $('Start').item.json.", x3, y3);
  }

  /** Test lines 173-200. */
  lemma ExtractsSimpleClashes(x1: string, x2: string, x3: string, y1: string, y2: string, y3: string)
    requires x1 == "$(\"A\").item.json.myField" && y1 == "={{ $('Start').item.json.myField }}"
    requires x2 == "$(\"D\").item.json.myField" && y2 == "={{ $('Start').item.json.D_myField }}"
    requires x3 == "$(\"F\").item.json.myField" && y3 == "={{ $('Start').item.json.F_myField }}"
    ensures Extract([Node("B", [Made("p0", x1)]), Node("C", [Made("p0", x2)]), Node("E", [Made("p0", x3)])],
                    ["A", "B", "C", "D", "E", "F"], "Start")
         == Success(Extraction([Node("B", [Holding("p0", y1)]), Node("C", [Holding("p0", y2)]), Node("E", [Holding("p0", y3)])],
                               [Variable("myField", x1), Variable("D_myField", x2), Variable("F_myField", x3)]))
  {
    var t1 := Bound(EmptyTable, Signature("A", Item, ["myField"]), "myField", x1);
    var t2 := Bound(t1, Signature("D", Item, ["myField"]), "D_myField", x2);
    var t3 := Bound(t2, Signature("F", Item, ["myField"]), "F_myField", x3);
    ReadsBack173();
    RewritesItem(x1, y1, Context(["A", "B", "C", "D", "E", "F"], {"B", "C", "E"}, "Start"));
    RewritesD(x1, x2, y2);
    RewritesF(x1, x2, x3, y3);
    ExtractThree("B", [Made("p0", x1)], "C", [Made("p0", x2)], "E", [Made("p0", x3)], ["A", "B", "C", "D", "E", "F"], "Start",
      [Holding("p0", y1)], t1, [Holding("p0", y2)], t2, [Holding("p0", y3)], t3);
    BoundVars(Signature("A", Item, ["myField"]), "myField", x1, Signature("D", Item, ["myField"]), "D_myField", x2,
      Signature("F", Item, ["myField"]), "F_myField", x3, Signature("F", Item, ["myField"]), "", x3);
  }

  // Test lines 202-235: a key that is another reference's prefixed key takes a number

  lemma QuoteFree202()
    ensures var names := ["A", "B", "C", "D", "E", "F", "Node_Name_With_Gap"];
      forall k :: 0 <= k < |names| ==> '"' !in names[k]
  {
    var names := ["A", "B", "C", "D", "E", "F", "Node_Name_With_Gap"];
    assert forall k :: 0 <= k < 6 ==> |names[k]| == 1;
  }

  lemma ReadsBack202()
    ensures ReadsBack('"', Signature("A", Item, ["myField"]), " }}", ["A", "B", "C", "D", "E", "F", "Node_Name_With_Gap"])
  {
    QuoteFree202();
  }

  lemma ReadsBackGapInA()
    ensures ReadsBack('"', Signature("A", Item, ["Node_Name_With_Gap_myField"]), " }}", ["A", "B", "C", "D", "E", "F", "Node_Name_With_Gap"])
  {
    QuoteFree202();
  }

  lemma ReadsBackGapInD()
    ensures ReadsBack('"', Signature("D", Item, ["Node_Name_With_Gap_myField"]), " }}", ["A", "B", "C", "D", "E", "F", "Node_Name_With_Gap"])
  {
    QuoteFree202();
  }

  lemma ReadsBackGap()
    ensures ReadsBack('"', Signature("Node_Name_With_Gap", Item, ["myField"]), " }}", ["A", "B", "C", "D", "E", "F", "Node_Name_With_Gap"])
  {
    QuoteFree202();
  }

  lemma GapIdentifiers()
    ensures forall k :: 0 <= k < |"Node_Name_With_Gap"| ==> IsIdentChar("Node_Name_With_Gap"[k])
    ensures forall k :: 0 <= k < |"A"| ==> IsIdentChar("A"[k])
    ensures forall k :: 0 <= k < |"D"| ==> IsIdentChar("D"[k])
  {
  }

  lemma HeadA()
    ensures "$(" + ['"'] + "A" + ['"'] + ").item.json." == "$(\"A\").item.json."
  {
  }

  lemma HeadGap()
    ensures "$(" + ['"'] + "Node_Name_With_Gap" + ['"'] + ").item.json." == "$(\"Node_Name_With_Gap\").item.json."
  {
  }

  lemma SpelledGapInA()
    ensures "$(\"A\").item.json." + "Node_Name_With_Gap_myField" == "$(\"A\").item.json.Node_Name_With_Gap_myField"
  {
  }

  lemma SpelledGapInD()
    ensures "$(\"D\").item.json." + "Node_Name_With_Gap_myField" == "$(\"D\").item.json.Node_Name_With_Gap_myField"
  {
  }

  lemma SpelledGapNode()
    ensures "$(\"Node_Name_With_Gap\").item.json." + "myField" == "$(\"Node_Name_With_Gap\").item.json.myField"
  {
  }

  lemma SpelledOutGap()
    ensures "={{ $('Start').item.json." + "Node_Name_With_Gap_myField" + " }}" == "={{ $('Start').item.json.Node_Name_With_Gap_myField }}"
  {
  }

  lemma SpelledOutGapInD()
    ensures "={{ $('Start').item.json." + "D_Node_Name_With_Gap_myField" + " }}" == "={{ $('Start').item.json.D_Node_Name_With_Gap_myField }}"
  {
  }

  lemma SpelledOutGapNumbered()
    ensures "={{ $('Start').item.json." + "Node_Name_With_Gap_myField_1" + " }}" == "={{ $('Start').item.json.Node_Name_With_Gap_myField_1 }}"
  {
  }

  lemma GapNodeKeys()
    ensures Key(Signature("Node_Name_With_Gap", Item, ["myField"])) == "myField"
    ensures PrefixedKey(Signature("Node_Name_With_Gap", Item, ["myField"])) == "Node_Name_With_Gap_myField"
  {
    GapIdentifiers();
    ItemKeys("Node_Name_With_Gap", "myField");
    GapPrefixed();
  }

  lemma GapOutside(ctx: Context)
    requires ctx == Context(["A", "B", "C", "D", "E", "F", "Node_Name_With_Gap"], {"F", "B", "C", "E"}, "Start")
    ensures "Node_Name_With_Gap" !in ctx.subgraph
  {
    assert |"Node_Name_With_Gap"| == 18;
  }

  lemma GapPrefixedInD()
    ensures "D" + "_" + "Node_Name_With_Gap_myField" == "D_Node_Name_With_Gap_myField"
  {
  }

  lemma GapPrefixed()
    ensures "Node_Name_With_Gap" + "_" + "myField" == "Node_Name_With_Gap_myField"
  {
  }

  /** With `myField`, `Node_Name_With_Gap_myField` and `D_Node_Name_With_Gap_myField` taken, the
      name for key `myField` and prefixed key `Node_Name_With_Gap_myField` is the first numbered one. */
  lemma GapNumberedDistinct()
    ensures Numbered("Node_Name_With_Gap_myField", 1) == "Node_Name_With_Gap_myField_1"
    ensures var n := "Node_Name_With_Gap_myField_1";
      n != "myField" && n != "Node_Name_With_Gap_myField" && n != "D_Node_Name_With_Gap_myField"
  {
    assert NatToDecimal(1) == "1";
    assert "Node_Name_With_Gap_myField_1"[0] != "D_Node_Name_With_Gap_myField"[0];
  }

  /** `$("A").item.json.Node_Name_With_Gap_myField`, after `myField` is bound: its key is free. */
  lemma RewritesGapInA(x1: string, x2: string, y2: string)
    requires x2 == "$(\"A\").item.json.Node_Name_With_Gap_myField" && y2 == "={{ $('Start').item.json.Node_Name_With_Gap_myField }}"
    ensures var t1 := Bound(EmptyTable, Signature("A", Item, ["myField"]), "myField", x1);
      RewriteParameters([Made("p0", x2)], Context(["A", "B", "C", "D", "E", "F", "Node_Name_With_Gap"], {"F", "B", "C", "E"}, "Start"), t1)
      == ([Holding("p0", y2)], Bound(t1, Signature("A", Item, ["Node_Name_With_Gap_myField"]), "Node_Name_With_Gap_myField", x2))
  {
    var sig := Signature("A", Item, ["Node_Name_With_Gap_myField"]);
    var t1 := Bound(EmptyTable, Signature("A", Item, ["myField"]), "myField", x1);
    HeadA();
    OutHeadStart();
    SpelledGapInA();
    SpelledOutGap();
    ReadsBackGapInA();
    GapIdentifiers();
    ItemKeys("A", "Node_Name_With_Gap_myField");
    assert Taken(t1) == {"myField"};
    FreshNameEscalates("Node_Name_With_Gap_myField", PrefixedKey(sig), Taken(t1));
    ItemFresh("A", "Node_Name_With_Gap_myField", Context(["A", "B", "C", "D", "E", "F", "Node_Name_With_Gap"], {"F", "B", "C", "E"}, "Start"),
      t1, "Node_Name_With_Gap_myField", "$(\"A\").item.json.", "={{ $('Start').item.json.", x2, y2);
  }

  /** `$("D").item.json.Node_Name_With_Gap_myField`: its key is taken, its prefixed key is free. */
  lemma RewritesGapInD(x1: string, x2: string, x3: string, y3: string)
    requires x3 == "$(\"D\").item.json.Node_Name_With_Gap_myField" && y3 == "={{ $('Start').item.json.D_Node_Name_With_Gap_myField }}"
    ensures var t1 := Bound(EmptyTable, Signature("A", Item, ["myField"]), "myField", x1);
      var t2 := Bound(t1, Signature("A", Item, ["Node_Name_With_Gap_myField"]), "Node_Name_With_Gap_myField", x2);
      RewriteParameters([Made("p0", x3)], Context(["A", "B", "C", "D", "E", "F", "Node_Name_With_Gap"], {"F", "B", "C", "E"}, "Start"), t2)
      == ([Holding("p0", y3)], Bound(t2, Signature("D", Item, ["Node_Name_With_Gap_myField"]), "D_Node_Name_With_Gap_myField", x3))
  {
    var t1 := Bound(EmptyTable, Signature("A", Item, ["myField"]), "myField", x1);
    var t2 := Bound(t1, Signature("A", Item, ["Node_Name_With_Gap_myField"]), "Node_Name_With_Gap_myField", x2);
    HeadD();
    OutHeadStart();
    SpelledGapInD();
    SpelledOutGapInD();
    ReadsBackGapInD();
    GapIdentifiers();
    GapPrefixedInD();
    ItemKeys("D", "Node_Name_With_Gap_myField");
    assert Taken(t2) == {"myField", "Node_Name_With_Gap_myField"};
    FreshNameEscalates("Node_Name_With_Gap_myField", "D_Node_Name_With_Gap_myField", Taken(t2));
    ItemFresh("D", "Node_Name_With_Gap_myField", Context(["A", "B", "C", "D", "E", "F", "Node_Name_With_Gap"], {"F", "B", "C", "E"}, "Start"),
      t2, "D_Node_Name_With_Gap_myField", "$(\"D\").item.json.", "={{ $('Start').item.json.", x3, y3);
  }

  lemma GapNodeReads(ctx: Context)
    requires ctx == Context(["A", "B", "C", "D", "E", "F", "Node_Name_With_Gap"], {"F", "B", "C", "E"}, "Start")
    ensures ReadsBack('"', Signature("Node_Name_With_Gap", Item, ["myField"]), " }}", ctx.nodeNames)
    ensures "Node_Name_With_Gap" !in ctx.subgraph
  {
    ReadsBackGap();
    GapOutside(ctx);
  }

  lemma GapNodeSpelled(x4: string, y4: string)
    requires x4 == "$(\"Node_Name_With_Gap\").item.json.myField" && y4 == "={{ $('Start').item.json.Node_Name_With_Gap_myField_1 }}"
    ensures "$(\"Node_Name_With_Gap\").item.json." == "$(" + ['"'] + "Node_Name_With_Gap" + ['"'] + ").item.json."
    ensures x4 == "$(\"Node_Name_With_Gap\").item.json." + "myField"
    ensures "={{ $('Start').item.json." == "={{ $('" + "Start" + "').item.json."
    ensures y4 == "={{ $('Start').item.json." + "Node_Name_With_Gap_myField_1" + " }}"
  {
    HeadGap();
    OutHeadStart();
    SpelledGapNode();
    SpelledOutGapNumbered();
  }

  /** After `myField`, `Node_Name_With_Gap_myField` and `D_Node_Name_With_Gap_myField` are bound,
      `$("Node_Name_With_Gap").item.json.myField` is new and takes the first numbered name. */
  lemma GapNodeNamed(x1: string, x2: string, x3: string)
    ensures var t1 := Bound(EmptyTable, Signature("A", Item, ["myField"]), "myField", x1);
      var t2 := Bound(t1, Signature("A", Item, ["Node_Name_With_Gap_myField"]), "Node_Name_With_Gap_myField", x2);
      var t3 := Bound(t2, Signature("D", Item, ["Node_Name_With_Gap_myField"]), "D_Node_Name_With_Gap_myField", x3);
      var sig := Signature("Node_Name_With_Gap", Item, ["myField"]);
      && sig !in t3.nameOf
      && FreshName(Key(sig), PrefixedKey(sig), Taken(t3)) == "Node_Name_With_Gap_myField_1"
  {
    GapNodeKeys();
    GapNumberedDistinct();
    GapNodeDistinct();
    NumberedAfterThree(Signature("A", Item, ["myField"]), "myField", x1, Signature("A", Item, ["Node_Name_With_Gap_myField"]),
      "Node_Name_With_Gap_myField", x2, Signature("D", Item, ["Node_Name_With_Gap_myField"]), "D_Node_Name_With_Gap_myField", x3,
      Signature("Node_Name_With_Gap", Item, ["myField"]));
  }

  lemma GapNodeDistinct()
    ensures var sig := Signature("Node_Name_With_Gap", Item, ["myField"]);
      && sig != Signature("A", Item, ["myField"]) && sig != Signature("A", Item, ["Node_Name_With_Gap_myField"])
      && sig != Signature("D", Item, ["Node_Name_With_Gap_myField"])
  {
    assert |"Node_Name_With_Gap"| == 18;
  }

  /** `$("Node_Name_With_Gap").item.json.myField`: its key and its prefixed key are both taken, so
      it gets the first number. */
  lemma RewritesGapNode(x1: string, x2: string, x3: string, x4: string, y4: string)
    requires x4 == "$(\"Node_Name_With_Gap\").item.json.myField" && y4 == "={{ $('Start').item.json.Node_Name_With_Gap_myField_1 }}"
    ensures var t1 := Bound(EmptyTable, Signature("A", Item, ["myField"]), "myField", x1);
      var t2 := Bound(t1, Signature("A", Item, ["Node_Name_With_Gap_myField"]), "Node_Name_With_Gap_myField", x2);
      var t3 := Bound(t2, Signature("D", Item, ["Node_Name_With_Gap_myField"]), "D_Node_Name_With_Gap_myField", x3);
      RewriteParameters([Made("p0", x4)], Context(["A", "B", "C", "D", "E", "F", "Node_Name_With_Gap"], {"F", "B", "C", "E"}, "Start"), t3)
      == ([Holding("p0", y4)], Bound(t3, Signature("Node_Name_With_Gap", Item, ["myField"]), "Node_Name_With_Gap_myField_1", x4))
  {
    var t1 := Bound(EmptyTable, Signature("A", Item, ["myField"]), "myField", x1);
    var t2 := Bound(t1, Signature("A", Item, ["Node_Name_With_Gap_myField"]), "Node_Name_With_Gap_myField", x2);
    var t3 := Bound(t2, Signature("D", Item, ["Node_Name_With_Gap_myField"]), "D_Node_Name_With_Gap_myField", x3);
    var ctx := Context(["A", "B", "C", "D", "E", "F", "Node_Name_With_Gap"], {"F", "B", "C", "E"}, "Start");
    GapNodeReads(ctx);
    GapNodeSpelled(x4, y4);
    GapNodeNamed(x1, x2, x3);
    ItemFresh("Node_Name_With_Gap", "myField", ctx, t3, "Node_Name_With_Gap_myField_1",
      "$(\"Node_Name_With_Gap\").item.json.", "={{ $('Start').item.json.", x4, y4);
  }

  /** Test lines 202-235. */
  lemma ExtractsComplexClashes(x1: string, x2: string, x3: string, x4: string, y1: string, y2: string, y3: string, y4: string)
    requires x1 == "$(\"A\").item.json.myField" && y1 == "={{ $('Start').item.json.myField }}"
    requires x2 == "$(\"A\").item.json.Node_Name_With_Gap_myField" && y2 == "={{ $('Start').item.json.Node_Name_With_Gap_myField }}"
    requires x3 == "$(\"D\").item.json.Node_Name_With_Gap_myField" && y3 == "={{ $('Start').item.json.D_Node_Name_With_Gap_myField }}"
    requires x4 == "$(\"Node_Name_With_Gap\").item.json.myField" && y4 == "={{ $('Start').item.json.Node_Name_With_Gap_myField_1 }}"
    ensures Extract([Node("F", [Made("p0", x1)]), Node("B", [Made("p0", x2)]), Node("C", [Made("p0", x3)]), Node("E", [Made("p0", x4)])],
                    ["A", "B", "C", "D", "E", "F", "Node_Name_With_Gap"], "Start")
         == Success(Extraction([Node("F", [Holding("p0", y1)]), Node("B", [Holding("p0", y2)]),
                                Node("C", [Holding("p0", y3)]), Node("E", [Holding("p0", y4)])],
                               [Variable("myField", x1), Variable("Node_Name_With_Gap_myField", x2),
                                Variable("D_Node_Name_With_Gap_myField", x3), Variable("Node_Name_With_Gap_myField_1", x4)]))
  {
    var s1, s2 := Signature("A", Item, ["myField"]), Signature("A", Item, ["Node_Name_With_Gap_myField"]);
    var s3, s4 := Signature("D", Item, ["Node_Name_With_Gap_myField"]), Signature("Node_Name_With_Gap", Item, ["myField"]);
    var t1 := Bound(EmptyTable, s1, "myField", x1);
    var t2 := Bound(t1, s2, "Node_Name_With_Gap_myField", x2);
    var t3 := Bound(t2, s3, "D_Node_Name_With_Gap_myField", x3);
    var t4 := Bound(t3, s4, "Node_Name_With_Gap_myField_1", x4);
    ReadsBack202();
    RewritesItem(x1, y1, Context(["A", "B", "C", "D", "E", "F", "Node_Name_With_Gap"], {"F", "B", "C", "E"}, "Start"));
    RewritesGapInA(x1, x2, y2);
    RewritesGapInD(x1, x2, x3, y3);
    RewritesGapNode(x1, x2, x3, x4, y4);
    ExtractFour([Node("F", [Made("p0", x1)]), Node("B", [Made("p0", x2)]), Node("C", [Made("p0", x3)]), Node("E", [Made("p0", x4)])],
      ["A", "B", "C", "D", "E", "F", "Node_Name_With_Gap"], "Start",
      [Node("F", [Holding("p0", y1)]), Node("B", [Holding("p0", y2)]), Node("C", [Holding("p0", y3)]), Node("E", [Holding("p0", y4)])],
      t1, t2, t3, t4);
    BoundVars(s1, "myField", x1, s2, "Node_Name_With_Gap_myField", x2, s3, "D_Node_Name_With_Gap_myField", x3,
      s4, "Node_Name_With_Gap_myField_1", x4);
  }

  // Test lines 237-269: a reference inside the code of a Code node

  /** Text that keeps no call `$(` also keeps none when another such text follows it, unless it
      ends in `$`. */
  lemma CallFreeJoined(u: string, v: string)
    requires NoCallIn(u) && NoCallIn(v) && (u != [] ==> u[|u| - 1] != '$')
    ensures NoCallIn(u + v)
  {
    forall j | 0 <= j < |u + v| && (u + v)[j] == '$'
      ensures j + 1 < |u + v| && (u + v)[j + 1] != '('
    {
      if j < |u| {
        assert u[j] == '$';
        if j + 1 < |u| {
          assert (u + v)[j + 1] == u[j + 1];
        }
      } else {
        assert v[j - |u|] == '$';
      }
    }
  }

  /** The code before the reference, in three parts. */
  function CodeBefore(): string { "for (const item of " + "$input.all()) {\n  " + "item.json.myNewField = " }

  function CodeAfter(): string { ";\n}\n\nreturn $input.all();" }

  lemma CodePartsCallFree()
    ensures NoCallIn("for (const item of ") && NoCallIn("$input.all()) {\n  ")
  {
  }

  lemma CodeEndsCallFree()
    ensures NoCallIn("item.json.myNewField = ") && NoCallIn(CodeAfter())
  {
  }

  lemma CodeCallFree()
    ensures NoCallIn(CodeBefore()) && NoCallIn(CodeAfter())
  {
    CodePartsCallFree();
    CodeEndsCallFree();
    CallFreeJoined("for (const item of ", "$input.all()) {\n  ");
    CallFreeJoined("for (const item of " + "$input.all()) {\n  ", "item.json.myNewField = ");
  }

  lemma CodeSpelled(x: string)
    requires x == "$('DebugHelper').first().json.uid"
    ensures ReferenceText('\'', Signature("DebugHelper", First, ["uid"])) == x
  {
    ReferenceSpelled1('\'', "DebugHelper", First, "uid");
    CodeHead();
  }

  lemma CodeHead()
    ensures "$(" + ['\''] + "DebugHelper" + ['\''] + ")" + "." + AccessorText(First) + ".json" == "$('DebugHelper').first().json"
  {
  }

  lemma CodeReplaced()
    ensures Replacement("Start", First, "uid_first") == "$('Start').first().json.uid_first"
  {
  }

  lemma ReadsBackCode()
    ensures ReadsBack('\'', Signature("DebugHelper", First, ["uid"]), CodeAfter(), ["DebugHelper", "Code"])
  {
  }

  /** The code keeps everything around the reference, which becomes `uid_first` read from `Start`. */
  lemma RewritesCode(x: string)
    requires x == "$('DebugHelper').first().json.uid"
    ensures RewriteParameters([Holding("jsCode", CodeBefore() + x + CodeAfter())], Context(["DebugHelper", "Code"], {"Code"}, "Start"), EmptyTable)
         == ([Holding("jsCode", CodeBefore() + "$('Start').first().json.uid_first" + CodeAfter())],
             Bound(EmptyTable, Signature("DebugHelper", First, ["uid"]), "uid_first", x))
  {
    var sig := Signature("DebugHelper", First, ["uid"]);
    var ctx := Context(["DebugHelper", "Code"], {"Code"}, "Start");
    CodeCallFree();
    CodeSpelled(x);
    CodeReplaced();
    ReadsBackCode();
    assert Key(sig) == "uid_first";
    FreshNameEscalates("uid_first", PrefixedKey(sig), {});
    FreshExternal(CodeBefore(), '\'', sig, CodeAfter(), ctx, EmptyTable, x, "uid_first",
      CodeBefore() + "$('Start').first().json.uid_first" + CodeAfter());
    OneText("jsCode", CodeBefore() + x + CodeAfter(), ctx, EmptyTable, CodeBefore() + "$('Start').first().json.uid_first" + CodeAfter(),
      Bound(EmptyTable, sig, "uid_first", x));
  }

  /** Test lines 237-269, with the code written in parts around the reference; the Code
      node's type, version, position and id are not modelled. */
  lemma ExtractsFromCode(s: string, x: string, out: string)
    requires x == "$('DebugHelper').first().json.uid"
    requires s == "for (const item of " + "$input.all()) {\n  " + "item.json.myNewField = " + x + ";\n}\n\nreturn $input.all();"
    requires out == "for (const item of " + "$input.all()) {\n  " + "item.json.myNewField = " + "$('Start').first().json.uid_first"
                    + ";\n}\n\nreturn $input.all();"
    ensures Extract([Node("Code", [Holding("jsCode", s)])], ["DebugHelper", "Code"], "Start")
         == Success(Extraction([Node("Code", [Holding("jsCode", out)])], [Variable("uid_first", x)]))
  {
    var t1 := Bound(EmptyTable, Signature("DebugHelper", First, ["uid"]), "uid_first", x);
    RewritesCode(x);
    ExtractOne("Code", [Holding("jsCode", s)], ["DebugHelper", "Code"], "Start", [Holding("jsCode", out)], t1);
    BoundVars(Signature("DebugHelper", First, ["uid"]), "uid_first", x, Signature("DebugHelper", First, ["uid"]), "", x,
      Signature("DebugHelper", First, ["uid"]), "", x, Signature("DebugHelper", First, ["uid"]), "", x);
  }

  // Test lines 270-288: a reference to a subgraph node is kept

  lemma ReadsBackInternal()
    ensures ReadsBack('"', Signature("B", First, ["myField", "anotherField"]), " }}", ["A", "B", "C"])
  {
  }

  lemma HeadBFirst()
    ensures "$(" + ['"'] + "B" + ['"'] + ")" + "." + AccessorText(First) + ".json" == "$(\"B\").first().json"
  {
  }

  lemma BFirstTail()
    ensures "$(\"B\").first().json" + "." + "myField" + "." + "anotherField" == "$(\"B\").first().json.myField.anotherField"
  {
  }

  lemma KeptOpened()
    ensures "={{ " + "$(\"B\").first().json" == "={{ $(\"B\").first().json"
  {
  }

  lemma KeptPath()
    ensures "$(\"B\").first().json" + ".myField.anotherField" == "$(\"B\").first().json.myField.anotherField"
  {
  }

  lemma KeptOpenedPath()
    ensures "={{ $(\"B\").first().json" + ".myField.anotherField" == "={{ $(\"B\").first().json.myField.anotherField"
  {
  }

  lemma KeptWrapped(x2: string)
    requires x2 == "$(\"B\").first().json.myField.anotherField"
    ensures Wrapped(x2) == "={{ $(\"B\").first().json.myField.anotherField }}"
  {
    KeptOpened();
    KeptPath();
    KeptOpenedPath();
    assert "={{ " + ("$(\"B\").first().json" + ".myField.anotherField") == "={{ " + "$(\"B\").first().json" + ".myField.anotherField";
    assert "={{ $(\"B\").first().json.myField.anotherField" + " }}" == "={{ $(\"B\").first().json.myField.anotherField }}";
  }

  /** `$("B").first().json.myField.anotherField` names node `B` of the subgraph and is left as it is. */
  lemma KeepsInternal(x1: string, x2: string)
    requires x2 == "$(\"B\").first().json.myField.anotherField"
    ensures var t1 := Bound(EmptyTable, Signature("A", Item, ["myField"]), "myField", x1);
      RewriteParameters([Made("p0", x2)], Context(["A", "B", "C"], {"B", "C"}, "Start"), t1) == ([Made("p0", x2)], t1)
  {
    var sig := Signature("B", First, ["myField", "anotherField"]);
    var t1 := Bound(EmptyTable, Signature("A", Item, ["myField"]), "myField", x1);
    var ctx := Context(["A", "B", "C"], {"B", "C"}, "Start");
    ReferenceSpelled2('"', "B", First, "myField", "anotherField");
    HeadBFirst();
    BFirstTail();
    ReadsBackInternal();
    WrappedKept('"', sig, ctx, t1, x2);
    OneText("p0", Wrapped(x2), ctx, t1, Wrapped(x2), t1);
  }

  /** Test lines 270-288. */
  lemma ExtractsOnlyExternal(x1: string, x2: string, y1: string, y2: string)
    requires x1 == "$(\"A\").item.json.myField" && y1 == "={{ $('Start').item.json.myField }}"
    requires x2 == "$(\"B\").first().json.myField.anotherField" && y2 == "={{ $(\"B\").first().json.myField.anotherField }}"
    ensures Extract([Node("B", [Made("p0", x1)]), Node("C", [Made("p0", x2)])], ["A", "B", "C"], "Start")
         == Success(Extraction([Node("B", [Holding("p0", y1)]), Node("C", [Holding("p0", y2)])], [Variable("myField", x1)]))
  {
    var t1 := Bound(EmptyTable, Signature("A", Item, ["myField"]), "myField", x1);
    ReadsBack155();
    RewritesItem(x1, y1, Context(["A", "B", "C"], {"B", "C"}, "Start"));
    KeepsInternal(x1, x2);
    KeptWrapped(x2);
    ExtractTwo("B", [Made("p0", x1)], "C", [Made("p0", x2)], ["A", "B", "C"], "Start", [Holding("p0", y1)], t1, [Made("p0", x2)], t1);
    BoundVars(Signature("A", Item, ["myField"]), "myField", x1, Signature("A", Item, ["myField"]), "", x1,
      Signature("A", Item, ["myField"]), "", x1, Signature("A", Item, ["myField"]), "", x1);
  }

  // Test lines 289-312: the two errors

  /** Test lines 289-293: a subgraph node named like the start node is refused, whatever its
      parameters hold. */
  lemma RefusesStartNameClash(ps: seq<Parameter>)
    ensures Extract([Node("Start", ps)], ["A", "Start"], "Start") == Failure(StartNameClash("Start"))
  {
    assert [Node("Start", ps)][0].name == "Start";
  }

  /** Test lines 308-312: a subgraph node missing from the node names is refused. */
  lemma RefusesUnknownNode(ps: seq<Parameter>)
    ensures Extract([Node("B", ps)], ["A"], "Start") == Failure(UnknownNode("B"))
  {
    assert NamesOf([Node("B", ps)]) == {"B"} by {
      assert [Node("B", ps)][0].name == "B";
    }
  }

  // Test lines 295-307: another name for the start node

  lemma HeadOtherStart()
    ensures "={{ $('" + "A different start name" + "').item.json." == "={{ $('A different start name').item.json."
  {
  }

  lemma SpelledOtherStart(x: string, y: string)
    requires x == "$(\"A\").item.json.myField" && y == "={{ $('A different start name').item.json.myField }}"
    ensures x == "$(\"A\").item.json." + "myField"
    ensures y == "={{ $('A different start name').item.json." + "myField" + " }}"
  {
  }

  /** Test lines 295-307. */
  lemma ExtractsWithOtherStart(x: string, y: string)
    requires x == "$(\"A\").item.json.myField" && y == "={{ $('A different start name').item.json.myField }}"
    ensures Extract([Node("Start", [Made("p0", x)])], ["A", "Start"], "A different start name")
         == Success(Extraction([Node("Start", [Holding("p0", y)])], [Variable("myField", x)]))
  {
    var sig := Signature("A", Item, ["myField"]);
    var ctx := Context(["A", "Start"], {"Start"}, "A different start name");
    var t1 := Bound(EmptyTable, sig, "myField", x);
    assert ReadsBack('"', sig, " }}", ctx.nodeNames);
    HeadA();
    HeadOtherStart();
    SpelledOtherStart(x, y);
    KeyVectors();
    FreshNameEscalates("myField", PrefixedKey(sig), {});
    ItemFresh("A", "myField", ctx, EmptyTable, "myField", "$(\"A\").item.json.", "={{ $('A different start name').item.json.", x, y);
    ExtractOne("Start", [Made("p0", x)], ["A", "Start"], "A different start name", [Holding("p0", y)], t1);
    BoundVars(sig, "myField", x, sig, "", x, sig, "", x, sig, "", x);
  }

  // Test lines 358-385: a reference seen again reads the same variable

  lemma QuoteFree358()
    ensures var names := ["A", "B", "C", "D"];
      forall k :: 0 <= k < |names| ==> '"' !in names[k]
  {
    var names := ["A", "B", "C", "D"];
    assert forall k :: 0 <= k < 4 ==> |names[k]| == 1;
  }

  lemma ReadsBack358()
    ensures ReadsBack('"', Signature("A", Item, ["myField"]), " }}", ["A", "B", "C", "D"])
    ensures ReadsBack('"', Signature("C", Item, ["anotherField"]), " }}", ["A", "B", "C", "D"])
    ensures ReadsBack('"', Signature("B", Item, ["someField"]), " }}", ["A", "B", "C", "D"])
  {
    QuoteFree358();
  }

  lemma HeadC()
    ensures "$(" + ['"'] + "C" + ['"'] + ").item.json." == "$(\"C\").item.json."
  {
  }

  lemma HeadB()
    ensures "$(" + ['"'] + "B" + ['"'] + ").item.json." == "$(\"B\").item.json."
  {
  }

  lemma Spelled358(x1: string, x2: string, x4: string, y1: string, y2: string)
    requires x1 == "$(\"A\").item.json.myField" && y1 == "={{ $('Start').item.json.myField }}"
    requires x2 == "$(\"C\").item.json.anotherField" && y2 == "={{ $('Start').item.json.anotherField }}"
    requires x4 == "$(\"B\").item.json.someField"
    ensures x1 == "$(\"A\").item.json." + "myField" && y1 == "={{ $('Start').item.json." + "myField" + " }}"
    ensures x2 == "$(\"C\").item.json." + "anotherField" && y2 == "={{ $('Start').item.json." + "anotherField" + " }}"
    ensures x4 == "$(\"B\").item.json." + "someField"
  {
  }

  lemma KeptSomeField(x4: string)
    requires x4 == "$(\"B\").item.json.someField"
    ensures Wrapped(x4) == "={{ $(\"B\").item.json.someField }}"
  {
    assert "={{ " + "$(\"B\").item.json.someField" == "={{ $(\"B\").item.json.someField";
  }

  /** The two parameters of node `B`: both references are new. */
  lemma RewritesFirstNode(x1: string, x2: string, x4: string, y1: string, y2: string)
    requires x1 == "$(\"A\").item.json.myField" && y1 == "={{ $('Start').item.json.myField }}"
    requires x2 == "$(\"C\").item.json.anotherField" && y2 == "={{ $('Start').item.json.anotherField }}"
    requires x4 == "$(\"B\").item.json.someField"
    ensures var t1 := Bound(EmptyTable, Signature("A", Item, ["myField"]), "myField", x1);
      var t2 := Bound(t1, Signature("C", Item, ["anotherField"]), "anotherField", x2);
      RewriteParameters([Made("p0", x1), Made("p1", x2)], Context(["A", "B", "C", "D"], {"B", "D"}, "Start"), EmptyTable)
      == ([Holding("p0", y1), Holding("p1", y2)], t2)
  {
    var ctx := Context(["A", "B", "C", "D"], {"B", "D"}, "Start");
    var t1 := Bound(EmptyTable, Signature("A", Item, ["myField"]), "myField", x1);
    var t2 := Bound(t1, Signature("C", Item, ["anotherField"]), "anotherField", x2);
    ReadsBack358();
    HeadA();
    HeadC();
    OutHeadStart();
    Spelled358(x1, x2, x4, y1, y2);
    ItemKeys("A", "myField");
    FreshNameEscalates("myField", PrefixedKey(Signature("A", Item, ["myField"])), {});
    ItemFreshText("A", "myField", ctx, EmptyTable, "myField", "$(\"A\").item.json.", "={{ $('Start').item.json.", x1, y1);
    ItemKeys("C", "anotherField");
    assert Taken(t1) == {"myField"};
    FreshNameEscalates("anotherField", PrefixedKey(Signature("C", Item, ["anotherField"])), Taken(t1));
    ItemFreshText("C", "anotherField", ctx, t1, "anotherField", "$(\"C\").item.json.", "={{ $('Start').item.json.", x2, y2);
    TwoTexts("p0", Wrapped(x1), "p1", Wrapped(x2), ctx, EmptyTable, y1, t1, y2, t2);
  }

  /** The two parameters of node `D`: the first reference is `B`'s first again, the second names a
      subgraph node. */
  lemma RewritesSecondNode(x1: string, x2: string, x4: string, y1: string, y2: string)
    requires x1 == "$(\"A\").item.json.myField" && y1 == "={{ $('Start').item.json.myField }}"
    requires x2 == "$(\"C\").item.json.anotherField" && y2 == "={{ $('Start').item.json.anotherField }}"
    requires x4 == "$(\"B\").item.json.someField"
    ensures var t1 := Bound(EmptyTable, Signature("A", Item, ["myField"]), "myField", x1);
      var t2 := Bound(t1, Signature("C", Item, ["anotherField"]), "anotherField", x2);
      RewriteParameters([Made("p0", x1), Made("p1", x4)], Context(["A", "B", "C", "D"], {"B", "D"}, "Start"), t2)
      == ([Holding("p0", y1), Made("p1", x4)], t2)
  {
    var ctx := Context(["A", "B", "C", "D"], {"B", "D"}, "Start");
    var t1 := Bound(EmptyTable, Signature("A", Item, ["myField"]), "myField", x1);
    var t2 := Bound(t1, Signature("C", Item, ["anotherField"]), "anotherField", x2);
    ReadsBack358();
    HeadA();
    HeadB();
    OutHeadStart();
    Spelled358(x1, x2, x4, y1, y2);
    assert Signature("A", Item, ["myField"]) in t2.nameOf && t2.nameOf[Signature("A", Item, ["myField"])] == "myField";
    ItemReusedText("A", "myField", ctx, t2, "myField", "$(\"A\").item.json.", "={{ $('Start').item.json.", x1, y1);
    ItemKeptText("B", "someField", ctx, t2, "$(\"B\").item.json.", x4);
    TwoTexts("p0", Wrapped(x1), "p1", Wrapped(x4), ctx, t2, y1, t2, Wrapped(x4), t2);
  }

  /** Test lines 358-385. */
  lemma ExtractsMultipleExpressions(x1: string, x2: string, x4: string, y1: string, y2: string, y4: string)
    requires x1 == "$(\"A\").item.json.myField" && y1 == "={{ $('Start').item.json.myField }}"
    requires x2 == "$(\"C\").item.json.anotherField" && y2 == "={{ $('Start').item.json.anotherField }}"
    requires x4 == "$(\"B\").item.json.someField" && y4 == "={{ $(\"B\").item.json.someField }}"
    ensures Extract([Node("B", [Made("p0", x1), Made("p1", x2)]), Node("D", [Made("p0", x1), Made("p1", x4)])], ["A", "B", "C", "D"], "Start")
         == Success(Extraction([Node("B", [Holding("p0", y1), Holding("p1", y2)]), Node("D", [Holding("p0", y1), Holding("p1", y4)])],
                               [Variable("myField", x1), Variable("anotherField", x2)]))
  {
    var t2 := Bound(Bound(EmptyTable, Signature("A", Item, ["myField"]), "myField", x1), Signature("C", Item, ["anotherField"]), "anotherField", x2);
    RewritesFirstNode(x1, x2, x4, y1, y2);
    RewritesSecondNode(x1, x2, x4, y1, y2);
    KeptSomeField(x4);
    ExtractTwo("B", [Made("p0", x1), Made("p1", x2)], "D", [Made("p0", x1), Made("p1", x4)], ["A", "B", "C", "D"], "Start",
      [Holding("p0", y1), Holding("p1", y2)], t2, [Holding("p0", y1), Made("p1", x4)], t2);
    BoundVars(Signature("A", Item, ["myField"]), "myField", x1, Signature("C", Item, ["anotherField"]), "anotherField", x2,
      Signature("A", Item, ["myField"]), "", x1, Signature("A", Item, ["myField"]), "", x1);
  }

  // Test lines 386-399: the reference ends at the accessor, and what follows is kept

  function CallsAfter(): string { ".toJsonObject().randomJSFunction()" }

  lemma ReadsBackCalls()
    ensures ReadsBack('"', Signature("B B", First, []), CallsAfter() + " }}", ["A", "B B"])
  {
    assert (CallsAfter() + " }}")[1] == 't';
  }

  lemma CallsCallFree()
    ensures NoCallIn("={{ ") && NoCallIn(CallsAfter() + " }}")
  {
    assert forall j :: 0 <= j < |CallsAfter()| ==> CallsAfter()[j] != '$';
  }

  /** A space in a node name becomes `_` in the variable name. */
  lemma SpacedNodeKey()
    ensures Key(Signature("B B", First, [])) == "B_B_first"
  {
    assert "B B" == "B" + " " + "B";
    SanitizeConcat("B" + " ", "B");
    SanitizeConcat("B", " ");
    assert Sanitize("B") == "B" && Sanitize(" ") == "_";
  }

  lemma SpacedNodeSpelled(r: string)
    requires r == "$(\"B B\").first()"
    ensures ReferenceText('"', Signature("B B", First, [])) == r
  {
    ReferenceSpelled0('"', "B B", First);
  }

  lemma CallsSpelled(x: string, r: string)
    requires x == "$(\"B B\").first().toJsonObject().randomJSFunction()" && r == "$(\"B B\").first()"
    ensures x == r + CallsAfter()
  {
  }

  lemma CallsReplaced()
    ensures "={{ " + Replacement("Start", First, "B_B_first") == "={{ $('Start').first().json.B_B_first"
  {
    OutHeadFirst();
    assert "={{ $('Start').first().json." + "B_B_first" == "={{ $('Start').first().json.B_B_first";
  }

  lemma CallsFollow()
    ensures "={{ $('Start').first().json.B_B_first" + CallsAfter() == "={{ $('Start').first().json.B_B_first.toJsonObject().randomJSFunction()"
  {
  }

  lemma CallsKept(y: string)
    requires y == "={{ $('Start').first().json.B_B_first.toJsonObject().randomJSFunction() }}"
    ensures y == "={{ $('Start').first().json.B_B_first" + CallsAfter() + " }}"
  {
    CallsFollow();
  }

  /** Test lines 386-399. */
  lemma ExtractsAccessorCalls(x: string, r: string, y: string)
    requires x == "$(\"B B\").first().toJsonObject().randomJSFunction()" && r == "$(\"B B\").first()"
    requires y == "={{ $('Start').first().json.B_B_first.toJsonObject().randomJSFunction() }}"
    ensures Extract([Node("A", [Made("p0", x)])], ["A", "B B"], "Start")
         == Success(Extraction([Node("A", [Holding("p0", y)])], [Variable("B_B_first", r)]))
  {
    var sig := Signature("B B", First, []);
    var ctx := Context(["A", "B B"], {"A"}, "Start");
    var t1 := Bound(EmptyTable, sig, "B_B_first", r);
    var b := CallsAfter() + " }}";
    CallsCallFree();
    ReadsBackCalls();
    SpacedNodeKey();
    SpacedNodeSpelled(r);
    CallsSpelled(x, r);
    CallsReplaced();
    CallsKept(y);
    FreshNameEscalates("B_B_first", PrefixedKey(sig), {});
    assert "B B" !in ctx.subgraph;
    FreshExternal("={{ ", '"', sig, b, ctx, EmptyTable, r, "B_B_first", y);
    assert Wrapped(x) == "={{ " + r + b;
    OneText("p0", Wrapped(x), ctx, EmptyTable, y, t1);
    ExtractOne("A", [Made("p0", x)], ["A", "B B"], "Start", [Holding("p0", y)], t1);
    BoundVars(sig, "B_B_first", r, sig, "", r, sig, "", r, sig, "", r);
  }

  // Test lines 316-344: `itemMatching` with its argument in the variable name

  lemma ReadsBackMatching()
    ensures ReadsBack('"', Signature("A", ItemMatching("0"), ["myField"]), " }}", ["A", "B", "C"])
    ensures ReadsBack('"', Signature("A", ItemMatching("1"), ["myField"]), " }}", ["A", "B", "C"])
    ensures ReadsBack('"', Signature("C", ItemMatching("1"), ["myField"]), " }}", ["A", "B", "C"])
    ensures ReadsBack('"', Signature("A", ItemMatching("20"), ["myField"]), " }}", ["A", "B", "C"])
  {
  }

  lemma HeadMatchingA0()
    ensures "$(" + ['"'] + "A" + ['"'] + ")." + AccessorText(ItemMatching("0")) + ".json." == "$(\"A\").itemMatching(0).json."
  {
    assert AccessorText(ItemMatching("0")) == "itemMatching(0)";
  }

  lemma HeadMatchingA1()
    ensures "$(" + ['"'] + "A" + ['"'] + ")." + AccessorText(ItemMatching("1")) + ".json." == "$(\"A\").itemMatching(1).json."
  {
    assert AccessorText(ItemMatching("1")) == "itemMatching(1)";
  }

  lemma HeadMatchingC1()
    ensures "$(" + ['"'] + "C" + ['"'] + ")." + AccessorText(ItemMatching("1")) + ".json." == "$(\"C\").itemMatching(1).json."
  {
    assert AccessorText(ItemMatching("1")) == "itemMatching(1)";
  }

  lemma HeadMatchingA20()
    ensures "$(" + ['"'] + "A" + ['"'] + ")." + AccessorText(ItemMatching("20")) + ".json." == "$(\"A\").itemMatching(20).json."
  {
    assert AccessorText(ItemMatching("20")) == "itemMatching(20)";
  }

  lemma OutHeadMatching0()
    ensures "={{ $('" + "Start" + "')." + AccessorText(ItemMatching("0")) + ".json." == "={{ $('Start').itemMatching(0).json."
  {
    assert AccessorText(ItemMatching("0")) == "itemMatching(0)";
  }

  lemma OutHeadMatching1()
    ensures "={{ $('" + "Start" + "')." + AccessorText(ItemMatching("1")) + ".json." == "={{ $('Start').itemMatching(1).json."
  {
    assert AccessorText(ItemMatching("1")) == "itemMatching(1)";
  }

  lemma OutHeadMatching20()
    ensures "={{ $('" + "Start" + "')." + AccessorText(ItemMatching("20")) + ".json." == "={{ $('Start').itemMatching(20).json."
  {
    assert AccessorText(ItemMatching("20")) == "itemMatching(20)";
  }

  lemma SpelledMatchingA0(x: string)
    requires x == "$(\"A\").itemMatching(0).json.myField"
    ensures x == "$(\"A\").itemMatching(0).json." + "myField"
  {
  }

  lemma SpelledMatchingA1(x: string)
    requires x == "$(\"A\").itemMatching(1).json.myField"
    ensures x == "$(\"A\").itemMatching(1).json." + "myField"
  {
  }

  lemma SpelledMatchingC1(x: string)
    requires x == "$(\"C\").itemMatching(1).json.myField"
    ensures x == "$(\"C\").itemMatching(1).json." + "myField"
  {
  }

  lemma SpelledMatchingA20(x: string)
    requires x == "$(\"A\").itemMatching(20).json.myField"
    ensures x == "$(\"A\").itemMatching(20).json." + "myField"
  {
  }

  lemma SpelledOutMatching0(y1: string)
    requires y1 == "={{ $('Start').itemMatching(0).json.myField_itemMatching_0 }}"
    ensures y1 == "={{ $('Start').itemMatching(0).json." + "myField_itemMatching_0" + " }}"
  {
  }

  lemma SpelledOutMatching1(y2: string)
    requires y2 == "={{ $('Start').itemMatching(1).json.myField_itemMatching_1 }}"
    ensures y2 == "={{ $('Start').itemMatching(1).json." + "myField_itemMatching_1" + " }}"
  {
  }

  lemma SpelledOutMatchingC(y3: string)
    requires y3 == "={{ $('Start').itemMatching(1).json.C_myField_itemMatching_1 }}"
    ensures y3 == "={{ $('Start').itemMatching(1).json." + "C_myField_itemMatching_1" + " }}"
  {
  }

  lemma SpelledOutMatching20(y4: string)
    requires y4 == "={{ $('Start').itemMatching(20).json.myField_itemMatching_20 }}"
    ensures y4 == "={{ $('Start').itemMatching(20).json." + "myField_itemMatching_20" + " }}"
  {
  }

  lemma KeyMatchingA0()
    ensures Key(Signature("A", ItemMatching("0"), ["myField"])) == "myField_itemMatching_0"
  {
  }

  lemma KeyMatchingA1()
    ensures Key(Signature("A", ItemMatching("1"), ["myField"])) == "myField_itemMatching_1"
  {
  }

  lemma KeyMatchingC1()
    ensures Key(Signature("C", ItemMatching("1"), ["myField"])) == "myField_itemMatching_1"
  {
  }

  /** The four names, and why each is free when it is chosen. */
  lemma NamesMatching()
    ensures "myField_itemMatching_1" != "myField_itemMatching_0"
    ensures "C_myField_itemMatching_1" !in {"myField_itemMatching_0", "myField_itemMatching_1"}
    ensures "myField_itemMatching_20" !in {"myField_itemMatching_0", "myField_itemMatching_1", "C_myField_itemMatching_1"}
  {
    assert "myField_itemMatching_1"[21] != "myField_itemMatching_0"[21];
    assert |"C_myField_itemMatching_1"| == 24 && |"myField_itemMatching_20"| == 23;
    assert "myField_itemMatching_20"[0] != "C_myField_itemMatching_1"[0];
  }

  /** The first two references: their keys differ in the argument. */
  lemma RewritesMatchingOnA(x1: string, x2: string, y1: string, y2: string)
    requires x1 == "$(\"A\").itemMatching(0).json.myField" && y1 == "={{ $('Start').itemMatching(0).json.myField_itemMatching_0 }}"
    requires x2 == "$(\"A\").itemMatching(1).json.myField" && y2 == "={{ $('Start').itemMatching(1).json.myField_itemMatching_1 }}"
    ensures var ctx := Context(["A", "B", "C"], {"B"}, "Start");
      var t1 := Bound(EmptyTable, Signature("A", ItemMatching("0"), ["myField"]), "myField_itemMatching_0", x1);
      var t2 := Bound(t1, Signature("A", ItemMatching("1"), ["myField"]), "myField_itemMatching_1", x2);
      Rewritten(Wrapped(x1), ctx, EmptyTable) == (y1, t1) && Rewritten(Wrapped(x2), ctx, t1) == (y2, t2)
  {
    var ctx := Context(["A", "B", "C"], {"B"}, "Start");
    var s1, s2 := Signature("A", ItemMatching("0"), ["myField"]), Signature("A", ItemMatching("1"), ["myField"]);
    var t1 := Bound(EmptyTable, s1, "myField_itemMatching_0", x1);
    ReadsBackMatching();
    HeadMatchingA0();
    HeadMatchingA1();
    OutHeadMatching0();
    OutHeadMatching1();
    SpelledMatchingA0(x1);
    SpelledMatchingA1(x2);
    SpelledOutMatching0(y1);
    SpelledOutMatching1(y2);
    KeyMatchingA0();
    KeyMatchingA1();
    NamesMatching();
    FreshNameEscalates("myField_itemMatching_0", PrefixedKey(s1), {});
    FieldFreshText("A", ItemMatching("0"), "myField", ctx, EmptyTable, "myField_itemMatching_0",
      "$(\"A\").itemMatching(0).json.", "={{ $('Start').itemMatching(0).json.", x1, y1);
    assert Taken(t1) == {"myField_itemMatching_0"};
    FreshNameEscalates("myField_itemMatching_1", PrefixedKey(s2), Taken(t1));
    FieldFreshText("A", ItemMatching("1"), "myField", ctx, t1, "myField_itemMatching_1",
      "$(\"A\").itemMatching(1).json.", "={{ $('Start').itemMatching(1).json.", x2, y2);
  }

  /** The last two: `C`'s key is taken and falls back to the node name; `20` is a new argument. */
  lemma RewritesMatchingLater(x1: string, x2: string, x3: string, x4: string, y3: string, y4: string)
    requires x3 == "$(\"C\").itemMatching(1).json.myField" && y3 == "={{ $('Start').itemMatching(1).json.C_myField_itemMatching_1 }}"
    requires x4 == "$(\"A\").itemMatching(20).json.myField" && y4 == "={{ $('Start').itemMatching(20).json.myField_itemMatching_20 }}"
    ensures var ctx := Context(["A", "B", "C"], {"B"}, "Start");
      var t1 := Bound(EmptyTable, Signature("A", ItemMatching("0"), ["myField"]), "myField_itemMatching_0", x1);
      var t2 := Bound(t1, Signature("A", ItemMatching("1"), ["myField"]), "myField_itemMatching_1", x2);
      var t3 := Bound(t2, Signature("C", ItemMatching("1"), ["myField"]), "C_myField_itemMatching_1", x3);
      var t4 := Bound(t3, Signature("A", ItemMatching("20"), ["myField"]), "myField_itemMatching_20", x4);
      Rewritten(Wrapped(x3), ctx, t2) == (y3, t3) && Rewritten(Wrapped(x4), ctx, t3) == (y4, t4)
  {
    var ctx := Context(["A", "B", "C"], {"B"}, "Start");
    var s3, s4 := Signature("C", ItemMatching("1"), ["myField"]), Signature("A", ItemMatching("20"), ["myField"]);
    var t1 := Bound(EmptyTable, Signature("A", ItemMatching("0"), ["myField"]), "myField_itemMatching_0", x1);
    var t2 := Bound(t1, Signature("A", ItemMatching("1"), ["myField"]), "myField_itemMatching_1", x2);
    var t3 := Bound(t2, s3, "C_myField_itemMatching_1", x3);
    ReadsBackMatching();
    HeadMatchingC1();
    HeadMatchingA20();
    OutHeadMatching1();
    OutHeadMatching20();
    SpelledMatchingC1(x3);
    SpelledMatchingA20(x4);
    SpelledOutMatchingC(y3);
    SpelledOutMatching20(y4);
    KeyMatchingC1();
    KeyVectors();
    PrefixedKeyVectors();
    NamesMatching();
    assert Taken(t2) == {"myField_itemMatching_0", "myField_itemMatching_1"};
    FreshNameEscalates("myField_itemMatching_1", "C_myField_itemMatching_1", Taken(t2));
    FieldFreshText("C", ItemMatching("1"), "myField", ctx, t2, "C_myField_itemMatching_1",
      "$(\"C\").itemMatching(1).json.", "={{ $('Start').itemMatching(1).json.", x3, y3);
    assert Taken(t3) == {"myField_itemMatching_0", "myField_itemMatching_1", "C_myField_itemMatching_1"};
    FreshNameEscalates("myField_itemMatching_20", PrefixedKey(s4), Taken(t3));
    FieldFreshText("A", ItemMatching("20"), "myField", ctx, t3, "myField_itemMatching_20",
      "$(\"A\").itemMatching(20).json.", "={{ $('Start').itemMatching(20).json.", x4, y4);
  }

  /** Test lines 316-344. */
  lemma ExtractsItemMatching(x1: string, x2: string, x3: string, x4: string, y1: string, y2: string, y3: string, y4: string)
    requires x1 == "$(\"A\").itemMatching(0).json.myField" && y1 == "={{ $('Start').itemMatching(0).json.myField_itemMatching_0 }}"
    requires x2 == "$(\"A\").itemMatching(1).json.myField" && y2 == "={{ $('Start').itemMatching(1).json.myField_itemMatching_1 }}"
    requires x3 == "$(\"C\").itemMatching(1).json.myField" && y3 == "={{ $('Start').itemMatching(1).json.C_myField_itemMatching_1 }}"
    requires x4 == "$(\"A\").itemMatching(20).json.myField" && y4 == "={{ $('Start').itemMatching(20).json.myField_itemMatching_20 }}"
    ensures Extract([Node("B", [Made("p0", x1), Made("p1", x2), Made("p2", x3), Made("p3", x4)])], ["A", "B", "C"], "Start")
         == Success(Extraction([Node("B", [Holding("p0", y1), Holding("p1", y2), Holding("p2", y3), Holding("p3", y4)])],
                               [Variable("myField_itemMatching_0", x1), Variable("myField_itemMatching_1", x2),
                                Variable("C_myField_itemMatching_1", x3), Variable("myField_itemMatching_20", x4)]))
  {
    var s1, s2 := Signature("A", ItemMatching("0"), ["myField"]), Signature("A", ItemMatching("1"), ["myField"]);
    var s3, s4 := Signature("C", ItemMatching("1"), ["myField"]), Signature("A", ItemMatching("20"), ["myField"]);
    var t1 := Bound(EmptyTable, s1, "myField_itemMatching_0", x1);
    var t2 := Bound(t1, s2, "myField_itemMatching_1", x2);
    var t3 := Bound(t2, s3, "C_myField_itemMatching_1", x3);
    var t4 := Bound(t3, s4, "myField_itemMatching_20", x4);
    RewritesMatchingOnA(x1, x2, y1, y2);
    RewritesMatchingLater(x1, x2, x3, x4, y3, y4);
    FourTexts("p0", Wrapped(x1), "p1", Wrapped(x2), "p2", Wrapped(x3), "p3", Wrapped(x4), Context(["A", "B", "C"], {"B"}, "Start"),
      EmptyTable, y1, t1, y2, t2, y3, t3, y4, t4);
    ExtractOne("B", [Made("p0", x1), Made("p1", x2), Made("p2", x3), Made("p3", x4)], ["A", "B", "C"], "Start",
      [Holding("p0", y1), Holding("p1", y2), Holding("p2", y3), Holding("p3", y4)], t4);
    BoundVars(s1, "myField_itemMatching_0", x1, s2, "myField_itemMatching_1", x2, s3, "C_myField_itemMatching_1", x3,
      s4, "myField_itemMatching_20", x4);
  }

  // A reference without a written accessor reads through the implicit `item`

  /** `makeNode`'s text for such a reference seen for the first time: it is replaced as if
      `.item` were written, and its own text is recorded. */
  lemma WrappedImplicitFresh(q: char, node: string, fields: seq<string>, ctx: Context, t: Table, x: string, name: string, y: string)
    requires IsNameQuote(q) && fields != [] && AllIdentifiers(fields)
    requires EndsReference(Signature(node, Item, fields), " }}")
    requires node in ctx.nodeNames && node !in ctx.subgraph
    requires forall k :: 0 <= k < |ctx.nodeNames| ==> q !in ctx.nodeNames[k]
    requires x == ImplicitItemText(q, node, fields) && y == Wrapped(Replacement(ctx.startNodeName, Item, name))
    requires Signature(node, Item, fields) !in t.nameOf
    requires name == FreshName(Key(Signature(node, Item, fields)), PrefixedKey(Signature(node, Item, fields)), Taken(t))
    ensures Rewritten(Wrapped(x), ctx, t) == (y, Bound(t, Signature(node, Item, fields), name, x))
  {
    var t1 := Bound(t, Signature(node, Item, fields), name, x);
    var r := Replacement(ctx.startNodeName, Item, name);
    assert ResolveIn(t, Signature(node, Item, fields), x) == (name, t1);
    WrapperCallFree();
    ImplicitReferenceReplaced(q, node, fields, " }}", ctx, t);
    CallFreeKept(" }}", ctx, t1);
    assert Rewritten(x + " }}", ctx, t) == (r + " }}", t1);
    CallFreePrefixKept("={{ ", x + " }}", ctx, t);
    assert Wrapped(x) == "={{ " + (x + " }}") && y == "={{ " + (r + " }}");
  }

  lemma ReadsBackImplicit()
    ensures EndsReference(Signature("A", Item, ["myField"]), " }}") && AllIdentifiers(["myField"])
    ensures ReadsBack('"', Signature("A", Item, ["myField"]), " }}", ["A", "B"])
  {
  }

  lemma ImplicitSpelled(x: string)
    requires x == "$(\"A\").json.myField"
    ensures x == ImplicitItemText('"', "A", ["myField"])
  {
    assert DotPath(["myField"]) == "." + "myField" + DotPath([]);
  }

  /** The implicit and the written `item` name the same variable: the first reference binds
      `myField` to its own text, and the second reads it again. */
  lemma ExtractsImplicitItem(x1: string, x2: string, y: string)
    requires x1 == "$(\"A\").json.myField" && x2 == "$(\"A\").item.json.myField"
    requires y == "={{ $('Start').item.json.myField }}"
    ensures Extract([Node("B", [Made("p0", x1), Made("p1", x2)])], ["A", "B"], "Start")
         == Success(Extraction([Node("B", [Holding("p0", y), Holding("p1", y)])], [Variable("myField", x1)]))
  {
    var sig := Signature("A", Item, ["myField"]);
    var ctx := Context(["A", "B"], {"B"}, "Start");
    var t1 := Bound(EmptyTable, sig, "myField", x1);
    ReadsBackImplicit();
    ImplicitSpelled(x1);
    ReferenceSpelled1('"', "A", Item, "myField");
    SpelledAItem();
    ReplacementSpelled("Start", Item, "myField");
    SpelledOutItem();
    KeyVectors();
    FreshNameEscalates("myField", PrefixedKey(sig), {});
    WrappedImplicitFresh('"', "A", ["myField"], ctx, EmptyTable, x1, "myField", y);
    WrappedReused('"', sig, ctx, t1, x2, "myField", y);
    TwoTexts("p0", Wrapped(x1), "p1", Wrapped(x2), ctx, EmptyTable, y, t1, y, t1);
    ExtractOne("B", [Made("p0", x1), Made("p1", x2)], ["A", "B"], "Start", [Holding("p0", y), Holding("p1", y)], t1);
    assert t1.vars == [Variable("myField", x1)];
  }
}
