/** The variable names the extractor picks in the documented examples, derived from the naming
    rules: the field path, the accessor's suffix, the sanitised node name and the numbered
    fallback. */
module NamingVectors {
  import opened Text
  import opened ReferenceScanner
  import opened VariableNames

  /** A field path joined with `_` and followed by the accessor's suffix. */
  lemma KeyVectors()
    ensures Key(Signature("A", Item, ["myField"])) == "myField"
    ensures Key(Signature("A", First, ["myField", "anotherField"])) == "myField_anotherField_first"
    ensures Key(Signature("A", ItemMatching("20"), ["myField"])) == "myField_itemMatching_20"
  {
    assert Join(["myField", "anotherField"], "_") == "myField" + "_" + "anotherField";
  }

  /** A clashing key is prefixed with the sanitised node name. */
  lemma PrefixedKeyVectors()
    ensures PrefixedKey(Signature("D", Item, ["myField"])) == "D_myField"
    ensures PrefixedKey(Signature("C", ItemMatching("1"), ["myField"])) == "C_myField_itemMatching_1"
  {
    SanitizeKeepsIdentifiers("D");
    SanitizeKeepsIdentifiers("C");
  }

  /** Four references resolved in turn from an empty table, where the fourth's key is the
      first's and its prefixed key is the second's: the fourth takes the first numbered name. */
  lemma ClashChain(s1: Signature, s2: Signature, s3: Signature, s4: Signature, f: string, p: string, dp: string)
    requires Key(s1) == f && Key(s2) == p && Key(s3) == p && Key(s4) == f
    requires PrefixedKey(s3) == dp && PrefixedKey(s4) == p
    requires f != p && dp != f && dp != p && Numbered(p, 1) !in {f, p, dp}
    requires s1 != s2 && s1 != s3 && s1 != s4 && s2 != s3 && s2 != s4 && s3 != s4
    ensures var (n1, t1) := ResolveIn(EmptyTable, s1, "");
      var (n2, t2) := ResolveIn(t1, s2, "");
      var (n3, t3) := ResolveIn(t2, s3, "");
      var (n4, t4) := ResolveIn(t3, s4, "");
      n1 == f && n2 == p && n3 == dp && n4 == Numbered(p, 1)
  {
    var (n1, t1) := ResolveIn(EmptyTable, s1, "");
    assert n1 == f && Taken(t1) == {f};
    var (n2, t2) := ResolveIn(t1, s2, "");
    assert n2 == p && Taken(t2) == {f, p};
    var (n3, t3) := ResolveIn(t2, s3, "");
    assert n3 == dp && Taken(t3) == {f, p, dp};
    assert FirstFreeNumber(p, Taken(t3), 1) == 1;
  }

  /** The complex clash of the documented examples: `$("Node_Name_With_Gap").item.json.myField`,
      resolved after `myField` and `Node_Name_With_Gap_myField` are bound, becomes
      `Node_Name_With_Gap_myField_1`. */
  lemma ComplexClashVector(g: string, f: string)
    requires g == "Node_Name_With_Gap" && f == "myField"
    ensures var p := g + "_" + f;
      var (n1, t1) := ResolveIn(EmptyTable, Signature("A", Item, [f]), "");
      var (n2, t2) := ResolveIn(t1, Signature("A", Item, [p]), "");
      var (n3, t3) := ResolveIn(t2, Signature("D", Item, [p]), "");
      var (n4, t4) := ResolveIn(t3, Signature(g, Item, [f]), "");
      n1 == f && n2 == p && n3 == "D_" + p && n4 == p + "_1"
  {
    var p := g + "_" + f;
    GapKeys(g, f);
    GapNamesDistinct(g, f);
    ClashChain(Signature("A", Item, [f]), Signature("A", Item, [p]), Signature("D", Item, [p]),
      Signature(g, Item, [f]), f, p, "D_" + p);
  }

  lemma GapKeys(g: string, f: string)
    requires g == "Node_Name_With_Gap" && f == "myField"
    ensures var p := g + "_" + f;
      && Key(Signature("A", Item, [f])) == f && Key(Signature("A", Item, [p])) == p
      && Key(Signature("D", Item, [p])) == p && Key(Signature(g, Item, [f])) == f
      && PrefixedKey(Signature("D", Item, [p])) == "D_" + p && PrefixedKey(Signature(g, Item, [f])) == p
  {
    SanitizeKeepsIdentifiers("D");
    SanitizeKeepsIdentifiers(g);
  }

  lemma GapNamesDistinct(g: string, f: string)
    requires g == "Node_Name_With_Gap" && f == "myField"
    ensures var p := g + "_" + f;
      f != p && "D_" + p != f && "D_" + p != p && Numbered(p, 1) !in {f, p, "D_" + p}
  {
    var p := g + "_" + f;
    assert Numbered(p, 1) == p + "_1";
    assert |f| == 7 && |p| == 26;
    assert ("D_" + p)[0] == 'D' && (p + "_1")[0] == 'N';
  }
}
