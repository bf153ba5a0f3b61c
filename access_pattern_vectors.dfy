/** The worked examples for `applyAccessPatterns`. Each example is an instance of a lemma about
    its shape (which references, in which order, with which plain text between them), proved
    once for every quote, name and text; the examples only supply the literals. An expression is
    written as the concatenation of its references and the text between them. */
module AccessPatternVectors {
  import opened Wrappers
  import opened Text
  import opened ReferenceEscape
  import opened AccessPatterns

  // Shapes

  lemma BracketThenText(q: string, oldName: string, newName: string, t: string)
    requires IsQuote(q) && IsPlainText(t)
    ensures ApplyAccessPatterns("$node[" + q + oldName + q + "]" + t, oldName, newName)
         == "$node[" + q + newName + q + "]" + t
  {
    RenameNodeBracket(q, q, oldName, newName, t);
    PlainTextUnchanged(t, oldName, newName);
  }

  lemma ItemsThenText(q: string, oldName: string, newName: string, t: string)
    requires IsQuote(q) && IsPlainText(t)
    ensures ApplyAccessPatterns("$items(" + q + oldName + q + "," + t, oldName, newName)
         == "$items(" + q + newName + q + "," + t
  {
    RenameItems(q, q, oldName, newName, t);
    PlainTextUnchanged(t, oldName, newName);
  }

  lemma CallAlone(q: string, oldName: string, newName: string)
    requires IsQuote(q)
    ensures ApplyAccessPatterns("$(" + q + oldName + q + ")", oldName, newName) == "$(" + q + newName + q + ")"
  {
    RenameCall(q, q, oldName, newName, []);
    assert "$(" + q + oldName + q + ")" + [] == "$(" + q + oldName + q + ")";
  }

  lemma DotThenText(oldName: string, newName: string, t: string)
    requires !HasDotNotationBannedChar(oldName) && IsPlainText(t)
    requires t == [] || !IsIdentChar(t[0])
    ensures ApplyAccessPatterns("$node." + oldName + t, oldName, newName) == DotReferenceText(newName) + t
  {
    RenameNodeDot(oldName, newName, t);
    PlainTextUnchanged(t, oldName, newName);
  }

  lemma OtherBracketUnmatched(q: string, other: string, oldName: string, t: string)
    requires IsQuote(q)
    requires |oldName| <= |other| && other[..|oldName|] != oldName
    ensures MatchPrefix("$node[" + q + other + q + "]" + t, oldName).None?
  {
    var e := "$node[" + q + other + q + "]" + t;
    var a := 6 + |q|;
    assert e[1] == 'n' && e[..6] == "$node[";
    assert QuoteLenAt(e, 6) == |q| by {
      assert e[6] == q[0];
      assert |q| == 2 ==> e[7] == q[1];
    }
    assert e[a..a + |oldName|] == other[..|oldName|];
  }

  lemma ConcatPlain(a: string, b: string)
    requires IsPlainText(a) && IsPlainText(b)
    ensures IsPlainText(a + b)
  {
    forall k | 0 <= k < |a + b| ensures (a + b)[k] != '$' {
      if k >= |a| {
        assert (a + b)[k] == b[k - |a|];
      }
    }
  }

  /** A bracket reference to another node, whose name does not start with the old one, is kept. */
  lemma OtherBracketKept(q: string, other: string, oldName: string, newName: string, t: string)
    requires IsQuote(q) && IsPlainText(q) && IsPlainText(other) && IsPlainText(t)
    requires |oldName| <= |other| && other[..|oldName|] != oldName
    ensures ApplyAccessPatterns("$node[" + q + other + q + "]" + t, oldName, newName)
         == "$node[" + q + other + q + "]" + t
  {
    var body := "node[" + q + other + q + "]" + t;
    OtherBracketUnmatched(q, other, oldName, t);
    assert "$node[" + q + other + q + "]" + t == "$" + body;
    assert IsPlainText(body) by {
      ConcatPlain("node[", q);
      ConcatPlain("node[" + q, other);
      ConcatPlain("node[" + q + other, q);
      ConcatPlain("node[" + q + other + q, "]");
      ConcatPlain("node[" + q + other + q + "]", t);
    }
    assert ("$" + body)[1..] == body;
    PlainTextUnchanged(body, oldName, newName);
  }

  lemma TwoBrackets(q: string, oldName: string, newName: string, t1: string, t2: string)
    requires IsQuote(q) && IsPlainText(t1) && IsPlainText(t2)
    ensures ApplyAccessPatterns("$node[" + q + oldName + q + "]" + (t1 + ("$node[" + q + oldName + q + "]" + t2)), oldName, newName)
         == "$node[" + q + newName + q + "]" + (t1 + ("$node[" + q + newName + q + "]" + t2))
  {
    var second := "$node[" + q + oldName + q + "]" + t2;
    BracketThenText(q, oldName, newName, t2);
    PlainTextKept(t1, second, oldName, newName);
    RenameNodeBracket(q, q, oldName, newName, t1 + second);
  }

  lemma BracketThenItems(q: string, oldName: string, newName: string, t1: string, t2: string)
    requires IsQuote(q) && IsPlainText(t1) && IsPlainText(t2)
    ensures ApplyAccessPatterns("$node[" + q + oldName + q + "]" + (t1 + ("$items(" + q + oldName + q + "," + t2)), oldName, newName)
         == "$node[" + q + newName + q + "]" + (t1 + ("$items(" + q + newName + q + "," + t2))
  {
    var items := "$items(" + q + oldName + q + "," + t2;
    ItemsThenText(q, oldName, newName, t2);
    PlainTextKept(t1, items, oldName, newName);
    RenameNodeBracket(q, q, oldName, newName, t1 + items);
  }

  lemma BracketItemsCall(q: string, oldName: string, newName: string, t1: string, t2: string)
    requires IsQuote(q) && IsPlainText(t1) && IsPlainText(t2)
    ensures ApplyAccessPatterns("$node[" + q + oldName + q + "]" + (t1
              + ("$items(" + q + oldName + q + "," + (t2 + ("$(" + q + oldName + q + ")")))), oldName, newName)
         == "$node[" + q + newName + q + "]" + (t1
              + ("$items(" + q + newName + q + "," + (t2 + ("$(" + q + newName + q + ")"))))
  {
    var call := "$(" + q + oldName + q + ")";
    var items := "$items(" + q + oldName + q + "," + (t2 + call);
    CallAlone(q, oldName, newName);
    PlainTextKept(t2, call, oldName, newName);
    RenameItems(q, q, oldName, newName, t2 + call);
    PlainTextKept(t1, items, oldName, newName);
    RenameNodeBracket(q, q, oldName, newName, t1 + items);
  }

  // Examples

  /** `$node["oldName"].data` becomes `$node["newName"].data`. */
  lemma BracketVector()
    ensures ApplyAccessPatterns("$node[" + "\"" + "oldName" + "\"" + "]" + ".data", "oldName", "newName")
         == "$node[" + "\"" + "newName" + "\"" + "]" + ".data"
  {
    BracketThenText("\"", "oldName", "newName", ".data");
  }

  /** `$node.oldName.data` becomes `$node["new.Name"].data`: dot notation does not admit the new
      name. */
  lemma DotToBracketVector()
    ensures ApplyAccessPatterns("$node." + "oldName" + ".data", "oldName", "new.Name")
         == "$node[\"" + "new.Name" + "\"]" + ".data"
  {
    assert !HasDotNotationBannedChar("oldName") by {
      assert !NonWordFrom("oldName", 0);
    }
    assert HasDotNotationBannedChar("new.Name") by {
      assert !IsWordChar("new.Name"[3]);
    }
    DotThenText("oldName", "new.Name", ".data");
  }

  /** A reference to another node is kept: `$node["someOtherName"].data`. */
  lemma OtherNodeVector()
    ensures ApplyAccessPatterns("$node[" + "\"" + "someOtherName" + "\"" + "]" + ".data", "oldName", "newName")
         == "$node[" + "\"" + "someOtherName" + "\"" + "]" + ".data"
  {
    assert "someOtherName"[..7] != "oldName" by {
      assert "someOtherName"[..7][0] != "oldName"[0];
    }
    OtherBracketKept("\"", "someOtherName", "oldName", "newName", ".data");
  }

  /** Every occurrence is renamed: `$node["oldName"].data + $node["oldName"].info`. */
  lemma TwoBracketsVector()
    ensures ApplyAccessPatterns("$node[" + "\"" + "oldName" + "\"" + "]" + (".data + "
              + ("$node[" + "\"" + "oldName" + "\"" + "]" + ".info")), "oldName", "newName")
         == "$node[" + "\"" + "newName" + "\"" + "]" + (".data + "
              + ("$node[" + "\"" + "newName" + "\"" + "]" + ".info"))
  {
    TwoBrackets("\"", "oldName", "newName", ".data + ", ".info");
  }

  /** `$items("oldName", 0)` becomes `$items("newName", 0)`. */
  lemma ItemsVector()
    ensures ApplyAccessPatterns("$items(" + "\"" + "oldName" + "\"" + "," + " 0)", "oldName", "newName")
         == "$items(" + "\"" + "newName" + "\"" + "," + " 0)"
  {
    ItemsThenText("\"", "oldName", "newName", " 0)");
  }

  /** `$items('oldName', 0)` becomes `$items('newName', 0)`: single quotes are kept. */
  lemma ItemsSingleQuoteVector()
    ensures ApplyAccessPatterns("$items(" + "'" + "oldName" + "'" + "," + " 0)", "oldName", "newName")
         == "$items(" + "'" + "newName" + "'" + "," + " 0)"
  {
    ItemsThenText("'", "oldName", "newName", " 0)");
  }

  /** `$('oldName')` becomes `$('newName')`. */
  lemma CallSingleQuoteVector()
    ensures ApplyAccessPatterns("$(" + "'" + "oldName" + "'" + ")", "oldName", "newName")
         == "$(" + "'" + "newName" + "'" + ")"
  {
    CallAlone("'", "oldName", "newName");
  }

  /** `$("oldName")` becomes `$("newName")`. */
  lemma CallVector()
    ensures ApplyAccessPatterns("$(" + "\"" + "oldName" + "\"" + ")", "oldName", "newName")
         == "$(" + "\"" + "newName" + "\"" + ")"
  {
    CallAlone("\"", "oldName", "newName");
  }

  /** All three quoted forms in one expression:
      `$node["oldName"].data + $items("oldName", 0) + $("oldName")`. */
  lemma MixedFormsVector()
    ensures ApplyAccessPatterns("$node[" + "\"" + "oldName" + "\"" + "]" + (".data + "
              + ("$items(" + "\"" + "oldName" + "\"" + "," + (" 0) + " + ("$(" + "\"" + "oldName" + "\"" + ")")))), "oldName", "newName")
         == "$node[" + "\"" + "newName" + "\"" + "]" + (".data + "
              + ("$items(" + "\"" + "newName" + "\"" + "," + (" 0) + " + ("$(" + "\"" + "newName" + "\"" + ")"))))
  {
    BracketItemsCall("\"", "oldName", "newName", ".data + ", " 0) + ");
  }

  /** A new name that dot notation does not admit is written into the quoted forms as it is:
      `$node["oldName"].data + $items("oldName", 0)` with the new name `new-Name`. */
  lemma BannedNewNameVector()
    ensures ApplyAccessPatterns("$node[" + "\"" + "oldName" + "\"" + "]" + (".data + "
              + ("$items(" + "\"" + "oldName" + "\"" + "," + " 0)")), "oldName", "new-Name")
         == "$node[" + "\"" + "new-Name" + "\"" + "]" + (".data + "
              + ("$items(" + "\"" + "new-Name" + "\"" + "," + " 0)"))
  {
    BracketThenItems("\"", "oldName", "new-Name", ".data + ", " 0)");
  }

  /** An old name that dot notation does not admit is still found in the quoted forms:
      `$node["old-Name"].data + $items("old-Name", 0)`. */
  lemma BannedOldNameVector()
    ensures ApplyAccessPatterns("$node[" + "\"" + "old-Name" + "\"" + "]" + (".data + "
              + ("$items(" + "\"" + "old-Name" + "\"" + "," + " 0)")), "old-Name", "newName")
         == "$node[" + "\"" + "newName" + "\"" + "]" + (".data + "
              + ("$items(" + "\"" + "newName" + "\"" + "," + " 0)"))
  {
    BracketThenItems("\"", "old-Name", "newName", ".data + ", " 0)");
  }

  /** A text without `$` holds no reference: `someRandomExpression("oldName")` is kept. */
  lemma UnrelatedCallVector()
    ensures ApplyAccessPatterns("someRandomExpression(" + "\"oldName\")", "oldName", "newName")
         == "someRandomExpression(" + "\"oldName\")"
  {
    ConcatPlain("someRandomExpression(", "\"oldName\")");
    PlainTextUnchanged("someRandomExpression(" + "\"oldName\")", "oldName", "newName");
  }

  /** Names holding escaped quotes: `$("old\"Name")` with the new name `n\'ew\"Name`. */
  lemma EscapedQuotesVector()
    ensures ApplyAccessPatterns("$(" + "\"" + "old\\\"Name" + "\"" + ")", "old\\\"Name", "n\\'ew\\\"Name")
         == "$(" + "\"" + "n\\'ew\\\"Name" + "\"" + ")"
  {
    CallAlone("\"", "old\\\"Name", "n\\'ew\\\"Name");
  }
}
