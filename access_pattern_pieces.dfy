/** The renaming theorem for `applyAccessPatterns`: an expression built from plain text and
    references to the old node, in any of the four forms, comes out with every reference renamed
    and nothing else changed. */
module AccessPatternPieces {
  import opened Text
  import opened ReferenceEscape
  import opened AccessPatterns

  /** An expression viewed as a sequence of pieces: single characters of plain text and
      references to one node, each in one of the four forms with its own quotes. */
  datatype Piece = Plain(c: char) | Reference(form: Form, q1: string, q2: string)

  /** The text of one reference to `name`; `renamed` selects the text the dot form takes after
      a rename. */
  function ReferenceText(p: Piece, name: string, renamed: bool): string
    requires p.Reference?
  {
    match p.form
    case Call => "$(" + p.q1 + name + p.q2 + ")"
    case NodeBracket => "$node[" + p.q1 + name + p.q2 + "]"
    case Items => "$items(" + p.q1 + name + p.q2 + ","
    case NodeDot => if renamed then DotReferenceText(name) else "$node." + name
  }

  function Render(ps: seq<Piece>, name: string, renamed: bool): string {
    if ps == [] then []
    else
      (if ps[0].Plain? then [ps[0].c] else ReferenceText(ps[0], name, renamed))
      + Render(ps[1..], name, renamed)
  }

  /** The pieces read back as the same pieces: plain text holds no `$`, quotes are quotes, and
      a dot reference names a node that dot notation admits and is followed by a character that
      cannot continue an identifier. */
  predicate WellFormed(ps: seq<Piece>, name: string) {
    forall i :: 0 <= i < |ps| ==> PieceReadsBack(ps, i, name)
  }

  predicate PieceReadsBack(ps: seq<Piece>, i: nat, name: string)
    requires i < |ps|
  {
    match ps[i]
    case Plain(c) => c != '$'
    case Reference(form, q1, q2) =>
      if form == NodeDot then
        !HasDotNotationBannedChar(name) && (i + 1 < |ps| ==> ps[i + 1].Plain? && !IsIdentChar(ps[i + 1].c))
      else IsQuote(q1) && IsQuote(q2)
  }

  /** Every reference to the old name is renamed, in every form and at every position, and all
      other text is kept. */
  lemma {:induction false} RenameEveryReference(ps: seq<Piece>, oldName: string, newName: string)
    requires WellFormed(ps, oldName)
    ensures ApplyAccessPatterns(Render(ps, oldName, false), oldName, newName) == Render(ps, newName, true)
  {
    if ps != [] {
      var tail := ps[1..];
      assert WellFormed(tail, oldName) by {
        forall i | 0 <= i < |tail| ensures PieceReadsBack(tail, i, oldName) {
          assert PieceReadsBack(ps, i + 1, oldName);
          assert tail[i] == ps[i + 1];
          assert i + 1 < |tail| ==> tail[i + 1] == ps[i + 2];
        }
      }
      RenameEveryReference(tail, oldName, newName);
      var rest := Render(tail, oldName, false);
      assert PieceReadsBack(ps, 0, oldName);
      match ps[0]
      case Plain(c) =>
        PlainCharKept([c] + rest, oldName, newName);
        assert ([c] + rest)[1..] == rest;
      case Reference(form, q1, q2) =>
        match form
        case Call => RenameCall(q1, q2, oldName, newName, rest);
        case NodeBracket => RenameNodeBracket(q1, q2, oldName, newName, rest);
        case Items => RenameItems(q1, q2, oldName, newName, rest);
        case NodeDot =>
          if tail != [] {
            assert rest[0] == tail[0].c;
          }
          RenameNodeDot(oldName, newName, rest);
    }
  }
}
