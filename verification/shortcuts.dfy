/**
 * The shortcuts plugin: typing a space after a markdown marker at the start
 * of a block turns the block into a heading, a quote or a list, and a
 * backspace at the start of any other kind of block turns it back into a
 * paragraph. Every other call goes on to the editor's own insertText or
 * deleteBackward.
 */
module Shortcuts {
  import opened Types
  import opened Leaves
  import opened Document
  import opened Structure
  import opened Slate

  /** The block kind a marker stands for, if it is one. */
  function Shortcut(s: string): (r: Option<BlockType>)
    ensures r == Some(BulletedList) <==> s == "*" || s == "-" || s == "+"
    ensures r == Some(NumberedList) <==> s == "1."
    ensures r == Some(BlockQuote) <==> s == ">"
    ensures r == Some(HeadingOne) <==> s == "#"
    ensures r == Some(HeadingTwo) <==> s == "##"
    ensures r == Some(HeadingThree) <==> s == "###"
    ensures r != Some(Paragraph) && r != Some(ListItem)
  {
    if s == "*" || s == "-" || s == "+" then Some(BulletedList)
    else if s == "1." then Some(NumberedList)
    else if s == ">" then Some(BlockQuote)
    else if s == "#" then Some(HeadingOne)
    else if s == "##" then Some(HeadingTwo)
    else if s == "###" then Some(HeadingThree)
    else None
  }

  /** The eight markers of the shortcut table. */
  const Markers: set<string> := {"*", "-", "+", "1.", ">", "#", "##", "###"}

  /** Exactly the markers trigger a shortcut. */
  lemma ShortcutKeys(s: string)
    ensures Shortcut(s).Some? <==> s in Markers
  {
  }

  /** Markers are never empty, so a marker always has characters to delete. */
  lemma ShortcutNonEmpty(s: string)
    requires Shortcut(s).Some?
    ensures 1 <= |s| <= 3
  {
  }

  /**
   * The shortcut a typed `text` triggers: a single space at a caret whose
   * block, from its start up to the caret, spells a marker.
   */
  function ShortcutAt(ls: seq<Line>, sel: Option<Range>, text: string): Option<BlockType>
    requires sel.Some? ==> RangeFits(ls, sel.value)
  {
    if sel.Some? && Collapsed(sel.value) && text == " " then
      Shortcut(BlockText(ls, sel.value.anchor.block)[..sel.value.anchor.offset])
    else None
  }

  /** A block after its first `o` characters are deleted and its own kind set to `k`. */
  function Converted(l: Line, k: BlockType, o: nat): (r: Line)
    requires l.chain != [] && o <= |TextOf(l.leaves)|
    ensures r.chain != [] && Anc(r) == Anc(l) && Own(r) == Own(l).(kind := k)
    ensures TextOf(r.leaves) == TextOf(l.leaves)[o..]
  {
    DropCharsText(l.leaves, o);
    Line(Anc(l) + [Own(l).(kind := k)], DropChars(l.leaves, o))
  }

  /** A block whose own kind is set back to paragraph. */
  function Demoted(l: Line): (r: Line)
    requires l.chain != []
    ensures r.chain != [] && Anc(r) == Anc(l) && Own(r) == Own(l).(kind := Paragraph) && r.leaves == l.leaves
  {
    Line(Anc(l) + [Own(l).(kind := Paragraph)], l.leaves)
  }

  /** The caret sits at the very start of a block that is not a paragraph. */
  predicate DemotesAt(ls: seq<Line>, sel: Option<Range>)
    requires Chained(ls) && (sel.Some? ==> RangeFits(ls, sel.value))
  {
    sel.Some? && Collapsed(sel.value) && sel.value.anchor.offset == 0 &&
    Own(ls[sel.value.anchor.block]).kind != Paragraph
  }

  /**
   * insertText: a space that completes a marker selects the marker,
   * deletes it, gives the block the marker's kind and, for a list kind,
   * wraps the block in a list of that kind. The caret ends at the start
   * of the block. Any other text goes on to the base insertText.
   */
  method InsertText(e: Editor, text: string)
    requires e.Valid()
    modifies e
    ensures e.Valid()
    ensures ShortcutAt(old(e.Doc()), old(e.selection), text).None? ==>
      e.children == old(e.children) && e.selection == old(e.selection) && e.marks == old(e.marks) &&
      e.forwarded == old(e.forwarded) + [InsertTextCall(text)]
    ensures ShortcutAt(old(e.Doc()), old(e.selection), text).Some? ==>
      var k := ShortcutAt(old(e.Doc()), old(e.selection), text).value;
      var b := old(e.selection).value.anchor.block;
      var o := old(e.selection).value.anchor.offset;
      var c1 := EditSeq(old(e.children), 0, b, b, DropPrefix(o));
      var c2 := EditSeq(c1, 0, b, b, KindTo(k));
      e.children == (if IsList(k) then WrapSeq(c2, 0, b, b, Header(k, None)) else c2) &&
      e.Doc() == old(e.Doc())[b := if IsList(k) then Nest(Converted(old(e.Doc())[b], k, o), Header(k, None))
                                   else Converted(old(e.Doc())[b], k, o)] &&
      e.selection == Some(Range(Point(b, 0), Point(b, 0))) && e.marks == None &&
      e.forwarded == old(e.forwarded)
  {
    if e.selection.Some? && Collapsed(e.selection.value) && text == " " {
      var anchor := e.selection.value.anchor;
      var b := anchor.block;
      var beforeText := BlockText(e.Doc(), b)[..anchor.offset];
      var blockType := Shortcut(beforeText);
      if blockType.Some? {
        var k := blockType.value;
        ShortcutNonEmpty(beforeText);
        ghost var ls0 := e.Doc();
        e.Select(Range(anchor, Point(b, 0)));
        e.Delete();
        ghost var ls1 := e.Doc();
        e.SetBlocks(KindTo(k));
        ghost var ls2 := e.Doc();
        if IsList(k) {
          e.Wrap(Header(k, None));
        }
        ShortcutLines(ls0, ls1, ls2, e.Doc(), b, anchor.offset, k);
        return;
      }
    }
    e.BaseInsertText(text);
  }

  /** The line-level reasoning behind InsertText's contract. */
  lemma ShortcutLines(ls0: seq<Line>, ls1: seq<Line>, ls2: seq<Line>, ls3: seq<Line>, b: nat, o: nat, k: BlockType)
    requires Chained(ls0) && Chained(ls1) && b < |ls0| && o <= |TextOf(ls0[b].leaves)|
    requires ls1 == ls0[b := EditLine(DropPrefix(o), b, ls0[b])]
    requires ls2 == EditAll(ls1, 0, b, b, KindTo(k))
    requires IsList(k) ==> ls3 == ls2[b := Nest(ls2[b], Header(k, None))]
    requires !IsList(k) ==> ls3 == ls2
    ensures ls3 == ls0[b := if IsList(k) then Nest(Converted(ls0[b], k, o), Header(k, None))
                            else Converted(ls0[b], k, o)]
  {
    EditAllOne(ls1, b, KindTo(k));
    assert ls2[b] == Converted(ls0[b], k, o);
  }

  /**
   * deleteBackward: at the start of a block that is not a paragraph the
   * block becomes a paragraph, its containers kept; otherwise the call
   * goes on to the base deleteBackward.
   */
  method DeleteBackward(e: Editor, unit: TextUnit)
    requires e.Valid()
    modifies e
    ensures e.Valid()
    ensures e.selection == old(e.selection) && e.marks == old(e.marks)
    ensures !DemotesAt(old(e.Doc()), old(e.selection)) ==>
      e.children == old(e.children) && e.forwarded == old(e.forwarded) + [DeleteBackwardCall(unit)]
    ensures DemotesAt(old(e.Doc()), old(e.selection)) ==>
      var b := old(e.selection).value.anchor.block;
      e.children == EditSeq(old(e.children), 0, b, b, KindTo(Paragraph)) &&
      e.Doc() == old(e.Doc())[b := Demoted(old(e.Doc())[b])] &&
      e.forwarded == old(e.forwarded)
  {
    if e.selection.Some? && Collapsed(e.selection.value) {
      var anchor := e.selection.value.anchor;
      var b := anchor.block;
      if anchor.offset == 0 && Own(e.Doc()[b]).kind != Paragraph {
        ghost var ls := e.Doc();
        e.SetBlocks(KindTo(Paragraph));
        EditAllOne(ls, b, KindTo(Paragraph));
        return;
      }
    }
    e.BaseDeleteBackward(unit);
  }

  // ---------------------------------------------------------------------
  // Shortcut and backspace together

  /**
   * A backspace right after a heading or quote shortcut on a paragraph
   * gives back the paragraph, without its marker.
   */
  lemma BackspaceUndoesKind(l: Line, k: BlockType, o: nat)
    requires l.chain != [] && o <= |TextOf(l.leaves)| && Own(l).kind == Paragraph
    ensures Demoted(Converted(l, k, o)) == Line(l.chain, DropChars(l.leaves, o))
  {
    assert l.chain == Anc(l) + [Own(l)];
  }

  /**
   * A backspace right after a list shortcut turns the block back into a
   * paragraph but leaves it inside the new list.
   */
  lemma BackspaceKeepsList(l: Line, k: BlockType, o: nat)
    requires l.chain != [] && o <= |TextOf(l.leaves)| && IsList(k)
    ensures var r := Demoted(Nest(Converted(l, k, o), Header(k, None)));
      Anc(r) == Anc(l) + [Header(k, None)] && ListCount(Anc(r)) == ListCount(Anc(l)) + 1
  {
    ListCountConcat(Anc(l), [Header(k, None)]);
    assert ListCount([Header(k, None)]) == 1 by {
      assert [Header(k, None)][1..] == [];
    }
  }

  /**
   * A second backspace at the start of a demoted block is not consumed:
   * the block is a paragraph now, so the call goes on to the base editor.
   */
  lemma DemotedForwards(ls: seq<Line>, sel: Option<Range>)
    requires Chained(ls) && sel.Some? && RangeFits(ls, sel.value) && DemotesAt(ls, sel)
    ensures var b := sel.value.anchor.block;
      var ls' := ls[b := Demoted(ls[b])];
      Chained(ls') && RangeFits(ls', sel.value) && !DemotesAt(ls', sel)
  {
    var b := sel.value.anchor.block;
    assert BlockText(ls[b := Demoted(ls[b])], b) == BlockText(ls, b);
  }

  // ---------------------------------------------------------------------
  // The table lookup as written

  /**
   * The shortcut table is a plain object literal, so indexing it with a
   * string also reaches the properties every object inherits.
   */
  datatype Lookup = Found(kind: BlockType) | Inherited(name: string) | Absent

  /** The property names a plain object inherits from Object.prototype. */
  const InheritedNames: set<string> := {
    "constructor", "hasOwnProperty", "isPrototypeOf", "propertyIsEnumerable",
    "toLocaleString", "toString", "valueOf", "__proto__",
    "__defineGetter__", "__defineSetter__", "__lookupGetter__", "__lookupSetter__"}

  /** `shortcuts[beforeText]` on the object literal. */
  function LookupAsWritten(s: string): (r: Lookup)
    ensures r.Found? <==> Shortcut(s).Some?
    ensures r.Found? ==> r.kind == Shortcut(s).value
    ensures r.Inherited? <==> Shortcut(s).None? && s in InheritedNames
  {
    if Shortcut(s).Some? then Found(Shortcut(s).value)
    else if s in InheritedNames then Inherited(s)
    else Absent
  }

  /** Whether `if (blockType)` takes the shortcut branch: every found or inherited value is truthy. */
  predicate Truthy(r: Lookup) {
    !r.Absent?
  }

  /** As written, the shortcut branch runs for the markers and for every inherited name. */
  lemma LookupAsWrittenKeys(s: string)
    ensures Truthy(LookupAsWritten(s)) <==> s in Markers || s in InheritedNames
  {
    ShortcutKeys(s);
  }

  /**
   * A block that starts with "toString" followed by a typed space takes the
   * shortcut branch although "toString" is no marker: the word is deleted
   * and the block's type is set to a function value.
   */
  lemma InheritedNameTriggers()
    ensures Truthy(LookupAsWritten("toString")) && "toString" !in Markers
    ensures ShortcutAt([Line([Header(Paragraph, None)], [Text("toString", NoMarks)])],
                       Some(Range(Point(0, 8), Point(0, 8))), " ").None?
  {
    var ls := [Line([Header(Paragraph, None)], [Text("toString", NoMarks)])];
    assert TextOf(ls[0].leaves) == "toString";
    ShortcutKeys("toString");
  }
}
