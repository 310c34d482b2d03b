/**
 * The editor object the commands work on: the document's top-level
 * children, the selection and the pending marks, together with the
 * primitive transforms the commands call (select, delete, setNodes,
 * unwrapNodes, wrapNodes). Every primitive updates the editor in place and
 * states its new state through the functions of Document and Structure.
 */
module Slate {
  import opened Types
  import opened Leaves
  import opened Document
  import opened Structure

  /** The units deleteBackward may be asked to delete. */
  datatype TextUnit = CharUnit | WordUnit | LineUnit | BlockUnit

  /** A call handed on to the base editor's own insertText or deleteBackward. */
  datatype Forward = InsertTextCall(text: string) | DeleteBackwardCall(unit: TextUnit)

  /**
   * Editor.marks: nothing without a selection; otherwise the pending marks
   * if there are any, else the marks of the character before a caret, or
   * of the first character of an expanded selection.
   */
  function SelectionMarks(ls: seq<Line>, sel: Option<Range>, pending: Option<Marks>): (r: Option<Marks>)
    requires sel.Some? ==> RangeFits(ls, sel.value)
    ensures r.Some? <==> sel.Some?
    ensures sel.Some? && pending.Some? ==> r == pending
  {
    if sel.None? then None
    else if pending.Some? then pending
    else if Collapsed(sel.value) then
      Some(MarksBefore(ls[sel.value.anchor.block].leaves, sel.value.anchor.offset))
    else
      var p := Edges(sel.value).first;
      Some(MarksAt(ls[p.block].leaves, p.offset))
  }

  /**
   * The range Editor.unhangRange gives back: the range itself, unless it
   * was pulled back, in which case it runs forward over the new edges.
   */
  function Unhung(ls: seq<Line>, r: Range): (u: Range)
    requires RangeFits(ls, r)
    ensures Edges(u) == Unhang(ls, r) && RangeFits(ls, u)
  {
    var sp := Unhang(ls, r);
    if sp == Edges(r) then r else Range(sp.first, sp.last)
  }

  /** An expanded selection inside one block that starts at the block's start. */
  predicate PrefixSelection(r: Range) {
    var e := Edges(r);
    e.first.offset == 0 && e.last.block == e.first.block && 0 < e.last.offset
  }

  /**
   * Whether setNodes with `split: true` goes ahead: it needs a selection,
   * and a caret only counts when its leaf is empty, that is, when its
   * block's string is empty.
   */
  predicate SplitApplies(ls: seq<Line>, sel: Option<Range>)
    requires sel.Some? ==> RangeFits(ls, sel.value)
  {
    sel.Some? && (Collapsed(sel.value) ==> BlockText(ls, sel.value.anchor.block) == "")
  }

  class Editor {
    var children: seq<Node>
    var selection: Option<Range>
    /** Editor.marks as stored on the editor: marks waiting for the next insertion. */
    var marks: Option<Marks>
    /** The calls the editor handed on to its base insertText and deleteBackward, in order. */
    var forwarded: seq<Forward>

    /** The document seen block by block. */
    function Doc(): seq<Line>
      reads this
    {
      LinesSeq(children)
    }

    /**
     * The document is in Slate's normalised shape, the selection lies in
     * it, and pending marks only exist at a caret.
     */
    predicate Valid()
      reads this
    {
      WellFormedSeq(children) &&
      (selection.Some? ==> RangeFits(LinesSeq(children), selection.value)) &&
      (marks.Some? ==> selection.Some? && Collapsed(selection.value))
    }

    /** Editor.marks on this editor. */
    function CurrentMarks(): Option<Marks>
      reads this
      requires Valid()
    {
      SelectionMarks(Doc(), selection, marks)
    }

    constructor (doc: seq<Node>, sel: Option<Range>)
      requires WellFormedSeq(doc) && (sel.Some? ==> RangeFits(LinesSeq(doc), sel.value))
      ensures Valid()
      ensures children == doc && selection == sel && marks == None && forwarded == []
    {
      children := doc;
      selection := sel;
      marks := None;
      forwarded := [];
    }

    /** Transforms.select: a selection that moves drops the pending marks. */
    method Select(r: Range)
      requires Valid() && RangeFits(Doc(), r)
      modifies this
      ensures Valid()
      ensures children == old(children) && forwarded == old(forwarded)
      ensures selection == Some(r)
      ensures marks == (if old(selection) == Some(r) then old(marks) else None)
    {
      if selection != Some(r) {
        marks := None;
      }
      selection := Some(r);
    }

    /**
     * Transforms.delete on an expanded selection that runs from the start
     * of a block to a later point of the same block: those characters go
     * and the selection collapses at the block's start.
     */
    method Delete()
      requires Valid() && selection.Some? && PrefixSelection(selection.value)
      modifies this
      ensures Valid()
      ensures marks == old(marks) && forwarded == old(forwarded)
      ensures var e := Edges(old(selection).value);
        children == EditSeq(old(children), 0, e.first.block, e.first.block, DropPrefix(e.last.offset)) &&
        Doc() == old(Doc())[e.first.block := EditLine(DropPrefix(e.last.offset), e.first.block, old(Doc())[e.first.block])] &&
        BlockText(Doc(), e.first.block) == BlockText(old(Doc()), e.first.block)[e.last.offset..] &&
        selection == Some(Range(e.first, e.first))
    {
      var e := Edges(selection.value);
      var b, n := e.first.block, e.last.offset;
      var ls := Doc();
      EditSeqLines(children, 0, b, b, DropPrefix(n));
      EditSeqWellFormed(children, 0, b, b, DropPrefix(n));
      EditAllOne(ls, b, DropPrefix(n));
      DropCharsText(ls[b].leaves, n);
      children := EditSeq(children, 0, b, b, DropPrefix(n));
      selection := Some(Range(e.first, e.first));
    }

    /**
     * Transforms.setNodes on the lowest block elements (the text blocks) of
     * the unhung selection, writing a kind or an alignment. Without a
     * selection nothing happens.
     */
    method SetBlocks(op: BlockOp)
      requires Valid() && (op.KindTo? || op.AlignTo?)
      modifies this
      ensures Valid()
      ensures SameStrings(old(Doc()), Doc())
      ensures selection == old(selection) && marks == old(marks) && forwarded == old(forwarded)
      ensures old(selection).None? ==> children == old(children)
      ensures old(selection).Some? ==>
        var sp := Unhang(old(Doc()), old(selection).value);
        children == EditSeq(old(children), 0, sp.first.block, sp.last.block, op) &&
        Doc() == EditAll(old(Doc()), 0, sp.first.block, sp.last.block, op)
    {
      if selection.Some? {
        var ls := Doc();
        var sp := Unhang(ls, selection.value);
        EditSeqLines(children, 0, sp.first.block, sp.last.block, op);
        EditSeqWellFormed(children, 0, sp.first.block, sp.last.block, op);
        EditAllStrings(ls, 0, sp.first.block, sp.last.block, op);
        FitsSame(ls, EditAll(ls, 0, sp.first.block, sp.last.block, op), selection.value);
        children := EditSeq(children, 0, sp.first.block, sp.last.block, op);
      }
    }

    /**
     * Transforms.setNodes with `split: true` on the text leaves of the
     * unhung selection: exactly the selected characters get `u`, and the
     * selection is set to the unhung range. A caret in a non-empty block
     * makes it return without doing anything.
     */
    method SetTexts(u: LeafUpdate)
      requires Valid()
      modifies this
      ensures Valid()
      ensures SameStrings(old(Doc()), Doc())
      ensures marks == old(marks) && forwarded == old(forwarded)
      ensures !SplitApplies(old(Doc()), old(selection)) ==>
        children == old(children) && selection == old(selection)
      ensures SplitApplies(old(Doc()), old(selection)) ==>
        var sp := Unhang(old(Doc()), old(selection).value);
        children == EditSeq(old(children), 0, sp.first.block, sp.last.block, StyleChars(u, sp)) &&
        Doc() == EditAll(old(Doc()), 0, sp.first.block, sp.last.block, StyleChars(u, sp)) &&
        selection == Some(Unhung(old(Doc()), old(selection).value))
    {
      if SplitApplies(Doc(), selection) {
        var ls := Doc();
        var r := Unhung(ls, selection.value);
        var sp := Edges(r);
        var op := StyleChars(u, sp);
        EditSeqLines(children, 0, sp.first.block, sp.last.block, op);
        EditSeqWellFormed(children, 0, sp.first.block, sp.last.block, op);
        EditAllStrings(ls, 0, sp.first.block, sp.last.block, op);
        FitsSame(ls, EditAll(ls, 0, sp.first.block, sp.last.block, op), r);
        children := EditSeq(children, 0, sp.first.block, sp.last.block, op);
        selection := Some(r);
      }
    }

    /**
     * Transforms.unwrapNodes with `split: true`, matching list elements:
     * the lowest list containers that meet the selected blocks are lifted
     * away around those blocks. Without a selection nothing happens.
     */
    method UnwrapLists()
      requires Valid()
      modifies this
      ensures Valid()
      ensures SameStrings(old(Doc()), Doc())
      ensures selection == old(selection) && marks == old(marks) && forwarded == old(forwarded)
      ensures old(selection).None? ==> children == old(children)
      ensures old(selection).Some? ==>
        var e := Edges(old(selection).value);
        children == UnwrapSeq(old(children), 0, e.first.block, e.last.block) &&
        LiftedAll(old(Doc()), Doc()) &&
        (Shallow(old(Doc()), 0, e.first.block, e.last.block) ==> Cleared(Doc(), 0, e.first.block, e.last.block))
    {
      if selection.Some? {
        var ls := Doc();
        var e := Edges(selection.value);
        UnwrapSeqLines(children, 0, e.first.block, e.last.block);
        LiftedStrings(ls, LinesSeq(UnwrapSeq(children, 0, e.first.block, e.last.block)));
        FitsSame(ls, LinesSeq(UnwrapSeq(children, 0, e.first.block, e.last.block)), selection.value);
        children := UnwrapSeq(children, 0, e.first.block, e.last.block);
      }
    }

    /**
     * Transforms.wrapNodes with a wrapper whose header is `h` (the
     * template's children are dropped): the children of the deepest
     * element holding all selected blocks that cover them move into the
     * wrapper. Without a selection nothing happens.
     */
    method Wrap(h: Header)
      requires Valid()
      modifies this
      ensures Valid()
      ensures SameStrings(old(Doc()), Doc())
      ensures selection == old(selection) && marks == old(marks) && forwarded == old(forwarded)
      ensures old(selection).None? ==> children == old(children)
      ensures old(selection).Some? ==>
        var e := Edges(old(selection).value);
        children == WrapSeq(old(children), 0, e.first.block, e.last.block, h) &&
        WrappedAll(old(Doc()), Doc(), 0, e.first.block, e.last.block, h) &&
        (e.first.block == e.last.block ==> NestedAt(old(children), children, e.first.block, h))
    {
      if selection.Some? {
        var e := Edges(selection.value);
        ghost var r := WrapDoc(children, e.first.block, e.last.block, h);
        FitsSame(Doc(), LinesSeq(r), selection.value);
        children := WrapSeq(children, 0, e.first.block, e.last.block, h);
      }
    }

    /** The base editor's insertText, which the plugin hands calls on to. */
    method BaseInsertText(text: string)
      requires Valid()
      modifies this
      ensures Valid()
      ensures children == old(children) && selection == old(selection) && marks == old(marks)
      ensures forwarded == old(forwarded) + [InsertTextCall(text)]
    {
      forwarded := forwarded + [InsertTextCall(text)];
    }

    /** The base editor's deleteBackward, which the plugin hands calls on to. */
    method BaseDeleteBackward(unit: TextUnit)
      requires Valid()
      modifies this
      ensures Valid()
      ensures children == old(children) && selection == old(selection) && marks == old(marks)
      ensures forwarded == old(forwarded) + [DeleteBackwardCall(unit)]
    {
      forwarded := forwarded + [DeleteBackwardCall(unit)];
    }
  }
}
