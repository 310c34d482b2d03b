/**
 * The formatting commands of the editor: toggling a character mark, a block
 * type or an alignment, setting a font family or a colour, and the queries
 * that tell whether a mark, a block type or an alignment is active at the
 * selection. Each command runs the editor's primitive transforms in the
 * order the toolbar code calls them.
 */
module EditorUtils {
  import opened Types
  import opened Leaves
  import opened Document
  import opened Structure
  import opened Slate

  // ---------------------------------------------------------------------
  // Queries

  /** A mark is on when there are marks and they hold `true` for it. */
  predicate MarkOn(m: Option<Marks>, f: Format) {
    m.Some? && GetMark(m.value, f) == Some(true)
  }

  /** isMarkActive: reads Editor.marks. */
  predicate IsMarkActive(e: Editor, f: Format)
    reads e
    requires e.Valid()
    ensures IsMarkActive(e, f) ==> e.selection.Some?
    ensures e.marks.Some? ==> (IsMarkActive(e, f) <==> GetMark(e.marks.value, f) == Some(true))
  {
    MarkOn(e.CurrentMarks(), f)
  }

  predicate HasKind(c: seq<Header>, k: BlockType) {
    exists i :: 0 <= i < |c| && c[i].kind == k
  }

  predicate HasAlign(c: seq<Header>, a: Align) {
    exists i :: 0 <= i < |c| && c[i].align == Some(a)
  }

  /** Some element on the path to a block of [lo, hi], the block itself included, has kind `k`. */
  predicate KindIn(ls: seq<Line>, lo: nat, hi: nat, k: BlockType) {
    exists j :: lo <= j <= hi && j < |ls| && HasKind(ls[j].chain, k)
  }

  /** Some element on the path to a block of [lo, hi], the block itself included, has alignment `a`. */
  predicate AlignIn(ls: seq<Line>, lo: nat, hi: nat, a: Align) {
    exists j :: lo <= j <= hi && j < |ls| && HasAlign(ls[j].chain, a)
  }

  /**
   * isBlockActive: some element met by the unhung selection has kind `k`;
   * false without a selection.
   */
  predicate IsBlockActive(e: Editor, k: BlockType)
    reads e
    requires e.Valid()
    ensures e.selection.None? ==> !IsBlockActive(e, k)
  {
    e.selection.Some? && ActiveIn(e.Doc(), e.selection.value, k)
  }

  /** Some element met by the unhung range `sel` has kind `k`. */
  predicate ActiveIn(ls: seq<Line>, sel: Range, k: BlockType)
    requires RangeFits(ls, sel)
  {
    var sp := Unhang(ls, sel);
    KindIn(ls, sp.first.block, sp.last.block, k)
  }

  /** No container of the blocks in [lo, hi] has kind `k`. */
  predicate NoOuterKind(ls: seq<Line>, lo: nat, hi: nat, k: BlockType) {
    forall j :: lo <= j <= hi && j < |ls| ==> ls[j].chain != [] && !HasKind(Anc(ls[j]), k)
  }

  /**
   * isTextAlignActive: some element met by the unhung selection has
   * alignment `a`; false without a selection.
   */
  predicate IsTextAlignActive(e: Editor, a: Align)
    reads e
    requires e.Valid()
    ensures e.selection.None? ==> !IsTextAlignActive(e, a)
  {
    e.selection.Some? &&
    var sp := Unhang(e.Doc(), e.selection.value);
    AlignIn(e.Doc(), sp.first.block, sp.last.block, a)
  }

  /** The blocks of [lo, hi] all have kind `k` themselves. */
  predicate KindsAre(ls: seq<Line>, lo: nat, hi: nat, k: BlockType) {
    forall j :: lo <= j <= hi && j < |ls| ==> ls[j].chain != [] && Own(ls[j]).kind == k
  }

  /** The blocks of [lo, hi] each sit in exactly one list, and it has kind `k`. */
  predicate InOneList(ls: seq<Line>, lo: nat, hi: nat, k: BlockType) {
    forall j :: lo <= j <= hi && j < |ls| ==>
      ls[j].chain != [] && ListCount(Anc(ls[j])) == 1 && HasKind(Anc(ls[j]), k)
  }

  /**
   * An expanded selection whose unhung start sits before a character that
   * the selection covers: Editor.marks then reads that character.
   */
  predicate StartsOnChar(ls: seq<Line>, sel: Option<Range>)
    requires sel.Some? ==> RangeFits(ls, sel.value)
  {
    sel.Some? && !Collapsed(sel.value) &&
    var sp := Unhang(ls, sel.value);
    sp.first.offset < |BlockText(ls, sp.first.block)| &&
    (sp.last.block == sp.first.block ==> sp.first.offset < sp.last.offset)
  }

  /** A caret in a block whose string is empty. */
  predicate EmptyCaret(ls: seq<Line>, sel: Option<Range>)
    requires sel.Some? ==> RangeFits(ls, sel.value)
  {
    sel.Some? && Collapsed(sel.value) && BlockText(ls, sel.value.anchor.block) == ""
  }

  /**
   * The characters of the span carry `u`: its blocks keep their headers
   * and restyle exactly the covered characters, and every other block is
   * untouched.
   */
  predicate RestyledSpan(a: seq<Line>, b: seq<Line>, sp: Span, u: LeafUpdate) {
    |a| == |b| &&
    forall j :: 0 <= j < |a| ==>
      if sp.first.block <= j <= sp.last.block then
        b[j].chain == a[j].chain &&
        Chars(b[j].leaves) ==
          Restyle(Chars(a[j].leaves), SpanLo(sp, j), SpanHi(sp, j, |TextOf(a[j].leaves)|), u)
      else b[j] == a[j]
  }

  // ---------------------------------------------------------------------
  // Facts about lines

  lemma EditAllRestyled(ls: seq<Line>, sp: Span, u: LeafUpdate)
    requires Chained(ls)
    ensures RestyledSpan(ls, EditAll(ls, 0, sp.first.block, sp.last.block, StyleChars(u, sp)), sp, u)
  {
    var r := EditAll(ls, 0, sp.first.block, sp.last.block, StyleChars(u, sp));
    forall j | 0 <= j < |ls| && sp.first.block <= j <= sp.last.block
      ensures r[j].chain == ls[j].chain
      ensures Chars(r[j].leaves) ==
        Restyle(Chars(ls[j].leaves), SpanLo(sp, j), SpanHi(sp, j, |TextOf(ls[j].leaves)|), u)
    {
      UpdateSliceChars(ls[j].leaves, SpanLo(sp, j), SpanHi(sp, j, |TextOf(ls[j].leaves)|), u);
    }
  }

  /** A block's own kind is on its path. */
  lemma OwnKind(l: Line)
    requires l.chain != []
    ensures HasKind(l.chain, Own(l).kind)
  {
    assert l.chain[|l.chain| - 1].kind == Own(l).kind;
  }

  lemma {:induction false} OccIn(c: seq<Header>, h: Header)
    requires Occ(c, h) > 0
    ensures exists i :: 0 <= i < |c| && c[i] == h
  {
    if c[0] != h {
      OccIn(c[1..], h);
      var i :| 0 <= i < |c[1..]| && c[1..][i] == h;
      assert c[i + 1] == h;
    }
  }

  /** A block that grew a wrapper has the wrapper's kind on its path. */
  lemma GrewKind(o: Line, n: Line, h: Header)
    requires Grew(o, n, h)
    ensures HasKind(n.chain, h.kind)
  {
    OccIn(Anc(n), h);
    var i :| 0 <= i < |Anc(n)| && Anc(n)[i] == h;
    assert n.chain[i] == h;
  }

  /** A block under no list, and no list itself, has no list kind on its path. */
  lemma ClearedKind(l: Line, k: BlockType)
    requires l.chain != [] && ListCount(Anc(l)) == 0 && !IsList(Own(l).kind) && IsList(k)
    ensures !HasKind(l.chain, k)
  {
    ListCountZero(Anc(l));
    forall i | 0 <= i < |l.chain| ensures l.chain[i].kind != k {
      if i < |l.chain| - 1 {
        assert l.chain[i] == Anc(l)[i];
      }
    }
  }

  /** A block under exactly one list, and under a `k` list, after wrapping it in one. */
  lemma WrappedList(o: Line, n: Line, h: Header)
    requires Grew(o, n, h) && IsList(h.kind) && ListCount(Anc(o)) == 0
    ensures ListCount(Anc(n)) == 1 && HasKind(Anc(n), h.kind)
  {
    GrewListCount(o, n, h);
    OccIn(Anc(n), h);
  }

  /** Setting an alignment and then clearing it restores blocks that had none. */
  lemma AlignRoundTrip(ls: seq<Line>, lo: nat, hi: nat, a: Align)
    requires Chained(ls)
    requires forall j :: 0 <= j < |ls| && lo <= j <= hi ==> Own(ls[j]).align == None
    ensures var on := EditAll(ls, 0, lo, hi, AlignTo(Some(a)));
      Chained(on) && EditAll(on, 0, lo, hi, AlignTo(None)) == ls
  {
    var on := EditAll(ls, 0, lo, hi, AlignTo(Some(a)));
    assert Chained(on) by {
      forall j | 0 <= j < |on| ensures on[j].chain != [] {
      }
    }
    var off := EditAll(on, 0, lo, hi, AlignTo(None));
    forall j | 0 <= j < |ls| ensures off[j] == ls[j] {
      if lo <= j <= hi {
        assert Anc(on[j]) == Anc(ls[j]);
        assert ls[j].chain == Anc(ls[j]) + [Own(ls[j])];
      }
    }
  }

  /** Turning paragraphs into kind `k` and back restores them. */
  lemma KindRoundTrip(ls: seq<Line>, lo: nat, hi: nat, k: BlockType)
    requires Chained(ls)
    requires forall j :: 0 <= j < |ls| && lo <= j <= hi ==> Own(ls[j]).kind == Paragraph
    ensures var on := EditAll(ls, 0, lo, hi, KindTo(k));
      Chained(on) && EditAll(on, 0, lo, hi, KindTo(Paragraph)) == ls
  {
    var on := EditAll(ls, 0, lo, hi, KindTo(k));
    assert Chained(on) by {
      forall j | 0 <= j < |on| ensures on[j].chain != [] {
      }
    }
    var off := EditAll(on, 0, lo, hi, KindTo(Paragraph));
    forall j | 0 <= j < |ls| ensures off[j] == ls[j] {
      if lo <= j <= hi {
        assert Anc(on[j]) == Anc(ls[j]);
        assert ls[j].chain == Anc(ls[j]) + [Own(ls[j])];
      }
    }
  }

  // ---------------------------------------------------------------------
  // Commands

  /**
   * toggleMark: setNodes with splitting writes the mark as absent where it
   * was active and as `true` otherwise. An expanded selection starting on
   * a character, or a caret in an empty block without pending marks, flips
   * the mark's activity.
   */
  method ToggleMark(e: Editor, f: Format)
    requires e.Valid()
    modifies e
    ensures e.Valid()
    ensures e.marks == old(e.marks) && e.forwarded == old(e.forwarded)
    ensures !SplitApplies(old(e.Doc()), old(e.selection)) ==>
      e.children == old(e.children) && e.selection == old(e.selection)
    ensures SplitApplies(old(e.Doc()), old(e.selection)) ==>
      var sp := Unhang(old(e.Doc()), old(e.selection).value);
      var u := MarkTo(f, if old(IsMarkActive(e, f)) then None else Some(true));
      e.children == EditSeq(old(e.children), 0, sp.first.block, sp.last.block, StyleChars(u, sp)) &&
      RestyledSpan(old(e.Doc()), e.Doc(), sp, u) &&
      e.selection == Some(Unhung(old(e.Doc()), old(e.selection).value))
    ensures old(StartsOnChar(e.Doc(), e.selection)) ==> IsMarkActive(e, f) == !old(IsMarkActive(e, f))
    ensures old(EmptyCaret(e.Doc(), e.selection)) && old(e.marks).None? ==>
      IsMarkActive(e, f) == !old(IsMarkActive(e, f))
  {
    var active := IsMarkActive(e, f);
    ghost var ls := e.Doc();
    ghost var sel := e.selection;
    FilledSeq(e.children);
    var u := MarkTo(f, if active then None else Some(true));
    e.SetTexts(u);
    if SplitApplies(ls, sel) {
      EditAllRestyled(ls, Unhang(ls, sel.value), u);
      if StartsOnChar(ls, sel) || EmptyCaret(ls, sel) {
        MarkWritten(ls, sel.value, f, u.value);
      }
    }
  }

  /**
   * Where Editor.marks reads a character that a write of `v` reaches, it
   * reads `v` afterwards.
   */
  lemma MarkWritten(ls: seq<Line>, sel: Range, f: Format, v: Option<bool>)
    requires Chained(ls) && Filled(ls) && RangeFits(ls, sel)
    requires StartsOnChar(ls, Some(sel)) || EmptyCaret(ls, Some(sel))
    ensures var sp := Unhang(ls, sel);
      var ls' := EditAll(ls, 0, sp.first.block, sp.last.block, StyleChars(MarkTo(f, v), sp));
      var sel' := Unhung(ls, sel);
      RangeFits(ls', sel') &&
      SelectionMarks(ls', Some(sel'), None) == Some(SetMark(SelectionMarks(ls, Some(sel), None).value, f, v))
  {
    var u := MarkTo(f, v);
    var sp := Unhang(ls, sel);
    var ls' := EditAll(ls, 0, sp.first.block, sp.last.block, StyleChars(u, sp));
    var sel' := Unhung(ls, sel);
    EditAllStrings(ls, 0, sp.first.block, sp.last.block, StyleChars(u, sp));
    FitsSame(ls, ls', sel');
    var p := sp.first;
    if StartsOnChar(ls, Some(sel)) {
      MarksAtRestyled(ls[p.block].leaves, SpanLo(sp, p.block),
        SpanHi(sp, p.block, |TextOf(ls[p.block].leaves)|), u, p.offset);
      assert !Collapsed(sel');
    } else {
      MarksBeforeEmpty(ls[p.block].leaves, u);
    }
  }

  /**
   * toggleBlock: lists around the selected blocks are unwrapped first;
   * then the unhung selection's blocks become paragraphs when `k` was
   * active, list items when `k` is a list, and `k` otherwise; finally a
   * newly chosen list wraps the selected blocks. An inactive kind becomes
   * active; on blocks under at most one list, an active list kind goes
   * away, and a new list leaves every selected block in exactly one list,
   * of kind `k`. An active kind that is no list goes away unless a
   * container of the selected blocks carries it; paragraph stays active.
   */
  method ToggleBlock(e: Editor, k: BlockType)
    requires e.Valid()
    modifies e
    ensures e.Valid()
    ensures e.selection == old(e.selection) && e.marks == old(e.marks) && e.forwarded == old(e.forwarded)
    ensures SameStrings(old(e.Doc()), e.Doc())
    ensures old(e.selection).None? ==> e.children == old(e.children)
    ensures old(e.selection).Some? ==>
      var r := Edges(old(e.selection).value);
      var sp := Unhang(old(e.Doc()), old(e.selection).value);
      var active := old(IsBlockActive(e, k));
      var k' := NewKind(k, active);
      var c1 := UnwrapSeq(old(e.children), 0, r.first.block, r.last.block);
      var c2 := EditSeq(c1, 0, sp.first.block, sp.last.block, KindTo(k'));
      e.children == (if !active && IsList(k) then WrapSeq(c2, 0, r.first.block, r.last.block, Header(k, None)) else c2) &&
      KindsAre(e.Doc(), sp.first.block, sp.last.block, k')
    ensures old(e.selection).Some? && !old(IsBlockActive(e, k)) ==> IsBlockActive(e, k)
    ensures (old(e.selection).Some? && IsList(k) && old(IsBlockActive(e, k)) &&
      Shallow(old(e.Doc()), 0, Edges(old(e.selection).value).first.block, Edges(old(e.selection).value).last.block)) ==>
      !IsBlockActive(e, k)
    ensures (old(e.selection).Some? && IsList(k) && !old(IsBlockActive(e, k)) &&
      Shallow(old(e.Doc()), 0, Edges(old(e.selection).value).first.block, Edges(old(e.selection).value).last.block)) ==>
      InOneList(e.Doc(), Edges(old(e.selection).value).first.block, Edges(old(e.selection).value).last.block, k)
    ensures (old(e.selection).Some? && old(IsBlockActive(e, k)) && !IsList(k) && k != Paragraph &&
      NoOuterKind(old(e.Doc()), Unhang(old(e.Doc()), old(e.selection).value).first.block,
        Unhang(old(e.Doc()), old(e.selection).value).last.block, k)) ==>
        !IsBlockActive(e, k)
    ensures old(e.selection).Some? && k == Paragraph ==> IsBlockActive(e, k)
  {
    var active := IsBlockActive(e, k);
    var isList := IsList(k);
    ghost var ls0 := e.Doc();
    e.UnwrapLists();
    ghost var ls1 := e.Doc();
    e.SetBlocks(KindTo(NewKind(k, active)));
    ghost var ls2 := e.Doc();
    if !active && isList {
      e.Wrap(Header(k, None));
    }
    if e.selection.Some? {
      UnhangSame(ls0, ls1, e.selection.value);
      ToggleBlockLines(ls0, ls1, ls2, e.Doc(), e.selection.value, k, active);
    }
  }

  /** The kind toggleBlock writes into the selected blocks. */
  function NewKind(k: BlockType, active: bool): BlockType {
    if active then Paragraph else if IsList(k) then ListItem else k
  }

  /** The line-level reasoning behind ToggleBlock's contract. */
  lemma ToggleBlockLines(ls0: seq<Line>, ls1: seq<Line>, ls2: seq<Line>, ls3: seq<Line>, sel: Range,
                         k: BlockType, active: bool)
    requires Chained(ls0) && Chained(ls1) && Chained(ls3) && RangeFits(ls0, sel)
    requires SameStrings(ls0, ls1) && SameStrings(ls1, ls2) && SameStrings(ls2, ls3)
    requires LiftedAll(ls0, ls1)
    requires var r := Edges(sel);
      Shallow(ls0, 0, r.first.block, r.last.block) ==> Cleared(ls1, 0, r.first.block, r.last.block)
    requires var sp := Unhang(ls0, sel);
      ls2 == EditAll(ls1, 0, sp.first.block, sp.last.block, KindTo(NewKind(k, active)))
    requires !active && IsList(k) ==>
      WrappedAll(ls2, ls3, 0, Edges(sel).first.block, Edges(sel).last.block, Header(k, None))
    requires !(!active && IsList(k)) ==> ls3 == ls2
    ensures SameStrings(ls0, ls3) && RangeFits(ls3, sel) && Unhang(ls3, sel) == Unhang(ls0, sel)
    ensures KindsAre(ls3, Unhang(ls0, sel).first.block, Unhang(ls0, sel).last.block, NewKind(k, active))
    ensures !active ==> ActiveIn(ls3, sel, k)
    ensures var r := Edges(sel);
      IsList(k) && active && Shallow(ls0, 0, r.first.block, r.last.block) ==> !ActiveIn(ls3, sel, k)
    ensures var r := Edges(sel);
      IsList(k) && !active && Shallow(ls0, 0, r.first.block, r.last.block) ==>
        InOneList(ls3, r.first.block, r.last.block, k)
    ensures (active && !IsList(k) && k != Paragraph &&
      NoOuterKind(ls0, Unhang(ls0, sel).first.block, Unhang(ls0, sel).last.block, k)) ==>
        !ActiveIn(ls3, sel, k)
    ensures k == Paragraph ==> ActiveIn(ls3, sel, k)
  {
    var r := Edges(sel);
    var sp := Unhang(ls0, sel);
    var wrapped := !active && IsList(k);
    SameStringsTrans(ls0, ls1, ls2);
    SameStringsTrans(ls0, ls2, ls3);
    UnhangSame(ls0, ls3, sel);
    KindsSet(ls1, ls2, ls3, sp.first.block, sp.last.block, NewKind(k, active), r.first.block, r.last.block,
      Header(k, None), wrapped);
    if !active {
      KindActivated(ls2, ls3, sp.first.block, k, NewKind(k, active), r.first.block, r.last.block, wrapped);
    }
    if active && !IsList(k) && k != Paragraph && NoOuterKind(ls0, sp.first.block, sp.last.block, k) {
      KindCleared(ls0, ls1, ls3, sp.first.block, sp.last.block, k);
    }
    if k == Paragraph {
      OwnKind(ls3[sp.first.block]);
    }
    if IsList(k) && Shallow(ls0, 0, r.first.block, r.last.block) {
      if active {
        ListCleared(ls1, ls3, sp.first.block, sp.last.block, k, r.first.block, r.last.block);
      } else {
        ListCreated(ls1, ls2, ls3, sp.first.block, sp.last.block, NewKind(k, active), r.first.block, r.last.block, k);
      }
    }
  }

  /** After the kind write, possibly followed by a wrap, the written blocks have kind `k'`. */
  lemma KindsSet(ls1: seq<Line>, ls2: seq<Line>, ls3: seq<Line>, lo: nat, hi: nat, k': BlockType,
                 wlo: nat, whi: nat, h: Header, wrapped: bool)
    requires Chained(ls1) && Chained(ls3) && ls2 == EditAll(ls1, 0, lo, hi, KindTo(k'))
    requires wrapped ==> WrappedAll(ls2, ls3, 0, wlo, whi, h)
    requires !wrapped ==> ls3 == ls2
    ensures |ls3| == |ls1|
    ensures KindsAre(ls3, lo, hi, k')
  {
    forall j | lo <= j <= hi && j < |ls3| ensures Own(ls3[j]).kind == k' {
      assert Own(ls2[j]).kind == k';
    }
  }

  /** A kind that was not active is active at the first selected block afterwards. */
  lemma KindActivated(ls2: seq<Line>, ls3: seq<Line>, j: nat, k: BlockType, k': BlockType,
                      wlo: nat, whi: nat, wrapped: bool)
    requires Chained(ls3) && j < |ls3| && wlo == j <= whi
    requires wrapped ==> WrappedAll(ls2, ls3, 0, wlo, whi, Header(k, None))
    requires !wrapped ==> k' == k
    requires Own(ls3[j]).kind == k'
    ensures KindIn(ls3, j, j, k)
  {
    if wrapped {
      GrewKind(ls2[j], ls3[j], Header(k, None));
    } else {
      OwnKind(ls3[j]);
    }
  }

  lemma HasKindConcat(a: seq<Header>, b: seq<Header>, k: BlockType)
    ensures HasKind(a + b, k) <==> HasKind(a, k) || HasKind(b, k)
  {
    if HasKind(a + b, k) {
      var i :| 0 <= i < |a + b| && (a + b)[i].kind == k;
      if i < |a| {
        assert a[i] == (a + b)[i];
      } else {
        assert b[i - |a|] == (a + b)[i];
      }
    }
    if HasKind(a, k) {
      var i :| 0 <= i < |a| && a[i].kind == k;
      assert (a + b)[i] == a[i];
    }
    if HasKind(b, k) {
      var i :| 0 <= i < |b| && b[i].kind == k;
      assert (a + b)[|a| + i] == b[i];
    }
  }

  /** Dropping the list headers of a chain keeps every other kind on it. */
  lemma {:induction false} KeptKind(c: seq<Header>, k: BlockType)
    requires !IsList(k)
    ensures HasKind(Kept(c), k) <==> HasKind(c, k)
  {
    if c != [] {
      KeptKind(c[1..], k);
      var x := if IsList(c[0].kind) then [] else [c[0]];
      assert Kept(c) == x + Kept(c[1..]);
      HasKindConcat(x, Kept(c[1..]), k);
      assert c == [c[0]] + c[1..];
      HasKindConcat([c[0]], c[1..], k);
      assert HasKind([c[0]], k) <==> c[0].kind == k by {
        assert [c[0]][0] == c[0];
      }
    }
  }

  /**
   * An active kind that is no list, and that no container of the written
   * blocks carries, is gone once those blocks are paragraphs.
   */
  lemma KindCleared(ls0: seq<Line>, ls1: seq<Line>, ls3: seq<Line>, lo: nat, hi: nat, k: BlockType)
    requires Chained(ls0) && Chained(ls1) && LiftedAll(ls0, ls1) && !IsList(k) && k != Paragraph
    requires ls3 == EditAll(ls1, 0, lo, hi, KindTo(Paragraph))
    requires NoOuterKind(ls0, lo, hi, k)
    ensures !KindIn(ls3, lo, hi, k)
  {
    forall j | lo <= j <= hi && j < |ls3| ensures !HasKind(ls3[j].chain, k) {
      KeptKind(Anc(ls0[j]), k);
      KeptKind(Anc(ls1[j]), k);
      assert Anc(ls3[j]) == Anc(ls1[j]);
      assert ls3[j].chain == Anc(ls3[j]) + [Own(ls3[j])];
      HasKindConcat(Anc(ls3[j]), [Own(ls3[j])], k);
      assert [Own(ls3[j])][0].kind == Paragraph;
    }
  }

  /** An active list on blocks under at most one list is gone afterwards. */
  lemma ListCleared(ls1: seq<Line>, ls3: seq<Line>, lo: nat, hi: nat, k: BlockType, wlo: nat, whi: nat)
    requires Chained(ls1) && Chained(ls3) && |ls3| == |ls1| && IsList(k)
    requires ls3 == EditAll(ls1, 0, lo, hi, KindTo(Paragraph))
    requires wlo <= lo && hi <= whi && Cleared(ls1, 0, wlo, whi)
    ensures !KindIn(ls3, lo, hi, k)
  {
    forall j | lo <= j <= hi && j < |ls3| ensures !HasKind(ls3[j].chain, k) {
      assert Anc(ls3[j]) == Anc(ls1[j]);
      ClearedKind(ls3[j], k);
    }
  }

  /** A new list leaves each selected block under exactly one list, of kind `k`. */
  lemma ListCreated(ls1: seq<Line>, ls2: seq<Line>, ls3: seq<Line>, lo: nat, hi: nat, k': BlockType,
                    wlo: nat, whi: nat, k: BlockType)
    requires Chained(ls1) && IsList(k)
    requires ls2 == EditAll(ls1, 0, lo, hi, KindTo(k'))
    requires WrappedAll(ls2, ls3, 0, wlo, whi, Header(k, None)) && Cleared(ls1, 0, wlo, whi)
    ensures InOneList(ls3, wlo, whi, k)
  {
    forall j | wlo <= j <= whi && j < |ls3|
      ensures ls3[j].chain != [] && ListCount(Anc(ls3[j])) == 1 && HasKind(Anc(ls3[j]), k)
    {
      assert Anc(ls2[j]) == Anc(ls1[j]);
      WrappedList(ls2[j], ls3[j], Header(k, None));
    }
  }

  /**
   * toggleTextAlign: with a selection, the unhung selection's blocks get
   * alignment `a`, or lose their alignment when `a` was active. An
   * inactive alignment becomes active; an active one goes away unless a
   * container around the blocks carries it.
   */
  method ToggleTextAlign(e: Editor, a: Align)
    requires e.Valid()
    modifies e
    ensures e.Valid()
    ensures e.selection == old(e.selection) && e.marks == old(e.marks) && e.forwarded == old(e.forwarded)
    ensures old(e.selection).None? ==> e.children == old(e.children)
    ensures old(e.selection).Some? ==>
      var sp := Unhang(old(e.Doc()), old(e.selection).value);
      var v := if old(IsTextAlignActive(e, a)) then None else Some(a);
      e.children == EditSeq(old(e.children), 0, sp.first.block, sp.last.block, AlignTo(v)) &&
      e.Doc() == EditAll(old(e.Doc()), 0, sp.first.block, sp.last.block, AlignTo(v))
    ensures old(e.selection).Some? && !old(IsTextAlignActive(e, a)) ==> IsTextAlignActive(e, a)
    ensures (old(e.selection).Some? && old(IsTextAlignActive(e, a)) &&
      var sp := Unhang(old(e.Doc()), old(e.selection).value);
      forall j :: sp.first.block <= j <= sp.last.block ==> !HasAlign(Anc(old(e.Doc())[j]), a)) ==>
        !IsTextAlignActive(e, a)
  {
    if e.selection.None? {
      return;
    }
    var active := IsTextAlignActive(e, a);
    ghost var ls := e.Doc();
    var v := if active then None else Some(a);
    e.SetBlocks(AlignTo(v));
    AlignLines(ls, e.selection.value, a, v);
  }

  /** The line-level reasoning behind ToggleTextAlign's contract. */
  lemma AlignLines(ls: seq<Line>, sel: Range, a: Align, v: Option<Align>)
    requires Chained(ls) && RangeFits(ls, sel)
    ensures var sp := Unhang(ls, sel);
      var ls' := EditAll(ls, 0, sp.first.block, sp.last.block, AlignTo(v));
      RangeFits(ls', sel) && Unhang(ls', sel) == sp &&
      (v == Some(a) ==> AlignIn(ls', sp.first.block, sp.last.block, a)) &&
      (v == None && (forall j :: sp.first.block <= j <= sp.last.block ==> !HasAlign(Anc(ls[j]), a)) ==>
        !AlignIn(ls', sp.first.block, sp.last.block, a))
  {
    var sp := Unhang(ls, sel);
    var ls' := EditAll(ls, 0, sp.first.block, sp.last.block, AlignTo(v));
    EditAllStrings(ls, 0, sp.first.block, sp.last.block, AlignTo(v));
    UnhangSame(ls, ls', sel);
    var j := sp.first.block;
    if v == Some(a) {
      assert ls'[j].chain[|ls'[j].chain| - 1].align == Some(a);
    }
    if v == None && (forall j :: sp.first.block <= j <= sp.last.block ==> !HasAlign(Anc(ls[j]), a)) {
      forall j | sp.first.block <= j <= sp.last.block && j < |ls'| ensures !HasAlign(ls'[j].chain, a) {
        assert !HasAlign(Anc(ls[j]), a);
        forall i | 0 <= i < |ls'[j].chain| ensures ls'[j].chain[i].align != Some(a) {
          if i < |ls'[j].chain| - 1 {
            assert ls'[j].chain[i] == Anc(ls[j])[i];
          }
        }
      }
    }
  }

  /**
   * toggleFontFamily: setNodes with splitting writes `family` as the font
   * family of exactly the selected characters, every other property kept.
   */
  method ToggleFontFamily(e: Editor, family: string)
    requires e.Valid()
    modifies e
    ensures e.Valid()
    ensures e.marks == old(e.marks) && e.forwarded == old(e.forwarded)
    ensures !SplitApplies(old(e.Doc()), old(e.selection)) ==>
      e.children == old(e.children) && e.selection == old(e.selection)
    ensures SplitApplies(old(e.Doc()), old(e.selection)) ==>
      var sp := Unhang(old(e.Doc()), old(e.selection).value);
      e.children == EditSeq(old(e.children), 0, sp.first.block, sp.last.block, StyleChars(FontFamilyTo(family), sp)) &&
      RestyledSpan(old(e.Doc()), e.Doc(), sp, FontFamilyTo(family)) &&
      e.selection == Some(Unhung(old(e.Doc()), old(e.selection).value))
  {
    ghost var ls := e.Doc();
    ghost var sel := e.selection;
    e.SetTexts(FontFamilyTo(family));
    if SplitApplies(ls, sel) {
      EditAllRestyled(ls, Unhang(ls, sel.value), FontFamilyTo(family));
    }
  }

  /**
   * toggleFontColor: setNodes with splitting writes `color` as the colour
   * of exactly the selected characters, every other property kept.
   */
  method ToggleFontColor(e: Editor, color: string)
    requires e.Valid()
    modifies e
    ensures e.Valid()
    ensures e.marks == old(e.marks) && e.forwarded == old(e.forwarded)
    ensures !SplitApplies(old(e.Doc()), old(e.selection)) ==>
      e.children == old(e.children) && e.selection == old(e.selection)
    ensures SplitApplies(old(e.Doc()), old(e.selection)) ==>
      var sp := Unhang(old(e.Doc()), old(e.selection).value);
      e.children == EditSeq(old(e.children), 0, sp.first.block, sp.last.block, StyleChars(ColorTo(color), sp)) &&
      RestyledSpan(old(e.Doc()), e.Doc(), sp, ColorTo(color)) &&
      e.selection == Some(Unhung(old(e.Doc()), old(e.selection).value))
  {
    ghost var ls := e.Doc();
    ghost var sel := e.selection;
    e.SetTexts(ColorTo(color));
    if SplitApplies(ls, sel) {
      EditAllRestyled(ls, Unhang(ls, sel.value), ColorTo(color));
    }
  }

  // ---------------------------------------------------------------------
  // A caret inside text

  /** A paragraph "abc" with the caret after its first character. */
  function CaretDoc(): seq<Line> {
    LinesSeq([Element(Paragraph, [Leaf(Text("abc", NoMarks))], None)])
  }

  /**
   * toggleMark at a caret inside text changes nothing: setNodes with
   * splitting ignores a caret in a non-empty leaf, so bold stays off.
   */
  lemma CaretToggleIgnored()
    ensures var sel := Some(Range(Point(0, 1), Point(0, 1)));
      RangeFits(CaretDoc(), sel.value) && !SplitApplies(CaretDoc(), sel) &&
      !MarkOn(SelectionMarks(CaretDoc(), sel, None), Bold)
  {
    var p := Element(Paragraph, [Leaf(Text("abc", NoMarks))], None);
    assert IsTextBlock(p);
    assert LeavesOf(p.children) == [Text("abc", NoMarks)];
    assert Lines(p) == [Line([Header(Paragraph, None)], [Text("abc", NoMarks)])];
    assert [p][1..] == [];
    var ls := CaretDoc();
    assert ls == Lines(p) + LinesSeq([]);
    assert TextOf(ls[0].leaves) == "abc";
    assert Chars(ls[0].leaves)[0].marks == NoMarks;
  }

  /**
   * toggleMark as evidently intended: at a caret the mark goes into the
   * pending marks (as Editor.addMark and Editor.removeMark do), so typing
   * picks it up; an expanded selection is handled as by ToggleMark. Every
   * caret flips the mark's activity.
   */
  method ToggleMarkCorrected(e: Editor, f: Format)
    requires e.Valid()
    modifies e
    ensures e.Valid()
    ensures e.forwarded == old(e.forwarded)
    ensures old(e.selection).Some? && old(Collapsed(e.selection.value)) ==>
      e.children == old(e.children) && e.selection == old(e.selection) &&
      e.marks == Some(SetMark(old(e.CurrentMarks()).value, f, if old(IsMarkActive(e, f)) then None else Some(true)))
    ensures old(e.selection).Some? && !old(Collapsed(e.selection.value)) ==>
      var sp := Unhang(old(e.Doc()), old(e.selection).value);
      var u := MarkTo(f, if old(IsMarkActive(e, f)) then None else Some(true));
      e.marks == old(e.marks) &&
      e.children == EditSeq(old(e.children), 0, sp.first.block, sp.last.block, StyleChars(u, sp)) &&
      RestyledSpan(old(e.Doc()), e.Doc(), sp, u) &&
      e.selection == Some(Unhung(old(e.Doc()), old(e.selection).value))
    ensures old(e.selection).None? ==> e.children == old(e.children) && e.selection == None && e.marks == old(e.marks)
    ensures old(e.selection).Some? && (old(Collapsed(e.selection.value)) || old(StartsOnChar(e.Doc(), e.selection))) ==>
      IsMarkActive(e, f) == !old(IsMarkActive(e, f))
  {
    if e.selection.Some? && Collapsed(e.selection.value) {
      var active := IsMarkActive(e, f);
      var m := e.CurrentMarks().value;
      e.marks := Some(SetMark(m, f, if active then None else Some(true)));
    } else {
      ToggleMark(e, f);
    }
  }
}
