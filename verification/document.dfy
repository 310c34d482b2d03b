/**
 * The document tree seen through its text blocks. A text block is an
 * element whose children are all text leaves; every other element is a
 * container. Text blocks are numbered in document order, and `Lines` gives,
 * for each of them, the chain of element headers from the outermost
 * ancestor down to the block itself, together with the block's leaves.
 */
module Document {
  import opened Types
  import opened Leaves

  predicate IsTextBlock(n: Node) {
    n.Element? && forall c :: c in n.children ==> c.Leaf?
  }

  predicate IsContainer(n: Node) {
    n.Element? && !IsTextBlock(n)
  }

  /** The number of text blocks in a node. */
  function Count(n: Node): nat {
    match n
    case Leaf(_) => 0
    case Element(_, cs, _) => if IsTextBlock(n) then 1 else CountSeq(cs)
  }

  function CountSeq(ns: seq<Node>): nat {
    if ns == [] then 0 else Count(ns[0]) + CountSeq(ns[1..])
  }

  /**
   * Slate's normalised shape: every element has at least one child, and
   * its children are either all text leaves or all (well-formed) elements.
   */
  predicate WellFormed(n: Node) {
    match n
    case Leaf(_) => true
    case Element(_, cs, _) =>
      |cs| > 0 &&
      ((forall c :: c in cs ==> c.Leaf?) || (forall c :: c in cs ==> c.Element? && WellFormed(c)))
  }

  /** A sequence of sibling blocks, such as the document's top level. */
  predicate WellFormedSeq(ns: seq<Node>) {
    forall n :: n in ns ==> n.Element? && WellFormed(n)
  }

  /** A text block seen in its context. `chain` ends with the block's own header. */
  datatype Line = Line(chain: seq<Header>, leaves: seq<Text>)

  function Own(l: Line): Header
    requires l.chain != []
  {
    l.chain[|l.chain| - 1]
  }

  /** The headers of the containers around a text block, outermost first. */
  function Anc(l: Line): seq<Header>
    requires l.chain != []
  {
    l.chain[..|l.chain| - 1]
  }

  function LeavesOf(cs: seq<Node>): seq<Text>
    requires forall c :: c in cs ==> c.Leaf?
  {
    seq(|cs|, i requires 0 <= i < |cs| => cs[i].leaf)
  }

  function AsLeaves(ls: seq<Text>): (r: seq<Node>)
    ensures forall c :: c in r ==> c.Leaf?
    ensures LeavesOf(r) == ls
  {
    seq(|ls|, i requires 0 <= i < |ls| => Leaf(ls[i]))
  }

  function Under(h: Header, ls: seq<Line>): seq<Line> {
    seq(|ls|, i requires 0 <= i < |ls| => Line([h] + ls[i].chain, ls[i].leaves))
  }

  predicate Chained(ls: seq<Line>) {
    forall j :: 0 <= j < |ls| ==> ls[j].chain != []
  }

  /** One line per text block of `n`, in document order. */
  function Lines(n: Node): (r: seq<Line>)
    ensures |r| == Count(n) && Chained(r)
  {
    match n
    case Leaf(_) => []
    case Element(k, cs, a) =>
      if IsTextBlock(n) then [Line([Header(k, a)], LeavesOf(cs))]
      else Under(Header(k, a), LinesSeq(cs))
  }

  function LinesSeq(ns: seq<Node>): (r: seq<Line>)
    ensures |r| == CountSeq(ns) && Chained(r)
  {
    if ns == [] then [] else Lines(ns[0]) + LinesSeq(ns[1..])
  }

  // ---------------------------------------------------------------------
  // Points and ranges

  /**
   * A position in the document: a text block, by its index in document
   * order, and a character offset in that block's string.
   */
  datatype Point = Point(block: nat, offset: nat)

  datatype Range = Range(anchor: Point, focus: Point)

  /** The edges of a range, first before last. */
  datatype Span = Span(first: Point, last: Point)

  predicate NotAfter(p: Point, q: Point) {
    p.block < q.block || (p.block == q.block && p.offset <= q.offset)
  }

  predicate Collapsed(r: Range) {
    r.anchor == r.focus
  }

  function Edges(r: Range): (s: Span)
    ensures NotAfter(s.first, s.last)
    ensures {s.first, s.last} == {r.anchor, r.focus}
  {
    if NotAfter(r.anchor, r.focus) then Span(r.anchor, r.focus) else Span(r.focus, r.anchor)
  }

  function BlockText(ls: seq<Line>, b: nat): string
    requires b < |ls|
  {
    TextOf(ls[b].leaves)
  }

  predicate PointFits(ls: seq<Line>, p: Point) {
    p.block < |ls| && p.offset <= |BlockText(ls, p.block)|
  }

  predicate RangeFits(ls: seq<Line>, r: Range) {
    PointFits(ls, r.anchor) && PointFits(ls, r.focus)
  }

  /**
   * Editor.unhangRange: a range that starts at offset 0 and ends at offset 0
   * of a later block is pulled back to the end of the block before it.
   */
  function Unhang(ls: seq<Line>, r: Range): (s: Span)
    requires RangeFits(ls, r)
    ensures s.first == Edges(r).first
    ensures PointFits(ls, s.first) && PointFits(ls, s.last) && NotAfter(s.first, s.last)
    ensures s.last.block <= Edges(r).last.block
  {
    var e := Edges(r);
    if e.first.offset != 0 || e.last.offset != 0 || Collapsed(r) then e
    else
      var b := e.last.block - 1;
      Span(e.first, Point(b, |BlockText(ls, b)|))
  }

  /** Two line sequences whose blocks spell the same strings, block by block. */
  predicate SameStrings(a: seq<Line>, b: seq<Line>) {
    |a| == |b| && forall j :: 0 <= j < |a| ==> TextOf(a[j].leaves) == TextOf(b[j].leaves)
  }

  /** Points only look at block strings, so a range fits both or neither. */
  lemma FitsSame(a: seq<Line>, b: seq<Line>, r: Range)
    requires SameStrings(a, b) && RangeFits(a, r)
    ensures RangeFits(b, r)
  {
  }

  lemma SameStringsTrans(a: seq<Line>, b: seq<Line>, c: seq<Line>)
    requires SameStrings(a, b) && SameStrings(b, c)
    ensures SameStrings(a, c)
  {
  }

  /** Unhanging only looks at block lengths, so it agrees on both sequences. */
  lemma UnhangSame(a: seq<Line>, b: seq<Line>, r: Range)
    requires SameStrings(a, b) && RangeFits(a, r)
    ensures RangeFits(b, r) && Unhang(a, r) == Unhang(b, r)
  {
  }

  // ---------------------------------------------------------------------
  // Setting properties on the text blocks of a span

  /** What Transforms.setNodes writes into each text block it matches. */
  datatype BlockOp =
    | KindTo(kind: BlockType)
    | AlignTo(align: Option<Align>)
    | StyleChars(update: LeafUpdate, span: Span)
    | DropPrefix(count: nat)

  /** The characters of block j that a span covers: [lo, hi). */
  function SpanLo(sp: Span, j: nat): nat {
    if j == sp.first.block then sp.first.offset else 0
  }

  function SpanHi(sp: Span, j: nat, len: nat): nat {
    if j == sp.last.block then sp.last.offset else len
  }

  function EditLeaves(op: BlockOp, j: nat, ls: seq<Text>): seq<Text> {
    match op
    case StyleChars(u, sp) => UpdateSlice(ls, SpanLo(sp, j), SpanHi(sp, j, |TextOf(ls)|), u)
    case DropPrefix(n) => DropChars(ls, n)
    case _ => ls
  }

  function EditHeader(op: BlockOp, h: Header): Header {
    match op
    case KindTo(k) => h.(kind := k)
    case AlignTo(a) => h.(align := a)
    case _ => h
  }

  /** The effect of an edit on the line of block j. */
  function EditLine(op: BlockOp, j: nat, l: Line): Line
    requires l.chain != []
  {
    Line(Anc(l) + [EditHeader(op, Own(l))], EditLeaves(op, j, l.leaves))
  }

  function EditBlock(op: BlockOp, j: nat, n: Node): (r: Node)
    requires IsTextBlock(n)
    ensures IsTextBlock(r)
  {
    var h := EditHeader(op, HeaderOf(n));
    Element(h.kind, AsLeaves(EditLeaves(op, j, LeavesOf(n.children))), h.align)
  }

  /** Applies `op` to every text block whose index lies in [lo, hi]. */
  function EditNode(n: Node, base: nat, lo: nat, hi: nat, op: BlockOp): Node {
    match n
    case Leaf(_) => n
    case Element(k, cs, a) =>
      if IsTextBlock(n) then (if lo <= base <= hi then EditBlock(op, base, n) else n)
      else Element(k, EditSeq(cs, base, lo, hi, op), a)
  }

  function EditSeq(ns: seq<Node>, base: nat, lo: nat, hi: nat, op: BlockOp): seq<Node> {
    if ns == [] then []
    else [EditNode(ns[0], base, lo, hi, op)] + EditSeq(ns[1..], base + Count(ns[0]), lo, hi, op)
  }

  /** The lines of a whole sequence after editing, stated line by line. */
  function EditAll(ls: seq<Line>, base: nat, lo: nat, hi: nat, op: BlockOp): seq<Line>
    requires Chained(ls)
  {
    seq(|ls|, j requires 0 <= j < |ls| =>
      if lo <= base + j <= hi then EditLine(op, base + j, ls[j]) else ls[j])
  }

  // ---------------------------------------------------------------------
  // Lemmas

  lemma {:induction false} CountSeqConcat(a: seq<Node>, b: seq<Node>)
    ensures CountSeq(a + b) == CountSeq(a) + CountSeq(b)
  {
    if a != [] {
      assert (a + b)[1..] == a[1..] + b;
      CountSeqConcat(a[1..], b);
    } else {
      assert a + b == b;
    }
  }

  lemma {:induction false} LinesSeqConcat(a: seq<Node>, b: seq<Node>)
    ensures LinesSeq(a + b) == LinesSeq(a) + LinesSeq(b)
  {
    if a != [] {
      assert (a + b)[1..] == a[1..] + b;
      LinesSeqConcat(a[1..], b);
    } else {
      assert a + b == b;
    }
  }

  lemma LinesSeqCons(n: Node, ns: seq<Node>)
    ensures LinesSeq([n] + ns) == Lines(n) + LinesSeq(ns)
  {
    assert ([n] + ns)[1..] == ns;
  }

  lemma UnderConcat(h: Header, a: seq<Line>, b: seq<Line>)
    ensures Under(h, a + b) == Under(h, a) + Under(h, b)
  {
  }

  /** Every element holds at least one text block. */
  lemma {:induction false} ElementCount(n: Node)
    requires n.Element?
    ensures Count(n) >= 1
  {
    if !IsTextBlock(n) {
      var c :| c in n.children && !c.Leaf?;
      var k :| 0 <= k < |n.children| && n.children[k] == c;
      ElementCount(c);
      CountSeqAt(n.children, k);
    }
  }

  lemma {:induction false} CountSeqAt(ns: seq<Node>, k: nat)
    requires k < |ns|
    ensures Count(ns[k]) <= CountSeq(ns)
  {
    if k > 0 {
      CountSeqAt(ns[1..], k - 1);
    }
  }

  lemma EditLineUnder(op: BlockOp, j: nat, h: Header, l: Line)
    requires l.chain != []
    ensures EditLine(op, j, Line([h] + l.chain, l.leaves)) == Line([h] + EditLine(op, j, l).chain, EditLine(op, j, l).leaves)
  {
    assert Anc(Line([h] + l.chain, l.leaves)) == [h] + Anc(l);
  }

  lemma EditAllConcat(a: seq<Line>, b: seq<Line>, base: nat, mid: nat, lo: nat, hi: nat, op: BlockOp)
    requires Chained(a) && Chained(b) && mid == base + |a|
    ensures Chained(a + b)
    ensures EditAll(a + b, base, lo, hi, op) == EditAll(a, base, lo, hi, op) + EditAll(b, mid, lo, hi, op)
  {
  }

  lemma EditAllUnder(h: Header, ls: seq<Line>, base: nat, lo: nat, hi: nat, op: BlockOp)
    requires Chained(ls)
    ensures Chained(Under(h, ls))
    ensures EditAll(Under(h, ls), base, lo, hi, op) == Under(h, EditAll(ls, base, lo, hi, op))
  {
    var lhs := EditAll(Under(h, ls), base, lo, hi, op);
    var rhs := Under(h, EditAll(ls, base, lo, hi, op));
    forall j | 0 <= j < |ls| ensures lhs[j] == rhs[j] {
      if lo <= base + j <= hi {
        EditLineUnder(op, base + j, h, ls[j]);
      }
    }
  }

  /**
   * setNodes on the text blocks [lo, hi] changes exactly those blocks'
   * lines, each as EditLine says, and leaves every other line as it was.
   */
  lemma {:induction false} EditNodeLines(n: Node, base: nat, lo: nat, hi: nat, op: BlockOp)
    ensures Lines(EditNode(n, base, lo, hi, op)) == EditAll(Lines(n), base, lo, hi, op)
    decreases n, 1
  {
    match n
    case Leaf(_) =>
    case Element(k, cs, a) =>
      if IsTextBlock(n) {
        if lo <= base <= hi {
          var r := EditBlock(op, base, n);
          var l := Line([HeaderOf(n)], LeavesOf(cs));
          assert Lines(n) == [l];
          assert Anc(l) == [] && Own(l) == HeaderOf(n);
          assert EditLine(op, base, l) == Line([HeaderOf(r)], LeavesOf(r.children));
          assert Lines(r) == [Line([HeaderOf(r)], LeavesOf(r.children))];
        }
      } else {
        EditSeqLines(cs, base, lo, hi, op);
        EditAllUnder(Header(k, a), LinesSeq(cs), base, lo, hi, op);
        EditSeqShape(cs, base, lo, hi, op);
      }
  }

  lemma {:induction false} EditSeqLines(ns: seq<Node>, base: nat, lo: nat, hi: nat, op: BlockOp)
    ensures LinesSeq(EditSeq(ns, base, lo, hi, op)) == EditAll(LinesSeq(ns), base, lo, hi, op)
    decreases ns, 0
  {
    if ns != [] {
      EditNodeLines(ns[0], base, lo, hi, op);
      EditSeqLines(ns[1..], base + Count(ns[0]), lo, hi, op);
      EditSeqStep(ns, base, lo, hi, op);
    } else {
      assert EditAll([], base, lo, hi, op) == [];
    }
  }

  /** One step of EditSeqLines: the first child, then the rest. */
  lemma EditSeqStep(ns: seq<Node>, base: nat, lo: nat, hi: nat, op: BlockOp)
    requires ns != []
    requires Lines(EditNode(ns[0], base, lo, hi, op)) == EditAll(Lines(ns[0]), base, lo, hi, op)
    requires LinesSeq(EditSeq(ns[1..], base + Count(ns[0]), lo, hi, op)) ==
      EditAll(LinesSeq(ns[1..]), base + Count(ns[0]), lo, hi, op)
    ensures LinesSeq(EditSeq(ns, base, lo, hi, op)) == EditAll(LinesSeq(ns), base, lo, hi, op)
  {
    var head := EditNode(ns[0], base, lo, hi, op);
    var tail := EditSeq(ns[1..], base + Count(ns[0]), lo, hi, op);
    assert EditSeq(ns, base, lo, hi, op) == [head] + tail;
    LinesSeqCons(head, tail);
    assert LinesSeq(ns) == Lines(ns[0]) + LinesSeq(ns[1..]);
    EditAllConcat(Lines(ns[0]), LinesSeq(ns[1..]), base, base + Count(ns[0]), lo, hi, op);
  }

  /** Editing text blocks keeps containers containers. */
  lemma {:induction false} EditSeqShape(ns: seq<Node>, base: nat, lo: nat, hi: nat, op: BlockOp)
    ensures |EditSeq(ns, base, lo, hi, op)| == |ns|
    ensures forall i :: 0 <= i < |ns| ==> EditSeq(ns, base, lo, hi, op)[i].Leaf? == ns[i].Leaf?
  {
    if ns != [] {
      EditSeqShape(ns[1..], base + Count(ns[0]), lo, hi, op);
    }
  }

  lemma EditBlockWellFormed(op: BlockOp, j: nat, n: Node)
    requires IsTextBlock(n) && WellFormed(n)
    ensures WellFormed(EditBlock(op, j, n))
  {
    var ls := LeavesOf(n.children);
    assert |ls| > 0;
    match op
    case StyleChars(u, sp) => UpdateSliceKeepsLeaves(ls, SpanLo(sp, j), SpanHi(sp, j, |TextOf(ls)|), u);
    case DropPrefix(k) => DropCharsKeepsLeaf(ls, k);
    case _ =>
  }

  /** Editing text blocks keeps the document in Slate's normalised shape. */
  lemma {:induction false} EditNodeWellFormed(n: Node, base: nat, lo: nat, hi: nat, op: BlockOp)
    requires n.Element? && WellFormed(n)
    ensures EditNode(n, base, lo, hi, op).Element? && WellFormed(EditNode(n, base, lo, hi, op))
    decreases n, 1
  {
    if IsTextBlock(n) {
      if lo <= base <= hi {
        EditBlockWellFormed(op, base, n);
      }
    } else {
      var cs := n.children;
      assert cs[0] in cs;
      EditSeqShape(cs, base, lo, hi, op);
      EditSeqWellFormed(cs, base, lo, hi, op);
    }
  }

  lemma {:induction false} EditSeqWellFormed(ns: seq<Node>, base: nat, lo: nat, hi: nat, op: BlockOp)
    requires WellFormedSeq(ns)
    ensures WellFormedSeq(EditSeq(ns, base, lo, hi, op))
    decreases ns, 0
  {
    if ns != [] {
      EditNodeWellFormed(ns[0], base, lo, hi, op);
      EditSeqWellFormed(ns[1..], base + Count(ns[0]), lo, hi, op);
    }
  }

  /** Only deleting changes a block's string; restyling and header writes keep it. */
  lemma EditAllStrings(ls: seq<Line>, base: nat, lo: nat, hi: nat, op: BlockOp)
    requires Chained(ls) && !op.DropPrefix?
    ensures SameStrings(ls, EditAll(ls, base, lo, hi, op))
  {
    var r := EditAll(ls, base, lo, hi, op);
    forall j | 0 <= j < |ls| ensures TextOf(ls[j].leaves) == TextOf(r[j].leaves) {
      if lo <= base + j <= hi && op.StyleChars? {
        var l := ls[j].leaves;
        UpdateSliceText(l, SpanLo(op.span, base + j), SpanHi(op.span, base + j, |TextOf(l)|), op.update);
      }
    }
  }

  /** Editing the single block b replaces its line and no other. */
  lemma EditAllOne(ls: seq<Line>, b: nat, op: BlockOp)
    requires Chained(ls) && b < |ls|
    ensures EditAll(ls, 0, b, b, op) == ls[b := EditLine(op, b, ls[b])]
  {
  }

  /** Every text block holds at least one leaf. */
  predicate Filled(ls: seq<Line>) {
    forall j :: 0 <= j < |ls| ==> ls[j].leaves != []
  }

  lemma {:induction false} FilledNode(n: Node)
    requires WellFormed(n)
    ensures Filled(Lines(n))
    decreases n, 1
  {
    if n.Element? && !IsTextBlock(n) {
      assert WellFormedSeq(n.children);
      FilledSeq(n.children);
    }
  }

  lemma {:induction false} FilledSeq(ns: seq<Node>)
    requires WellFormedSeq(ns)
    ensures Filled(LinesSeq(ns))
    decreases ns, 0
  {
    if ns != [] {
      assert ns[0] in ns;
      FilledNode(ns[0]);
      FilledSeq(ns[1..]);
    }
  }
}
