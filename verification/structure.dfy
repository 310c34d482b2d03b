/**
 * The two structural transforms the commands use: lifting text out of list
 * containers (Transforms.unwrapNodes with `split: true`) and wrapping the
 * blocks of a range in a new element (Transforms.wrapNodes). Neither creates,
 * removes or reorders text blocks, so both are described by what they do to
 * each line's chain of headers.
 */
module Structure {
  import opened Types
  import opened Document

  /** A node holding the text blocks [base, base + count) meets [lo, hi]. */
  predicate Meets(base: nat, count: nat, lo: nat, hi: nat) {
    base <= hi && lo < base + count
  }

  // ---------------------------------------------------------------------
  // Splitting a child sequence around a range of text blocks

  /** How many leading children lie wholly before text block lo. */
  function TakeBefore(ns: seq<Node>, base: nat, lo: nat): (r: nat)
    ensures r <= |ns|
  {
    if ns == [] then 0
    else if base + Count(ns[0]) <= lo then 1 + TakeBefore(ns[1..], base + Count(ns[0]), lo)
    else 0
  }

  lemma {:induction false} TakeBeforeFacts(ns: seq<Node>, base: nat, lo: nat)
    ensures var r := TakeBefore(ns, base, lo);
      (r == 0 || base + CountSeq(ns[..r]) <= lo) &&
      (r < |ns| ==> base + CountSeq(ns[..r]) + Count(ns[r]) > lo)
  {
    if ns != [] && base + Count(ns[0]) <= lo {
      var r' := TakeBefore(ns[1..], base + Count(ns[0]), lo);
      TakeBeforeFacts(ns[1..], base + Count(ns[0]), lo);
      assert ns[..1 + r'][1..] == ns[1..][..r'];
    }
  }

  /** How many leading children start at or before text block hi. */
  function TakeUpTo(ns: seq<Node>, base: nat, hi: nat): (r: nat)
    ensures r <= |ns|
  {
    if ns == [] then 0
    else if base <= hi then 1 + TakeUpTo(ns[1..], base + Count(ns[0]), hi)
    else 0
  }

  lemma {:induction false} TakeUpToFacts(ns: seq<Node>, base: nat, hi: nat)
    ensures var r := TakeUpTo(ns, base, hi);
      (r == |ns| || base + CountSeq(ns[..r]) > hi) &&
      (ns != [] && base <= hi ==> r >= 1) &&
      (r >= 1 ==> base <= hi) &&
      (r >= 2 ==> base + Count(ns[0]) <= hi)
  {
    if ns != [] && base <= hi {
      var r' := TakeUpTo(ns[1..], base + Count(ns[0]), hi);
      TakeUpToFacts(ns[1..], base + Count(ns[0]), hi);
      assert ns[..1 + r'][1..] == ns[1..][..r'];
    }
  }

  /**
   * The end of the covered stretch of children: from TakeBefore (the first
   * child meeting lo) up to the last child starting by hi.
   */
  function CoverTo(ns: seq<Node>, base: nat, lo: nat, hi: nat): (j: nat)
    ensures TakeBefore(ns, base, lo) <= j <= |ns|
  {
    var i := TakeBefore(ns, base, lo);
    i + TakeUpTo(ns[i..], base + CountSeq(ns[..i]), hi)
  }

  // ---------------------------------------------------------------------
  // Unwrapping lists

  /**
   * The match of unwrapNodes in 'lowest' mode: `n` or a container below it
   * is a list container meeting [lo, hi].
   */
  predicate ListIn(n: Node, base: nat, lo: nat, hi: nat)
    decreases n, 1
  {
    IsContainer(n) && Meets(base, Count(n), lo, hi) &&
    (IsList(n.kind) || ListInSeq(n.children, base, lo, hi))
  }

  predicate ListInSeq(ns: seq<Node>, base: nat, lo: nat, hi: nat)
    decreases ns, 0
  {
    ns != [] && (ListIn(ns[0], base, lo, hi) || ListInSeq(ns[1..], base + Count(ns[0]), lo, hi))
  }

  /** A copy of a split element around some of its former children, if any. */
  function Part(h: Header, xs: seq<Node>): seq<Node> {
    if xs == [] then [] else [Element(h.kind, xs, h.align)]
  }

  /**
   * Transforms.liftNodes on the children of `n` that meet [lo, hi]: the
   * children before and after stay in copies of `n`, the covered ones take
   * its place.
   */
  function Lift(n: Node, base: nat, lo: nat, hi: nat): seq<Node>
    requires n.Element?
  {
    var i, j := TakeBefore(n.children, base, lo), CoverTo(n.children, base, lo, hi);
    Part(HeaderOf(n), n.children[..i]) + n.children[i..j] + Part(HeaderOf(n), n.children[j..])
  }

  /** Unwraps every lowest list container meeting [lo, hi]. */
  function UnwrapNode(n: Node, base: nat, lo: nat, hi: nat): seq<Node>
    decreases n, 1
  {
    if IsContainer(n) && Meets(base, Count(n), lo, hi) then
      if ListInSeq(n.children, base, lo, hi) then
        [Element(n.kind, UnwrapSeq(n.children, base, lo, hi), n.align)]
      else if IsList(n.kind) then Lift(n, base, lo, hi)
      else [n]
    else [n]
  }

  function UnwrapSeq(ns: seq<Node>, base: nat, lo: nat, hi: nat): seq<Node>
    decreases ns, 0
  {
    if ns == [] then []
    else UnwrapNode(ns[0], base, lo, hi) + UnwrapSeq(ns[1..], base + Count(ns[0]), lo, hi)
  }

  // ---------------------------------------------------------------------
  // Wrapping

  /**
   * Transforms.wrapNodes: the lowest common ancestor of text blocks lo and
   * hi gets the children between them moved into a new element with header
   * `h` (the new element's template children are discarded).
   */
  function WrapSeq(ns: seq<Node>, base: nat, lo: nat, hi: nat, h: Header): seq<Node> {
    var i, j := TakeBefore(ns, base, lo), CoverTo(ns, base, lo, hi);
    if i == j then ns
    else if j == i + 1 && IsContainer(ns[i]) then
      var c := ns[i];
      ns[..i] + [Element(c.kind, WrapSeq(c.children, base + CountSeq(ns[..i]), lo, hi, h), c.align)] + ns[j..]
    else ns[..i] + [Element(h.kind, ns[i..j], h.align)] + ns[j..]
  }

  // ---------------------------------------------------------------------
  // Counting headers along a chain

  function ListCount(c: seq<Header>): nat {
    if c == [] then 0 else (if IsList(c[0].kind) then 1 else 0) + ListCount(c[1..])
  }

  /** The headers of a chain that are not lists, in order. */
  function Kept(c: seq<Header>): seq<Header> {
    if c == [] then [] else (if IsList(c[0].kind) then [] else [c[0]]) + Kept(c[1..])
  }

  function Occ(c: seq<Header>, h: Header): nat {
    if c == [] then 0 else (if c[0] == h then 1 else 0) + Occ(c[1..], h)
  }

  /** A chain with every copy of `h` removed. */
  function Strip(c: seq<Header>, h: Header): seq<Header> {
    if c == [] then [] else (if c[0] == h then [] else [c[0]]) + Strip(c[1..], h)
  }

  lemma ConsTail(h: Header, c: seq<Header>)
    ensures ([h] + c)[1..] == c
  {
  }

  lemma AncUnder(h: Header, l: Line)
    requires l.chain != []
    ensures Anc(Line([h] + l.chain, l.leaves)) == [h] + Anc(l)
    ensures Own(Line([h] + l.chain, l.leaves)) == Own(l)
  {
  }

  // ---------------------------------------------------------------------
  // What unwrapping does to a line

  /** `n` is `o` with at most one list ancestor taken away. */
  predicate Lifted(o: Line, n: Line) {
    o.chain != [] && n.chain != [] &&
    n.leaves == o.leaves && Own(n) == Own(o) && Kept(Anc(n)) == Kept(Anc(o)) &&
    (ListCount(Anc(n)) == ListCount(Anc(o)) || ListCount(Anc(n)) + 1 == ListCount(Anc(o)))
  }

  predicate LiftedAll(a: seq<Line>, b: seq<Line>) {
    |a| == |b| && forall j :: 0 <= j < |a| ==> Lifted(a[j], b[j])
  }

  /** Every line in [lo, hi] sits in at most one list. */
  predicate Shallow(ls: seq<Line>, base: nat, lo: nat, hi: nat)
    requires Chained(ls)
  {
    forall j :: 0 <= j < |ls| && lo <= base + j <= hi ==> ListCount(Anc(ls[j])) <= 1
  }

  /** No line in [lo, hi] sits in a list. */
  predicate Cleared(ls: seq<Line>, base: nat, lo: nat, hi: nat)
    requires Chained(ls)
  {
    forall j :: 0 <= j < |ls| && lo <= base + j <= hi ==> ListCount(Anc(ls[j])) == 0
  }

  lemma LiftedRefl(a: seq<Line>)
    requires Chained(a)
    ensures LiftedAll(a, a)
  {
  }

  lemma LiftedConcat(a1: seq<Line>, b1: seq<Line>, a2: seq<Line>, b2: seq<Line>)
    requires LiftedAll(a1, b1) && LiftedAll(a2, b2)
    ensures LiftedAll(a1 + a2, b1 + b2)
  {
    forall j | 0 <= j < |a1 + a2| ensures Lifted((a1 + a2)[j], (b1 + b2)[j]) {
      if j < |a1| {
        assert (a1 + a2)[j] == a1[j] && (b1 + b2)[j] == b1[j];
      } else {
        assert (a1 + a2)[j] == a2[j - |a1|] && (b1 + b2)[j] == b2[j - |a1|];
      }
    }
  }

  lemma LiftedUnderOne(h: Header, o: Line, n: Line)
    requires Lifted(o, n)
    ensures Lifted(Line([h] + o.chain, o.leaves), Line([h] + n.chain, n.leaves))
  {
    AncUnder(h, o);
    AncUnder(h, n);
    ConsTail(h, Anc(o));
    ConsTail(h, Anc(n));
  }

  lemma LiftedUnder(h: Header, a: seq<Line>, b: seq<Line>)
    requires LiftedAll(a, b)
    ensures LiftedAll(Under(h, a), Under(h, b))
  {
    forall j | 0 <= j < |a| ensures Lifted(Under(h, a)[j], Under(h, b)[j]) {
      LiftedUnderOne(h, a[j], b[j]);
    }
  }

  /** Lifting out of a list drops that list from every covered line. */
  lemma LiftedOut(h: Header, a: seq<Line>)
    requires Chained(a) && IsList(h.kind)
    ensures LiftedAll(Under(h, a), a)
    ensures forall j :: 0 <= j < |a| ==> ListCount(Anc(Under(h, a)[j])) == ListCount(Anc(a[j])) + 1
  {
    forall j | 0 <= j < |a|
      ensures Lifted(Under(h, a)[j], a[j])
      ensures ListCount(Anc(Under(h, a)[j])) == ListCount(Anc(a[j])) + 1
    {
      AncUnder(h, a[j]);
      ConsTail(h, Anc(a[j]));
    }
  }

  lemma CountUnder(h: Header, a: seq<Line>)
    requires Chained(a)
    ensures Chained(Under(h, a))
    ensures forall j :: 0 <= j < |a| ==>
      ListCount(Anc(Under(h, a)[j])) == ListCount(Anc(a[j])) + (if IsList(h.kind) then 1 else 0)
  {
    forall j | 0 <= j < |a|
      ensures ListCount(Anc(Under(h, a)[j])) == ListCount(Anc(a[j])) + (if IsList(h.kind) then 1 else 0)
    {
      AncUnder(h, a[j]);
      ConsTail(h, Anc(a[j]));
    }
  }

  lemma ClearedConcat(a: seq<Line>, b: seq<Line>, base: nat, lo: nat, hi: nat)
    requires Chained(a) && Chained(b)
    requires Cleared(a, base, lo, hi) && Cleared(b, base + |a|, lo, hi)
    ensures Chained(a + b) && Cleared(a + b, base, lo, hi)
  {
    forall j | 0 <= j < |a + b| && lo <= base + j <= hi ensures ListCount(Anc((a + b)[j])) == 0 {
      if j < |a| {
        assert (a + b)[j] == a[j];
      } else {
        assert (a + b)[j] == b[j - |a|];
      }
    }
  }

  lemma ShallowSplit(a: seq<Line>, b: seq<Line>, base: nat, lo: nat, hi: nat)
    requires Chained(a) && Chained(b) && Chained(a + b)
    requires Shallow(a + b, base, lo, hi)
    ensures Shallow(a, base, lo, hi) && Shallow(b, base + |a|, lo, hi)
  {
    forall j | 0 <= j < |b| && lo <= base + |a| + j <= hi ensures ListCount(Anc(b[j])) <= 1 {
      assert (a + b)[|a| + j] == b[j];
    }
    forall j | 0 <= j < |a| && lo <= base + j <= hi ensures ListCount(Anc(a[j])) <= 1 {
      assert (a + b)[j] == a[j];
    }
  }

  // ---------------------------------------------------------------------
  // The match of unwrapNodes, in terms of lines

  /** A line in [lo, hi] with a list ancestor makes the match succeed. */
  lemma {:induction false} ListInFromLine(n: Node, base: nat, lo: nat, hi: nat, j: nat)
    requires j < |Lines(n)| && lo <= base + j <= hi && ListCount(Anc(Lines(n)[j])) > 0
    ensures ListIn(n, base, lo, hi)
    decreases n, 1
  {
    if IsContainer(n) {
      var h := HeaderOf(n);
      CountUnder(h, LinesSeq(n.children));
      if !IsList(h.kind) {
        ListInSeqFromLine(n.children, base, lo, hi, j);
      }
    }
  }

  lemma {:induction false} ListInSeqFromLine(ns: seq<Node>, base: nat, lo: nat, hi: nat, j: nat)
    requires j < |LinesSeq(ns)| && lo <= base + j <= hi && ListCount(Anc(LinesSeq(ns)[j])) > 0
    ensures ListInSeq(ns, base, lo, hi)
    decreases ns, 0
  {
    var c := Count(ns[0]);
    assert LinesSeq(ns) == Lines(ns[0]) + LinesSeq(ns[1..]);
    if j < c {
      assert LinesSeq(ns)[j] == Lines(ns[0])[j];
      ListInFromLine(ns[0], base, lo, hi, j);
    } else {
      assert LinesSeq(ns)[j] == LinesSeq(ns[1..])[j - c];
      ListInSeqFromLine(ns[1..], base + c, lo, hi, j - c);
    }
  }

  /** Conversely, a match has a line in [lo, hi] below a list. */
  lemma {:induction false} LineFromListIn(n: Node, base: nat, lo: nat, hi: nat) returns (j: nat)
    requires lo <= hi && ListIn(n, base, lo, hi)
    ensures j < |Lines(n)| && lo <= base + j <= hi && ListCount(Anc(Lines(n)[j])) > 0
    decreases n, 1
  {
    var h := HeaderOf(n);
    CountUnder(h, LinesSeq(n.children));
    assert Lines(n) == Under(h, LinesSeq(n.children));
    if IsList(h.kind) {
      ElementCount(n);
      j := if lo <= base then 0 else lo - base;
    } else {
      j := LineFromListInSeq(n.children, base, lo, hi);
    }
  }

  lemma {:induction false} LineFromListInSeq(ns: seq<Node>, base: nat, lo: nat, hi: nat) returns (j: nat)
    requires lo <= hi && ListInSeq(ns, base, lo, hi)
    ensures j < |LinesSeq(ns)| && lo <= base + j <= hi && ListCount(Anc(LinesSeq(ns)[j])) > 0
    decreases ns, 0
  {
    var c := Count(ns[0]);
    assert LinesSeq(ns) == Lines(ns[0]) + LinesSeq(ns[1..]);
    if ListIn(ns[0], base, lo, hi) {
      j := LineFromListIn(ns[0], base, lo, hi);
      assert LinesSeq(ns)[j] == Lines(ns[0])[j];
    } else {
      var k := LineFromListInSeq(ns[1..], base + c, lo, hi);
      j := c + k;
      assert LinesSeq(ns)[j] == LinesSeq(ns[1..])[k];
    }
  }

  // ---------------------------------------------------------------------
  // Lines of the pieces of a split sequence

  lemma LinesSingle(e: Node)
    ensures LinesSeq([e]) == Lines(e)
  {
    assert [e][1..] == [];
  }

  lemma {:induction false} SplitThree(ns: seq<Node>, i: nat, j: nat)
    requires i <= j <= |ns|
    ensures LinesSeq(ns) == LinesSeq(ns[..i]) + LinesSeq(ns[i..j]) + LinesSeq(ns[j..])
    ensures CountSeq(ns[..j]) == CountSeq(ns[..i]) + CountSeq(ns[i..j])
  {
    assert ns == ns[..i] + ns[i..j] + ns[j..];
    LinesSeqConcat(ns[..i] + ns[i..j], ns[j..]);
    LinesSeqConcat(ns[..i], ns[i..j]);
    assert ns[..j] == ns[..i] + ns[i..j];
    CountSeqConcat(ns[..i], ns[i..j]);
  }

  lemma SplitThreeWellFormed(ns: seq<Node>, i: nat, j: nat)
    requires i <= j <= |ns| && WellFormedSeq(ns)
    ensures WellFormedSeq(ns[..i]) && WellFormedSeq(ns[i..j]) && WellFormedSeq(ns[j..])
  {
  }

  /** A split-off copy of an element around well-formed children is a container. */
  lemma PartLines(h: Header, xs: seq<Node>)
    requires WellFormedSeq(xs)
    ensures LinesSeq(Part(h, xs)) == Under(h, LinesSeq(xs))
    ensures WellFormedSeq(Part(h, xs))
  {
    if xs != [] {
      var e := Element(h.kind, xs, h.align);
      assert xs[0] in xs;
      assert !IsTextBlock(e);
      LinesSingle(e);
    }
  }

  /** Every line of `ns` in [lo, hi] lies in the covered stretch. */
  lemma CoverBounds(ns: seq<Node>, base: nat, lo: nat, hi: nat, k: nat)
    requires k < CountSeq(ns) && lo <= base + k <= hi
    ensures CountSeq(ns[..TakeBefore(ns, base, lo)]) <= k < CountSeq(ns[..CoverTo(ns, base, lo, hi)])
  {
    CoverFacts(ns, base, lo, hi);
    assert ns[..0] == [];
    assert ns[..|ns|] == ns;
  }

  /** Containers of a well-formed tree hold only elements. */
  lemma ContainerChildren(n: Node)
    requires IsContainer(n) && WellFormed(n)
    ensures WellFormedSeq(n.children) && n.children != []
    ensures Lines(n) == Under(HeaderOf(n), LinesSeq(n.children))
  {
    assert n.children[0] in n.children;
  }

  lemma NewContainer(k: BlockType, cs: seq<Node>, a: Option<Align>)
    requires WellFormedSeq(cs) && cs != []
    ensures IsContainer(Element(k, cs, a)) && WellFormed(Element(k, cs, a))
    ensures Lines(Element(k, cs, a)) == Under(Header(k, a), LinesSeq(cs))
  {
    assert cs[0] in cs;
  }

  // ---------------------------------------------------------------------
  // Unwrapping, line by line

  /**
   * unwrapNodes keeps every text block, its leaves and its own header, and
   * takes at most one list ancestor from each line; when every line in
   * [lo, hi] sat in at most one list, none of them sits in a list afterwards.
   */
  lemma {:induction false} UnwrapNodeLines(n: Node, base: nat, lo: nat, hi: nat)
    requires n.Element? && WellFormed(n) && lo <= hi
    ensures |UnwrapNode(n, base, lo, hi)| >= 1 && WellFormedSeq(UnwrapNode(n, base, lo, hi))
    ensures LiftedAll(Lines(n), LinesSeq(UnwrapNode(n, base, lo, hi)))
    ensures Shallow(Lines(n), base, lo, hi) ==> Cleared(LinesSeq(UnwrapNode(n, base, lo, hi)), base, lo, hi)
    decreases n, 1
  {
    if IsContainer(n) && Meets(base, Count(n), lo, hi) {
      ContainerChildren(n);
      if ListInSeq(n.children, base, lo, hi) {
        UnwrapSeqLines(n.children, base, lo, hi);
        UnwrapDescend(n, base, lo, hi);
      } else if IsList(n.kind) {
        UnwrapLift(n, base, lo, hi);
      } else {
        UnwrapKeep(n, base, lo, hi);
      }
    } else {
      LinesSingle(n);
      LiftedRefl(Lines(n));
    }
  }

  /** The step of UnwrapNodeLines where the lists to unwrap lie further down. */
  lemma UnwrapDescend(n: Node, base: nat, lo: nat, hi: nat)
    requires IsContainer(n) && WellFormed(n) && lo <= hi
    requires ListInSeq(n.children, base, lo, hi)
    requires WellFormedSeq(n.children) && n.children != []
    requires Lines(n) == Under(HeaderOf(n), LinesSeq(n.children))
    requires |UnwrapSeq(n.children, base, lo, hi)| >= |n.children|
    requires WellFormedSeq(UnwrapSeq(n.children, base, lo, hi))
    requires LiftedAll(LinesSeq(n.children), LinesSeq(UnwrapSeq(n.children, base, lo, hi)))
    requires Shallow(LinesSeq(n.children), base, lo, hi) ==> Cleared(LinesSeq(UnwrapSeq(n.children, base, lo, hi)), base, lo, hi)
    ensures WellFormedSeq([Element(n.kind, UnwrapSeq(n.children, base, lo, hi), n.align)])
    ensures LiftedAll(Lines(n), LinesSeq([Element(n.kind, UnwrapSeq(n.children, base, lo, hi), n.align)]))
    ensures Shallow(Lines(n), base, lo, hi) ==> Cleared(LinesSeq([Element(n.kind, UnwrapSeq(n.children, base, lo, hi), n.align)]), base, lo, hi)
  {
    var h := HeaderOf(n);
    var cs := n.children;
    var cs' := UnwrapSeq(cs, base, lo, hi);
    CountUnder(h, LinesSeq(cs));
    NewContainer(n.kind, cs', n.align);
    LinesSingle(Element(n.kind, cs', n.align));
    LiftedUnder(h, LinesSeq(cs), LinesSeq(cs'));
    CountUnder(h, LinesSeq(cs'));
    if Shallow(Lines(n), base, lo, hi) {
      var j := LineFromListInSeq(cs, base, lo, hi);
      assert !IsList(h.kind) by {
        assert ListCount(Anc(Lines(n)[j])) <= 1;
      }
      assert Shallow(LinesSeq(cs), base, lo, hi);
    }
  }

  /** The step of UnwrapNodeLines that lifts the covered children out of a list. */
  lemma UnwrapLift(n: Node, base: nat, lo: nat, hi: nat)
    requires IsContainer(n) && WellFormed(n) && IsList(n.kind)
    requires WellFormedSeq(n.children) && n.children != []
    requires Lines(n) == Under(HeaderOf(n), LinesSeq(n.children))
    ensures |Lift(n, base, lo, hi)| >= 1 && WellFormedSeq(Lift(n, base, lo, hi))
    ensures LiftedAll(Lines(n), LinesSeq(Lift(n, base, lo, hi)))
    ensures Shallow(Lines(n), base, lo, hi) ==> Cleared(LinesSeq(Lift(n, base, lo, hi)), base, lo, hi)
  {
    var h := HeaderOf(n);
    var cs := n.children;
    var i, j := TakeBefore(cs, base, lo), CoverTo(cs, base, lo, hi);
    LiftShape(n, base, lo, hi);
    var L1, L2, L3 := LinesSeq(cs[..i]), LinesSeq(cs[i..j]), LinesSeq(cs[j..]);
    CoverFacts(cs, base, lo, hi);
    assert cs[..0] == [] && cs[|cs|..] == [];
    LiftOutMiddle(h, L1, L2, L3, base, lo, hi);
  }

  /** The lines before and after Lift, in terms of the three stretches of children. */
  lemma LiftShape(n: Node, base: nat, lo: nat, hi: nat)
    requires n.Element? && WellFormedSeq(n.children) && n.children != []
    requires Lines(n) == Under(HeaderOf(n), LinesSeq(n.children))
    ensures var h, cs := HeaderOf(n), n.children;
      var i, j := TakeBefore(cs, base, lo), CoverTo(cs, base, lo, hi);
      var L1, L2, L3 := LinesSeq(cs[..i]), LinesSeq(cs[i..j]), LinesSeq(cs[j..]);
      |L1| == CountSeq(cs[..i]) && |L1| + |L2| == CountSeq(cs[..j]) && |L1| + |L2| + |L3| == CountSeq(cs) &&
      |Lift(n, base, lo, hi)| >= 1 && WellFormedSeq(Lift(n, base, lo, hi)) &&
      LinesSeq(Lift(n, base, lo, hi)) == Under(h, L1) + L2 + Under(h, L3) &&
      Lines(n) == Under(h, L1) + Under(h, L2) + Under(h, L3)
  {
    var h := HeaderOf(n);
    var cs := n.children;
    var r := Lift(n, base, lo, hi);
    var i, j := TakeBefore(cs, base, lo), CoverTo(cs, base, lo, hi);
    SplitThree(cs, i, j);
    SplitThreeWellFormed(cs, i, j);
    var L1, L2, L3 := LinesSeq(cs[..i]), LinesSeq(cs[i..j]), LinesSeq(cs[j..]);
    PartLines(h, cs[..i]);
    PartLines(h, cs[j..]);
    LinesSeqConcat(Part(h, cs[..i]), cs[i..j]);
    LinesSeqConcat(Part(h, cs[..i]) + cs[i..j], Part(h, cs[j..]));
    UnderConcat(h, L1, L2);
    UnderConcat(h, L1 + L2, L3);
  }

  /** Lifting the middle stretch of lines out of the list `h` around all of them. */
  lemma LiftOutMiddle(h: Header, L1: seq<Line>, L2: seq<Line>, L3: seq<Line>, base: nat, lo: nat, hi: nat)
    requires Chained(L1) && Chained(L2) && Chained(L3) && IsList(h.kind)
    requires L1 == [] || base + |L1| <= lo
    requires L3 == [] || base + |L1| + |L2| > hi
    ensures Chained(Under(h, L1) + Under(h, L2) + Under(h, L3)) && Chained(Under(h, L1) + L2 + Under(h, L3))
    ensures LiftedAll(Under(h, L1) + Under(h, L2) + Under(h, L3), Under(h, L1) + L2 + Under(h, L3))
    ensures Shallow(Under(h, L1) + Under(h, L2) + Under(h, L3), base, lo, hi) ==>
      Cleared(Under(h, L1) + L2 + Under(h, L3), base, lo, hi)
  {
    CountUnder(h, L1);
    CountUnder(h, L2);
    CountUnder(h, L3);
    LiftedRefl(Under(h, L1));
    LiftedOut(h, L2);
    LiftedRefl(Under(h, L3));
    LiftedConcat(Under(h, L1), Under(h, L1), Under(h, L2), L2);
    LiftedConcat(Under(h, L1) + Under(h, L2), Under(h, L1) + L2, Under(h, L3), Under(h, L3));
    LiftOutCounts(h, L1, L2, L3, base, lo, hi);
  }

  lemma LiftOutCounts(h: Header, L1: seq<Line>, L2: seq<Line>, L3: seq<Line>, base: nat, lo: nat, hi: nat)
    requires Chained(L2) && IsList(h.kind)
    requires L1 == [] || base + |L1| <= lo
    requires L3 == [] || base + |L1| + |L2| > hi
    requires Chained(Under(h, L1) + Under(h, L2) + Under(h, L3)) && Chained(Under(h, L1) + L2 + Under(h, L3))
    ensures Shallow(Under(h, L1) + Under(h, L2) + Under(h, L3), base, lo, hi) ==>
      Cleared(Under(h, L1) + L2 + Under(h, L3), base, lo, hi)
  {
    var o, r := Under(h, L1) + Under(h, L2) + Under(h, L3), Under(h, L1) + L2 + Under(h, L3);
    forall k | 0 <= k < |r| && lo <= base + k <= hi
      ensures ListCount(Anc(r[k])) + 1 == ListCount(Anc(o[k]))
    {
      var q := k - |L1|;
      assert r[k] == L2[q];
      assert o[k] == Under(h, L2)[q];
      AncUnder(h, L2[q]);
      ConsTail(h, Anc(L2[q]));
    }
  }

  /** The step of UnwrapNodeLines for a container with no list to unwrap. */
  lemma UnwrapKeep(n: Node, base: nat, lo: nat, hi: nat)
    requires IsContainer(n) && !IsList(n.kind) && !ListInSeq(n.children, base, lo, hi)
    requires Lines(n) == Under(HeaderOf(n), LinesSeq(n.children))
    ensures LiftedAll(Lines(n), LinesSeq([n]))
    ensures Cleared(LinesSeq([n]), base, lo, hi)
  {
    var cs := n.children;
    LinesSingle(n);
    LiftedRefl(Lines(n));
    CountUnder(HeaderOf(n), LinesSeq(cs));
    forall k | 0 <= k < |Lines(n)| && lo <= base + k <= hi
      ensures ListCount(Anc(LinesSeq(cs)[k])) == 0
    {
      if ListCount(Anc(LinesSeq(cs)[k])) > 0 {
        ListInSeqFromLine(cs, base, lo, hi, k);
        assert false;
      }
    }
  }

  lemma {:induction false} UnwrapSeqLines(ns: seq<Node>, base: nat, lo: nat, hi: nat)
    requires WellFormedSeq(ns) && lo <= hi
    ensures |UnwrapSeq(ns, base, lo, hi)| >= |ns| && WellFormedSeq(UnwrapSeq(ns, base, lo, hi))
    ensures LiftedAll(LinesSeq(ns), LinesSeq(UnwrapSeq(ns, base, lo, hi)))
    ensures Shallow(LinesSeq(ns), base, lo, hi) ==> Cleared(LinesSeq(UnwrapSeq(ns, base, lo, hi)), base, lo, hi)
    decreases ns, 0
  {
    if ns != [] {
      var r1 := UnwrapNode(ns[0], base, lo, hi);
      var r2 := UnwrapSeq(ns[1..], base + Count(ns[0]), lo, hi);
      assert ns[0] in ns;
      UnwrapNodeLines(ns[0], base, lo, hi);
      UnwrapSeqLines(ns[1..], base + Count(ns[0]), lo, hi);
      LinesSeqConcat(r1, r2);
      LiftedConcat(Lines(ns[0]), LinesSeq(r1), LinesSeq(ns[1..]), LinesSeq(r2));
      if Shallow(LinesSeq(ns), base, lo, hi) {
        ShallowSplit(Lines(ns[0]), LinesSeq(ns[1..]), base, lo, hi);
        ClearedConcat(LinesSeq(r1), LinesSeq(r2), base, lo, hi);
      }
    }
  }

  // ---------------------------------------------------------------------
  // Wrapping, line by line

  /** `n` is `o` with one more copy of `h` among its ancestors, all else in place. */
  predicate Grew(o: Line, n: Line, h: Header) {
    o.chain != [] && n.chain != [] &&
    n.leaves == o.leaves && Own(n) == Own(o) &&
    Strip(Anc(n), h) == Strip(Anc(o), h) && Occ(Anc(n), h) == Occ(Anc(o), h) + 1
  }

  /** Every line is unchanged or grew a wrapper `h`; the lines in [lo, hi] all grew one. */
  predicate WrappedAll(a: seq<Line>, b: seq<Line>, base: nat, lo: nat, hi: nat, h: Header) {
    |a| == |b| &&
    forall j :: 0 <= j < |a| ==>
      (b[j] == a[j] || Grew(a[j], b[j], h)) && (lo <= base + j <= hi ==> Grew(a[j], b[j], h))
  }

  /** Stripping a list header removes exactly its copies from the list count. */
  lemma {:induction false} ListCountStrip(c: seq<Header>, h: Header)
    ensures ListCount(c) == ListCount(Strip(c, h)) + (if IsList(h.kind) then Occ(c, h) else 0)
  {
    if c != [] {
      ListCountStrip(c[1..], h);
      var x := if c[0] == h then [] else [c[0]];
      assert Strip(c, h) == x + Strip(c[1..], h);
      ListCountConcat(x, Strip(c[1..], h));
    }
  }

  lemma {:induction false} ListCountConcat(a: seq<Header>, b: seq<Header>)
    ensures ListCount(a + b) == ListCount(a) + ListCount(b)
  {
    if a != [] {
      assert (a + b)[1..] == a[1..] + b;
      ListCountConcat(a[1..], b);
    } else {
      assert a + b == b;
    }
  }

  /** A chain with no list count has no list header, and conversely. */
  lemma {:induction false} ListCountZero(c: seq<Header>)
    ensures ListCount(c) == 0 <==> forall k :: 0 <= k < |c| ==> !IsList(c[k].kind)
  {
    if c != [] {
      ListCountZero(c[1..]);
      assert forall k :: 1 <= k < |c| ==> c[k] == c[1..][k - 1];
    }
  }

  /** Growing a list wrapper adds exactly one to a line's list count. */
  lemma GrewListCount(o: Line, n: Line, h: Header)
    requires Grew(o, n, h)
    ensures ListCount(Anc(n)) == ListCount(Anc(o)) + (if IsList(h.kind) then 1 else 0)
  {
    ListCountStrip(Anc(n), h);
    ListCountStrip(Anc(o), h);
  }

  /** Unwrapping and wrapping keep every block's leaves, hence its string. */
  lemma LiftedStrings(a: seq<Line>, b: seq<Line>)
    requires LiftedAll(a, b)
    ensures SameStrings(a, b)
  {
  }

  lemma WrappedStrings(a: seq<Line>, b: seq<Line>, base: nat, lo: nat, hi: nat, h: Header)
    requires WrappedAll(a, b, base, lo, hi, h)
    ensures SameStrings(a, b)
  {
  }

  lemma GrewUnderOne(g: Header, o: Line, n: Line, h: Header)
    requires Grew(o, n, h)
    ensures Grew(Line([g] + o.chain, o.leaves), Line([g] + n.chain, n.leaves), h)
  {
    AncUnder(g, o);
    AncUnder(g, n);
    ConsTail(g, Anc(o));
    ConsTail(g, Anc(n));
  }

  lemma WrappedUnder(g: Header, a: seq<Line>, b: seq<Line>, base: nat, lo: nat, hi: nat, h: Header)
    requires WrappedAll(a, b, base, lo, hi, h)
    ensures WrappedAll(Under(g, a), Under(g, b), base, lo, hi, h)
  {
    forall j | 0 <= j < |a| && Grew(a[j], b[j], h)
      ensures Grew(Under(g, a)[j], Under(g, b)[j], h)
    {
      GrewUnderOne(g, a[j], b[j], h);
    }
  }

  /** Putting lines under a new wrapper `h` makes each of them grow it. */
  lemma WrappedIn(h: Header, a: seq<Line>, base: nat, lo: nat, hi: nat)
    requires Chained(a)
    ensures WrappedAll(a, Under(h, a), base, lo, hi, h)
  {
    forall j | 0 <= j < |a| ensures Grew(a[j], Under(h, a)[j], h) {
      AncUnder(h, a[j]);
      ConsTail(h, Anc(a[j]));
    }
  }

  /** Lines before lo and after hi may be carried along unchanged. */
  lemma WrappedSplice(l1: seq<Line>, m: seq<Line>, m': seq<Line>, l3: seq<Line>, base: nat, lo: nat, hi: nat, h: Header)
    requires l1 == [] || base + |l1| <= lo
    requires l3 == [] || base + |l1| + |m| > hi
    requires WrappedAll(m, m', base + |l1|, lo, hi, h)
    ensures WrappedAll(l1 + m + l3, l1 + m' + l3, base, lo, hi, h)
  {
    var a, b := l1 + m + l3, l1 + m' + l3;
    forall j | 0 <= j < |a|
      ensures (b[j] == a[j] || Grew(a[j], b[j], h)) && (lo <= base + j <= hi ==> Grew(a[j], b[j], h))
    {
      if j < |l1| {
        assert a[j] == l1[j] && b[j] == l1[j];
      } else if j < |l1| + |m| {
        assert a[j] == m[j - |l1|] && b[j] == m'[j - |l1|];
      } else {
        assert a[j] == l3[j - |l1| - |m|] && b[j] == l3[j - |l1| - |m|];
      }
    }
  }

  /** Where the covered stretch starts and ends, relative to lo and hi. */
  lemma CoverFacts(ns: seq<Node>, base: nat, lo: nat, hi: nat)
    ensures var i, j := TakeBefore(ns, base, lo), CoverTo(ns, base, lo, hi);
      (i == 0 || base + CountSeq(ns[..i]) <= lo) &&
      (i < |ns| ==> base + CountSeq(ns[..i]) + Count(ns[i]) > lo) &&
      (j == |ns| || base + CountSeq(ns[..j]) > hi) &&
      (i < |ns| && base + CountSeq(ns[..i]) <= hi ==> i < j) &&
      (j >= i + 2 ==> base + CountSeq(ns[..i]) + Count(ns[i]) <= hi)
  {
    TakeBeforeFacts(ns, base, lo);
    var i := TakeBefore(ns, base, lo);
    var j := CoverTo(ns, base, lo, hi);
    assert j == i + TakeUpTo(ns[i..], base + CountSeq(ns[..i]), hi);
    CoverToFacts(ns, base, hi, i);
  }

  lemma CoverToFacts(ns: seq<Node>, base: nat, hi: nat, i: nat)
    requires i <= |ns|
    ensures var j := i + TakeUpTo(ns[i..], base + CountSeq(ns[..i]), hi);
      (j == |ns| || base + CountSeq(ns[..j]) > hi) &&
      (i < |ns| && base + CountSeq(ns[..i]) <= hi ==> i < j) &&
      (j >= i + 2 ==> base + CountSeq(ns[..i]) + Count(ns[i]) <= hi)
  {
    var a := CountSeq(ns[..i]);
    var ms := ns[i..];
    var t := TakeUpTo(ms, base + a, hi);
    TakeUpToFacts(ms, base + a, hi);
    if t < |ms| {
      PrefixCount(ns, i, t);
    }
    if t >= 2 {
      assert ms[0] == ns[i];
    }
  }

  lemma PrefixCount(ns: seq<Node>, i: nat, t: nat)
    requires i + t <= |ns|
    ensures CountSeq(ns[..i + t]) == CountSeq(ns[..i]) + CountSeq(ns[i..][..t])
  {
    assert ns[..i + t] == ns[..i] + ns[i..][..t];
    CountSeqConcat(ns[..i], ns[i..][..t]);
  }

  /** Where wrapNodes works: a non-empty stretch of children, at or before lo up to hi. */
  lemma CoverNonEmpty(ns: seq<Node>, base: nat, lo: nat, hi: nat)
    requires base <= lo <= hi < base + CountSeq(ns)
    ensures TakeBefore(ns, base, lo) < CoverTo(ns, base, lo, hi)
    ensures base + CountSeq(ns[..TakeBefore(ns, base, lo)]) <= lo
    ensures CoverTo(ns, base, lo, hi) == |ns| || base + CountSeq(ns[..CoverTo(ns, base, lo, hi)]) > hi
    ensures lo == hi ==> CoverTo(ns, base, lo, hi) == TakeBefore(ns, base, lo) + 1
  {
    CoverFacts(ns, base, lo, hi);
    var i := TakeBefore(ns, base, lo);
    assert ns[..0] == [];
    assert ns[..|ns|] == ns;
  }

  lemma SpliceUpdate<T>(l1: seq<T>, m: seq<T>, m': seq<T>, l3: seq<T>, k: nat, y: T)
    requires k < |m| && m' == m[k := y]
    ensures l1 + m' + l3 == (l1 + m + l3)[|l1| + k := y]
  {
  }

  /** What wrapNodes promises of the new children `r` of a sequence `ns`. */
  predicate WrapOk(ns: seq<Node>, r: seq<Node>, base: nat, lo: nat, hi: nat, h: Header) {
    r != [] && WellFormedSeq(r) && WrappedAll(LinesSeq(ns), LinesSeq(r), base, lo, hi, h)
  }

  /** The lines of `r` are those of `ns` with line k nested one level deeper under `h`. */
  predicate NestedAt(ns: seq<Node>, r: seq<Node>, k: nat, h: Header) {
    k < |LinesSeq(ns)| && LinesSeq(r) == LinesSeq(ns)[k := Nest(LinesSeq(ns)[k], h)]
  }

  /** The step of WrapSeqLines that wraps children i..j of this sequence. */
  lemma WrapHere(ns: seq<Node>, base: nat, lo: nat, hi: nat, h: Header, i: nat, j: nat)
    requires WellFormedSeq(ns) && i < j <= |ns|
    requires base + CountSeq(ns[..i]) <= lo
    requires j == |ns| || base + CountSeq(ns[..j]) > hi
    ensures WrapOk(ns, ns[..i] + [Element(h.kind, ns[i..j], h.align)] + ns[j..], base, lo, hi, h)
  {
    var w := Element(h.kind, ns[i..j], h.align);
    var A, M, C := LinesSeq(ns[..i]), LinesSeq(ns[i..j]), LinesSeq(ns[j..]);
    SplitThree(ns, i, j);
    assert WellFormedSeq(ns[..i] + [w] + ns[j..]) && LinesSeq([w]) == Under(h, M) by {
      SplitThreeWellFormed(ns, i, j);
      NewContainer(h.kind, ns[i..j], h.align);
      LinesSingle(w);
      WrapSplitWellFormed(ns, i, j, [w]);
    }
    WrapSplit(ns, i, j, [w]);
    WrappedIn(h, M, base + |A|, lo, hi);
    assert C == [] || base + |A| + |M| > hi by {
      if j == |ns| {
        assert ns[j..] == [];
      }
    }
    WrappedSplice(A, M, Under(h, M), C, base, lo, hi, h);
  }

  /** The step of WrapSeqLines that goes down into the one child holding lo..hi. */
  lemma WrapDescend(ns: seq<Node>, base: nat, lo: nat, hi: nat, h: Header, i: nat, cs': seq<Node>)
    requires WellFormedSeq(ns) && i < |ns| && IsContainer(ns[i])
    requires base + CountSeq(ns[..i]) <= lo
    requires i + 1 == |ns| || base + CountSeq(ns[..i + 1]) > hi
    requires WrapOk(ns[i].children, cs', base + CountSeq(ns[..i]), lo, hi, h)
    ensures WrapOk(ns, ns[..i] + [Element(ns[i].kind, cs', ns[i].align)] + ns[i + 1..], base, lo, hi, h)
  {
    var c := ns[i];
    var c' := Element(c.kind, cs', c.align);
    var r := ns[..i] + [c'] + ns[i + 1..];
    var A, C := LinesSeq(ns[..i]), LinesSeq(ns[i + 1..]);
    assert LinesSeq(ns) == A + Lines(c) + C by {
      assert ns[i..i + 1] == [c];
      LinesSingle(c);
      SplitThree(ns, i, i + 1);
    }
    assert Lines(c) == Under(HeaderOf(c), LinesSeq(c.children)) && Lines(c') == Under(HeaderOf(c), LinesSeq(cs')) &&
      WellFormedSeq(r) by {
      assert c in ns;
      ContainerChildren(c);
      NewContainer(c.kind, cs', c.align);
      WrapSplitWellFormed(ns, i, i + 1, [c']);
    }
    assert LinesSeq(r) == A + Lines(c') + C by {
      LinesSingle(c');
      WrapSplit(ns, i, i + 1, [c']);
    }
    WrappedUnder(HeaderOf(c), LinesSeq(c.children), LinesSeq(cs'), base + |A|, lo, hi, h);
    assert C == [] || base + |A| + |Lines(c)| > hi by {
      CountSeqStep(ns, i);
      if i + 1 == |ns| {
        assert ns[i + 1..] == [];
      }
    }
    WrappedSplice(A, Lines(c), Lines(c'), C, base, lo, hi, h);
  }

  lemma WrapSeqDown(ns: seq<Node>, base: nat, lo: nat, hi: nat, h: Header, i: nat, cs': seq<Node>)
    requires TakeBefore(ns, base, lo) == i && CoverTo(ns, base, lo, hi) == i + 1 && IsContainer(ns[i])
    requires cs' == WrapSeq(ns[i].children, base + CountSeq(ns[..i]), lo, hi, h)
    ensures WrapSeq(ns, base, lo, hi, h) == ns[..i] + [Element(ns[i].kind, cs', ns[i].align)] + ns[i + 1..]
  {
  }

  lemma WrapSeqHere(ns: seq<Node>, base: nat, lo: nat, hi: nat, h: Header, i: nat, j: nat)
    requires TakeBefore(ns, base, lo) == i && CoverTo(ns, base, lo, hi) == j && i < j
    requires !(j == i + 1 && IsContainer(ns[i]))
    ensures WrapSeq(ns, base, lo, hi, h) == ns[..i] + [Element(h.kind, ns[i..j], h.align)] + ns[j..]
  {
  }

  /**
   * wrapNodes keeps every text block, its leaves and its own header; each
   * line in [lo, hi] gains the wrapper among its ancestors, and every other
   * line either gains it too (it shares a wrapped child) or stays as it was.
   */
  lemma {:induction false} WrapSeqLines(ns: seq<Node>, base: nat, lo: nat, hi: nat, h: Header)
    requires WellFormedSeq(ns) && base <= lo <= hi < base + CountSeq(ns)
    ensures WrapOk(ns, WrapSeq(ns, base, lo, hi, h), base, lo, hi, h)
    decreases ns, 1
  {
    CoverNonEmpty(ns, base, lo, hi);
    var i, j := TakeBefore(ns, base, lo), CoverTo(ns, base, lo, hi);
    if j == i + 1 && IsContainer(ns[i]) {
      CoverFacts(ns, base, lo, hi);
      CountSeqStep(ns, i);
      assert ns[..|ns|] == ns;
      WrapSeqDownLines(ns, base, lo, hi, h, i);
    } else {
      WrapHere(ns, base, lo, hi, h, i, j);
      WrapSeqHere(ns, base, lo, hi, h, i, j);
    }
  }

  lemma {:induction false} WrapSeqDownLines(ns: seq<Node>, base: nat, lo: nat, hi: nat, h: Header, i: nat)
    requires WellFormedSeq(ns) && i < |ns| && IsContainer(ns[i])
    requires TakeBefore(ns, base, lo) == i && CoverTo(ns, base, lo, hi) == i + 1
    requires lo <= hi && base + CountSeq(ns[..i]) <= lo
    requires i + 1 == |ns| || base + CountSeq(ns[..i + 1]) > hi
    requires hi < base + CountSeq(ns[..i]) + Count(ns[i])
    ensures WrapOk(ns, WrapSeq(ns, base, lo, hi, h), base, lo, hi, h)
    decreases ns, 0
  {
    assert ns[i] in ns;
    var cs' := WrapSeqChild(ns[i], base + CountSeq(ns[..i]), lo, hi, h);
    WrapDescend(ns, base, lo, hi, h, i, cs');
    WrapSeqDown(ns, base, lo, hi, h, i, cs');
  }

  /** Wrapping [lo, hi] among the children of the container `c`. */
  lemma {:induction false} WrapSeqChild(c: Node, base: nat, lo: nat, hi: nat, h: Header) returns (cs': seq<Node>)
    requires IsContainer(c) && WellFormed(c) && base <= lo <= hi < base + Count(c)
    ensures cs' == WrapSeq(c.children, base, lo, hi, h)
    ensures WrapOk(c.children, cs', base, lo, hi, h)
    decreases c
  {
    ContainerChildren(c);
    WrapSeqLines(c.children, base, lo, hi, h);
    cs' := WrapSeq(c.children, base, lo, hi, h);
  }

  lemma CountSeqStep(ns: seq<Node>, i: nat)
    requires i < |ns|
    ensures CountSeq(ns[..i + 1]) == CountSeq(ns[..i]) + Count(ns[i])
  {
    assert ns[..i + 1] == ns[..i] + [ns[i]];
    CountSeqConcat(ns[..i], [ns[i]]);
    assert CountSeq([ns[i]]) == Count(ns[i]) + CountSeq([ns[i]][1..]);
    assert [ns[i]][1..] == [];
  }

  /** Replacing children i..j of a sequence by `mid`. */
  lemma WrapSplit(ns: seq<Node>, i: nat, j: nat, mid: seq<Node>)
    requires i <= j <= |ns|
    ensures LinesSeq(ns[..i] + mid + ns[j..]) == LinesSeq(ns[..i]) + LinesSeq(mid) + LinesSeq(ns[j..])
  {
    LinesSeqConcat(ns[..i] + mid, ns[j..]);
    LinesSeqConcat(ns[..i], mid);
  }

  lemma WrapSplitWellFormed(ns: seq<Node>, i: nat, j: nat, mid: seq<Node>)
    requires i <= j <= |ns| && WellFormedSeq(ns) && WellFormedSeq(mid)
    ensures WellFormedSeq(ns[..i] + mid + ns[j..])
  {
    SplitThreeWellFormed(ns, i, j);
  }

  /** A line with `h` inserted just above its own header. */
  function Nest(l: Line, h: Header): (r: Line)
    requires l.chain != []
    ensures r.chain != [] && Anc(r) == Anc(l) + [h] && Own(r) == Own(l) && r.leaves == l.leaves
  {
    Line(Anc(l) + [h, Own(l)], l.leaves)
  }

  lemma NestUnder(g: Header, ls: seq<Line>, k: nat, h: Header)
    requires Chained(ls) && k < |ls|
    ensures Under(g, ls[k := Nest(ls[k], h)]) == Under(g, ls)[k := Nest(Under(g, ls)[k], h)]
  {
    var l := ls[k];
    AncUnder(g, l);
    assert [g] + (Anc(l) + [h, Own(l)]) == ([g] + Anc(l)) + [h, Own(l)];
  }

  /**
   * wrapNodes over a single text block b: its direct parent becomes the
   * new wrapper and no other line changes.
   */
  lemma {:induction false} WrapOneLines(ns: seq<Node>, base: nat, b: nat, h: Header)
    requires WellFormedSeq(ns) && base <= b < base + CountSeq(ns)
    ensures NestedAt(ns, WrapSeq(ns, base, b, b, h), b - base, h)
    decreases ns, 1
  {
    var i := TakeBefore(ns, base, b);
    assert i < |ns| && CoverTo(ns, base, b, b) == i + 1 &&
      base + CountSeq(ns[..i]) <= b < base + CountSeq(ns[..i]) + Count(ns[i]) by {
      CoverNonEmpty(ns, base, b, b);
      CoverFacts(ns, base, b, b);
    }
    assert ns[i] in ns;
    if IsContainer(ns[i]) {
      assert WellFormed(ns[i]);
      WrapOneDownLines(ns, base, b, h, i);
    } else {
      WrapOneTextLines(ns, base, b, h, i);
    }
  }

  lemma WrapOneTextLines(ns: seq<Node>, base: nat, b: nat, h: Header, i: nat)
    requires i < |ns| && IsTextBlock(ns[i])
    requires TakeBefore(ns, base, b) == i && CoverTo(ns, base, b, b) == i + 1
    requires base + CountSeq(ns[..i]) <= b < base + CountSeq(ns[..i]) + Count(ns[i])
    ensures NestedAt(ns, WrapSeq(ns, base, b, b, h), b - base, h)
  {
    WrapOneHere(ns, i, h, b - base);
    WrapSeqHere(ns, base, b, b, h, i, i + 1);
  }

  lemma {:induction false} WrapOneDownLines(ns: seq<Node>, base: nat, b: nat, h: Header, i: nat)
    requires i < |ns| && IsContainer(ns[i]) && WellFormed(ns[i])
    requires TakeBefore(ns, base, b) == i && CoverTo(ns, base, b, b) == i + 1
    requires base + CountSeq(ns[..i]) <= b < base + CountSeq(ns[..i]) + Count(ns[i])
    ensures NestedAt(ns, WrapSeq(ns, base, b, b, h), b - base, h)
    decreases ns, 0
  {
    var cs' := WrapOneChild(ns[i], base + CountSeq(ns[..i]), b, h);
    WrapOneUp(ns, base, b, h, i, cs');
  }

  /** The step of WrapOneLines that puts the rewrapped children of child i back. */
  lemma WrapOneUp(ns: seq<Node>, base: nat, b: nat, h: Header, i: nat, cs': seq<Node>)
    requires i < |ns| && IsContainer(ns[i]) && WellFormed(ns[i])
    requires TakeBefore(ns, base, b) == i && CoverTo(ns, base, b, b) == i + 1
    requires base + CountSeq(ns[..i]) <= b
    requires cs' == WrapSeq(ns[i].children, base + CountSeq(ns[..i]), b, b, h)
    requires cs' != [] && WellFormedSeq(cs') && NestedAt(ns[i].children, cs', b - (base + CountSeq(ns[..i])), h)
    ensures NestedAt(ns, WrapSeq(ns, base, b, b, h), b - base, h)
  {
    var m := base + CountSeq(ns[..i]);
    assert b - base == CountSeq(ns[..i]) + (b - m);
    WrapOneDown(ns, i, cs', b - m, h, b - base, ns[..i] + [Element(ns[i].kind, cs', ns[i].align)] + ns[i + 1..]);
    WrapSeqDown(ns, base, b, b, h, i, cs');
  }

  /** Wrapping text block b among the children of the container `c`. */
  lemma {:induction false} WrapOneChild(c: Node, base: nat, b: nat, h: Header) returns (cs': seq<Node>)
    requires IsContainer(c) && WellFormed(c) && base <= b < base + Count(c)
    ensures cs' == WrapSeq(c.children, base, b, b, h)
    ensures cs' != [] && WellFormedSeq(cs') && NestedAt(c.children, cs', b - base, h)
    decreases c
  {
    ContainerChildren(c);
    WrapSeqLines(c.children, base, b, b, h);
    WrapOneLines(c.children, base, b, h);
    cs' := WrapSeq(c.children, base, b, b, h);
  }

  lemma WrapOneDown(ns: seq<Node>, i: nat, cs': seq<Node>, k: nat, h: Header, m: nat, r: seq<Node>)
    requires i < |ns| && IsContainer(ns[i]) && WellFormed(ns[i])
    requires cs' != [] && WellFormedSeq(cs')
    requires NestedAt(ns[i].children, cs', k, h) && m == CountSeq(ns[..i]) + k
    requires r == ns[..i] + [Element(ns[i].kind, cs', ns[i].align)] + ns[i + 1..]
    ensures NestedAt(ns, r, m, h)
  {
    var c := ns[i];
    var c' := Element(c.kind, cs', c.align);
    assert k < |Lines(c)| && Lines(c') == Lines(c)[k := Nest(Lines(c)[k], h)] by {
      ContainerChildren(c);
      NewContainer(c.kind, cs', c.align);
      NestUnder(HeaderOf(c), LinesSeq(c.children), k, h);
    }
    SpliceNode(ns, i, c', k, h, m);
  }

  lemma WrapOneHere(ns: seq<Node>, i: nat, h: Header, m: nat)
    requires i < |ns| && IsTextBlock(ns[i]) && m == CountSeq(ns[..i])
    ensures NestedAt(ns, ns[..i] + [Element(h.kind, ns[i..i + 1], h.align)] + ns[i + 1..], m, h)
  {
    var c := ns[i];
    assert ns[i..i + 1] == [c];
    var w := Element(h.kind, [c], h.align);
    assert c in w.children && !IsTextBlock(w);
    var x := Line([HeaderOf(c)], LeavesOf(c.children));
    assert Lines(c) == [x];
    assert Lines(w) == Lines(c)[0 := Nest(x, h)] by {
      LinesSingle(c);
      assert Lines(w) == Under(h, [x]);
      assert Anc(x) == [] && Own(x) == HeaderOf(c);
      assert Nest(x, h).chain == [h] + x.chain;
    }
    SpliceNode(ns, i, w, 0, h, m);
  }

  /** Replacing child i by a node whose lines are those of child i with line k nested under `h`. */
  lemma SpliceNode(ns: seq<Node>, i: nat, e: Node, k: nat, h: Header, m: nat)
    requires i < |ns| && k < |Lines(ns[i])| && m == CountSeq(ns[..i]) + k
    requires Lines(e) == Lines(ns[i])[k := Nest(Lines(ns[i])[k], h)]
    ensures NestedAt(ns, ns[..i] + [e] + ns[i + 1..], m, h)
  {
    var A, C := LinesSeq(ns[..i]), LinesSeq(ns[i + 1..]);
    assert LinesSeq(ns) == A + Lines(ns[i]) + C by {
      assert ns[i..i + 1] == [ns[i]];
      LinesSingle(ns[i]);
      SplitThree(ns, i, i + 1);
    }
    assert LinesSeq(ns[..i] + [e] + ns[i + 1..]) == A + Lines(e) + C by {
      LinesSingle(e);
      WrapSplit(ns, i, i + 1, [e]);
    }
    SpliceUpdate(A, Lines(ns[i]), Lines(e), C, k, Nest(Lines(ns[i])[k], h));
  }

  /**
   * wrapNodes over blocks lo..hi of a whole document: the result is well
   * formed, every line in the range grows by `h`, the strings stay, and a
   * single block gets `h` as its new direct parent.
   */
  lemma WrapDoc(ns: seq<Node>, lo: nat, hi: nat, h: Header) returns (r: seq<Node>)
    requires WellFormedSeq(ns) && lo <= hi < CountSeq(ns)
    ensures r == WrapSeq(ns, 0, lo, hi, h) && WellFormedSeq(r)
    ensures WrappedAll(LinesSeq(ns), LinesSeq(r), 0, lo, hi, h)
    ensures SameStrings(LinesSeq(ns), LinesSeq(r))
    ensures lo == hi ==> NestedAt(ns, r, lo, h)
  {
    r := WrapSeq(ns, 0, lo, hi, h);
    WrapSeqLines(ns, 0, lo, hi, h);
    if lo == hi {
      WrapOneLines(ns, 0, lo, h);
    }
    WrappedStrings(LinesSeq(ns), LinesSeq(r), 0, lo, hi, h);
  }
}
