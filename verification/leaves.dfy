/**
 * The text leaves of one block, seen character by character. Setting a
 * property with splitting restyles exactly the selected characters; deleting
 * a prefix removes characters and keeps the rest with their marks.
 */
module Leaves {
  import opened Types

  /** One character together with the marks of the leaf that holds it. */
  datatype Styled = Styled(ch: char, marks: Marks)

  /** A property write that Transforms.setNodes performs on text nodes. */
  datatype LeafUpdate =
    | MarkTo(format: Format, value: Option<bool>)
    | FontFamilyTo(family: string)
    | ColorTo(color: string)

  /** The marks after an update: the written property changes, no other. */
  function Apply(u: LeafUpdate, m: Marks): (r: Marks)
    ensures u.MarkTo? ==> r == SetMark(m, u.format, u.value)
    ensures u.FontFamilyTo? ==> r.fontFamily == Some(u.family) && r == m.(fontFamily := r.fontFamily)
    ensures u.ColorTo? ==> r.color == Some(u.color) && r == m.(color := r.color)
  {
    match u
    case MarkTo(f, v) => SetMark(m, f, v)
    case FontFamilyTo(s) => m.(fontFamily := Some(s))
    case ColorTo(c) => m.(color := Some(c))
  }

  /** The string of a block: its leaves' texts in order. */
  function TextOf(ls: seq<Text>): string {
    if ls == [] then "" else ls[0].text + TextOf(ls[1..])
  }

  function Spread(l: Text): seq<Styled> {
    seq(|l.text|, i requires 0 <= i < |l.text| => Styled(l.text[i], l.marks))
  }

  /** The characters of a block, each with the marks of its leaf. */
  function Chars(ls: seq<Text>): seq<Styled> {
    if ls == [] then [] else Spread(ls[0]) + Chars(ls[1..])
  }

  /** Applies `u` to the characters whose index lies in [lo, hi). */
  function Restyle(cs: seq<Styled>, lo: int, hi: int, u: LeafUpdate): seq<Styled> {
    seq(|cs|, i requires 0 <= i < |cs| =>
      if lo <= i < hi then Styled(cs[i].ch, Apply(u, cs[i].marks)) else cs[i])
  }

  function Clamp(x: int, n: nat): (r: nat)
    ensures r <= n
  {
    if x < 0 then 0 else if x > n then n else x
  }

  /** A leaf holding `s`, or nothing when `s` is empty. */
  function Piece(s: string, m: Marks): seq<Text> {
    if s == [] then [] else [Text(s, m)]
  }

  /**
   * Splits one leaf at the edges of [lo, hi) (relative to the leaf's first
   * character) and updates the middle piece. An empty leaf that the range
   * touches is updated as a whole; no empty piece is created.
   */
  function SplitLeaf(l: Text, lo: int, hi: int, u: LeafUpdate): seq<Text> {
    var n := |l.text|;
    var a := Clamp(lo, n);
    var b := Clamp(hi, n);
    if a < b then
      Piece(l.text[..a], l.marks) + [Text(l.text[a..b], Apply(u, l.marks))] + Piece(l.text[b..], l.marks)
    else if n == 0 && lo <= 0 <= hi then [Text("", Apply(u, l.marks))]
    else [l]
  }

  /** Splits and updates every leaf of a block for the character range [lo, hi). */
  function UpdateSlice(ls: seq<Text>, lo: int, hi: int, u: LeafUpdate): seq<Text> {
    if ls == [] then []
    else SplitLeaf(ls[0], lo, hi, u) + UpdateSlice(ls[1..], lo - |ls[0].text|, hi - |ls[0].text|, u)
  }

  /**
   * Removes the first `n` characters of a block. Leaves that become empty
   * disappear, except that a block keeps at least one (possibly empty) leaf.
   */
  function DropChars(ls: seq<Text>, n: nat): seq<Text> {
    if ls == [] then []
    else if |ls| > 1 && |ls[0].text| <= n then DropChars(ls[1..], n - |ls[0].text|)
    else
      var k := if n <= |ls[0].text| then n else |ls[0].text|;
      [Text(ls[0].text[k..], ls[0].marks)] + ls[1..]
  }

  /** The marks of the leaf at a caret: the character before it, or the first leaf. */
  function MarksBefore(ls: seq<Text>, o: nat): Marks {
    var cs := Chars(ls);
    if 0 < o <= |cs| then cs[o - 1].marks
    else if ls != [] then ls[0].marks
    else NoMarks
  }

  /** The marks of the first leaf an expanded range starting at `o` touches. */
  function MarksAt(ls: seq<Text>, o: nat): Marks {
    var cs := Chars(ls);
    if o < |cs| then cs[o].marks
    else if ls != [] then ls[|ls| - 1].marks
    else NoMarks
  }

  // ---------------------------------------------------------------------
  // Lemmas

  /** The characters of a block spell its string. */
  lemma {:induction false} CharsText(ls: seq<Text>)
    ensures |Chars(ls)| == |TextOf(ls)|
    ensures forall i :: 0 <= i < |Chars(ls)| ==> Chars(ls)[i].ch == TextOf(ls)[i]
  {
    if ls != [] {
      CharsText(ls[1..]);
      var n := |ls[0].text|;
      forall i | 0 <= i < |Chars(ls)| ensures Chars(ls)[i].ch == TextOf(ls)[i] {
        if i < n {
          assert Chars(ls)[i] == Spread(ls[0])[i];
        } else {
          assert Chars(ls)[i] == Chars(ls[1..])[i - n];
          assert TextOf(ls)[i] == TextOf(ls[1..])[i - n];
        }
      }
    }
  }

  lemma {:induction false} CharsConcat(a: seq<Text>, b: seq<Text>)
    ensures Chars(a + b) == Chars(a) + Chars(b)
    ensures TextOf(a + b) == TextOf(a) + TextOf(b)
  {
    if a == [] {
      assert a + b == b;
    } else {
      assert (a + b)[1..] == a[1..] + b;
      CharsConcat(a[1..], b);
    }
  }

  lemma RestyleConcat(a: seq<Styled>, b: seq<Styled>, lo: int, hi: int, u: LeafUpdate)
    ensures Restyle(a + b, lo, hi, u) == Restyle(a, lo, hi, u) + Restyle(b, lo - |a|, hi - |a|, u)
  {
  }

  lemma PieceChars(s: string, m: Marks)
    ensures Chars(Piece(s, m)) == Spread(Text(s, m))
  {
    if s != [] {
      assert Chars([Text(s, m)]) == Spread(Text(s, m)) + Chars([]);
    }
  }

  lemma SplitLeafChars(l: Text, lo: int, hi: int, u: LeafUpdate)
    ensures Chars(SplitLeaf(l, lo, hi, u)) == Restyle(Spread(l), lo, hi, u)
  {
    var n := |l.text|;
    var a := Clamp(lo, n);
    var b := Clamp(hi, n);
    if a < b {
      SplitMiddleChars(l, lo, hi, u);
    } else if n == 0 && lo <= 0 <= hi {
      assert Chars([Text("", Apply(u, l.marks))]) == [];
    } else {
      assert Chars([l]) == Spread(l) + Chars([]);
      var rhs := Restyle(Spread(l), lo, hi, u);
      forall i | 0 <= i < |rhs| ensures rhs[i] == Spread(l)[i] {
        assert !(lo <= i < hi);
      }
    }
  }

  lemma SplitMiddleChars(l: Text, lo: int, hi: int, u: LeafUpdate)
    requires Clamp(lo, |l.text|) < Clamp(hi, |l.text|)
    ensures Chars(SplitLeaf(l, lo, hi, u)) == Restyle(Spread(l), lo, hi, u)
  {
    var n := |l.text|;
    var a := Clamp(lo, n);
    var b := Clamp(hi, n);
    var m := l.marks;
    var m' := Apply(u, m);
    assert Chars(SplitLeaf(l, lo, hi, u)) ==
      Spread(Text(l.text[..a], m)) + Spread(Text(l.text[a..b], m')) + Spread(Text(l.text[b..], m)) by {
      ThreePieces(l.text[..a], l.text[a..b], l.text[b..], m, m');
    }
    RestyleMiddle(l, lo, hi, u, a, b);
  }

  /** Restyling the characters of one leaf, piece by piece. */
  lemma RestyleMiddle(l: Text, lo: int, hi: int, u: LeafUpdate, a: nat, b: nat)
    requires a == Clamp(lo, |l.text|) && b == Clamp(hi, |l.text|) && a < b
    ensures Spread(Text(l.text[..a], l.marks)) + Spread(Text(l.text[a..b], Apply(u, l.marks))) +
      Spread(Text(l.text[b..], l.marks)) == Restyle(Spread(l), lo, hi, u)
  {
    var s1 := Spread(Text(l.text[..a], l.marks));
    var s2 := Spread(Text(l.text[a..b], Apply(u, l.marks)));
    var s3 := Spread(Text(l.text[b..], l.marks));
    var lhs := s1 + s2 + s3;
    var rhs := Restyle(Spread(l), lo, hi, u);
    forall i | 0 <= i < |lhs| ensures lhs[i] == rhs[i] {
      if i < a {
        assert lhs[i] == s1[i];
      } else if i < b {
        assert lhs[i] == s2[i - a];
      } else {
        assert lhs[i] == s3[i - b];
      }
    }
  }

  lemma ThreePieces(t1: string, t2: string, t3: string, m: Marks, m': Marks)
    requires t2 != []
    ensures Chars(Piece(t1, m) + [Text(t2, m')] + Piece(t3, m))
         == Spread(Text(t1, m)) + Spread(Text(t2, m')) + Spread(Text(t3, m))
  {
    var p1 := Piece(t1, m);
    var p2 := [Text(t2, m')];
    var p3 := Piece(t3, m);
    CharsConcat(p1 + p2, p3);
    CharsConcat(p1, p2);
    PieceChars(t1, m);
    PieceChars(t3, m);
    assert Chars(p2) == Spread(Text(t2, m')) + Chars([]);
  }

  /**
   * Splitting on write is selection-accurate: the block's characters are
   * the same, those in [lo, hi) carry the updated marks and every other
   * character keeps its marks.
   */
  lemma {:induction false} UpdateSliceChars(ls: seq<Text>, lo: int, hi: int, u: LeafUpdate)
    ensures Chars(UpdateSlice(ls, lo, hi, u)) == Restyle(Chars(ls), lo, hi, u)
  {
    if ls != [] {
      var n := |ls[0].text|;
      var head := SplitLeaf(ls[0], lo, hi, u);
      var tail := UpdateSlice(ls[1..], lo - n, hi - n, u);
      UpdateSliceChars(ls[1..], lo - n, hi - n, u);
      SplitLeafChars(ls[0], lo, hi, u);
      CharsConcat(head, tail);
      assert Chars(ls) == Spread(ls[0]) + Chars(ls[1..]);
      RestyleConcat(Spread(ls[0]), Chars(ls[1..]), lo, hi, u);
    }
  }

  /** Updating properties never changes a block's string. */
  lemma UpdateSliceText(ls: seq<Text>, lo: int, hi: int, u: LeafUpdate)
    ensures TextOf(UpdateSlice(ls, lo, hi, u)) == TextOf(ls)
  {
    UpdateSliceChars(ls, lo, hi, u);
    SameCharsSameText(UpdateSlice(ls, lo, hi, u), ls);
  }

  lemma SameCharsSameText(a: seq<Text>, b: seq<Text>)
    requires |Chars(a)| == |Chars(b)|
    requires forall i :: 0 <= i < |Chars(a)| ==> Chars(a)[i].ch == Chars(b)[i].ch
    ensures TextOf(a) == TextOf(b)
  {
    CharsText(a);
    CharsText(b);
    assert forall i :: 0 <= i < |TextOf(a)| ==> TextOf(a)[i] == Chars(a)[i].ch;
  }

  /** Splitting never loses a leaf: a block with leaves keeps at least as many. */
  lemma {:induction false} UpdateSliceKeepsLeaves(ls: seq<Text>, lo: int, hi: int, u: LeafUpdate)
    ensures |UpdateSlice(ls, lo, hi, u)| >= |ls|
  {
    if ls != [] {
      UpdateSliceKeepsLeaves(ls[1..], lo - |ls[0].text|, hi - |ls[0].text|, u);
    }
  }

  /**
   * Deleting a prefix of n characters leaves exactly the remaining
   * characters, with their marks, and at least one leaf.
   */
  lemma {:induction false} DropCharsChars(ls: seq<Text>, n: nat)
    requires n <= |Chars(ls)|
    ensures Chars(DropChars(ls, n)) == Chars(ls)[n..]
    ensures ls != [] ==> |DropChars(ls, n)| >= 1
  {
    if ls != [] {
      var t := ls[0].text;
      assert Chars(ls) == Spread(ls[0]) + Chars(ls[1..]);
      if |ls| > 1 && |t| <= n {
        DropCharsChars(ls[1..], n - |t|);
      } else {
        var k := if n <= |t| then n else |t|;
        var first := Text(t[k..], ls[0].marks);
        assert DropChars(ls, n) == [first] + ls[1..];
        CharsConcat([first], ls[1..]);
        assert Chars([first]) == Spread(first) + Chars([]);
        if |ls| == 1 {
          assert Chars(ls[1..]) == [];
        }
      }
    }
  }

  /** Dropping characters never leaves a non-empty block without a leaf. */
  lemma {:induction false} DropCharsKeepsLeaf(ls: seq<Text>, n: nat)
    requires ls != []
    ensures DropChars(ls, n) != []
  {
    if |ls| > 1 && |ls[0].text| <= n {
      DropCharsKeepsLeaf(ls[1..], n - |ls[0].text|);
    }
  }

  /** Deleting a prefix of n characters removes exactly those characters of the string. */
  lemma DropCharsText(ls: seq<Text>, n: nat)
    requires n <= |TextOf(ls)|
    ensures TextOf(DropChars(ls, n)) == TextOf(ls)[n..]
  {
    CharsText(ls);
    DropCharsChars(ls, n);
    SameCharsSameTextSuffix(DropChars(ls, n), ls, n);
  }

  lemma SameCharsSameTextSuffix(a: seq<Text>, b: seq<Text>, n: nat)
    requires n <= |Chars(b)| && n <= |TextOf(b)|
    requires Chars(a) == Chars(b)[n..]
    ensures TextOf(a) == TextOf(b)[n..]
  {
    CharsText(a);
    CharsText(b);
    assert forall i :: 0 <= i < |TextOf(a)| ==> TextOf(a)[i] == Chars(b)[n + i].ch;
  }

  /**
   * Editor.marks of an expanded range starting on a restyled character
   * reads the updated marks.
   */
  lemma MarksAtRestyled(ls: seq<Text>, lo: int, hi: int, u: LeafUpdate, o: nat)
    requires lo <= o < hi && o < |TextOf(ls)|
    ensures MarksAt(UpdateSlice(ls, lo, hi, u), o) == Apply(u, MarksAt(ls, o))
  {
    UpdateSliceChars(ls, lo, hi, u);
    CharsText(ls);
  }

  /**
   * In a block whose string is empty, the caret's marks are those of the
   * first leaf, which a write at the caret updates.
   */
  lemma MarksBeforeEmpty(ls: seq<Text>, u: LeafUpdate)
    requires ls != [] && TextOf(ls) == ""
    ensures MarksBefore(UpdateSlice(ls, 0, 0, u), 0) == Apply(u, MarksBefore(ls, 0))
  {
    assert ls[0].text == "" by {
      assert TextOf(ls) == ls[0].text + TextOf(ls[1..]);
    }
    assert UpdateSlice(ls, 0, 0, u) == [Text("", Apply(u, ls[0].marks))] + UpdateSlice(ls[1..], 0, 0, u);
  }
}
