/**
 * The document data model of the editor: text leaves with their marks and
 * elements with a block kind, an ordered child sequence and an optional
 * alignment.
 */
module Types {

  datatype Option<+T> = None | Some(value: T)

  /** The closed set of values an element's `type` field may take. */
  datatype BlockType =
    | Paragraph
    | HeadingOne
    | HeadingTwo
    | HeadingThree
    | BlockQuote
    | BulletedList
    | NumberedList
    | ListItem

  /** The values an element's optional `textAlign` field may take. */
  datatype Align = Left | Center | Right | Justify

  /** The two block kinds that act as list containers. */
  predicate IsList(k: BlockType) {
    k == BulletedList || k == NumberedList
  }

  /** The name under which a block kind is stored in the `type` field. */
  function KindName(k: BlockType): string {
    match k
    case Paragraph => "paragraph"
    case HeadingOne => "heading-one"
    case HeadingTwo => "heading-two"
    case HeadingThree => "heading-three"
    case BlockQuote => "block-quote"
    case BulletedList => "bulleted-list"
    case NumberedList => "numbered-list"
    case ListItem => "list-item"
  }

  /**
   * Reads a `type` field: exactly the eight kind names are accepted, each
   * giving back the kind it names.
   */
  function ParseKind(s: string): (r: Option<BlockType>)
    ensures r.Some? ==> KindName(r.value) == s
    ensures r.None? ==> forall k :: KindName(k) != s
  {
    if s == "paragraph" then Some(Paragraph)
    else if s == "heading-one" then Some(HeadingOne)
    else if s == "heading-two" then Some(HeadingTwo)
    else if s == "heading-three" then Some(HeadingThree)
    else if s == "block-quote" then Some(BlockQuote)
    else if s == "bulleted-list" then Some(BulletedList)
    else if s == "numbered-list" then Some(NumberedList)
    else if s == "list-item" then Some(ListItem)
    else None
  }

  /** The name under which an alignment is stored in the `textAlign` field. */
  function AlignName(a: Align): string {
    match a
    case Left => "left"
    case Center => "center"
    case Right => "right"
    case Justify => "justify"
  }

  /** Reads a `textAlign` field: exactly the four alignment names are accepted. */
  function ParseAlign(s: string): (r: Option<Align>)
    ensures r.Some? ==> AlignName(r.value) == s
    ensures r.None? ==> forall a :: AlignName(a) != s
  {
    if s == "left" then Some(Left)
    else if s == "center" then Some(Center)
    else if s == "right" then Some(Right)
    else if s == "justify" then Some(Justify)
    else None
  }

  /**
   * The optional properties of a text leaf besides its text. An absent
   * boolean mark means the mark is not applied; `fontFamily` and `color`
   * are scalar strings.
   */
  datatype Marks = Marks(
    bold: Option<bool>,
    italic: Option<bool>,
    underline: Option<bool>,
    code: Option<bool>,
    fontFamily: Option<string>,
    color: Option<string>)

  const NoMarks := Marks(None, None, None, None, None, None)

  /** The four boolean character marks. */
  datatype Format = Bold | Italic | Underline | Code

  function GetMark(m: Marks, f: Format): Option<bool> {
    match f
    case Bold => m.bold
    case Italic => m.italic
    case Underline => m.underline
    case Code => m.code
  }

  /** Writes one boolean mark and leaves every other property as it was. */
  function SetMark(m: Marks, f: Format, v: Option<bool>): (r: Marks)
    ensures GetMark(r, f) == v
    ensures forall g :: g != f ==> GetMark(r, g) == GetMark(m, g)
    ensures r.fontFamily == m.fontFamily && r.color == m.color
  {
    match f
    case Bold => m.(bold := v)
    case Italic => m.(italic := v)
    case Underline => m.(underline := v)
    case Code => m.(code := v)
  }

  /** A text leaf: it always carries a string and never has children. */
  datatype Text = Text(text: string, marks: Marks)

  /**
   * A node of the document tree: a text leaf or an element whose children
   * are, in document order, elements or text leaves.
   */
  datatype Node =
    | Leaf(leaf: Text)
    | Element(kind: BlockType, children: seq<Node>, align: Option<Align>)

  /** An element's own properties, without its children. */
  datatype Header = Header(kind: BlockType, align: Option<Align>)

  function HeaderOf(n: Node): Header
    requires n.Element?
  {
    Header(n.kind, n.align)
  }
}
