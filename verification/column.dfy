/**
 `Column`: a container that distributes its children vertically. This module
 models its builder: the documented defaults, one setter per field, and `push`.
 */
module ColumnWidget {
  import opened Primitives

  /** The element type of the children; a column never inspects its children. */
  type Element

  datatype Column = Column(
    spacing: U16,
    padding: U16,
    width: Length,
    height: Length,
    maxWidth: Length,
    maxHeight: Length,
    alignSelf: Option<Align>,
    alignItems: Align,
    justifyContent: Justify,
    children: seq<Element>)

  /** Names of the fields a setter may change. */
  datatype Field =
    | SpacingField | PaddingField | WidthField | HeightField | MaxWidthField
    | MaxHeightField | AlignSelfField | AlignItemsField | JustifyContentField | ChildrenField

  /** `a` and `b` agree on every field except possibly `f`. */
  ghost predicate AgreeExcept(a: Column, b: Column, f: Field)
  {
    && (f != SpacingField ==> a.spacing == b.spacing)
    && (f != PaddingField ==> a.padding == b.padding)
    && (f != WidthField ==> a.width == b.width)
    && (f != HeightField ==> a.height == b.height)
    && (f != MaxWidthField ==> a.maxWidth == b.maxWidth)
    && (f != MaxHeightField ==> a.maxHeight == b.maxHeight)
    && (f != AlignSelfField ==> a.alignSelf == b.alignSelf)
    && (f != AlignItemsField ==> a.alignItems == b.alignItems)
    && (f != JustifyContentField ==> a.justifyContent == b.justifyContent)
    && (f != ChildrenField ==> a.children == b.children)
  }

  /** `Column::new`: an empty column that fills the horizontal space and shrinks vertically. */
  function New(): (c: Column)
    ensures c.spacing == 0 && c.padding == 0
    ensures c.width == Fill && c.height == Shrink
    ensures c.maxWidth == Shrink && c.maxHeight == Shrink
    ensures c.alignSelf == None && c.alignItems == Start && c.justifyContent == JustifyStart
    ensures c.children == []
  {
    Column(0, 0, Fill, Shrink, Shrink, Shrink, None, Start, JustifyStart, [])
  }

  /** `Column::default`: the same column `new` builds. */
  function Default(): (c: Column)
    ensures c == New()
  {
    New()
  }

  function Spacing(c: Column, units: U16): (r: Column)
    ensures r.spacing == units && AgreeExcept(c, r, SpacingField)
  {
    c.(spacing := units)
  }

  function Padding(c: Column, units: U16): (r: Column)
    ensures r.padding == units && AgreeExcept(c, r, PaddingField)
  {
    c.(padding := units)
  }

  function Width(c: Column, width: Length): (r: Column)
    ensures r.width == width && AgreeExcept(c, r, WidthField)
  {
    c.(width := width)
  }

  function Height(c: Column, height: Length): (r: Column)
    ensures r.height == height && AgreeExcept(c, r, HeightField)
  {
    c.(height := height)
  }

  function MaxWidth(c: Column, maxWidth: Length): (r: Column)
    ensures r.maxWidth == maxWidth && AgreeExcept(c, r, MaxWidthField)
  {
    c.(maxWidth := maxWidth)
  }

  function MaxHeight(c: Column, maxHeight: Length): (r: Column)
    ensures r.maxHeight == maxHeight && AgreeExcept(c, r, MaxHeightField)
  {
    c.(maxHeight := maxHeight)
  }

  /** Overrides the alignment the parent container would give the column. */
  function AlignSelf(c: Column, align: Align): (r: Column)
    ensures r.alignSelf == Some(align) && AgreeExcept(c, r, AlignSelfField)
  {
    c.(alignSelf := Some(align))
  }

  function AlignItems(c: Column, align: Align): (r: Column)
    ensures r.alignItems == align && AgreeExcept(c, r, AlignItemsField)
  {
    c.(alignItems := align)
  }

  function JustifyContent(c: Column, justify: Justify): (r: Column)
    ensures r.justifyContent == justify && AgreeExcept(c, r, JustifyContentField)
  {
    c.(justifyContent := justify)
  }

  /** Adds `child` after every existing child. */
  function Push(c: Column, child: Element): (r: Column)
    ensures |r.children| == |c.children| + 1
    ensures r.children[..|c.children|] == c.children
    ensures r.children[|c.children|] == child
    ensures AgreeExcept(c, r, ChildrenField)
  {
    c.(children := c.children + [child])
  }

  /** A chain of `push` calls, one per element of `children`, first to last. */
  function PushAll(c: Column, children: seq<Element>): Column
    decreases |children|
  {
    if |children| == 0 then c else PushAll(Push(c, children[0]), children[1..])
  }

  /** A chain of pushes appends its arguments in push order and touches no other field. */
  lemma {:induction false} PushAllAppends(c: Column, children: seq<Element>)
    ensures PushAll(c, children).children == c.children + children
    ensures AgreeExcept(c, PushAll(c, children), ChildrenField)
    decreases |children|
  {
    if |children| > 0 {
      var next := Push(c, children[0]);
      PushAllAppends(next, children[1..]);
      assert next.children + children[1..] == c.children + children;
    }
  }

  /** Pushing `children` onto a new column yields exactly `children`, in push order. */
  lemma PushAllOntoNew(children: seq<Element>)
    ensures PushAll(New(), children).children == children
    ensures AgreeExcept(New(), PushAll(New(), children), ChildrenField)
  {
    PushAllAppends(New(), children);
  }
}
