/**
 The unresolved layout tree handed to the flex solver (`Node` wrapping a
 `Style`) and the solved geometry read back from it (`Layout`). The solver
 is not modelled: only the style vocabulary the containers write.
 */
module LayoutTree {
  import opened Primitives

  /** The solver's dimension; the spacing margin is written as `Points`. */
  datatype Dimension = Points(points: U16) | Undefined

  datatype FlexDirection = RowDirection | ColumnDirection

  /** The subset of solver style that the containers read or write. */
  datatype Style = Style(
    width: Length,
    height: Length,
    maxWidth: Length,
    maxHeight: Length,
    padding: U16,
    alignSelf: Option<Align>,
    alignItems: Align,
    justifyContent: Justify,
    flexDirection: FlexDirection,
    marginEnd: Dimension)

  /** `Style::default()`. Its trailing margin is undefined, as the solver's default is. */
  function DefaultStyle(): Style
  {
    Style(Shrink, Shrink, Shrink, Shrink, 0, None, Start, JustifyStart, RowDirection, Undefined)
  }

  /** A layout node: a style plus its ordered children. */
  datatype Node = Node(style: Style, children: seq<Node>)

  /** Solved geometry of one node, with the solved geometry of its children in order. */
  datatype Layout = Layout(x: int, y: int, width: int, height: int, children: seq<Layout>)

  /** `style.margin.end = end; node.set_style(style)` on a node. */
  function WithMarginEnd(node: Node, end: Dimension): (r: Node)
    ensures r.style.marginEnd == end
    ensures SameExceptMargin(node, r)
  {
    node.(style := node.style.(marginEnd := end))
  }

  /** `a` and `b` are the same node up to the trailing margin of their own style. */
  ghost predicate SameExceptMargin(a: Node, b: Node)
  {
    && a.children == b.children
    && a.style.width == b.style.width
    && a.style.height == b.style.height
    && a.style.maxWidth == b.style.maxWidth
    && a.style.maxHeight == b.style.maxHeight
    && a.style.padding == b.style.padding
    && a.style.alignSelf == b.style.alignSelf
    && a.style.alignItems == b.style.alignItems
    && a.style.justifyContent == b.style.justifyContent
    && a.style.flexDirection == b.style.flexDirection
  }
}
