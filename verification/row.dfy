/**
 `Row` on the native backend: a container that distributes its children
 horizontally. Its children are elements of any widget type, so this module
 takes what a child does (build its layout node, write its layout hash,
 react to an event) as function parameters and models only what the row
 itself adds: the spacing margins, its own style, the positional dispatch of
 events and the layout-hash token stream.
 */
module RowWidget {
  import opened Primitives
  import opened Hashing
  import opened LayoutTree

  /** `iced_core::Row`: the same fields as `Column`. */
  datatype Row<E> = Row(
    spacing: U16,
    padding: U16,
    width: Length,
    height: Length,
    maxWidth: Length,
    maxHeight: Length,
    alignSelf: Option<Align>,
    alignItems: Align,
    justifyContent: Justify,
    children: seq<E>)

  // ---------------------------------------------------------------------------
  // Layout node construction

  /** What `f` gives for each child, in child order: a child's layout node or its hash stream. */
  function MapChildren<E, T>(children: seq<E>, f: E -> T): (r: seq<T>)
    ensures |r| == |children|
    ensures forall i :: 0 <= i < |r| ==> r[i] == f(children[i])
  {
    seq(|children|, i requires 0 <= i < |children| => f(children[i]))
  }

  /**
   Gives every node a trailing margin of `spacing`, then resets the margin of
   the last node to undefined: the spacing lands strictly between neighbours.
   */
  function SpacedChildren(nodes: seq<Node>, spacing: U16): (r: seq<Node>)
    ensures |r| == |nodes|
    ensures forall i :: 0 <= i < |r| ==> SameExceptMargin(nodes[i], r[i])
    ensures forall i :: 0 <= i < |r| - 1 ==> r[i].style.marginEnd == Points(spacing)
    ensures |r| > 0 ==> r[|r| - 1].style.marginEnd == Undefined
  {
    var marked := seq(|nodes|, i requires 0 <= i < |nodes| => WithMarginEnd(nodes[i], Points(spacing)));
    if |marked| == 0 then marked
    else marked[|marked| - 1 := WithMarginEnd(marked[|marked| - 1], Undefined)]
  }

  /** The row's own style: its layout fields on top of the default style, laid out as a row. */
  function RowStyle<E>(row: Row<E>): (s: Style)
    ensures s.width == row.width && s.height == row.height
    ensures s.maxWidth == row.maxWidth && s.maxHeight == row.maxHeight
    ensures s.padding == row.padding
    ensures s.alignSelf == row.alignSelf
    ensures s.alignItems == row.alignItems
    ensures s.justifyContent == row.justifyContent
    ensures s.flexDirection == RowDirection
    ensures s.marginEnd == DefaultStyle().marginEnd
  {
    DefaultStyle().(
      width := row.width, height := row.height,
      maxWidth := row.maxWidth, maxHeight := row.maxHeight,
      padding := row.padding, alignSelf := row.alignSelf,
      alignItems := row.alignItems, justifyContent := row.justifyContent,
      flexDirection := RowDirection)
  }

  /**
   `Widget::node` of a row: one node per child, in child order, each the
   child's own node except for its trailing margin, which is `spacing` for
   every child but the last and undefined for the last.
   */
  function NodeOf<E>(row: Row<E>, childNode: E -> Node): (n: Node)
    ensures |n.children| == |row.children|
    ensures forall i :: 0 <= i < |row.children| ==> SameExceptMargin(childNode(row.children[i]), n.children[i])
    ensures forall i :: 0 <= i < |row.children| - 1 ==> n.children[i].style.marginEnd == Points(row.spacing)
    ensures |row.children| > 0 ==> n.children[|row.children| - 1].style.marginEnd == Undefined
    ensures n.style == RowStyle(row)
  {
    Node(RowStyle(row), SpacedChildren(MapChildren(row.children, childNode), row.spacing))
  }

  /** The number of nodes that carry a `Points` trailing margin. */
  function CountMargins(nodes: seq<Node>): nat
  {
    if |nodes| == 0 then 0
    else CountMargins(nodes[..|nodes| - 1]) + (if nodes[|nodes| - 1].style.marginEnd.Points? then 1 else 0)
  }

  lemma {:induction false} CountMarginsAll(nodes: seq<Node>)
    requires forall i :: 0 <= i < |nodes| ==> nodes[i].style.marginEnd.Points?
    ensures CountMargins(nodes) == |nodes|
    decreases |nodes|
  {
    if |nodes| > 0 {
      CountMarginsAll(nodes[..|nodes| - 1]);
    }
  }

  /** A row of `n` children has exactly `n - 1` spacing gaps, and none when it is empty. */
  lemma GapsOnlyBetweenChildren<E>(row: Row<E>, childNode: E -> Node)
    ensures CountMargins(NodeOf(row, childNode).children) == if |row.children| == 0 then 0 else |row.children| - 1
  {
    var nodes := NodeOf(row, childNode).children;
    if |nodes| > 0 {
      var init := nodes[..|nodes| - 1];
      CountMarginsAll(init);
      assert CountMargins(nodes) == CountMargins(init) + 0;
    }
  }

  // ---------------------------------------------------------------------------
  // Event dispatch

  /** What a child's `on_event` leaves behind: the updated child and the messages it pushed. */
  datatype Dispatch<E, M> = Dispatch(child: E, emitted: seq<M>)

  /** The number of (child, child layout) pairs that zipping the two sequences yields. */
  function Zipped<E>(children: seq<E>, layouts: seq<Layout>): (k: nat)
    ensures k <= |children| && k <= |layouts|
    ensures k == |children| || k == |layouts|
  {
    if |children| <= |layouts| then |children| else |layouts|
  }

  /** The messages pushed by the first `k` pairs, in pair order. */
  function Emitted<E, Ev, P, M>(
    children: seq<E>, layouts: seq<Layout>, k: nat,
    event: Ev, cursor: P, handle: (E, Ev, Layout, P) -> Dispatch<E, M>): seq<M>
    requires k <= |children| && k <= |layouts|
  {
    if k == 0 then []
    else Emitted(children, layouts, k - 1, event, cursor, handle) + handle(children[k - 1], event, layouts[k - 1], cursor).emitted
  }

  /** The messages of earlier pairs come before those of later pairs. */
  lemma {:induction false} EmittedInPairOrder<E, Ev, P, M>(
    children: seq<E>, layouts: seq<Layout>, j: nat, k: nat,
    event: Ev, cursor: P, handle: (E, Ev, Layout, P) -> Dispatch<E, M>)
    requires j <= k <= |children| && k <= |layouts|
    ensures |Emitted(children, layouts, j, event, cursor, handle)| <= |Emitted(children, layouts, k, event, cursor, handle)|
    ensures Emitted(children, layouts, k, event, cursor, handle)[..|Emitted(children, layouts, j, event, cursor, handle)|]
         == Emitted(children, layouts, j, event, cursor, handle)
    decreases k - j
  {
    if j < k {
      EmittedInPairOrder(children, layouts, j, k - 1, event, cursor, handle);
      var a := Emitted(children, layouts, j, event, cursor, handle);
      var b := Emitted(children, layouts, k - 1, event, cursor, handle);
      var extra := handle(children[k - 1], event, layouts[k - 1], cursor).emitted;
      assert (b + extra)[..|a|] == b[..|a|];
    }
  }

  /**
   `Widget::on_event` of a row: zips the children with the children of the
   solved layout and forwards the event to every pair, in index order, with no
   early exit. Children without a layout keep their state; messages are only
   appended.
   */
  method OnEvent<E, Ev, P, M>(
    row: Row<E>, event: Ev, layout: Layout, cursor: P, messages: seq<M>,
    handle: (E, Ev, Layout, P) -> Dispatch<E, M>)
    returns (row': Row<E>, messages': seq<M>)
    ensures row' == row.(children := row'.children)
    ensures |row'.children| == |row.children|
    ensures forall i :: 0 <= i < |row.children| ==>
      row'.children[i] == if i < Zipped(row.children, layout.children)
                          then handle(row.children[i], event, layout.children[i], cursor).child
                          else row.children[i]
    ensures messages' == messages + Emitted(row.children, layout.children, Zipped(row.children, layout.children), event, cursor, handle)
  {
    var k := Zipped(row.children, layout.children);
    var children := row.children;
    messages' := messages;
    var i := 0;
    while i < k
      invariant 0 <= i <= k
      invariant |children| == |row.children|
      invariant forall j :: 0 <= j < |children| ==>
        children[j] == if j < i then handle(row.children[j], event, layout.children[j], cursor).child else row.children[j]
      invariant messages' == messages + Emitted(row.children, layout.children, i, event, cursor, handle)
    {
      var d := handle(children[i], event, layout.children[i], cursor);
      children := children[i := d.child];
      messages' := messages' + d.emitted;
      i := i + 1;
    }
    row' := row.(children := children);
  }

  // ---------------------------------------------------------------------------
  // Layout hash

  /**
   `Widget::hash_layout` of a row, as written: a row marker, the layout
   fields, `spacing` twice and no `padding`, then every child's stream in
   child order.
   */
  function HashLayout<E>(row: Row<E>, childHash: E -> seq<Token>): (tokens: seq<Token>)
    ensures |tokens| >= 10
    ensures tokens[0] == IntToken(1)
    ensures tokens[1..5] == [LengthToken(row.width), LengthToken(row.height), LengthToken(row.maxWidth), LengthToken(row.maxHeight)]
    ensures tokens[5..8] == [OptionalAlignToken(row.alignSelf), AlignToken(row.alignItems), JustifyToken(row.justifyContent)]
    ensures tokens[8] == tokens[9] == U16Token(row.spacing)
    ensures tokens[10..] == Flatten(MapChildren(row.children, childHash))
  {
    [ IntToken(1),
      LengthToken(row.width), LengthToken(row.height),
      LengthToken(row.maxWidth), LengthToken(row.maxHeight),
      OptionalAlignToken(row.alignSelf), AlignToken(row.alignItems), JustifyToken(row.justifyContent),
      U16Token(row.spacing), U16Token(row.spacing) ]
    + Flatten(MapChildren(row.children, childHash))
  }

  /** Pushing a child onto a row extends its layout hash by exactly that child's stream. */
  lemma HashLayoutPushChild<E>(row: Row<E>, child: E, childHash: E -> seq<Token>)
    ensures HashLayout(row.(children := row.children + [child]), childHash) == HashLayout(row, childHash) + childHash(child)
  {
    var streams := MapChildren(row.children + [child], childHash);
    assert streams[..|streams| - 1] == MapChildren(row.children, childHash);
  }

  /** The fields that `HashLayout` writes. */
  ghost predicate SameHashedFields<E>(a: Row<E>, b: Row<E>)
  {
    && a.width == b.width && a.height == b.height
    && a.maxWidth == b.maxWidth && a.maxHeight == b.maxHeight
    && a.alignSelf == b.alignSelf && a.alignItems == b.alignItems
    && a.justifyContent == b.justifyContent
    && a.spacing == b.spacing
  }

  /**
   Two rows hash alike exactly when they agree on the hashed fields and their
   children write the same combined stream. `padding` is not among them.
   */
  lemma HashLayoutEqualIff<E>(a: Row<E>, b: Row<E>, childHash: E -> seq<Token>)
    ensures HashLayout(a, childHash) == HashLayout(b, childHash)
        <==> SameHashedFields(a, b)
             && Flatten(MapChildren(a.children, childHash)) == Flatten(MapChildren(b.children, childHash))
  {
  }

  /** Changing only the padding leaves the written hash unchanged. */
  lemma HashLayoutIgnoresPadding<E>(row: Row<E>, padding: U16, childHash: E -> seq<Token>)
    ensures HashLayout(row.(padding := padding), childHash) == HashLayout(row, childHash)
  {
  }

  /**
   When every child writes a stream of the same non-zero length, rows with a
   different number of children write streams of different lengths.
   */
  lemma HashLayoutSeesChildCount<E>(a: Row<E>, b: Row<E>, childHash: E -> seq<Token>, len: nat)
    requires len > 0
    requires forall i :: 0 <= i < |a.children| ==> |childHash(a.children[i])| == len
    requires forall i :: 0 <= i < |b.children| ==> |childHash(b.children[i])| == len
    requires |a.children| != |b.children|
    ensures |HashLayout(a, childHash)| != |HashLayout(b, childHash)|
  {
    FlattenUniformLength(MapChildren(a.children, childHash), len);
    FlattenUniformLength(MapChildren(b.children, childHash), len);
    assert |a.children| * len != |b.children| * len by {
      if |a.children| < |b.children| {
        MultiplyStrict(|a.children|, |b.children|, len);
      } else {
        MultiplyStrict(|b.children|, |a.children|, len);
      }
    }
  }

  lemma MultiplyStrict(m: nat, n: nat, len: nat)
    requires m < n && len > 0
    ensures m * len < n * len
  {
  }

  // ---------------------------------------------------------------------------
  // The layout hash with `padding` in place of the second `spacing`

  /** The layout hash with every layout field written once, `padding` included. */
  function HashLayoutWithPadding<E>(row: Row<E>, childHash: E -> seq<Token>): (tokens: seq<Token>)
    ensures |tokens| == |HashLayout(row, childHash)|
    ensures tokens[..9] == HashLayout(row, childHash)[..9]
    ensures tokens[9] == U16Token(row.padding)
    ensures tokens[10..] == HashLayout(row, childHash)[10..]
  {
    [ IntToken(1),
      LengthToken(row.width), LengthToken(row.height),
      LengthToken(row.maxWidth), LengthToken(row.maxHeight),
      OptionalAlignToken(row.alignSelf), AlignToken(row.alignItems), JustifyToken(row.justifyContent),
      U16Token(row.spacing), U16Token(row.padding) ]
    + Flatten(MapChildren(row.children, childHash))
  }

  /** With `padding` hashed, two rows hash alike exactly when every layout field and the child streams agree. */
  lemma HashLayoutWithPaddingEqualIff<E>(a: Row<E>, b: Row<E>, childHash: E -> seq<Token>)
    ensures HashLayoutWithPadding(a, childHash) == HashLayoutWithPadding(b, childHash)
        <==> SameHashedFields(a, b) && a.padding == b.padding
             && Flatten(MapChildren(a.children, childHash)) == Flatten(MapChildren(b.children, childHash))
  {
  }

  /** Two empty rows that differ only in padding: the written hash cannot tell them apart. */
  lemma PaddingChangeCollides()
    ensures var a := Row<int>.Row(4, 0, Fill, Shrink, Shrink, Shrink, None, Start, JustifyStart, []);
            var b := a.(padding := 20);
            a != b
            && HashLayout(a, (c: int) => [IntToken(c)]) == HashLayout(b, (c: int) => [IntToken(c)])
            && HashLayoutWithPadding(a, (c: int) => [IntToken(c)]) != HashLayoutWithPadding(b, (c: int) => [IntToken(c)])
  {
  }
}
