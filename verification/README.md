# Widget layer of a declarative GUI toolkit, in Dafny

This project models the pure, sequential part of the widget layer of a
cross-platform GUI toolkit. The model covers four pieces:

- **Row on the native backend** (`RowWidget`). The row turns its children into
  layout nodes. It puts a `spacing` margin after every child except the last,
  and it builds its own flex style with the row direction. It dispatches an
  event to each (child, solved child layout) pair in index order. It also
  writes its layout-hash token stream.
- **TextInput on the iOS backend** (`TextInputWidget`). This covers the
  builder and the layout hash. It also covers the create-or-reuse decision
  against the previous frame's `WidgetNode`, and the handling of a native
  text-change notification (submit on a trailing newline, change otherwise).
- **Column builder** (`ColumnWidget`): its defaults, one setter per field, and
  `push`.
- **Image builder** (`ImageWidget`): its defaults and setters.

Supporting modules:

- `Primitives`: the `u16`/`u32`/`u64` widths, `Option`, `Length`, `Align`,
  `Justify` and `Rectangle`.
- `Hashing`: the layout hasher, modelled as the sequence of values written to
  it, one `Token` per `hash` call.
- `LayoutTree`: the solver's `Node`/`Style` vocabulary and the solved `Layout`
  view.
- `NativeNode`: `WidgetNode`, the opaque native view identity, the native
  event, and a trace of calls into the host view system.

A Row's children can be widgets of any type. So the row's functions take the
child behaviours as parameters: a child's layout node, its hash stream, and
its reaction to an event. The host view system is abstract. The view identity
and handler id that it would allocate are parameters. The text read from a
view is passed in already decoded.

Each setter's contract says that the named field takes the new value. It also
says that the result `AgreeExcept` the input on that field. `AgreeExcept` is
an independent, field-by-field definition of "nothing else changes".

## Model

| member | source | states |
|---|---|---|
| LayoutTree.WithMarginEnd | native/src/widget/row.rs:21-25 | Setting a node's trailing margin changes only that margin: the node's children and the rest of its style are unchanged |
| RowWidget.SpacedChildren | native/src/widget/row.rs:15-35 | There is one node per input node, in the same order, each unchanged except for its margin. The margin is `Points(spacing)` on every node but the last, and `Undefined` on the last. An empty list stays empty |
| RowWidget.RowStyle | native/src/widget/row.rs:37-47 | The row's style carries its width, height, maximum sizes, padding, align_self, align_items and justify_content. Its flex direction is row, and its trailing margin is the default one |
| RowWidget.NodeOf | native/src/widget/row.rs:14-50 | The row's node has exactly as many children as the row, in the row's order. Child i is child i's own node except for the trailing margin. Every child before the last has margin `Points(spacing)`, the last has `Undefined`. The node's style is the row style |
| RowWidget.GapsOnlyBetweenChildren | native/src/widget/row.rs:15-35 | A row of n children has exactly n-1 children that carry a spacing margin, and 0 when it is empty: spacing goes only between neighbours |
| RowWidget.Zipped | native/src/widget/row.rs:60 | Zipping children with layout children yields min(#children, #layouts) pairs |
| RowWidget.EmittedInPairOrder | native/src/widget/row.rs:60-70 | The messages of the first j pairs are a prefix of the messages of the first k pairs (j ≤ k), so dispatch output is in index order |
| RowWidget.OnEvent | native/src/widget/row.rs:52-71 | Each of the first min(#children, #layouts) children is replaced by what its own handler returns for the matching layout. Children beyond that are untouched, and no other row field changes. The new message list is the old one followed by every pair's messages in index order, with no early stop |
| RowWidget.HashLayout | native/src/widget/row.rs:82-97 | The stream is the marker 1, then width, height, max_width, max_height, align_self, align_items and justify_content. Then comes spacing twice (padding is never written), then the children's streams in child order |
| RowWidget.HashLayoutPushChild | native/src/widget/row.rs:94-96 | Appending a child to a row extends its hash stream by exactly that child's stream |
| RowWidget.HashLayoutEqualIff | native/src/widget/row.rs:82-97 | Two rows write the same stream if and only if they agree on width, height, the maximum sizes, the alignments, justify_content and spacing, and their children write the same combined stream |
| RowWidget.HashLayoutIgnoresPadding | native/src/widget/row.rs:82-97 | Changing only a row's padding leaves its hash stream unchanged |
| RowWidget.HashLayoutSeesChildCount | native/src/widget/row.rs:94-96 | If every child writes a stream of the same non-zero length, rows with different child counts write streams of different lengths |
| RowWidget.HashLayoutWithPadding | native/src/widget/row.rs:91-92 | The corrected stream matches the written one, except that its tenth token is the padding instead of a second spacing |
| RowWidget.HashLayoutWithPaddingEqualIff | native/src/widget/row.rs:82-97 | With padding hashed, two rows write the same stream if and only if every layout field, padding included, and the children's combined stream agree |
| RowWidget.PaddingChangeCollides | native/src/widget/row.rs:91-92 | Two rows that differ only in padding: the written hash gives them the same stream, and the corrected hash separates them |
| ColumnWidget.New | core/src/widget/column.rs:25-38 | A new column has spacing 0, padding 0, width Fill, height, max_width and max_height Shrink, no align_self, align_items Start, justify_content Start and no children |
| ColumnWidget.Default | core/src/widget/column.rs:130-134 | The default column is the column `new` builds |
| ColumnWidget.Spacing | core/src/widget/column.rs:45-48 | Sets spacing and changes no other field |
| ColumnWidget.Padding | core/src/widget/column.rs:53-56 | Sets padding and changes no other field |
| ColumnWidget.Width | core/src/widget/column.rs:61-64 | Sets width and changes no other field |
| ColumnWidget.Height | core/src/widget/column.rs:69-72 | Sets height and changes no other field |
| ColumnWidget.MaxWidth | core/src/widget/column.rs:77-80 | Sets max_width and changes no other field |
| ColumnWidget.MaxHeight | core/src/widget/column.rs:85-88 | Sets max_height and changes no other field |
| ColumnWidget.AlignSelf | core/src/widget/column.rs:96-99 | Sets align_self to `Some(align)` and changes no other field |
| ColumnWidget.AlignItems | core/src/widget/column.rs:104-107 | Sets align_items and changes no other field |
| ColumnWidget.JustifyContent | core/src/widget/column.rs:113-116 | Sets justify_content and changes no other field |
| ColumnWidget.Push | core/src/widget/column.rs:121-127 | Adds one child at the end and keeps every existing child in place. No other field changes |
| ColumnWidget.PushAllAppends | core/src/widget/column.rs:121-127 | A chain of pushes appends its arguments in push order after the existing children and changes no other field |
| ColumnWidget.PushAllOntoNew | core/src/widget/column.rs:25-38 | Pushing c1..ck onto a new column gives children exactly [c1..ck]; the other fields keep their defaults |
| ImageWidget.New | core/src/widget/image.rs:35-43 | A new image has the given path, no clip, width and height Shrink, and no align_self |
| ImageWidget.Clip | core/src/widget/image.rs:48-51 | Sets clip to `Some(rect)` and leaves path, width, height and align_self unchanged |
| ImageWidget.Width | core/src/widget/image.rs:56-59 | Sets width and changes no other field |
| ImageWidget.Height | core/src/widget/image.rs:64-67 | Sets height and changes no other field |
| ImageWidget.AlignSelf | core/src/widget/image.rs:75-78 | Sets align_self to `Some(align)` and changes no other field |
| TextInputWidget.New | ios/src/widget/text_input.rs:75-99 | Copies placeholder, value and on_change. It is not secure, and it has width Fill, max_width u32::MAX and padding 0. Size and on_submit are None, and the widget id is 0 |
| TextInputWidget.Password | ios/src/widget/text_input.rs:104-107 | Sets the secure flag and changes no other field |
| TextInputWidget.Width | ios/src/widget/text_input.rs:112-115 | Sets width and changes no other field |
| TextInputWidget.MaxWidth | ios/src/widget/text_input.rs:120-123 | Sets max_width and changes no other field |
| TextInputWidget.Padding | ios/src/widget/text_input.rs:128-131 | Sets padding and changes no other field |
| TextInputWidget.Size | ios/src/widget/text_input.rs:136-139 | Sets size to `Some(size)` and changes no other field |
| TextInputWidget.OnSubmit | ios/src/widget/text_input.rs:145-148 | Sets on_submit to `Some(message)` and changes no other field |
| TextInputWidget.HashLayout | ios/src/widget/text_input.rs:163-172 | The stream is exactly five tokens: the marker type, then width, max_width, padding and size |
| TextInputWidget.HashLayoutEqualIff | ios/src/widget/text_input.rs:163-172 | Two inputs write the same stream if and only if they agree on width, max_width, padding and size. Value, placeholder, the secure flag, the messages and the widget id never affect it |
| TextInputWidget.WidgetTypeOf | ios/src/widget/text_input.rs:173-175 | The widget type of a text input is always the text-input tag |
| TextInputWidget.UpdateOrAdd | ios/src/widget/text_input.rs:177-229 | A previous node is returned unchanged, with the input unchanged and no native call. Without one, the result is a TextInput node on the freshly allocated view. That is the trace's only allocation, and it is framed exactly when there is a parent. A handler is registered and subscribed for the view. The view is added to a parent exactly when one is given. The trace is exactly allocation, handler registration, observer subscription, then the `addSubview` when there is a parent: three calls, or four with a parent. The input takes the handler's widget id and nothing else of it changes |
| TextInputWidget.ReuseRoundTrip | ios/src/widget/text_input.rs:179-180 | Passing a freshly materialised node back on the next frame returns that same node on the same view. Across both frames there is exactly one allocation |
| TextInputWidget.ToWidgetNode | ios/src/widget/text_input.rs:305-308 | Converting an input to a node gives a TextInput node with no view |
| TextInputWidget.OnWidgetEvent | ios/src/widget/text_input.rs:231-266 | For another view, the input and the messages are unchanged. For this node's view, text ending in a newline keeps the value and takes on_submit: the pending message, if any, is appended, and nothing else changes. Any other text becomes the value and appends exactly `on_change(text)`, and nothing else changes |
| TextInputWidget.OnWidgetEventAppendsAtMostOne | ios/src/widget/text_input.rs:257-265 | A notification keeps every earlier message and appends at most one |
| TextInputWidget.SubmitIsConsumed | ios/src/widget/text_input.rs:257-260 | Of two successive submissions, the second appends nothing. Together they append one message if a submit message was pending, and none otherwise |
| TextInputWidget.OnWidgetEventKeepsLayoutHash | ios/src/widget/text_input.rs:244-265 | Handling a notification never changes the input's layout hash |
| TextInputWidget.DetachedNodeIgnoresEvents | ios/src/widget/text_input.rs:305-308 | A node converted from an input has no view, so no notification is ever routed to it |
| TextInputWidget.EditScenario | ios/src/widget/text_input.rs:261-265 | On its own view, "hello" appends exactly `on_change("hello")` and stores "hello" |
| TextInputWidget.SubmitScenario | ios/src/widget/text_input.rs:257-260 | On its own view, "hello\n" with a pending submit message appends exactly that message, keeps the value and clears on_submit |

## Left out

- `draw` on the row (native/src/widget/row.rs:73-80) and the row's `Renderer` trait: pure delegation to a renderer that is not part of this model.
- `From<Row>` and `From<TextInput>` for `Element`: they only wrap the widget in a type-erased handle.
- The flex solver, the geometry inside `Layout`, and the conversion of `spacing` to a float: the margin is kept as `Points(spacing)`.
- `Style::default()` and the style builder methods are not part of this model. `DefaultStyle` gives a value to every field, but `RowStyle` overwrites all of them except the trailing margin, so only its `Undefined` margin reaches a contract.
- The real hash function: the model is the sequence of values written to the hasher, one token per `hash` call, and not the bytes or the `u64` they produce.
- Child widgets are abstract. Their node, hash stream and event reaction are parameters. A child's `on_event` is modelled as returning the messages it pushes, so the "messages are only appended" property relies on children only appending.
- Nested dispatch below a row's direct children is left out, because the children are abstract.
- `iced_core::Row` (the row's builder) is not part of this model. `RowWidget.Row` has the same fields as `Column`.
- In `update_or_add`, the native calls are recorded as a trace rather than performed: view allocation, `EventHandler::new`, the notification-center observer and `addSubview`. The frame rectangle (origin 10,10, size 100×100) is reduced to whether the view is created with a frame. The allocated view identity and handler widget id are parameters.
- In `on_widget_event`, the read of the view's text and its UTF-8 decoding are left out. The decoded text is a parameter, so the fatal path on invalid bytes is not modelled.
- `TextInput::style`, the style sheet, the `_state` reference and the empty `State` type: theming and placeholder state with no behaviour.
- `Widget::width` (a field getter) and `Widget::height` (`todo!`) on the text input, debug logging, and the `Debug` impl of `Column`.
- `WidgetType` variants other than the text input are collapsed into one `OtherType`.
- RowWidget.HashLayoutSeesChildCount: the claim that rows with different child counts write children parts of different lengths is proved only when every child writes a stream of the same non-zero length. Without that condition it is false: one child with a five-token stream and five children with one-token streams write parts of equal length.

## Findings

| source | as written | input that shows it | evidently intended | confidence | as-written member | corrected member |
|---|---|---|---|---|---|---|
| native/src/widget/row.rs:91-92 | `spacing` is hashed twice and `padding` never. So rows that differ only in padding share a layout hash, and a cached layout can be reused after the padding changes | two rows with spacing 4, no children, padding 0 and padding 20 | hash `padding` in the second slot, so every layout-affecting field reaches the hash | medium, not executed | RowWidget.PaddingChangeCollides | RowWidget.HashLayoutWithPaddingEqualIff |

The row model keeps the as-written `RowWidget.HashLayout`, because that is what
the code writes. `RowWidget.HashLayoutWithPadding` is the corrected stream.
