/**
 The native-host side of the iOS backend, abstracted: a native view is only an
 opaque identity, a `WidgetNode` records which view (if any) materialises a
 tree position, and the calls made into the host view system are recorded as
 a trace instead of being performed.
 */
module NativeNode {
  import opened Primitives

  /** Opaque identity of a native view: the object pointer, as a number. */
  type ViewId = nat

  /** The widget-type tag of a node; variants other than the text input are not part of this model. */
  datatype WidgetType = TextInputType | OtherType

  /** Persistent per-position state: the native view, if one was created, and the widget type. */
  datatype WidgetNode = WidgetNode(viewId: Option<ViewId>, widgetType: WidgetType)

  /** A native change notification: the identity of the view that fired and the handler's widget id. */
  datatype WidgetEvent = WidgetEvent(id: ViewId, widgetId: U64)

  /** A call into the host view system. */
  datatype NativeCall =
    /** Allocates a text view; `framed` when it is created with an explicit frame. */
    | AllocTextView(view: ViewId, framed: bool)
    /** Creates the event handler that routes callbacks of `view` to `widgetId`. */
    | RegisterHandler(view: ViewId, widgetId: U64)
    /** Subscribes the handler to the text-did-change notification of `view`. */
    | ObserveTextChanges(view: ViewId)
    | AddSubview(parent: ViewId, view: ViewId)

  /** The number of native views a trace allocates. */
  function Allocations(calls: seq<NativeCall>): nat
  {
    if |calls| == 0 then 0
    else Allocations(calls[..|calls| - 1]) + (if calls[|calls| - 1].AllocTextView? then 1 else 0)
  }

  /** Allocations of concatenated traces add up. */
  lemma {:induction false} AllocationsAppend(a: seq<NativeCall>, b: seq<NativeCall>)
    ensures Allocations(a + b) == Allocations(a) + Allocations(b)
    decreases |b|
  {
    if |b| == 0 {
      assert a + b == a;
    } else {
      assert (a + b)[..|a + b| - 1] == a + b[..|b| - 1];
      AllocationsAppend(a, b[..|b| - 1]);
    }
  }
}
