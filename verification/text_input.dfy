/**
 `TextInput` on the iOS backend: a field that can be filled with text. This
 module models its builder, its layout hash, the create-or-reuse decision
 against a previous `WidgetNode`, and the handling of a native text-change
 notification. The host view system is abstract: the identities it would
 hand out are parameters, and the text read back from the view is passed in
 already decoded.
 */
module TextInputWidget {
  import opened Primitives
  import opened Hashing
  import opened NativeNode

  datatype TextInput<M> = TextInput(
    placeholder: string,
    value: string,
    isSecure: bool,
    width: Length,
    maxWidth: U32,
    padding: U16,
    size: Option<U16>,
    onChange: string -> M,
    onSubmit: Option<M>,
    widgetId: U64)

  datatype Field =
    | PlaceholderField | ValueField | IsSecureField | WidthField | MaxWidthField
    | PaddingField | SizeField | OnChangeField | OnSubmitField | WidgetIdField

  /** `a` and `b` agree on every field except possibly `f`. */
  ghost predicate AgreeExcept<M>(a: TextInput<M>, b: TextInput<M>, f: Field)
  {
    && (f != PlaceholderField ==> a.placeholder == b.placeholder)
    && (f != ValueField ==> a.value == b.value)
    && (f != IsSecureField ==> a.isSecure == b.isSecure)
    && (f != WidthField ==> a.width == b.width)
    && (f != MaxWidthField ==> a.maxWidth == b.maxWidth)
    && (f != PaddingField ==> a.padding == b.padding)
    && (f != SizeField ==> a.size == b.size)
    && (f != OnChangeField ==> a.onChange == b.onChange)
    && (f != OnSubmitField ==> a.onSubmit == b.onSubmit)
    && (f != WidgetIdField ==> a.widgetId == b.widgetId)
  }

  // ---------------------------------------------------------------------------
  // Builder

  /** `TextInput::new`: a plain, full-width, unpadded input with no submit message and no widget id yet. */
  function New<M>(placeholder: string, value: string, onChange: string -> M): (t: TextInput<M>)
    ensures t.placeholder == placeholder && t.value == value && t.onChange == onChange
    ensures !t.isSecure
    ensures t.width == Fill && t.maxWidth == U32_MAX && t.padding == 0
    ensures t.size == None && t.onSubmit == None
    ensures t.widgetId == 0
  {
    TextInput(placeholder, value, false, Fill, U32_MAX, 0, None, onChange, None, 0)
  }

  /** Turns the input into a secure password input. */
  function Password<M>(t: TextInput<M>): (r: TextInput<M>)
    ensures r.isSecure && AgreeExcept(t, r, IsSecureField)
  {
    t.(isSecure := true)
  }

  function Width<M>(t: TextInput<M>, width: Length): (r: TextInput<M>)
    ensures r.width == width && AgreeExcept(t, r, WidthField)
  {
    t.(width := width)
  }

  function MaxWidth<M>(t: TextInput<M>, maxWidth: U32): (r: TextInput<M>)
    ensures r.maxWidth == maxWidth && AgreeExcept(t, r, MaxWidthField)
  {
    t.(maxWidth := maxWidth)
  }

  function Padding<M>(t: TextInput<M>, units: U16): (r: TextInput<M>)
    ensures r.padding == units && AgreeExcept(t, r, PaddingField)
  {
    t.(padding := units)
  }

  /** Sets the text size. */
  function Size<M>(t: TextInput<M>, size: U16): (r: TextInput<M>)
    ensures r.size == Some(size) && AgreeExcept(t, r, SizeField)
  {
    t.(size := Some(size))
  }

  /** Sets the message produced when the user presses enter. */
  function OnSubmit<M>(t: TextInput<M>, message: M): (r: TextInput<M>)
    ensures r.onSubmit == Some(message) && AgreeExcept(t, r, OnSubmitField)
  {
    t.(onSubmit := Some(message))
  }

  // ---------------------------------------------------------------------------
  // Layout hash

  /** The type identity written first: a marker type local to the text input. */
  const TextInputMarker: string := "TextInput::hash_layout::Marker"

  /** `Widget::hash_layout`: a marker, then width, max width, padding and size; no content. */
  function HashLayout<M>(t: TextInput<M>): (tokens: seq<Token>)
    ensures |tokens| == 5 && tokens[0] == MarkerToken(TextInputMarker)
    ensures tokens[1..] == [LengthToken(t.width), U32Token(t.maxWidth), U16Token(t.padding), OptionalU16Token(t.size)]
  {
    [MarkerToken(TextInputMarker), LengthToken(t.width), U32Token(t.maxWidth), U16Token(t.padding), OptionalU16Token(t.size)]
  }

  /** The fields that `HashLayout` writes. */
  ghost predicate SameLayoutFields<M>(a: TextInput<M>, b: TextInput<M>)
  {
    a.width == b.width && a.maxWidth == b.maxWidth && a.padding == b.padding && a.size == b.size
  }

  /**
   Two inputs hash alike exactly when they agree on width, max width, padding
   and size: value, placeholder, the secure flag, the messages and the widget
   id never reach the hash.
   */
  lemma HashLayoutEqualIff<M>(a: TextInput<M>, b: TextInput<M>)
    ensures HashLayout(a) == HashLayout(b) <==> SameLayoutFields(a, b)
  {
  }

  // ---------------------------------------------------------------------------
  // Reconciliation against the previous frame

  /** `get_widget_type`. */
  function WidgetTypeOf<M>(t: TextInput<M>): (w: WidgetType)
    ensures w == TextInputType
  {
    TextInputType
  }

  /** The input after `update_or_add`, the node it returns and the native calls it made. */
  datatype Materialized<M> = Materialized(input: TextInput<M>, node: WidgetNode, calls: seq<NativeCall>)

  /**
   `update_or_add`. A previous node is returned as it is, with no native call.
   Otherwise a text view `freshView` is allocated (with a frame when there is a
   parent), an event handler with widget id `handlerId` is registered for it
   and subscribed to its change notifications, the view is added to the
   parent if there is one, and the input remembers the handler's widget id.
   */
  function UpdateOrAdd<M>(
    t: TextInput<M>, parent: Option<ViewId>, oldNode: Option<WidgetNode>,
    freshView: ViewId, handlerId: U64): (m: Materialized<M>)
    ensures oldNode.Some? ==> m.node == oldNode.value && m.input == t && m.calls == []
    ensures oldNode.None? ==> m.node == WidgetNode(Some(freshView), WidgetTypeOf(t))
    ensures oldNode.None? ==> m.input.widgetId == handlerId && AgreeExcept(t, m.input, WidgetIdField)
    ensures oldNode.None? ==> Allocations(m.calls) == 1 && m.calls[0] == AllocTextView(freshView, parent.Some?)
    ensures oldNode.None? ==> RegisterHandler(freshView, handlerId) in m.calls && ObserveTextChanges(freshView) in m.calls
    ensures oldNode.None? ==>
      && |m.calls| == (if parent.Some? then 4 else 3)
      && m.calls[1] == RegisterHandler(freshView, handlerId)
      && m.calls[2] == ObserveTextChanges(freshView)
    ensures forall p: ViewId :: AddSubview(p, freshView) in m.calls <==> oldNode.None? && parent == Some(p)
  {
    match oldNode
    case Some(node) => Materialized(t, node, [])
    case None =>
      var created := [AllocTextView(freshView, parent.Some?), RegisterHandler(freshView, handlerId), ObserveTextChanges(freshView)];
      var attached := if parent.Some? then [AddSubview(parent.value, freshView)] else [];
      assert Allocations(created) == 1 by {
        assert created[..1][..0] == [];
        assert Allocations(created[..1]) == 1;
        assert created[..2][..1] == created[..1];
        assert Allocations(created[..2]) == 1;
        assert created[..3] == created;
      }
      AllocationsAppend(created, attached);
      assert Allocations(attached) == 0;
      Materialized(t.(widgetId := handlerId), WidgetNode(Some(freshView), WidgetTypeOf(t)), created + attached)
  }

  /**
   Materialising a fresh position and passing the node back on the next frame
   returns the same node, with the same view, and allocates nothing more.
   */
  lemma ReuseRoundTrip<M>(
    t: TextInput<M>, next: TextInput<M>, parent: Option<ViewId>, nextParent: Option<ViewId>,
    freshView: ViewId, handlerId: U64, otherView: ViewId, otherId: U64)
    ensures var first := UpdateOrAdd(t, parent, None, freshView, handlerId);
            var second := UpdateOrAdd(next, nextParent, Some(first.node), otherView, otherId);
            && first.node.viewId == Some(freshView)
            && second.node == first.node
            && Allocations(first.calls) + Allocations(second.calls) == 1
  {
  }

  /** `From<TextInput> for WidgetNode`: a text-input node with no native view yet. */
  function ToWidgetNode<M>(t: TextInput<M>): (n: WidgetNode)
    ensures n.viewId == None && n.widgetType == TextInputType
  {
    WidgetNode(None, TextInputType)
  }

  // ---------------------------------------------------------------------------
  // Native change notifications

  predicate EndsWith(s: string, suffix: string)
  {
    |suffix| <= |s| && s[|s| - |suffix|..] == suffix
  }

  /** The input after a notification and the message list it leaves behind. */
  datatype EventOutcome<M> = EventOutcome(input: TextInput<M>, messages: seq<M>)

  /**
   `on_widget_event`. A notification from another view is ignored. For this
   node's view, the current `text` is either a submission, when it ends with a
   newline: the pending submit message, if any, is taken and pushed and the
   value is kept; or an edit: the value becomes `text` and the change message
   for it is pushed.
   */
  function OnWidgetEvent<M>(
    t: TextInput<M>, event: WidgetEvent, text: string, messages: seq<M>, node: WidgetNode): (o: EventOutcome<M>)
    ensures node.viewId != Some(event.id) ==> o.input == t && o.messages == messages
    ensures node.viewId == Some(event.id) && EndsWith(text, "\n") ==>
      && o.input.value == t.value
      && o.input.onSubmit == None
      && AgreeExcept(t, o.input, OnSubmitField)
      && o.messages == messages + (if t.onSubmit.Some? then [t.onSubmit.value] else [])
    ensures node.viewId == Some(event.id) && !EndsWith(text, "\n") ==>
      && o.input.value == text
      && AgreeExcept(t, o.input, ValueField)
      && o.messages == messages + [t.onChange(text)]
  {
    if node.viewId == Some(event.id) then
      if EndsWith(text, "\n") then
        match t.onSubmit
        case Some(message) => EventOutcome(t.(onSubmit := None), messages + [message])
        case None => EventOutcome(t, messages)
      else
        var edited := t.(value := text);
        EventOutcome(edited, messages + [edited.onChange(edited.value)])
    else
      EventOutcome(t, messages)
  }

  /** A notification keeps earlier messages and adds at most one. */
  lemma OnWidgetEventAppendsAtMostOne<M>(
    t: TextInput<M>, event: WidgetEvent, text: string, messages: seq<M>, node: WidgetNode)
    ensures var o := OnWidgetEvent(t, event, text, messages, node);
            |messages| <= |o.messages| <= |messages| + 1 && o.messages[..|messages|] == messages
  {
  }

  /** A pending submit message is delivered once: a second submission pushes nothing. */
  lemma SubmitIsConsumed<M>(
    t: TextInput<M>, event: WidgetEvent, text: string, text2: string, messages: seq<M>, node: WidgetNode)
    requires node.viewId == Some(event.id)
    requires EndsWith(text, "\n") && EndsWith(text2, "\n")
    ensures var first := OnWidgetEvent(t, event, text, messages, node);
            var second := OnWidgetEvent(first.input, event, text2, first.messages, node);
            && second.messages == first.messages
            && |second.messages| == |messages| + (if t.onSubmit.Some? then 1 else 0)
  {
  }

  /** Notifications change content only: the layout hash of the input stays the same. */
  lemma OnWidgetEventKeepsLayoutHash<M>(
    t: TextInput<M>, event: WidgetEvent, text: string, messages: seq<M>, node: WidgetNode)
    ensures HashLayout(OnWidgetEvent(t, event, text, messages, node).input) == HashLayout(t)
  {
  }

  /** A node built by `From<TextInput>` has no view, so no notification is ever routed to it. */
  lemma DetachedNodeIgnoresEvents<M>(t: TextInput<M>, event: WidgetEvent, text: string, messages: seq<M>)
    ensures OnWidgetEvent(t, event, text, messages, ToWidgetNode(t)) == EventOutcome(t, messages)
  {
  }

  /** Typing "hello" pushes exactly the change message for "hello" and stores it. */
  lemma EditScenario<M>(t: TextInput<M>, view: ViewId, widgetId: U64)
    ensures var o := OnWidgetEvent(t, WidgetEvent(view, widgetId), "hello", [], WidgetNode(Some(view), TextInputType));
            o.messages == [t.onChange("hello")] && o.input.value == "hello"
  {
  }

  /** Entering "hello\n" pushes only the pending submit message and keeps the stored value. */
  lemma SubmitScenario<M>(t: TextInput<M>, view: ViewId, widgetId: U64, submit: M)
    requires t.onSubmit == Some(submit)
    ensures var o := OnWidgetEvent(t, WidgetEvent(view, widgetId), "hello\n", [], WidgetNode(Some(view), TextInputType));
            o.messages == [submit] && o.input.value == t.value && o.input.onSubmit == None
  {
  }
}
