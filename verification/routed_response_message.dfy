/** `RoutedResponseMessage`: one message attached to a response, and its two
    constructors. */
module Messages {
  import opened Wrappers
  import opened Runtime

  /** `RoutedResponseMessageType`. */
  datatype MessageKind = Info | Warn | Error

  /** The value an unassigned `Type` property holds: the enumeration's zero
      member, taken to be its first declared member. */
  const DefaultKind: MessageKind := Info

  /** A message. `text` is the source's `Message` property, `kind` its `Type`,
      `other` its untyped `Other` attachment. */
  datatype Message = Message(
    header: Option<string>,
    text: Option<string>,
    isError: bool,
    requestKey: Option<string>,
    other: Option<Payload>,
    kind: MessageKind)

  /** The parameterless constructor: every property keeps its default. */
  function NewMessage(): (m: Message)
    ensures !m.isError && m.kind == DefaultKind
    ensures m.header.None? && m.text.None? && m.requestKey.None? && m.other.None?
  {
    Message(None, None, false, None, None, DefaultKind)
  }

  /** The convenience constructor: each argument that is not null is stored in
      its property; a null argument leaves the property at its default.
      `Other` is never set. */
  function MessageWith(
    requestKey: Option<string>,
    isError: Option<bool>,
    kind: Option<MessageKind>,
    header: Option<string>,
    text: Option<string>): (m: Message)
    ensures requestKey.Some? ==> m.requestKey == requestKey
    ensures isError.Some? ==> m.isError == isError.value
    ensures kind.Some? ==> m.kind == kind.value
    ensures header.Some? ==> m.header == header
    ensures text.Some? ==> m.text == text
    ensures requestKey.None? ==> m.requestKey == NewMessage().requestKey
    ensures isError.None? ==> m.isError == NewMessage().isError
    ensures kind.None? ==> m.kind == NewMessage().kind
    ensures header.None? ==> m.header == NewMessage().header
    ensures text.None? ==> m.text == NewMessage().text
    ensures m.other == NewMessage().other
  {
    var m0 := NewMessage();
    var m1 := if requestKey.Some? then m0.(requestKey := requestKey) else m0;
    var m2 := if isError.Some? then m1.(isError := isError.value) else m1;
    var m3 := if kind.Some? then m2.(kind := kind.value) else m2;
    var m4 := if header.Some? then m3.(header := header) else m3;
    if text.Some? then m4.(text := text) else m4
  }

  /** With every argument null the convenience constructor is the parameterless one. */
  lemma AllNullIsDefault()
    ensures MessageWith(None, None, None, None, None) == NewMessage()
  {
  }

  /** Every message without an attachment is built by the convenience
      constructor from its own properties. */
  lemma MessageWithRoundTrip(m: Message)
    requires m.other.None?
    ensures MessageWith(m.requestKey, Some(m.isError), Some(m.kind), m.header, m.text) == m
  {
  }
}
