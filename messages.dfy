/**
 * The bus wire shape `{event: string, data: any}`: the check applied to every
 * inbound bus message (`MessageSchema.safeParse`) and the message object that
 * `publish` builds.
 */
module Messages {
  import opened Wrappers
  import opened Values

  /** A message that passed the shape check. */
  datatype Message = Message(event: string, data: Value)

  /**
   * `MessageSchema.safeParse(raw)`.  The object schema rejects anything that
   * is not a plain object (so `null` and arrays too) and any object whose
   * `event` property is not a string; `data` accepts any value, a missing one
   * reading as `undefined`; every other property is stripped.
   */
  function ParseMessage(raw: Value): (r: Option<Message>)
    ensures r.None? <==> Malformed(raw)
    ensures r.Some? ==> raw.Obj? && Property(raw.fields, "event") == Str(r.value.event)
    ensures r.Some? ==> Property(raw.fields, "data") == r.value.data
  {
    if raw.Obj? && "event" in raw.fields && raw.fields["event"].Str? then
      Some(Message(raw.fields["event"].s, Property(raw.fields, "data")))
    else
      None
  }

  /** The object literal `{ event, data }` that `publish` hands to the publisher. */
  function EncodeMessage(m: Message): (v: Value)
    ensures v.Obj? && v.fields.Keys == {"event", "data"}
    ensures ParseMessage(v) == Some(m)
  {
    Obj(map["event" := Str(m.event), "data" := m.data])
  }

  /** A raw value the shape check rejects: not an object, or `event` missing or not a string. */
  predicate Malformed(raw: Value)
  {
    !raw.Obj? || !Property(raw.fields, "event").Str?
  }

  /**
   * Whatever the check accepts re-encodes to the same `event` and `data` the
   * raw object carried: the check only strips other properties.
   */
  lemma EncodeParse(raw: Value, m: Message)
    requires ParseMessage(raw) == Some(m)
    ensures raw.Obj? && EncodeMessage(m).Obj?
    ensures Property(EncodeMessage(m).fields, "event") == Property(raw.fields, "event")
    ensures Property(EncodeMessage(m).fields, "data") == Property(raw.fields, "data")
  {
  }
}
